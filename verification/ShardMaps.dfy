/** Explicit hash ranges: who owns a hash, and when a list of ranges is a partition (src/ring.rs). */
module ShardMaps {
  import opened Sorting
  import opened HashRings

  datatype Range = Range(start: Hash, end: Hash, url: string)

  predicate Owns(shard: Range, hash: Hash) {
    if shard.start == shard.end then true
    else if shard.start < shard.end then shard.start <= hash < shard.end
    else hash >= shard.start || hash < shard.end
  }

  /** Going clockwise from its start the hash comes before its end; from a start that is its end, every hash
      does. */
  predicate Reaches(shard: Range, hash: Hash) {
    shard.start == shard.end || Clockwise(shard.start, hash) < Clockwise(shard.start, shard.end)
  }

  lemma OwnsWhatItReaches(shard: Range, hash: Hash)
    ensures Owns(shard, hash) <==> Reaches(shard, hash)
  {
  }

  /** Exactly one of the shards reaches the hash. */
  ghost predicate OneReaches(shards: seq<Range>, h: Hash) {
    exists i :: OnlyReaches(shards, h, i)
  }

  ghost predicate OnlyReaches(shards: seq<Range>, h: Hash, i: int) {
    0 <= i < |shards| && Reaches(shards[i], h) && forall j :: 0 <= j < |shards| && Reaches(shards[j], h) ==> j == i
  }

  ghost predicate NoneReaches(shards: seq<Range>, h: Hash) {
    forall i :: 0 <= i < |shards| ==> !Reaches(shards[i], h)
  }

  ghost predicate SomeReaches(shards: seq<Range>, url: string, h: Hash) {
    exists i :: 0 <= i < |shards| && shards[i].url == url && Reaches(shards[i], h)
  }

  /** Half-open and unwrapped. */
  datatype Segment = Segment(lo: int, hi: int, url: string)

  function Segments(shard: Range): seq<Segment> {
    if shard.start == shard.end then [Segment(0, RING, shard.url)]
    else if shard.start < shard.end then [Segment(shard.start, shard.end, shard.url)]
    else [Segment(shard.start, RING, shard.url), Segment(0, shard.end, shard.url)]
  }

  function Real(s: Segment): bool {
    s.lo < s.hi
  }

  function AllSegments(shards: seq<Range>): seq<Segment> {
    if shards == [] then []
    else AllSegments(shards[..|shards| - 1]) + Filter(Real, Segments(shards[|shards| - 1]))
  }

  function ByLo(): (Segment, Segment) -> bool {
    (a: Segment, b: Segment) => a.lo <= b.lo
  }

  datatype Refusal =
    | NoShards
    | WholeRingNotAlone(url: string)
    | Overlap(url: string, previous: string)
    | Uncovered(from: int, to: int)

  datatype Verdict = Valid | Invalid(why: Refusal)

  // ----- how many segments, or shards, hold a hash

  function Covers(segments: seq<Segment>, h: int): nat {
    if segments == [] then 0
    else (if segments[0].lo <= h < segments[0].hi then 1 else 0) + Covers(segments[1..], h)
  }

  function Owners(shards: seq<Range>, h: Hash): nat {
    if shards == [] then 0
    else Owners(shards[..|shards| - 1], h) + if Owns(shards[|shards| - 1], h) then 1 else 0
  }

  ghost predicate OnlyOwner(shards: seq<Range>, h: Hash, i: int) {
    0 <= i < |shards| && Owns(shards[i], h) && forall j :: 0 <= j < |shards| && Owns(shards[j], h) ==> j == i
  }

  ghost predicate ExactlyOneOwner(shards: seq<Range>, h: Hash) {
    exists i :: OnlyOwner(shards, h, i)
  }

  lemma {:induction false} CoversAppends(a: seq<Segment>, b: seq<Segment>, h: int)
    ensures Covers(a + b, h) == Covers(a, h) + Covers(b, h)
  {
    if a == [] {
      assert a + b == b;
    } else {
      assert (a + b)[1..] == a[1..] + b;
      CoversAppends(a[1..], b, h);
    }
  }

  lemma OneSegment(s: Segment, h: int)
    ensures Covers(Filter(Real, [s]), h) == if s.lo <= h < s.hi then 1 else 0
  {
    assert [s][1..] == [];
  }

  /** Unwrapping a range into segments changes which hashes it holds not at all. */
  lemma SegmentsHoldWhatTheyOwn(shard: Range, h: Hash)
    ensures Covers(Filter(Real, Segments(shard)), h) == if Owns(shard, h) then 1 else 0
    ensures Owns(shard, h) <==> Reaches(shard, h)
  {
    var s := Segments(shard);
    if |s| == 2 {
      OneSegment(s[1], h);
      FilterAppends(Real, [s[0]], [s[1]]);
      CoversAppends(Filter(Real, [s[0]]), Filter(Real, [s[1]]), h);
      assert s == [s[0]] + [s[1]];
    }
    OneSegment(s[0], h);
    assert |s| == 1 ==> s == [s[0]];
  }

  lemma {:induction false} CoversAreOwners(shards: seq<Range>, h: Hash)
    ensures Covers(AllSegments(shards), h) == Owners(shards, h)
  {
    if shards != [] {
      var n := |shards| - 1;
      CoversAreOwners(shards[..n], h);
      SegmentsHoldWhatTheyOwn(shards[n], h);
      CoversAppends(AllSegments(shards[..n]), Filter(Real, Segments(shards[n])), h);
    }
  }

  lemma {:induction false} NoOwners(shards: seq<Range>, h: Hash)
    ensures Owners(shards, h) == 0 <==> forall i :: 0 <= i < |shards| ==> !Owns(shards[i], h)
  {
    if shards != [] { NoOwners(shards[..|shards| - 1], h); }
  }

  lemma {:induction false} FindOwner(shards: seq<Range>, h: Hash) returns (i: nat)
    requires Owners(shards, h) == 1
    ensures OnlyOwner(shards, h, i)
  {
    hide Owns;
    var n := |shards| - 1;
    if Owns(shards[n], h) {
      NoOwners(shards[..n], h);
      assert forall j :: 0 <= j < n ==> shards[..n][j] == shards[j];
      i := n;
    } else {
      i := FindOwner(shards[..n], h);
      assert forall j :: 0 <= j < n ==> shards[..n][j] == shards[j];
    }
  }

  lemma {:induction false} CountOwner(shards: seq<Range>, h: Hash, i: nat)
    requires OnlyOwner(shards, h, i)
    ensures Owners(shards, h) == 1
  {
    hide Owns;
    var n := |shards| - 1;
    if i == n {
      NoOwners(shards[..n], h);
    } else {
      CountOwner(shards[..n], h, i);
    }
  }

  lemma OneOwner(shards: seq<Range>, h: Hash)
    ensures Owners(shards, h) == 1 <==> ExactlyOneOwner(shards, h)
  {
    if Owners(shards, h) == 1 {
      var i := FindOwner(shards, h);
    }
    if i :| OnlyOwner(shards, h, i) {
      CountOwner(shards, h, i);
    }
  }

  lemma {:induction false} InsertKeepsCover(s: Segment, segments: seq<Segment>, h: int)
    ensures Covers(Insert(ByLo(), s, segments), h) == (if s.lo <= h < s.hi then 1 else 0) + Covers(segments, h)
  {
    if segments != [] && !ByLo()(s, segments[0]) { InsertKeepsCover(s, segments[1..], h); }
  }

  lemma {:induction false} SortKeepsCover(segments: seq<Segment>, h: int)
    ensures Covers(Sort(ByLo(), segments), h) == Covers(segments, h)
  {
    if segments != [] {
      SortKeepsCover(segments[1..], h);
      InsertKeepsCover(segments[0], Sort(ByLo(), segments[1..]), h);
    }
  }

  // ----- a chain of segments

  /** Each segment starts where the one before it ends, from `from` up to `to`. */
  ghost predicate Chain(segments: seq<Segment>, from: int, to: int) {
    if segments == [] then from == to
    else segments[0].lo == from && from < segments[0].hi && Chain(segments[1..], segments[0].hi, to)
  }

  lemma {:induction false} ChainCoversOnce(segments: seq<Segment>, from: int, to: int, h: int)
    requires Chain(segments, from, to)
    ensures from <= to && Covers(segments, h) == if from <= h < to then 1 else 0
  {
    if segments != [] { ChainCoversOnce(segments[1..], segments[0].hi, to, h); }
  }

  lemma {:induction false} ChainExtends(segments: seq<Segment>, from: int, to: int, s: Segment)
    requires Chain(segments, from, to) && s.lo == to && to < s.hi
    ensures Chain(segments + [s], from, s.hi)
  {
    if segments != [] {
      assert (segments + [s])[1..] == segments[1..] + [s];
      ChainExtends(segments[1..], segments[0].hi, to, s);
    } else {
      assert [s][1..] == [];
    }
  }

  lemma {:induction false} StartsLater(segments: seq<Segment>, h: int)
    requires forall i :: 0 <= i < |segments| ==> segments[i].lo > h
    ensures Covers(segments, h) == 0
  {
    if segments != [] { StartsLater(segments[1..], h); }
  }

  ghost predicate CoveredOnce(segments: seq<Segment>) {
    forall h: Hash :: Covers(segments, h) == 1
  }

  ghost predicate InOrder(segments: seq<Segment>) {
    && Sorted(ByLo(), segments)
    && forall i :: 0 <= i < |segments| ==> 0 <= segments[i].lo < segments[i].hi <= RING
  }

  /** A segment that does not start where the chain stops leaves a hash held twice or not at all. */
  lemma BrokenChain(segments: seq<Segment>, i: nat, cursor: int)
    requires InOrder(segments) && i < |segments| && Chain(segments[..i], 0, cursor) && cursor <= RING
    requires segments[i].lo != cursor
    ensures !CoveredOnce(segments)
  {
    var s := segments[i];
    ChainCoversOnce(segments[..i], 0, cursor, 0);
    assert segments == segments[..i] + ([s] + segments[i + 1..]);
    if s.lo < cursor {
      var h: Hash := s.lo;
      ChainCoversOnce(segments[..i], 0, cursor, h);
      CoversAppends(segments[..i], [s] + segments[i + 1..], h);
      assert ([s] + segments[i + 1..])[1..] == segments[i + 1..];
      assert Covers(segments, h) >= 2;
    } else {
      var h: Hash := cursor;
      ChainCoversOnce(segments[..i], 0, cursor, h);
      forall j | 0 <= j < |segments[i..]|
        ensures segments[i..][j].lo > h
      {
        assert j > 0 ==> ByLo()(segments[i], segments[i + j]);
      }
      StartsLater(segments[i..], h);
      assert segments == segments[..i] + segments[i..];
      CoversAppends(segments[..i], segments[i..], h);
      assert Covers(segments, h) == 0;
    }
  }

  lemma EndOfChain(segments: seq<Segment>, cursor: int)
    requires Chain(segments, 0, cursor) && cursor <= RING
    ensures cursor == RING <==> CoveredOnce(segments)
  {
    forall h: Hash
      ensures Covers(segments, h) == if h < cursor then 1 else 0
    {
      ChainCoversOnce(segments, 0, cursor, h);
    }
    ChainCoversOnce(segments, 0, cursor, 0);
    if cursor < RING {
      var h: Hash := cursor;
      assert Covers(segments, h) == 0;
    }
  }

  lemma {:induction false} SegmentsAreReal(shards: seq<Range>)
    ensures forall s :: s in AllSegments(shards) ==> 0 <= s.lo < s.hi <= RING
  {
    if shards != [] {
      var last := shards[|shards| - 1];
      SegmentsAreReal(shards[..|shards| - 1]);
      FilterKeepsReal(Segments(last));
    }
  }

  lemma {:induction false} FilterKeepsReal(s: seq<Segment>)
    ensures forall x :: x in Filter(Real, s) ==> x in s && Real(x)
  {
    if s != [] { FilterKeepsReal(s[1..]); }
  }

  /** The sorted segments are in order, and cover every hash once exactly when every hash has one owner. */
  lemma {:induction false} SortedSegments(shards: seq<Range>)
    ensures var sorted := Sort(ByLo(), AllSegments(shards));
      InOrder(sorted) && (CoveredOnce(sorted) <==> forall h: Hash :: ExactlyOneOwner(shards, h))
  {
    var all := AllSegments(shards);
    SegmentsAreReal(shards);
    SortIsSorted(ByLo(), all);
    SortPermutes(ByLo(), all);
    var sorted := Sort(ByLo(), all);
    forall i | 0 <= i < |sorted|
      ensures 0 <= sorted[i].lo < sorted[i].hi <= RING
    {
      assert sorted[i] in all;
    }
    forall h: Hash
      ensures Covers(sorted, h) == 1 <==> ExactlyOneOwner(shards, h)
    {
      SortKeepsCover(all, h);
      CoversAreOwners(shards, h);
      OneOwner(shards, h);
    }
  }

  /** A whole-ring range beside any other range leaves some hash with two owners. */
  lemma WholeRingOverlaps(shards: seq<Range>, f: nat)
    requires f < |shards| && |shards| > 1 && shards[f].start == shards[f].end
    ensures exists h: Hash :: !ExactlyOneOwner(shards, h)
  {
    var g := if f == 0 then 1 else 0;
    var h: Hash := shards[g].start;
    assert Owns(shards[f], h) && Owns(shards[g], h);
    assert !ExactlyOneOwner(shards, h);
  }

  /** The segments before `i` form a chain from zero to the cursor. */
  ghost predicate Walked(segments: seq<Segment>, i: nat, cursor: int) {
    InOrder(segments) && i <= |segments| && Chain(segments[..i], 0, cursor) && 0 <= cursor <= RING
  }

  lemma Walk(segments: seq<Segment>, i: nat, cursor: int)
    requires Walked(segments, i, cursor) && i < |segments| && segments[i].lo == cursor
    ensures Walked(segments, i + 1, segments[i].hi) && segments[i].hi >= 0
  {
    ChainExtends(segments[..i], 0, cursor, segments[i]);
    assert segments[..i + 1] == segments[..i] + [segments[i]];
  }

  lemma OwnersReach(shards: seq<Range>, h: Hash)
    ensures ExactlyOneOwner(shards, h) <==> OneReaches(shards, h)
    ensures Owners(shards, h) == 0 <==> NoneReaches(shards, h)
  {
    hide Owns, Reaches, Owners;
    NoOwners(shards, h);
    forall i | 0 <= i < |shards|
      ensures Owns(shards[i], h) <==> Reaches(shards[i], h)
    {
      OwnsWhatItReaches(shards[i], h);
    }
    if i :| OnlyOwner(shards, h, i) { assert OnlyReaches(shards, h, i); }
    if i :| OnlyReaches(shards, h, i) { assert OnlyOwner(shards, h, i); }
  }

  lemma AllOwnersReach(shards: seq<Range>)
    ensures (forall h: Hash :: ExactlyOneOwner(shards, h)) <==> forall h: Hash :: OneReaches(shards, h)
  {
    hide ExactlyOneOwner, OneReaches;
    forall h: Hash
      ensures ExactlyOneOwner(shards, h) <==> OneReaches(shards, h)
    {
      OwnersReach(shards, h);
    }
  }

  lemma {:induction false} SegmentOfShard(shards: seq<Range>, s: Segment, h: Hash)
    requires s in AllSegments(shards) && s.lo <= h < s.hi
    ensures SomeReaches(shards, s.url, h)
  {
    var n := |shards| - 1;
    FilterKeepsReal(Segments(shards[n]));
    if s in AllSegments(shards[..n]) {
      SegmentOfShard(shards[..n], s, h);
      var i :| 0 <= i < n && shards[..n][i].url == s.url && Reaches(shards[..n][i], h);
      assert shards[i] == shards[..n][i];
    } else {
      assert s in Segments(shards[n]);
      OwnsWhatItReaches(shards[n], h);
    }
  }

  /** What a refusal says is so: nobody reaches the range it names, or both shards it names reach one hash. */
  ghost predicate Justified(shards: seq<Range>, why: Refusal) {
    match why
    case NoShards => shards == []
    case WholeRingNotAlone(url) =>
      |shards| > 1 && exists i :: 0 <= i < |shards| && shards[i].url == url && shards[i].start == shards[i].end
    case Overlap(url, previous) =>
      exists h: Hash :: SomeReaches(shards, url, h) && SomeReaches(shards, previous, h) && !OneReaches(shards, h)
    case Uncovered(from, to) =>
      0 <= from < to <= RING && forall h: Hash :: from <= h < to ==> NoneReaches(shards, h)
  }

  lemma UncoveredIsJust(shards: seq<Range>, sorted: seq<Segment>, i: nat, cursor: int, to: int)
    requires sorted == Sort(ByLo(), AllSegments(shards)) && Walked(sorted, i, cursor)
    requires if i < |sorted| then cursor < to == sorted[i].lo else i == |sorted| && cursor < to == RING
    ensures Justified(shards, Uncovered(cursor, to))
  {
    hide AllSegments, Sort, NoneReaches, Reaches;
    forall h: Hash | cursor <= h < to
      ensures NoneReaches(shards, h)
    {
      ChainCoversOnce(sorted[..i], 0, cursor, h);
      forall j | 0 <= j < |sorted[i..]|
        ensures sorted[i..][j].lo > h
      {
        assert j > 0 ==> ByLo()(sorted[i], sorted[i + j]);
      }
      StartsLater(sorted[i..], h);
      assert sorted == sorted[..i] + sorted[i..];
      CoversAppends(sorted[..i], sorted[i..], h);
      SortKeepsCover(AllSegments(shards), h);
      CoversAreOwners(shards, h);
      OwnersReach(shards, h);
    }
  }

  lemma OverlapIsJust(shards: seq<Range>, sorted: seq<Segment>, i: nat, cursor: int)
    requires sorted == Sort(ByLo(), AllSegments(shards)) && Walked(sorted, i, cursor)
    requires 0 < i < |sorted| && sorted[i].lo < cursor == sorted[i - 1].hi
    ensures Justified(shards, Overlap(sorted[i].url, sorted[i - 1].url))
  {
    hide AllSegments, Sort, Reaches, SomeReaches, OneReaches, Chain;
    var h: Hash := sorted[i].lo;
    SortPermutes(ByLo(), AllSegments(shards));
    assert ByLo()(sorted[i - 1], sorted[i]);
    assert sorted[i] in sorted && sorted[i - 1] in sorted;
    SegmentOfShard(shards, sorted[i], h);
    SegmentOfShard(shards, sorted[i - 1], h);
    TwoCover(sorted, i, h);
    SortKeepsCover(AllSegments(shards), h);
    CoversAreOwners(shards, h);
    OneOwner(shards, h);
    OwnersReach(shards, h);
  }

  lemma TwoCover(sorted: seq<Segment>, i: nat, h: int)
    requires 0 < i < |sorted| && sorted[i - 1].lo <= h < sorted[i - 1].hi && sorted[i].lo <= h < sorted[i].hi
    ensures Covers(sorted, h) >= 2
  {
    assert sorted == sorted[..i - 1] + ([sorted[i - 1]] + ([sorted[i]] + sorted[i + 1..]));
    CoversAppends(sorted[..i - 1], [sorted[i - 1]] + ([sorted[i]] + sorted[i + 1..]), h);
    CoversAppends([sorted[i - 1]], [sorted[i]] + sorted[i + 1..], h);
    CoversAppends([sorted[i]], sorted[i + 1..], h);
    assert [sorted[i]][1..] == [] && [sorted[i - 1]][1..] == [];
  }

  /** Accepts a shard list, in any order, if and only if it is non-empty and exactly one shard reaches every
      hash, wrapping and whole-ring ranges included; and a refusal names what is wrong. */
  method ValidateShardRing(shards: seq<Range>) returns (v: Verdict)
    ensures v.Valid? <==> shards != [] && forall h: Hash :: OneReaches(shards, h)
    ensures v.Invalid? ==> Justified(shards, v.why)
  {
    if shards == [] { return Invalid(NoShards); }
    hide Walked, InOrder, CoveredOnce, ExactlyOneOwner, Owns, OneReaches, Reaches, NoneReaches, SomeReaches;
    AllOwnersReach(shards);
    for i := 0 to |shards|
      invariant |shards| > 1 ==> forall j :: 0 <= j < i ==> shards[j].start != shards[j].end
    {
      if shards[i].start == shards[i].end && |shards| > 1 {
        WholeRingOverlaps(shards, i);
        return Invalid(WholeRingNotAlone(shards[i].url));
      }
    }
    var segments := CollectSegments(shards);
    var sorted := Sort(ByLo(), segments);
    SortedSegments(shards);
    assert Walked(sorted, 0, 0) by { NothingWalked(sorted); }
    var cursor, previous := 0, "";
    for i := 0 to |sorted|
      invariant Walked(sorted, i, cursor) && cursor >= 0
      invariant if i == 0 then cursor == 0 else cursor == sorted[i - 1].hi && previous == sorted[i - 1].url
    {
      if sorted[i].lo != cursor { Stuck(sorted, i, cursor); }
      if sorted[i].lo < cursor {
        NeverBelow(sorted, i, cursor);
        OverlapIsJust(shards, sorted, i, cursor);
        return Invalid(Overlap(sorted[i].url, previous));
      }
      if sorted[i].lo > cursor {
        UncoveredIsJust(shards, sorted, i, cursor, sorted[i].lo);
        return Invalid(Uncovered(cursor, sorted[i].lo));
      }
      Walk(sorted, i, cursor);
      cursor, previous := sorted[i].hi, sorted[i].url;
    }
    Arrived(sorted, cursor);
    if cursor != RING {
      UncoveredIsJust(shards, sorted, |sorted|, cursor, RING);
      return Invalid(Uncovered(cursor, RING));
    }
    return Valid;
  }

  lemma NeverBelow(segments: seq<Segment>, i: nat, cursor: int)
    requires Walked(segments, i, cursor) && i < |segments|
    ensures segments[i].lo >= 0
  {
  }

  lemma NothingWalked(segments: seq<Segment>)
    requires InOrder(segments)
    ensures Walked(segments, 0, 0)
  {
  }

  lemma Stuck(segments: seq<Segment>, i: nat, cursor: int)
    requires Walked(segments, i, cursor) && i < |segments| && segments[i].lo != cursor
    ensures !CoveredOnce(segments)
  {
    BrokenChain(segments, i, cursor);
  }

  lemma Arrived(segments: seq<Segment>, cursor: int)
    requires Walked(segments, |segments|, cursor)
    ensures cursor == RING <==> CoveredOnce(segments)
  {
    assert segments[..|segments|] == segments;
    EndOfChain(segments, cursor);
  }

  method CollectSegments(shards: seq<Range>) returns (segments: seq<Segment>)
    ensures segments == AllSegments(shards)
  {
    segments := [];
    for i := 0 to |shards|
      invariant segments == AllSegments(shards[..i])
    {
      assert shards[..i + 1][..i] == shards[..i];
      segments := segments + Filter(Real, Segments(shards[i]));
    }
    assert shards[..|shards|] == shards;
  }
}
