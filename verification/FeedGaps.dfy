/** A batch with a document that cannot be resolved: what is published, the gap noted after it, and what a
    reader can meet in between (src/storage/collection.rs, src/changefeed.rs). */
module FeedGaps {
  import opened JsonValues
  import opened Sorting
  import opened Feeds
  import opened FeedObjects

  function NewestLost(resolved: Event -> bool, changes: seq<Event>): nat {
    if changes == [] then 0
    else
      var n := NewestLost(resolved, changes[..|changes| - 1]);
      var e := changes[|changes| - 1];
      if resolved(e) then n else Max(n, e.lsn)
  }

  /** The feed after one batch of changes, some of which could not be resolved to a document. */
  function ChangesPublished(config: Config, f: Feed, resolved: Event -> bool, changes: seq<Event>, through: nat): Feed {
    var g := Published(config, f, Filter(resolved, changes), through);
    var gap := NewestLost(resolved, changes);
    if gap > 0 then Gapped(g, gap) else g
  }

  /** The next batch starts after `lo`: the feed holds nothing newer and has missed nothing older. */
  ghost predicate Follows(log: seq<Event>, f: Feed, lo: nat) {
    !Missing(log, f.position, lo) && forall e :: e in f.events ==> e.lsn <= lo
  }

  method PublishChanges(feed: Changefeed, resolved: Event -> bool, changes: seq<Event>, through: nat)
    requires feed.Mirrored()
    modifies feed
    ensures feed.Mirrored() && feed.State() ==
      ChangesPublished(feed.config, old(feed.State()), resolved, changes, through)
  {
    var events: seq<Event> := [];
    var gap := 0;
    for i := 0 to |changes|
      invariant feed.State() == old(feed.State()) && feed.Mirrored()
      invariant events == Filter(resolved, changes[..i]) && gap == NewestLost(resolved, changes[..i])
    {
      var change := changes[i];
      assert changes[..i + 1][..i] == changes[..i];
      assert changes[..i + 1] == changes[..i] + [change];
      FilterAppends(resolved, changes[..i], [change]);
      if resolved(change) {
        events := events + [change];
      } else {
        gap := Max(gap, change.lsn);
      }
    }
    assert changes[..|changes|] == changes;
    feed.Publish(events, through);
    if gap > 0 { feed.NoteGap(gap); }
  }

  lemma {:induction false} LostAreUnderGap(resolved: Event -> bool, changes: seq<Event>)
    ensures forall e :: e in changes && !resolved(e) ==> e.lsn <= NewestLost(resolved, changes)
    ensures forall e :: e in Filter(resolved, changes) <==> e in changes && resolved(e)
  {
    if changes != [] {
      var n := |changes| - 1;
      LostAreUnderGap(resolved, changes[..n]);
      assert changes == changes[..n] + [changes[n]];
      FilterAppends(resolved, changes[..n], [changes[n]]);
    }
  }

  /** Noting the gap empties the buffer, so the changes above it that did resolve are lost without the floor
      saying so. The feed stays sound exactly when no resolved change of the batch is newer than the newest
      lost one and still above the floor. */
  lemma LostChangeIsSoundIff(log: seq<Event>, config: Config, f: Feed, resolved: Event -> bool, lo: nat, through: nat)
    requires Ascending(log) && Sound(log, config, f) && !f.closed
    requires Follows(log, f, lo) && lo <= through
    requires NewestLost(resolved, Slice(log, lo, through)) > 0
    ensures var changes := Slice(log, lo, through);
      var floor := FloorAfter(f.floor, f.events + Filter(resolved, changes), config.bufferEvents);
      Sound(log, config, ChangesPublished(config, f, resolved, changes, through)) <==>
      forall e :: e in changes && resolved(e) ==> e.lsn <= Max(floor, NewestLost(resolved, changes))
  {
    hide Published, Slice, NewestLost, FloorAfter;
    ResolvedFloor(log, config, f, resolved, lo, through);
    var changes := Slice(log, lo, through);
    var es, gap := Filter(resolved, changes), NewestLost(resolved, changes);
    var h := Published(config, f, es, through);
    SliceHas(log, lo, through);
    LostAreUnderGap(resolved, changes);
    GapIsInBatch(resolved, changes);
    FloorUnderPublished(log, config, f, es, lo, through);
    OnlyAboveFloorCounts(log, config, Gapped(h, gap), changes, resolved);
  }

  lemma ResolvedFloor(log: seq<Event>, config: Config, f: Feed, resolved: Event -> bool, lo: nat, through: nat)
    requires Sound(log, config, f) && !f.closed
    ensures var es := Filter(resolved, Slice(log, lo, through));
      Published(config, f, es, through).floor == FloorAfter(f.floor, f.events + es, config.bufferEvents)
  {
    hide FloorAfter, PushAll, Slice, Tail;
    PushAllKeepsTail(config, f, Filter(resolved, Slice(log, lo, through)));
  }

  // ----- between the two calls

  /** The log as it would be had the lost changes of this batch never been made. */
  function Without(log: seq<Event>, resolved: Event -> bool, changes: seq<Event>): seq<Event> {
    Filter(Unlost(resolved, changes), log)
  }

  function Unlost(resolved: Event -> bool, changes: seq<Event>): Event -> bool {
    (e: Event) => e !in changes || resolved(e)
  }

  /** To that log the batch is whole, and publishing it keeps the feed sound. */
  lemma SoundWithoutLost(log: seq<Event>, config: Config, f: Feed, resolved: Event -> bool, lo: nat, through: nat)
    requires Ascending(log) && Sound(log, config, f) && !f.closed
    requires Follows(log, f, lo) && lo <= through
    ensures var changes := Slice(log, lo, through);
      var es, less := Filter(resolved, changes), Without(log, resolved, changes);
      && Ascending(less) && (forall e :: e in less <==> e in log && Unlost(resolved, changes)(e))
      && Sound(less, config, Published(config, f, es, through))
  {
    hide Slice, Published;
    var changes := Slice(log, lo, through);
    var less := Without(log, resolved, changes);
    FilterAscends(log, Unlost(resolved, changes));
    FilterHas(log, Unlost(resolved, changes));
    SliceHas(log, lo, through);
    WindowOfFilter(log, Unlost(resolved, changes), lo, through);
    FiltersAgree(Unlost(resolved, changes), resolved, changes);
    assert Sound(less, config, f);
    WholeBatchIsSoundIff(less, config, f, Filter(resolved, changes), lo, through);
    assert forall e :: e in less && f.position < e.lsn <= lo ==> e in log;
  }

  lemma EsUnder(log: seq<Event>, resolved: Event -> bool, lo: nat, through: nat)
    ensures forall e :: e in Filter(resolved, Slice(log, lo, through)) ==>
      lo < e.lsn <= through && e in Slice(log, lo, through) && resolved(e)
  {
    hide Slice;
    SliceHas(log, lo, through);
    FilterHas(Slice(log, lo, through), resolved);
  }

  /** Between publishing a batch and noting its gap the feed is sound if and only if every lost change lies
      under the floor the eviction leaves. */
  lemma BetweenIsSoundIff(log: seq<Event>, config: Config, f: Feed, resolved: Event -> bool, lo: nat, through: nat)
    requires Ascending(log) && Sound(log, config, f) && !f.closed
    requires Follows(log, f, lo) && lo <= through
    ensures var changes := Slice(log, lo, through);
      var es := Filter(resolved, changes);
      Sound(log, config, Published(config, f, es, through)) <==>
      forall e :: e in changes && !resolved(e) ==> e.lsn <= FloorAfter(f.floor, f.events + es, config.bufferEvents)
  {
    hide Slice, Published, FloorAfter, Without;
    var changes := Slice(log, lo, through);
    var g := Published(config, f, Filter(resolved, changes), through);
    SoundWithoutLost(log, config, f, resolved, lo, through);
    ResolvedFloor(log, config, f, resolved, lo, through);
    EsUnder(log, resolved, lo, through);
    FloorUnderPublished(log, config, f, Filter(resolved, changes), lo, through);
    SliceHas(log, lo, through);
    if Sound(log, config, g) {
      forall e | e in changes && !resolved(e)
        ensures e.lsn <= g.floor
      {
        assert e in log && e !in g.events;
      }
    }
  }

  /** Two windows are the same if and only if nothing of the one is missing from the other. */
  lemma WindowsAgreeIff(log: seq<Event>, less: seq<Event>, lo: nat, hi: nat)
    requires Ascending(log) && Ascending(less) && forall e :: e in less ==> e in log
    ensures Slice(less, lo, hi) == Slice(log, lo, hi) <==> forall e :: e in log && lo < e.lsn <= hi ==> e in less
  {
    hide Slice, Ascending;
    SliceHas(log, lo, hi);
    SliceHas(less, lo, hi);
    SliceAscends(log, lo, hi);
    SliceAscends(less, lo, hi);
    if forall e :: e in log && lo < e.lsn <= hi ==> e in less {
      AscendingIsUnique(Slice(less, lo, hi), Slice(log, lo, hi));
    }
    if Slice(less, lo, hi) == Slice(log, lo, hi) {
      forall e | e in log && lo < e.lsn <= hi
        ensures e in less
      {
        assert e in Slice(log, lo, hi);
      }
    }
  }

  /** Reading on from a position, out of a feed that is sound to a smaller log. */
  lemma ReadOfLess(log: seq<Event>, less: seq<Event>, config: Config, g: Feed, start: nat, from: nat, batch: seq<Event>)
    requires Ascending(log) && Ascending(less) && (forall e :: e in less ==> e in log)
    requires Sound(less, config, g) && !g.closed && start <= from && g.floor <= from
    requires batch == Take(g.events[PartitionPoint(g.events, from)..], READ_BATCH) && batch != []
    ensures var last := batch[|batch| - 1].lsn;
      && from < last <= g.position && batch[|batch| - 1] in g.events
      && (Slice(log, start, from) + batch == Slice(log, start, last) <==>
          forall e :: e in log && from < e.lsn <= last ==> e in less)
  {
    hide Slice, PartitionPoint, Sound;
    var last := batch[|batch| - 1].lsn;
    HeldIsSlice(less, config, g, from);
    SlicePrefix(less, from, g.position, |batch|);
    var held := g.events[PartitionPoint(g.events, from)..];
    assert held[|batch| - 1] in held;
    SliceJoins(log, start, from, last);
    WindowsAgreeIff(log, less, from, last);
    var head := Slice(log, start, from);
    assert (head + batch)[|head|..] == batch && (head + Slice(log, from, last))[|head|..] == Slice(log, from, last);
  }

  /** What a poll of that feed does to a reader who was true to the whole log. */
  lemma PollOfLess(log: seq<Event>, less: seq<Event>, config: Config, g: Feed, s: Sub)
    requires Ascending(log) && Ascending(less) && (forall e :: e in less ==> e in log)
    requires Sound(less, config, g) && !g.closed && Kept(log, g, s)
    ensures var t := Polled(g, s).0;
      && (Kept(log, g, t) <==> forall e :: e in log && Max(s.cursor, g.floor) < e.lsn <= t.cursor ==> e in less)
      && (t.cursor > Max(s.cursor, g.floor) ==> exists e :: e in g.events && e.lsn == t.cursor)
  {
    hide Slice, PartitionPoint, Sound, Contained, Polled, Ascending, Unbroken;
    PollGoesOn(g, s);
    EmptySlice(log, g.floor);
    SoundIsUnbroken(less, config, g);
    FloorUnderPosition(less, config, g);
    var from := Max(s.cursor, g.floor);
    var batch := Take(g.events[PartitionPoint(g.events, from)..], READ_BATCH);
    if Polled(g, s).1.Batch? {
      ReadOfLess(log, less, config, g, if s.cursor < g.floor then g.floor else s.start, from, batch);
    }
  }

  /** A poll in between stays true to the log if and only if it hands over nothing newer than a lost change
      that was still ahead of the reader. */
  lemma PollBetweenKeepsIff(
    log: seq<Event>, config: Config, f: Feed, resolved: Event -> bool, lo: nat, through: nat, s: Sub)
    requires Ascending(log) && Sound(log, config, f) && !f.closed
    requires Follows(log, f, lo) && lo <= through
    requires Kept(log, Published(config, f, Filter(resolved, Slice(log, lo, through)), through), s)
    ensures var changes := Slice(log, lo, through);
      var g := Published(config, f, Filter(resolved, changes), through);
      var t := Polled(g, s).0;
      && (Kept(log, g, t) <==>
          forall e :: e in changes && !resolved(e) ==> !(Max(s.cursor, g.floor) < e.lsn <= t.cursor))
      && (t.cursor > Max(s.cursor, g.floor) ==> exists e :: e in g.events && e.lsn == t.cursor)
  {
    hide Slice, Published, Without, Sound, Polled, Kept;
    var changes := Slice(log, lo, through);
    var es, less := Filter(resolved, changes), Without(log, resolved, changes);
    SoundWithoutLost(log, config, f, resolved, lo, through);
    EsUnder(log, resolved, lo, through);
    FloorUnderPublished(log, config, f, es, lo, through);
    SliceHas(log, lo, through);
    PollOfLess(log, less, config, Published(config, f, es, through), s);
  }

  /** Every lost change above the floor is newer than all that did resolve. */
  ghost predicate NoneLostBehind(resolved: Event -> bool, changes: seq<Event>, floor: nat) {
    forall lost, later ::
      lost in changes && !resolved(lost) && later in changes && resolved(later) && floor < lost.lsn ==>
      later.lsn < lost.lsn
  }

  /** Every reader that polls in between stays true to the log if and only if no lost change above the floor
      is older than one that did resolve. */
  lemma ReadersBetweenKeepIff(log: seq<Event>, config: Config, f: Feed, resolved: Event -> bool, lo: nat, through: nat)
    requires Ascending(log) && Sound(log, config, f) && !f.closed
    requires Follows(log, f, lo) && lo <= through
    ensures var changes := Slice(log, lo, through);
      var es := Filter(resolved, changes);
      var g, floor := Published(config, f, es, through), FloorAfter(f.floor, f.events + es, config.bufferEvents);
      (forall s: Sub :: Kept(log, g, s) ==> Kept(log, g, Polled(g, s).0)) <==>
      NoneLostBehind(resolved, changes, floor)
  {
    hide Slice, Published, Sound, Polled, Kept, FloorAfter;
    var changes := Slice(log, lo, through);
    var es := Filter(resolved, changes);
    var g := Published(config, f, es, through);
    ResolvedFloor(log, config, f, resolved, lo, through);
    if forall s: Sub :: Kept(log, g, s) ==> Kept(log, g, Polled(g, s).0) {
      forall lost, later
        | lost in changes && !resolved(lost) && later in changes && resolved(later) && g.floor < lost.lsn
        ensures later.lsn < lost.lsn
      {
        if later.lsn >= lost.lsn {
          var s := JustBefore(lost);
          ReaderBeforeLost(log, config, f, resolved, lo, through, lost, later);
        }
      }
    }
    if NoneLostBehind(resolved, changes, g.floor) {
      forall s: Sub | Kept(log, g, s)
        ensures Kept(log, g, Polled(g, s).0)
      {
        ReaderMeetsNoneLost(log, config, f, resolved, lo, through, s);
      }
    }
  }

  /** A reader just under a lost change is handed something newer, and so loses it. */
  lemma ReaderBeforeLost(
    log: seq<Event>, config: Config, f: Feed, resolved: Event -> bool, lo: nat, through: nat, lost: Event, later: Event)
    requires Ascending(log) && Sound(log, config, f) && !f.closed
    requires Follows(log, f, lo) && lo <= through
    requires var changes := Slice(log, lo, through);
      && lost in changes && !resolved(lost) && later in changes && resolved(later) && lost.lsn <= later.lsn
      && Published(config, f, Filter(resolved, changes), through).floor < lost.lsn
    ensures var g := Published(config, f, Filter(resolved, Slice(log, lo, through)), through);
      Kept(log, g, JustBefore(lost)) && !Kept(log, g, Polled(g, JustBefore(lost)).0)
  {
    hide Slice, Published, Without, PartitionPoint;
    var changes := Slice(log, lo, through);
    var es, less := Filter(resolved, changes), Without(log, resolved, changes);
    var g, s := Published(config, f, es, through), JustBefore(lost);
    SliceHas(log, lo, through);
    EsUnder(log, resolved, lo, through);
    FloorUnderPublished(log, config, f, es, lo, through);
    SoundWithoutLost(log, config, f, resolved, lo, through);
    EmptySlice(log, s.cursor);
    HeldIsSlice(less, config, g, s.cursor);
    SliceHas(less, s.cursor, g.position);
    assert later in Slice(less, s.cursor, g.position);
    var held := g.events[PartitionPoint(g.events, s.cursor)..];
    assert held != [];
    PollBetweenKeepsIff(log, config, f, resolved, lo, through, s);
    ReadOfLess(log, less, config, g, s.cursor, s.cursor, Take(held, READ_BATCH));
    assert Polled(g, s).0.cursor >= lost.lsn;
  }

  lemma ReaderMeetsNoneLost(
    log: seq<Event>, config: Config, f: Feed, resolved: Event -> bool, lo: nat, through: nat, s: Sub)
    requires Ascending(log) && Sound(log, config, f) && !f.closed
    requires Follows(log, f, lo) && lo <= through
    requires var changes := Slice(log, lo, through);
      var g := Published(config, f, Filter(resolved, changes), through);
      && Kept(log, g, s)
      && NoneLostBehind(resolved, changes, g.floor)
    ensures var g := Published(config, f, Filter(resolved, Slice(log, lo, through)), through);
      Kept(log, g, Polled(g, s).0)
  {
    hide Slice, Without, Sound, Polled, Kept, PushAll;
    var changes := Slice(log, lo, through);
    var es := Filter(resolved, changes);
    var g := Published(config, f, es, through);
    PollBetweenKeepsIff(log, config, f, resolved, lo, through, s);
    PushedHas(config, f, es);
    SliceHas(log, lo, through);
    EsUnder(log, resolved, lo, through);
    var t := Polled(g, s).0;
    if t.cursor > Max(s.cursor, g.floor) {
      var newest :| newest in g.events && newest.lsn == t.cursor;
      forall lost | lost in changes && !resolved(lost)
        ensures lost.lsn <= g.floor || t.cursor < lost.lsn
      {
        assert newest in f.events || newest in es;
      }
    }
  }

  lemma {:induction false} PushedHas(config: Config, f: Feed, es: seq<Event>)
    ensures forall e :: e in PushAll(config, f, es).events ==> e in f.events || e in es
  {
    if es != [] {
      PushedHas(config, f, es[..|es| - 1]);
      assert es == es[..|es| - 1] + [es[|es| - 1]];
    }
  }

  /** An emptied feed is complete exactly when no committed event lies between its floor and position. */
  lemma OnlyAboveFloorCounts(log: seq<Event>, config: Config, g: Feed, changes: seq<Event>, resolved: Event -> bool)
    requires !g.closed && g.events == [] && g.floor <= g.position
    requires forall e :: e in changes ==> e in log && e.lsn <= g.position
    requires forall e :: e in changes && !resolved(e) ==> e.lsn <= g.floor
    requires forall e :: e in log && g.floor < e.lsn <= g.position ==> e in changes
    ensures Sound(log, config, g) <==> forall e :: e in changes && resolved(e) ==> e.lsn <= g.floor
  {
    if Sound(log, config, g) {
      forall e | e in changes && resolved(e)
        ensures e.lsn <= g.floor
      {
        assert e in log && e !in g.events;
      }
    }
  }

  lemma {:induction false} GapIsInBatch(resolved: Event -> bool, changes: seq<Event>)
    ensures NewestLost(resolved, changes) == 0 || exists e :: e in changes && e.lsn == NewestLost(resolved, changes)
  {
    if changes != [] { GapIsInBatch(resolved, changes[..|changes| - 1]); }
  }

  lemma {:induction false} PushFloorFrom(config: Config, f: Feed, es: seq<Event>, top: nat)
    requires f.floor <= top && forall e :: e in f.events || e in es ==> e.lsn <= top
    ensures var g := PushAll(config, f, es); g.floor <= top && forall e :: e in g.events ==> e.lsn <= top
  {
    if es != [] { PushFloorFrom(config, f, es[..|es| - 1], top); }
  }

  lemma FloorUnderPublished(log: seq<Event>, config: Config, f: Feed, es: seq<Event>, lo: nat, through: nat)
    requires Sound(log, config, f) && !f.closed && forall e :: e in es ==> e.lsn <= through
    ensures var g := Published(config, f, es, through);
      g.floor <= g.position == Max(f.position, through) && !g.closed && g.floor >= f.floor
  {
    PushFloorFrom(config, f, es, Max(f.position, through));
    PushRaisesFloor(config, f, es);
  }

  function At(lsn: nat): Event {
    Event(lsn, Insert, "k", Some(Null))
  }

  /** A log of three changes, the first of which cannot be resolved. */
  const THREE: seq<Event> := [At(1), At(2), At(3)]

  function AllButFirst(): Event -> bool {
    (e: Event) => e.lsn != 1
  }

  lemma ThreeLost()
    ensures Slice(THREE, 0, 3) == THREE && Filter(AllButFirst(), THREE) == [At(2), At(3)]
    ensures NewestLost(AllButFirst(), THREE) == 1
  {
    assert THREE[1..] == [At(2), At(3)] && THREE[1..][1..] == [At(3)] && THREE[1..][1..][1..] == [];
    assert THREE[..2] == [At(1), At(2)] && [At(1), At(2)][..1] == [At(1)] && [At(1)][..0] == [];
    assert NewestLost(AllButFirst(), []) == 0;
    assert NewestLost(AllButFirst(), [At(1)]) == 1;
    assert NewestLost(AllButFirst(), [At(1), At(2)]) == 1;
  }

  lemma TwoPushed(config: Config, f: Feed)
    requires config.bufferEvents >= 2 && f.events == []
    ensures PushAll(config, f, [At(2), At(3)]) == f.(events := [At(2), At(3)])
  {
    assert [At(2), At(3)][..1] == [At(2)] && [At(2)][..0] == [];
    assert PushAll(config, f, [At(2)]) == f.(events := [At(2)]);
    assert [At(2)] + [At(3)] == [At(2), At(3)];
  }

  /** So a subscriber sent back to the floor misses changes and is never told: it is admitted at the gap's
      own position, waits there, and two committed changes below the feed's position never reach it. */
  lemma LostChangeHidesLaterOnes(config: Config)
    requires config.bufferEvents >= 2 && config.maxSubscribers >= 2
    ensures var watched := Opened(0).(subscribers := 1);
      var g := ChangesPublished(config, watched, AllButFirst(), THREE, 3);
      var (h, answer) := Subscribed(config, g, Some(1), 3, 0);
      && answer == Admitted(Attached(1, true))
      && Polled(h, NewSub(answer.sub)) == (NewSub(answer.sub), Waits)
      && Slice(THREE, 1, h.position) == [At(2), At(3)]
  {
    ThreeLost();
    TwoPushed(config, Opened(0).(subscribers := 1));
    assert THREE[1..] == [At(2), At(3)] && THREE[1..][1..] == [At(3)] && THREE[1..][1..][1..] == [];
  }

  /** Publishing and noting the gap are two steps, so a reader can come between them: it is handed the later
      changes past the lost one, and the gap noted afterwards is below its cursor. */
  lemma ReaderSlipsBetween(config: Config)
    requires config.bufferEvents >= 2
    ensures var watched := Opened(0).(subscribers := 1);
      var published := Published(config, watched, Filter(AllButFirst(), THREE), 3);
      var (s, out) := Polled(published, NewSub(Attached(0, true)));
      && out == Batch([At(2), At(3)])
      && s.handed != Slice(THREE, 0, s.cursor)
      && Polled(Gapped(published, 1), s) == (s, Waits)
  {
    ThreeLost();
    TwoPushed(config, Opened(0).(subscribers := 1));
  }
}
