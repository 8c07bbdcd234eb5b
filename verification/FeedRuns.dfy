/** Whole runs: batches being applied, several at a time, subscribers, pins and the clock, interleaved
    (src/changefeed.rs and the batch path of src/storage/collection.rs). */
module FeedRuns {
  import opened JsonValues
  import opened Sorting
  import opened Feeds
  import opened FeedGaps

  /** Where a batch stands. It asks whether the feed is watched, drains the log, and then publishes; or, if it
      was not watched, asks again and notes a gap. A gap is also noted after publishing, for the newest change
      whose document could not be resolved. Asking is three reads: the readers, the pins, and, under
      the lock, the idle clock. `noPins` is how far it has got having seen nobody. */
  datatype Batch =
    | Opening(hi: nat, noPins: bool)
    | Sampled(watched: bool, hi: nat)
    | Drained(watched: bool, lo: nat, hi: nat)
    | Closing(hi: nat, noPins: bool)
    | Gapping(hi: nat)
    | Noting(gap: nat)

  /** `named` is the position a reader asked to resume from, `joined` where the feed stood when it came. */
  datatype Reader = Reader(sub: Sub, named: Option<nat>, joined: nat, end: Option<Outcome>)

  /** `batches` are the calls of the apply path in flight. They drain one at a time, and publish in any order. */
  datatype System = System(
    feed: Feed, applied: nat, batches: map<nat, Batch>, now: nat, readers: map<nat, Reader>, live: set<nat>)

  /** `lost` are the changes of the batch whose documents cannot be resolved. `Begin` and `Finish` take the
      first read of their asking, `SeePins` the second, `SeeClock` the third. `sampled` is the applied position
      as the caller of `subscribe` or `pin_from` read it beforehand. */
  datatype Step =
    | Tick(to: nat)
    | Begin(id: nat, hi: nat)
    | SeePins(id: nat)
    | SeeClock(id: nat)
    | Drain(id: nat)
    | Finish(id: nat, lost: set<nat>)
    | Gap(id: nat)
    | Attach(reader: nat, after: Option<nat>, sampled: nat)
    | Poll(reader: nat)
    | Leave(reader: nat)
    | Pin(sampled: nat)
    | Unpin
    | Close

  function Initial(position: nat): System {
    System(Opened(position), position, map[], 0, map[], {})
  }

  predicate Asking(s: System, id: nat, noPins: bool) {
    id in s.batches && (s.batches[id].Opening? || s.batches[id].Closing?) && s.batches[id].noPins == noPins
  }

  predicate Enabled(s: System, step: Step) {
    match step
    case Tick(to) => to >= s.now
    case Begin(id, _) => id !in s.batches
    case SeePins(id) => Asking(s, id, false)
    case SeeClock(id) => Asking(s, id, true)
    case Drain(id) => id in s.batches && s.batches[id].Sampled?
    case Finish(id, _) => id in s.batches && s.batches[id].Drained?
    case Gap(id) => id in s.batches && (s.batches[id].Gapping? || s.batches[id].Noting?)
    case Attach(reader, _, sampled) => reader !in s.readers && sampled <= s.applied
    case Poll(reader) => reader in s.live && reader in s.readers && s.readers[reader].end.None?
    case Leave(reader) => reader in s.live
    case Pin(sampled) => sampled <= s.applied
    case Unpin => s.feed.pins > 0
    case Close => true
  }

  /** A batch with nothing more to do is gone. */
  function Moved(s: System, id: nat, next: Option<Batch>): System {
    s.(batches := if next.Some? then s.batches[id := next.value] else s.batches - {id})
  }

  /** The answer ends the asking: a watched batch will publish, an unwatched one that is watched by now owes
      a gap. */
  function Answered(asking: Batch, watched: bool): Option<Batch>
    requires asking.Opening? || asking.Closing?
  {
    if asking.Opening? then Some(Sampled(watched, asking.hi))
    else if watched then Some(Gapping(asking.hi)) else None
  }

  function SawReaders(f: Feed, asking: Batch): Option<Batch>
    requires asking.Opening? || asking.Closing?
  {
    if f.subscribers > 0 then Answered(asking, true) else Some(asking)
  }

  function SawPins(f: Feed, asking: Batch): Option<Batch>
    requires asking.Opening? || asking.Closing?
  {
    if f.pins > 0 then Answered(asking, true) else Some(asking.(noPins := true))
  }

  function SawClock(config: Config, f: Feed, asking: Batch, now: nat): Option<Batch>
    requires asking.Opening? || asking.Closing?
  {
    Answered(asking, !f.closed && Retained(config, f, now))
  }

  function Resolves(lost: set<nat>): Event -> bool {
    (e: Event) => e.lsn !in lost
  }

  function FinishBatch(log: seq<Event>, config: Config, s: System, id: nat, lost: set<nat>): System
    requires Enabled(s, Finish(id, lost))
  {
    var b := s.batches[id];
    if b.watched then
      var changes := Slice(log, b.lo, b.hi);
      var gap := NewestLost(Resolves(lost), changes);
      Moved(s, id, if gap > 0 then Some(Noting(gap)) else None)
        .(feed := Published(config, s.feed, Filter(Resolves(lost), changes), b.hi))
    else Moved(s, id, SawReaders(s.feed, Closing(b.hi, false)))
  }

  function AttachReader(config: Config, s: System, id: nat, after: Option<nat>, sampled: nat): System {
    var (feed, answer) := Subscribed(config, s.feed, after, sampled, s.now);
    if answer.Refused? then s.(feed := feed)
    else
      var reader := Reader(NewSub(answer.sub), after, answer.sub.cursor, None);
      s.(feed := feed, readers := s.readers[id := reader], live := s.live + {id})
  }

  function GapOf(batch: Batch): nat
    requires batch.Gapping? || batch.Noting?
  {
    if batch.Gapping? then batch.hi else batch.gap
  }

  function Next(log: seq<Event>, config: Config, s: System, step: Step): System
    requires Enabled(s, step)
  {
    match step
    case Tick(to) => s.(now := to)
    case Begin(id, hi) => Moved(s, id, SawReaders(s.feed, Opening(hi, false)))
    case SeePins(id) => Moved(s, id, SawPins(s.feed, s.batches[id]))
    case SeeClock(id) => Moved(s, id, SawClock(config, s.feed, s.batches[id], s.now))
    case Drain(id) =>
      var b := s.batches[id];
      Moved(s, id, Some(Drained(b.watched, s.applied, b.hi))).(applied := Max(s.applied, b.hi))
    case Finish(id, lost) => FinishBatch(log, config, s, id, lost)
    case Gap(id) => Moved(s, id, None).(feed := Gapped(s.feed, GapOf(s.batches[id])))
    case Attach(reader, after, sampled) => AttachReader(config, s, reader, after, sampled)
    case Poll(reader) =>
      var r := s.readers[reader];
      var (sub, out) := Polled(s.feed, r.sub);
      var end := if out.Overran? || out.Over? then Some(out) else None;
      s.(readers := s.readers[reader := r.(sub := sub, end := end)])
    case Leave(reader) => s.(feed := Detached(s.feed, s.now), live := s.live - {reader})
    case Pin(sampled) => s.(feed := Pinned(config, s.feed, sampled, s.now))
    case Unpin => s.(feed := Unpinned(s.feed))
    case Close => s.(feed := Closed(s.feed))
  }

  // ----- what every reachable state satisfies

  /** What a batch in flight has yet to bring: it will publish the change, or note a gap over it, or find
      that nobody is there to be told. */
  predicate Carries(b: Batch, e: Event) {
    match b
    case Opening(hi, _) => e.lsn <= hi
    case Sampled(watched, hi) => !watched && e.lsn <= hi
    case Drained(watched, lo, hi) => (watched ==> lo < e.lsn) && e.lsn <= hi
    case Closing(hi, _) => e.lsn <= hi
    case Gapping(hi) => e.lsn <= hi
    case Noting(gap) => e.lsn <= gap
  }

  ghost predicate Carried(batches: map<nat, Batch>, e: Event) {
    exists id :: id in batches && Carries(batches[id], e)
  }

  /** Everything applied above the floor is held, or a batch in flight brings it. */
  ghost predicate Covered(log: seq<Event>, f: Feed, applied: nat, batches: map<nat, Batch>) {
    forall e :: e in log && f.floor < e.lsn <= applied ==> e in f.events || Carried(batches, e)
  }

  /** A feed that readers may be let read: in order, nothing missing below something held, and nothing
      applied missing that no batch in flight brings. */
  ghost predicate Trusted(log: seq<Event>, f: Feed, applied: nat, batches: map<nat, Batch>) {
    Ascending(f.events) && Unbroken(log, f) && Covered(log, f, applied, batches)
  }

  predicate Reached(b: Batch, applied: nat) {
    match b
    case Opening(_, _) => true
    case Sampled(_, _) => true
    case Drained(_, _, hi) => hi <= applied
    case Closing(hi, _) => hi <= applied
    case Gapping(hi) => hi <= applied
    case Noting(gap) => gap <= applied
  }

  ghost predicate PromiseKept(log: seq<Event>, f: Feed, r: Reader) {
    && Kept(log, f, r.sub)
    && r.joined <= r.sub.start
    && (r.named.Some? <==> r.sub.strict)
    && (r.named.Some? ==> r.sub.start == r.named.value)
    && (r.end.Some? ==>
          || (r.end.value.Overran? && r.sub.cursor < r.end.value.floor <= f.floor)
          || (r.end.value.Over? && f.closed))
  }

  /** Every reader has had its stretch of the log, and a feed that anyone watches can be trusted. */
  ghost predicate Inv(log: seq<Event>, config: Config, s: System) {
    && Contained(log, config, s.feed) && s.feed.position <= s.applied
    && s.live <= s.readers.Keys && s.feed.subscribers == |s.live|
    && (forall id :: id in s.batches ==> Reached(s.batches[id], s.applied))
    && (!s.feed.closed && Active(config, s.feed, s.now) ==> Trusted(log, s.feed, s.applied, s.batches))
    && forall id :: id in s.readers ==> PromiseKept(log, s.feed, s.readers[id])
  }

  // ----- the steps that lose a change

  /** A batch that goes on without a change above the floor that nothing else brings. */
  ghost predicate Abandons(log: seq<Event>, s: System, id: nat) {
    exists e :: e in log && s.feed.floor < e.lsn <= s.applied && e !in s.feed.events && !Carried(s.batches - {id}, e)
  }

  /** One of `es` is newer than a change that is above the floor, and neither held nor among them. */
  ghost predicate Overtakes(log: seq<Event>, floor: nat, held: seq<Event>, es: seq<Event>) {
    exists e, h :: e in log && h in es && floor < e.lsn < h.lsn && e !in held && e !in es
  }

  /** A quiet feed is woken as it was left; or, if the caller read a later position, empty from there, when
      something has been applied since. */
  ghost predicate WakesStale(log: seq<Event>, s: System, sampled: nat) {
    if sampled > s.feed.position then exists e :: e in log && sampled < e.lsn <= s.applied && !Carried(s.batches, e)
    else !Trusted(log, s.feed, s.applied, s.batches)
  }

  /** What a batch would publish, and the floor that would leave. */
  function Resolved(log: seq<Event>, b: Batch, lost: set<nat>): seq<Event>
    requires b.Drained?
  {
    Filter(Resolves(lost), Slice(log, b.lo, b.hi))
  }

  /** Ending an asking for a reader or pin that came after the reads that would have seen it; publishing out
      of turn, or past a change that is still to come or was lost; noting a gap below something held that
      nothing brings again; and waking a quiet feed that is behind. */
  ghost predicate Slips(log: seq<Event>, config: Config, s: System, step: Step)
    requires Enabled(s, step)
  {
    var f := s.feed;
    !f.closed &&
    match step
    case SeePins(id) => s.batches[id].Opening? && f.pins > 0 && Abandons(log, s, id)
    case SeeClock(id) =>
      && (if s.batches[id].Opening? then Retained(config, f, s.now)
          else !Retained(config, f, s.now) && (f.subscribers > 0 || f.pins > 0))
      && Abandons(log, s, id)
    case Finish(id, lost) =>
      && s.batches[id].watched && Active(config, f, s.now)
      && var es := Resolved(log, s.batches[id], lost);
         || OutOfTurn(config.bufferEvents, f.events, es)
         || Overtakes(log, FloorAfter(f.floor, f.events + es, config.bufferEvents), f.events, es)
    case Gap(id) =>
      && Active(config, f, s.now)
      && exists h :: h in f.events && h.lsn > Max(f.floor, GapOf(s.batches[id])) && !Carried(s.batches - {id}, h)
    case Attach(_, after, sampled) =>
      && Quiet(config, f, s.now) && WakesStale(log, s, sampled)
      && Subscribed(config, f, after, sampled, s.now).1.Admitted?
    case Pin(sampled) => Quiet(config, f, s.now) && WakesStale(log, s, sampled)
    case _ => false
  }

  // ----- every step

  /** The feed only moves forward. */
  predicate Forward(f: Feed, g: Feed) {
    f.position <= g.position && f.floor <= g.floor && (f.closed ==> g.closed)
  }

  lemma ReadersStay(log: seq<Event>, f: Feed, g: Feed, readers: map<nat, Reader>)
    requires Forward(f, g) && forall id :: id in readers ==> PromiseKept(log, f, readers[id])
    ensures forall id :: id in readers ==> PromiseKept(log, g, readers[id])
  {
  }

  lemma BringsOfOne(batches: map<nat, Batch>, id: nat)
    ensures forall e :: Carried(batches, e) <==>
      (id in batches && Carries(batches[id], e)) || Carried(batches - {id}, e)
  {
    hide Carries;
    var others := batches - {id};
    assert forall i :: i in others ==> others[i] == batches[i];
    forall e
      ensures Carried(batches, e) <==> (id in batches && Carries(batches[id], e)) || Carried(others, e)
    {
      if i :| i in batches && Carries(batches[i], e) { assert i != id ==> i in others && Carries(others[i], e); }
      if i :| i in others && Carries(others[i], e) { assert Carries(batches[i], e); }
    }
  }

  /** Moving one batch changes what that one brings. */
  lemma BringsSplit(s: System, id: nat, next: Option<Batch>)
    ensures forall e ::
      Carried(Moved(s, id, next).batches, e) <==> (next.Some? && Carries(next.value, e)) || Carried(s.batches - {id}, e)
    ensures forall e ::
      Carried(s.batches, e) <==> (id in s.batches && Carries(s.batches[id], e)) || Carried(s.batches - {id}, e)
  {
    hide Carries, Carried;
    var after := Moved(s, id, next).batches;
    assert after - {id} == s.batches - {id};
    BringsOfOne(s.batches, id);
    BringsOfOne(after, id);
  }

  /** A batch that brings what it brought before costs nothing. */
  lemma StillBrings(log: seq<Event>, config: Config, s: System, id: nat, next: Option<Batch>)
    requires Inv(log, config, s) && (next.Some? ==> Reached(next.value, s.applied))
    requires id in s.batches ==> next.Some? && forall e :: Carries(s.batches[id], e) ==> Carries(next.value, e)
    ensures Inv(log, config, Moved(s, id, next))
  {
    hide Contained, PromiseKept, Carried, Carries, Ascending, Unbroken, Active;
    BringsSplit(s, id, next);
  }

  /** One that brings nothing more costs what only it brought. */
  lemma BringsNoMore(log: seq<Event>, config: Config, s: System, id: nat, next: Option<Batch>)
    requires Inv(log, config, s)
    requires next.Some? ==> Reached(next.value, s.applied) && forall e :: !Carries(next.value, e)
    ensures Inv(log, config, Moved(s, id, next)) <==>
      s.feed.closed || !Active(config, s.feed, s.now) || !Abandons(log, s, id)
  {
    hide Contained, PromiseKept, Carried, Carries, Ascending, Unbroken, Active;
    BringsSplit(s, id, next);
  }

  lemma AskingKeepsIff(log: seq<Event>, config: Config, s: System, step: Step)
    requires Inv(log, config, s) && Enabled(s, step)
    requires step.Begin? || step.SeePins? || step.SeeClock? || (step.Finish? && !s.batches[step.id].watched)
    ensures Inv(log, config, Next(log, config, s, step)) <==> !Slips(log, config, s, step)
  {
    hide Inv, Abandons, Slice, Published;
    match step
    case Begin(id, hi) => StillBrings(log, config, s, id, SawReaders(s.feed, Opening(hi, false)));
    case SeePins(id) => BatchSeesIff(log, config, s, id, SawPins(s.feed, s.batches[id]), s.feed.pins > 0);
    case SeeClock(id) =>
      var retained := !s.feed.closed && Retained(config, s.feed, s.now);
      BatchSeesIff(log, config, s, id, SawClock(config, s.feed, s.batches[id], s.now), retained);
    case Finish(id, _) =>
      HasReached(log, config, s, id);
      StillBrings(log, config, s, id, SawReaders(s.feed, Closing(s.batches[id].hi, false)));
    case _ =>
  }

  lemma HasReached(log: seq<Event>, config: Config, s: System, id: nat)
    requires Inv(log, config, s) && id in s.batches
    ensures Reached(s.batches[id], s.applied)
  {
  }

  /** An asking that ends: one that opened a batch with somebody there, or closed one with nobody, brings
      nothing more. */
  lemma BatchSeesIff(log: seq<Event>, config: Config, s: System, id: nat, next: Option<Batch>, watched: bool)
    requires Inv(log, config, s) && id in s.batches && (s.batches[id].Opening? || s.batches[id].Closing?)
    requires next == Answered(s.batches[id], watched) || (!watched && next == Some(s.batches[id].(noPins := true)))
    ensures Inv(log, config, Moved(s, id, next)) <==>
      || s.feed.closed || !Active(config, s.feed, s.now) || !Abandons(log, s, id)
      || !(next.None? || (next.value.Sampled? && next.value.watched))
  {
    hide Inv, Abandons, Active;
    HasReached(log, config, s, id);
    if next.None? || (next.value.Sampled? && next.value.watched) {
      BringsNoMore(log, config, s, id, next);
    } else {
      StillBrings(log, config, s, id, next);
    }
  }

  lemma DrainKeeps(log: seq<Event>, config: Config, s: System, id: nat)
    requires Inv(log, config, s) && Enabled(s, Drain(id))
    ensures Inv(log, config, Next(log, config, s, Drain(id)))
  {
    hide Contained, PromiseKept, Carried, Ascending, Unbroken, Active;
    var b := s.batches[id];
    BringsSplit(s, id, Some(Drained(b.watched, s.applied, b.hi)));
  }

  lemma ResolvedAre(log: seq<Event>, b: Batch, lost: set<nat>)
    requires Ascending(log) && b.Drained?
    ensures Ascending(Resolved(log, b, lost))
    ensures forall e :: e in Resolved(log, b, lost) <==> e in log && b.lo < e.lsn <= b.hi && e.lsn !in lost
  {
    SliceHas(log, b.lo, b.hi);
    SliceAscends(log, b.lo, b.hi);
    FilterAscends(Slice(log, b.lo, b.hi), Resolves(lost));
    FilterHas(Slice(log, b.lo, b.hi), Resolves(lost));
  }

  /** Past what was not missing before, publishing leaves a hole exactly where it overtakes something. */
  lemma UnbrokenIff(log: seq<Event>, config: Config, f: Feed, es: seq<Event>, hi: nat)
    requires Contained(log, config, f) && !f.closed && Unbroken(log, f)
    requires forall e :: e in es ==> e in log && e.lsn <= hi
    ensures Unbroken(log, Published(config, f, es, hi)) <==>
      !Overtakes(log, FloorAfter(f.floor, f.events + es, config.bufferEvents), f.events, es)
  {
    hide Published, FloorAfter, Tail, Ascending, Contained;
    PublishLeaves(log, config, f, es, hi);
  }

  /** What a batch does not publish it still brings, as a gap. */
  lemma CoverStays(log: seq<Event>, config: Config, s: System, id: nat, lost: set<nat>)
    requires Ascending(log) && Contained(log, config, s.feed) && !s.feed.closed
    requires Enabled(s, Finish(id, lost)) && s.batches[id].watched
    requires Covered(log, s.feed, s.applied, s.batches)
    ensures var t := Next(log, config, s, Finish(id, lost)); Covered(log, t.feed, s.applied, t.batches)
  {
    hide Published, FloorAfter, Tail, Ascending, Contained, Carried, Slice, NewestLost;
    var b := s.batches[id];
    var changes := Slice(log, b.lo, b.hi);
    var gap := NewestLost(Resolves(lost), changes);
    ResolvedAre(log, b, lost);
    SliceHas(log, b.lo, b.hi);
    LostAreUnderGap(Resolves(lost), changes);
    BringsSplit(s, id, if gap > 0 then Some(Noting(gap)) else None);
    PublishLeaves(log, config, s.feed, Resolved(log, b, lost), b.hi);
  }

  lemma PublishTrustsIff(log: seq<Event>, config: Config, s: System, id: nat, lost: set<nat>)
    requires Ascending(log) && Contained(log, config, s.feed) && !s.feed.closed
    requires Enabled(s, Finish(id, lost)) && s.batches[id].watched && Trusted(log, s.feed, s.applied, s.batches)
    ensures var t, es := Next(log, config, s, Finish(id, lost)), Resolved(log, s.batches[id], lost);
      Trusted(log, t.feed, s.applied, t.batches) <==>
      && !OutOfTurn(config.bufferEvents, s.feed.events, es)
      && !Overtakes(log, FloorAfter(s.feed.floor, s.feed.events + es, config.bufferEvents), s.feed.events, es)
  {
    hide Published, FloorAfter, OutOfTurn, Overtakes, Tail, Slice, NewestLost, Covered, Unbroken, Ascending, Contained;
    var b := s.batches[id];
    var es := Resolved(log, b, lost);
    ResolvedAre(log, b, lost);
    FitsBuffer(log, config, s.feed);
    OutOfTurnIff(config.bufferEvents, s.feed.events, es);
    PublishLeaves(log, config, s.feed, es, b.hi);
    UnbrokenIff(log, config, s.feed, es, b.hi);
    CoverStays(log, config, s, id, lost);
  }

  lemma FitsBuffer(log: seq<Event>, config: Config, f: Feed)
    requires Contained(log, config, f)
    ensures |f.events| <= config.bufferEvents
  {
  }

  lemma PublishMoves(log: seq<Event>, config: Config, f: Feed, es: seq<Event>, hi: nat)
    requires Contained(log, config, f) && forall e :: e in es ==> e in log && e.lsn <= hi
    ensures var g := Published(config, f, es, hi);
      && Contained(log, config, g) && Forward(f, g)
      && g == f.(events := g.events, floor := g.floor, position := g.position)
      && g.position <= Max(f.position, hi)
  {
    if !f.closed {
      PublishLeaves(log, config, f, es, hi);
      PushRaisesFloor(config, f, es);
    }
  }

  lemma FinishKeepsIff(log: seq<Event>, config: Config, s: System, id: nat, lost: set<nat>)
    requires Ascending(log) && Inv(log, config, s) && Enabled(s, Finish(id, lost)) && s.batches[id].watched
    ensures Inv(log, config, Next(log, config, s, Finish(id, lost))) <==> !Slips(log, config, s, Finish(id, lost))
  {
    hide Contained, PromiseKept, Ascending, Trusted, Published, NewestLost, FloorAfter, OutOfTurn, Overtakes, Slice;
    var f, b := s.feed, s.batches[id];
    var es := Resolved(log, b, lost);
    ResolvedAre(log, b, lost);
    GapReached(log, b, lost);
    PublishMoves(log, config, f, es, b.hi);
    ReadersStay(log, f, Published(config, f, es, b.hi), s.readers);
    if !f.closed && Active(config, f, s.now) { PublishTrustsIff(log, config, s, id, lost); }
  }

  lemma GapReached(log: seq<Event>, b: Batch, lost: set<nat>)
    requires b.Drained?
    ensures NewestLost(Resolves(lost), Slice(log, b.lo, b.hi)) <= b.hi
  {
    hide Slice, NewestLost;
    SliceHas(log, b.lo, b.hi);
    GapIsInBatch(Resolves(lost), Slice(log, b.lo, b.hi));
  }

  lemma GapKeepsIff(log: seq<Event>, config: Config, s: System, id: nat)
    requires Inv(log, config, s) && Enabled(s, Gap(id))
    ensures Inv(log, config, Next(log, config, s, Gap(id))) <==> !Slips(log, config, s, Gap(id))
  {
    hide PromiseKept, Trusted;
    var f, g := s.feed, Gapped(s.feed, GapOf(s.batches[id]));
    ReadersStay(log, f, g, s.readers);
    if !f.closed && Active(config, f, s.now) { GapTrustsIff(log, config, s, id); }
  }

  lemma GapTrustsIff(log: seq<Event>, config: Config, s: System, id: nat)
    requires Contained(log, config, s.feed) && !s.feed.closed && s.feed.position <= s.applied
    requires Enabled(s, Gap(id)) && Trusted(log, s.feed, s.applied, s.batches)
    ensures var gap := GapOf(s.batches[id]);
      Trusted(log, Gapped(s.feed, gap), s.applied, s.batches - {id}) <==>
      forall h :: h in s.feed.events && h.lsn > Max(s.feed.floor, gap) ==> Carried(s.batches - {id}, h)
  {
    hide Carried;
    BringsSplit(s, id, None);
    var g := Gapped(s.feed, GapOf(s.batches[id]));
    if Trusted(log, g, s.applied, s.batches - {id}) {
      forall h | h in s.feed.events && h.lsn > g.floor
        ensures Carried(s.batches - {id}, h)
      {
        assert h in log && h !in g.events;
      }
    }
  }

  /** Waking the feed leaves it to be trusted or not. */
  lemma WokenIsTrustedIff(log: seq<Event>, config: Config, s: System, sampled: nat)
    requires Contained(log, config, s.feed) && Quiet(config, s.feed, s.now)
    ensures Trusted(log, CaughtUp(config, s.feed, sampled, s.now), s.applied, s.batches) <==>
      !WakesStale(log, s, sampled)
  {
    hide Carried;
  }

  /** Only the buffer and the floor matter. */
  lemma TrustIsOfBuffer(log: seq<Event>, f: Feed, g: Feed, applied: nat, batches: map<nat, Batch>)
    ensures f.events == g.events && f.floor == g.floor ==>
      (Trusted(log, f, applied, batches) <==> Trusted(log, g, applied, batches))
  {
  }

  lemma PinKeepsIff(log: seq<Event>, config: Config, s: System, sampled: nat)
    requires Inv(log, config, s) && Enabled(s, Pin(sampled))
    ensures Inv(log, config, Next(log, config, s, Pin(sampled))) <==> !Slips(log, config, s, Pin(sampled))
  {
    hide PromiseKept, Trusted, WakesStale;
    var woken, pinned := CaughtUp(config, s.feed, sampled, s.now), Pinned(config, s.feed, sampled, s.now);
    TrustIsOfBuffer(log, woken, pinned, s.applied, s.batches);
    ReadersStay(log, s.feed, pinned, s.readers);
    if Quiet(config, s.feed, s.now) { WokenIsTrustedIff(log, config, s, sampled); }
  }

  lemma AttachKeepsIff(log: seq<Event>, config: Config, s: System, id: nat, after: Option<nat>, sampled: nat)
    requires Inv(log, config, s) && Enabled(s, Attach(id, after, sampled))
    ensures Inv(log, config, Next(log, config, s, Attach(id, after, sampled)))
            <==> !Slips(log, config, s, Attach(id, after, sampled))
  {
    hide Contained, Slice, PromiseKept, Trusted, WakesStale, Subscribed, CaughtUp;
    var (feed, answer) := Subscribed(config, s.feed, after, sampled, s.now);
    var woken := CaughtUp(config, s.feed, sampled, s.now);
    AttachMoves(log, config, s, after, sampled);
    TrustIsOfBuffer(log, woken, feed, s.applied, s.batches);
    TrustIsOfBuffer(log, s.feed, feed, s.applied, s.batches);
    ReadersStay(log, s.feed, feed, s.readers);
    if Quiet(config, s.feed, s.now) { WokenIsTrustedIff(log, config, s, sampled); }
    if answer.Admitted? {
      NewReaderIsPromised(log, config, s, after, sampled);
      assert |s.live + {id}| == |s.live| + 1;
    }
  }

  lemma NewReaderIsPromised(log: seq<Event>, config: Config, s: System, after: Option<nat>, sampled: nat)
    requires Contained(log, config, s.feed)
    ensures var (feed, answer) := Subscribed(config, s.feed, after, sampled, s.now);
      answer.Admitted? ==> PromiseKept(log, feed, Reader(NewSub(answer.sub), after, answer.sub.cursor, None))
  {
    hide Slice;
    var (feed, answer) := Subscribed(config, s.feed, after, sampled, s.now);
    if answer.Admitted? { EmptySlice(log, answer.sub.cursor); }
  }

  lemma AttachMoves(log: seq<Event>, config: Config, s: System, after: Option<nat>, sampled: nat)
    requires Contained(log, config, s.feed)
    ensures var f := s.feed;
      var (feed, answer) := Subscribed(config, f, after, sampled, s.now);
      var woken := CaughtUp(config, f, sampled, s.now);
      && Contained(log, config, feed) && Forward(f, feed) && feed.closed == f.closed
      && feed.position <= Max(f.position, sampled)
      && (answer.Admitted? ==>
            && !f.closed && feed.events == woken.events && feed.floor == woken.floor
            && feed.subscribers == f.subscribers + 1 && Active(config, feed, s.now))
      && (answer.Refused? ==>
            feed.subscribers == f.subscribers && (Active(config, feed, s.now) <==> Active(config, f, s.now)))
      && (!Quiet(config, f, s.now) || answer == Refused(Shut) ==> feed.events == f.events && feed.floor == f.floor)
  {
  }

  lemma PollKeeps(log: seq<Event>, config: Config, s: System, id: nat)
    requires Ascending(log) && Inv(log, config, s) && Enabled(s, Poll(id))
    ensures Inv(log, config, Next(log, config, s, Poll(id)))
  {
    hide Contained, Slice, Polled, Ascending, Unbroken, Covered;
    WatchedCanBeRead(log, config, s, id);
    PollKeepsPromise(log, config, s.feed, s.readers[id].sub);
    PollKeepsStrict(s.feed, s.readers[id].sub);
  }

  /** A live reader's feed is one that a read keeps faith with. */
  lemma WatchedCanBeRead(log: seq<Event>, config: Config, s: System, id: nat)
    requires Inv(log, config, s) && id in s.live
    ensures Contained(log, config, s.feed) && Ascending(s.feed.events) && Unbroken(log, s.feed)
    ensures id in s.readers && Kept(log, s.feed, s.readers[id].sub)
    ensures !s.feed.closed ==> Covered(log, s.feed, s.applied, s.batches)
  {
    hide Slice, Covered;
    assert s.live != {};
  }

  lemma PollKeepsStrict(f: Feed, s: Sub)
    ensures Polled(f, s).0.strict == s.strict
    ensures Polled(f, s).1.Overran? ==> Polled(f, s).0 == s
  {
  }

  lemma OtherStepKeeps(log: seq<Event>, config: Config, s: System, step: Step)
    requires Inv(log, config, s) && Enabled(s, step)
    requires step.Tick? || step.Leave? || step.Unpin? || step.Close?
    ensures Inv(log, config, Next(log, config, s, step))
  {
    hide PromiseKept, Trusted;
    var g := Next(log, config, s, step).feed;
    if !step.Close? { TrustIsOfBuffer(log, s.feed, g, s.applied, s.batches); }
    ReadersStay(log, s.feed, g, s.readers);
  }

  /** A step keeps everything the feed promises if and only if it is not one of those that slip. */
  lemma StepKeepsIff(log: seq<Event>, config: Config, s: System, step: Step)
    requires Ascending(log) && Inv(log, config, s) && Enabled(s, step)
    ensures Inv(log, config, Next(log, config, s, step)) <==> !Slips(log, config, s, step)
  {
    match step
    case Attach(id, after, sampled) => hide *; AttachKeepsIff(log, config, s, id, after, sampled);
    case Pin(sampled) => hide *; PinKeepsIff(log, config, s, sampled);
    case Poll(id) => hide Inv, Next, Enabled; PollKeeps(log, config, s, id);
    case Gap(id) => hide *; GapKeepsIff(log, config, s, id);
    case Drain(id) => hide Inv, Next, Enabled; DrainKeeps(log, config, s, id);
    case Finish(id, lost) =>
      hide Inv, Next, Slips;
      if s.batches[id].watched {
        FinishKeepsIff(log, config, s, id, lost);
      } else {
        AskingKeepsIff(log, config, s, step);
      }
    case Begin(_, _) => hide *; AskingKeepsIff(log, config, s, step);
    case SeePins(_) => hide *; AskingKeepsIff(log, config, s, step);
    case SeeClock(_) => hide *; AskingKeepsIff(log, config, s, step);
    case _ => hide Inv, Next, Enabled; OtherStepKeeps(log, config, s, step);
  }

  // ----- whole runs

  /** `run` starts at a freshly opened feed and takes one enabled step at a time. */
  ghost predicate IsRun(log: seq<Event>, config: Config, position: nat, run: seq<System>, steps: seq<Step>) {
    && |run| == |steps| + 1 && run[0] == Initial(position)
    && forall i :: 0 <= i < |steps| ==> Enabled(run[i], steps[i]) && run[i + 1] == Next(log, config, run[i], steps[i])
  }

  lemma RunExtends(
    log: seq<Event>, config: Config, position: nat, run: seq<System>, steps: seq<Step>, step: Step)
    requires IsRun(log, config, position, run, steps) && Enabled(run[|steps|], step)
    ensures IsRun(log, config, position, run + [Next(log, config, run[|steps|], step)], steps + [step])
  {
    hide Enabled, Next;
  }

  ghost predicate NothingSlips(log: seq<Event>, config: Config, run: seq<System>, steps: seq<Step>, n: nat)
    requires n <= |steps| < |run|
  {
    forall i :: 0 <= i < n ==> Enabled(run[i], steps[i]) ==> !Slips(log, config, run[i], steps[i])
  }

  lemma {:induction false} EveryStateIsSound(
    log: seq<Event>, config: Config, position: nat, run: seq<System>, steps: seq<Step>, n: nat)
    requires Ascending(log) && IsRun(log, config, position, run, steps) && n < |run|
    requires NothingSlips(log, config, run, steps, n)
    ensures Inv(log, config, run[n])
  {
    if n > 0 {
      hide Inv, Next, Enabled, Slips;
      EveryStateIsSound(log, config, position, run, steps, n - 1);
      assert !Slips(log, config, run[n - 1], steps[n - 1]);
      StepKeepsIff(log, config, run[n - 1], steps[n - 1]);
    } else {
      StartsSound(log, config, position);
    }
  }

  lemma StartsSound(log: seq<Event>, config: Config, position: nat)
    ensures Inv(log, config, Initial(position))
  {
  }

  /** A run keeps the feed's promise in every state if and only if none of its steps slips. */
  lemma {:induction false} RunIsSoundIff(
    log: seq<Event>, config: Config, position: nat, run: seq<System>, steps: seq<Step>, n: nat)
    requires Ascending(log) && IsRun(log, config, position, run, steps) && n < |run|
    ensures (forall i :: 0 <= i <= n ==> Inv(log, config, run[i])) <==> NothingSlips(log, config, run, steps, n)
  {
    hide Inv, Next, Enabled, Slips;
    if forall i :: 0 <= i <= n ==> Inv(log, config, run[i]) {
      forall i | 0 <= i < n
        ensures !Slips(log, config, run[i], steps[i])
      {
        assert Inv(log, config, run[i]) && Inv(log, config, run[i + 1]);
        StepKeepsIff(log, config, run[i], steps[i]);
      }
    }
    if NothingSlips(log, config, run, steps, n) {
      forall i | 0 <= i <= n
        ensures Inv(log, config, run[i])
      {
        EveryStateIsSound(log, config, position, run, steps, i);
      }
    }
  }

  /** In every run without a slip every reader has been given exactly the committed events from its start to
      its cursor, in order and once each, a named start being the one it named; and a reader that was ended
      was told why: it had fallen under a floor that is still refused, or the feed had closed. */
  lemma NoReaderMissesAnEvent(
    log: seq<Event>, config: Config, position: nat, run: seq<System>, steps: seq<Step>, n: nat, id: nat)
    requires Ascending(log) && IsRun(log, config, position, run, steps) && n < |run| && id in run[n].readers
    requires NothingSlips(log, config, run, steps, n)
    ensures var r := run[n].readers[id];
      && r.sub.handed == Slice(log, r.sub.start, r.sub.cursor)
      && r.joined <= r.sub.start
      && (r.named.Some? ==> r.sub.start == r.named.value)
      && (r.end.Some? && r.end.value.Overran? ==> r.sub.cursor < r.end.value.floor <= run[n].feed.floor)
      && (r.end.Some? && !r.end.value.Overran? ==> r.end.value.Over? && run[n].feed.closed)
  {
    EveryStateIsSound(log, config, position, run, steps, n);
  }

  /** A reader told to wait is owed only what a batch in flight has yet to bring. */
  lemma WaitsOnlyForBatches(
    log: seq<Event>, config: Config, position: nat, run: seq<System>, steps: seq<Step>, n: nat, id: nat)
    requires Ascending(log) && IsRun(log, config, position, run, steps) && n < |run|
    requires NothingSlips(log, config, run, steps, n)
    requires Enabled(run[n], Poll(id)) && Polled(run[n].feed, run[n].readers[id].sub).1.Waits?
    ensures var t := Polled(run[n].feed, run[n].readers[id].sub).0;
      forall e :: e in log && t.cursor < e.lsn <= run[n].applied ==>
        exists b :: b in run[n].batches && Carries(run[n].batches[b], e)
  {
    hide Inv, Slice, Polled, IsRun, NothingSlips, Carries;
    var s := run[n];
    EveryStateIsSound(log, config, position, run, steps, n);
    WatchedCanBeRead(log, config, s, id);
    PollKeepsPromise(log, config, s.feed, s.readers[id].sub);
  }

  /** With no batch in flight, it has everything the collection has applied since its start. */
  lemma NothingLeftMeansNothingMissing(
    log: seq<Event>, config: Config, position: nat, run: seq<System>, steps: seq<Step>, n: nat, id: nat)
    requires Ascending(log) && IsRun(log, config, position, run, steps) && n < |run|
    requires NothingSlips(log, config, run, steps, n)
    requires Enabled(run[n], Poll(id)) && Polled(run[n].feed, run[n].readers[id].sub).1.Waits?
    requires run[n].batches == map[]
    ensures var t := Polled(run[n].feed, run[n].readers[id].sub).0;
      t.handed == Slice(log, t.start, run[n].applied)
  {
    hide Inv, Slice, Polled, IsRun, NothingSlips, Enabled, Carries;
    var s := run[n];
    EveryStateIsSound(log, config, position, run, steps, n);
    WaitsOnlyForBatches(log, config, position, run, steps, n, id);
    ReaderCanBeRead(log, config, s, id);
    PollKeepsPromise(log, config, s.feed, s.readers[id].sub);
    var t := Polled(s.feed, s.readers[id].sub).0;
    SliceHas(log, t.cursor, s.applied);
    NonEmptyHolds(Slice(log, t.cursor, s.applied));
    SliceJoins(log, t.start, t.cursor, s.applied);
  }

  lemma ReaderCanBeRead(log: seq<Event>, config: Config, s: System, id: nat)
    requires Inv(log, config, s) && Enabled(s, Poll(id))
    ensures id in s.readers && Kept(log, s.feed, s.readers[id].sub) && s.feed.position <= s.applied
    ensures Contained(log, config, s.feed) && Ascending(s.feed.events) && Unbroken(log, s.feed)
  {
    WatchedCanBeRead(log, config, s, id);
  }

  /** What being behind costs: a reader at the feed's position is told to wait while it is owed a change, and
      the next batch, published whole, leaves the feed sound if and only if everything missing went under the
      floor. */
  lemma BehindIsFelt(log: seq<Event>, config: Config, f: Feed, s: Sub, applied: nat, through: nat)
    requires Ascending(log) && Sound(log, config, f) && !f.closed && f.position <= applied <= through
    requires Missing(log, f.position, applied) && s.cursor == f.position
    ensures Polled(f, s) == (s, Waits) && Slice(log, s.cursor, applied) != []
    ensures var es := Slice(log, applied, through);
      var floor := FloorAfter(f.floor, f.events + es, config.bufferEvents);
      Sound(log, config, Published(config, f, es, through)) <==>
      forall e :: e in log && f.position < e.lsn <= applied ==> e.lsn <= floor
  {
    hide Published, FloorAfter;
    var e :| e in log && f.position < e.lsn <= applied;
    SliceHas(log, s.cursor, applied);
    assert e in Slice(log, s.cursor, applied);
    NothingAbovePosition(log, config, f);
    WholeBatchIsSoundIff(log, config, f, Slice(log, applied, through), applied, through);
  }

  lemma NothingAbovePosition(log: seq<Event>, config: Config, f: Feed)
    requires Sound(log, config, f)
    ensures f.events[PartitionPoint(f.events, f.position)..] == []
  {
    hide PartitionPoint;
    AboveIsTail(f.events, f.position);
    NonEmptyHolds(f.events[PartitionPoint(f.events, f.position)..]);
  }
}
