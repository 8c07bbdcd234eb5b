/** The steps that lose a change without saying so: an applied position read before the feed is locked, a
    reader that comes while a batch asks whether anyone did, and two batches published out of turn
    (src/changefeed.rs, src/storage/collection.rs). What each takes is `FeedRuns.Slips`; here are runs that
    take it. */
module FeedSlips {
  import opened JsonValues
  import opened Sorting
  import opened Feeds
  import opened FeedRuns
  import opened FeedGaps

  /** A pin or a subscription reads the collection's applied position before it locks the feed. If that wakes
      a quiet feed, the next whole batch leaves it sound if and only if every change applied since went under
      the floor. */
  lemma StaleWatermark(
    log: seq<Event>, config: Config, f: Feed, after: Option<nat>, sampled: nat, applied: nat, through: nat, now: nat)
    requires Ascending(log) && Sound(log, config, f) && !f.closed && Quiet(config, f, now)
    requires f.position <= applied <= through && sampled <= applied
    ensures var es := Slice(log, applied, through);
      var woken := CaughtUp(config, f, sampled, now);
      var floor := FloorAfter(woken.floor, woken.events + es, config.bufferEvents);
      var nothingLost := forall e :: e in log && Max(f.position, sampled) < e.lsn <= applied ==> e.lsn <= floor;
      var pinned, subscribed := Pinned(config, f, sampled, now), Subscribed(config, f, after, sampled, now).0;
      && (Sound(log, config, Published(config, pinned, es, through)) <==> nothingLost)
      && (f.subscribers < config.maxSubscribers ==>
            (Sound(log, config, Published(config, subscribed, es, through)) <==> nothingLost))
  {
    hide Published, FloorAfter, Slice, Ascending;
    var es := Slice(log, applied, through);
    var pinned, subscribed := Pinned(config, f, sampled, now), Subscribed(config, f, after, sampled, now).0;
    OtherStepsKeepSound(log, config, f, after, sampled, now);
    WholeBatchIsSoundIff(log, config, pinned, es, applied, through);
    if f.subscribers < config.maxSubscribers { WholeBatchIsSoundIff(log, config, subscribed, es, applied, through); }
  }

  /** A feed woken at 0, by a pin or by the reader itself, after change 1 was applied unwatched publishes
      change 2 next, and a reader resuming from 0 is handed 2 without 1. */
  lemma StaleWatermarkSkipsAChange(config: Config)
    requires config.bufferEvents >= 1 && config.maxSubscribers >= 1
    ensures var log := [At(1), At(2)];
      var (woken, answer) := Subscribed(config, Opened(0), Some(0), 0, 0);
      var pinned := Pinned(config, Opened(0), 0, 0);
      && answer == Admitted(Attached(0, true))
      && Slice(log, 1, 2) == [At(2)] && Slice(log, 0, 2) == log
      && Polled(Published(config, woken, Slice(log, 1, 2), 2), NewSub(answer.sub)).1 == Batch([At(2)])
      && Polled(Published(config, pinned, Slice(log, 1, 2), 2), NewSub(answer.sub)).1 == Batch([At(2)])
  {
    TwoChanges();
    OnePushed(config, Subscribed(config, Opened(0), Some(0), 0, 0).0, At(2));
    OnePushed(config, Pinned(config, Opened(0), 0, 0), At(2));
  }

  lemma TwoChanges()
    ensures Slice([At(1), At(2)], 0, 1) == [At(1)]
    ensures Slice([At(1), At(2)], 1, 2) == [At(2)] && Slice([At(1), At(2)], 0, 2) == [At(1), At(2)]
    ensures Ascending([At(1), At(2)])
  {
    assert [At(1), At(2)][1..] == [At(2)] && [At(2)][1..] == [];
  }

  lemma OnePushed(config: Config, f: Feed, e: Event)
    requires |f.events| < config.bufferEvents
    ensures PushAll(config, f, [e]) == f.(events := f.events + [e])
  {
    assert [e][..0] == [] && [e][0] == e;
    assert PushAll(config, f, []) == f;
  }

  // ----- one step of a run at a time

  lemma Goes(log: seq<Event>, config: Config, run: seq<System>, steps: seq<Step>, step: Step)
    returns (longer: seq<System>, more: seq<Step>, s: System)
    requires IsRun(log, config, 0, run, steps) && Enabled(run[|steps|], step)
    ensures IsRun(log, config, 0, longer, more)
    ensures longer == run + [s] && more == steps + [step] && s == Next(log, config, run[|steps|], step)
    ensures |longer| == |more| + 1 && longer[|more|] == s
    ensures NothingSlips(log, config, run, steps, |steps|) && !Slips(log, config, run[|steps|], step) ==>
      NothingSlips(log, config, longer, more, |more|)
  {
    hide Slips;
    RunExtends(log, config, 0, run, steps, step);
    s := Next(log, config, run[|steps|], step);
    longer, more := run + [s], steps + [step];
  }

  lemma Starts(log: seq<Event>, config: Config)
    ensures IsRun(log, config, 0, [Initial(0)], []) && NothingSlips(log, config, [Initial(0)], [], 0)
  {
  }

  /** A reader resuming from 0, where the feed and the log stand or while the feed is in use. */
  lemma Attaches(log: seq<Event>, config: Config, s: System, id: nat, sampled: nat)
    requires id !in s.readers && sampled <= s.applied && config.maxSubscribers > s.feed.subscribers
    requires !s.feed.closed && s.feed.floor == 0 && (s.feed.position == sampled || !Quiet(config, s.feed, s.now))
    ensures Enabled(s, Attach(id, Some(0), sampled))
    ensures Next(log, config, s, Attach(id, Some(0), sampled)) == s.(
      feed := s.feed.(subscribers := s.feed.subscribers + 1, idleSince := None),
      readers := s.readers[id := Reader(NewSub(Attached(0, true)), Some(0), 0, None)], live := s.live + {id})
    ensures s.feed.events == [] && s.applied == 0 ==>
      !Slips(log, config, s, Attach(id, Some(0), sampled))
  {
  }

  lemma BeginsWatched(log: seq<Event>, config: Config, s: System, id: nat, hi: nat)
    requires id !in s.batches && s.feed.subscribers > 0
    ensures Enabled(s, Begin(id, hi)) && !Slips(log, config, s, Begin(id, hi))
    ensures Next(log, config, s, Begin(id, hi)) == s.(batches := s.batches[id := Sampled(true, hi)])
  {
  }

  lemma Drains(log: seq<Event>, config: Config, s: System, id: nat)
    requires id in s.batches && s.batches[id].Sampled?
    ensures Enabled(s, Drain(id)) && !Slips(log, config, s, Drain(id))
    ensures var b := s.batches[id];
      Next(log, config, s, Drain(id)) ==
        s.(batches := s.batches[id := Drained(b.watched, s.applied, b.hi)], applied := Max(s.applied, b.hi))
  {
  }

  /** A batch of one change that resolves is published. */
  lemma PublishesOne(log: seq<Event>, config: Config, s: System, id: nat, e: Event)
    requires id in s.batches && s.batches[id].Drained? && s.batches[id].watched && !s.feed.closed
    requires Slice(log, s.batches[id].lo, s.batches[id].hi) == [e] && |s.feed.events| < config.bufferEvents
    ensures Enabled(s, Finish(id, {}))
    ensures Next(log, config, s, Finish(id, {})) == s.(
      batches := s.batches - {id},
      feed := s.feed.(events := s.feed.events + [e], position := Max(s.feed.position, s.batches[id].hi)))
  {
    hide Slice, PushAll;
    assert [e][..0] == [] && [e][1..] == [] && NewestLost(Resolves({}), []) == 0;
    assert Filter(Resolves({}), [e]) == [e];
    assert Resolves({})(e) && NewestLost(Resolves({}), [e]) == NewestLost(Resolves({}), [e][..0]);
    OnePushed(config, s.feed, e);
  }

  /** And a reader behind it is handed it. */
  lemma HandsOne(log: seq<Event>, config: Config, s: System, id: nat, e: Event)
    requires id in s.live && id in s.readers && s.readers[id].end.None?
    requires s.feed.events == [e] && s.feed.floor <= s.readers[id].sub.cursor < e.lsn
    ensures Enabled(s, Poll(id)) && !Slips(log, config, s, Poll(id))
    ensures var r := s.readers[id];
      var sub := r.sub.(cursor := e.lsn, delivered := true, handed := r.sub.handed + [e]);
      Next(log, config, s, Poll(id)) == s.(readers := s.readers[id := r.(sub := sub)])
  {
    assert s.feed.events[PartitionPoint(s.feed.events, s.readers[id].sub.cursor)..] == [e];
  }

  // ----- a reader that comes while an unwatched batch asks whether anyone came

  /** A batch asks, and sees nobody: a feed that is not in use is not watched. */
  lemma BeginsUnwatched(log: seq<Event>, config: Config, run: seq<System>, steps: seq<Step>)
    returns (longer: seq<System>, more: seq<Step>)
    requires |run| == |steps| + 1 && IsRun(log, config, 0, run, steps) && run[|steps|] == Initial(0)
    ensures IsRun(log, config, 0, longer, more)
    ensures |longer| == |more| + 1 && longer[|more|] == Initial(0).(batches := map[0 := Sampled(false, 1)])
  {
    hide IsRun, Slips, NothingSlips;
    var s;
    longer, more, s := Goes(log, config, run, steps, Begin(0, 1));
    longer, more, s := Goes(log, config, longer, more, SeePins(0));
    longer, more, s := Goes(log, config, longer, more, SeeClock(0));
    assert s.batches == map[0 := Sampled(false, 1)];
  }

  function Left(s: System, id: nat): System {
    s.(feed := Detached(s.feed, s.now), live := s.live - {id})
  }

  /** Change 1 is about to be applied unwatched when a first reader comes and goes. */
  lemma ReaderComesAndGoes(config: Config) returns (run: seq<System>, steps: seq<Step>)
    requires config.maxSubscribers >= 1
    ensures IsRun([At(1), At(2)], config, 0, run, steps)
    ensures var s := run[|steps|];
      && s == System(Opened(0).(idleSince := Some(0)), 0, map[0 := Sampled(false, 1)], 0, s.readers, {})
      && s.readers.Keys == {0}
  {
    var log := [At(1), At(2)];
    hide IsRun, Slips, NothingSlips;
    Starts(log, config);
    run, steps := BeginsUnwatched(log, config, [Initial(0)], []);
    hide Next, Subscribed, Quiet;
    var s := run[|steps|];
    Attaches(log, config, s, 0, 0);
    run, steps, s := Goes(log, config, run, steps, Attach(0, Some(0), 0));
    Leaves(log, config, s, 0);
    run, steps, s := Goes(log, config, run, steps, Leave(0));
  }

  lemma Leaves(log: seq<Event>, config: Config, s: System, id: nat)
    requires id in s.live
    ensures Enabled(s, Leave(id)) && Next(log, config, s, Leave(id)) == Left(s, id)
  {
  }

  /** An unwatched batch drains and asks again, and sees neither a reader nor a pin. */
  lemma DrainsUnwatched(log: seq<Event>, config: Config, run: seq<System>, steps: seq<Step>)
    returns (longer: seq<System>, more: seq<Step>)
    requires |run| == |steps| + 1 && IsRun(log, config, 0, run, steps)
    requires var s := run[|steps|]; s.feed.subscribers == s.feed.pins == 0 && s.batches == map[0 := Sampled(false, 1)]
    ensures IsRun(log, config, 0, longer, more) && |longer| == |more| + 1
    ensures var s := run[|steps|];
      longer[|more|] == s.(applied := Max(s.applied, 1), batches := map[0 := Closing(1, true)])
  {
    hide IsRun, Slips, NothingSlips, Slice, Published;
    var s;
    longer, more, s := Goes(log, config, run, steps, Drain(0));
    assert s.batches == map[0 := Drained(false, run[|steps|].applied, 1)];
    longer, more, s := Goes(log, config, longer, more, Finish(0, {}));
    longer, more, s := Goes(log, config, longer, more, SeePins(0));
    assert s.batches == map[0 := Closing(1, true)];
  }

  /** Up to the slip: the batch sees neither a reader nor a pin, a second reader attaches at 0, and the idle
      clock that it stopped says nobody is watching. */
  lemma ReaderComesWhileAsking(config: Config) returns (run: seq<System>, steps: seq<Step>, slipAt: nat)
    requires config.maxSubscribers >= 1 && config.idleRetention >= 1
    ensures var log := [At(1), At(2)];
      && |run| == |steps| + 1 && IsRun(log, config, 0, run, steps)
      && slipAt == |steps| - 1 && steps[slipAt] == SeeClock(0)
      && Slips(log, config, run[slipAt], SeeClock(0))
    ensures var s := run[|steps|];
      && s.batches == map[] && s.applied == 1 && s.live == {1} && 1 in s.readers
      && s.feed == Opened(0).(subscribers := 1)
      && s.readers[1] == Reader(NewSub(Attached(0, true)), Some(0), 0, None)
  {
    var log := [At(1), At(2)];
    hide IsRun, Slips, NothingSlips, Next, Enabled, Subscribed;
    run, steps := ReaderComesAndGoes(config);
    run, steps := DrainsUnwatched(log, config, run, steps);
    var s := run[|steps|];
    Attaches(log, config, s, 1, 1);
    run, steps, s := Goes(log, config, run, steps, Attach(1, Some(0), 1));
    slipAt := |steps|;
    AloneItAbandons(log, config, s);
    run, steps, s := Goes(log, config, run, steps, SeeClock(0));
  }

  lemma AloneItAbandons(log: seq<Event>, config: Config, s: System)
    requires s.batches == map[0 := Closing(1, true)] && s.feed == Opened(0).(subscribers := 1) && s.applied == 1
    requires At(1) in log
    ensures Enabled(s, SeeClock(0)) && Slips(log, config, s, SeeClock(0))
    ensures Next(log, config, s, SeeClock(0)) == s.(batches := map[])
  {
    assert s.batches - {0} == map[];
    assert Abandons(log, s, 0) by {
      assert At(1) in log && s.feed.floor < At(1).lsn <= s.applied && !Carried(s.batches - {0}, At(1));
    }
  }

  /** After it the next batch, watched and whole, publishes change 2, */
  lemma NextIsPublished(config: Config) returns (run: seq<System>, steps: seq<Step>, slipAt: nat)
    requires config.bufferEvents >= 1 && config.maxSubscribers >= 1 && config.idleRetention >= 1
    ensures var log := [At(1), At(2)];
      && |run| == |steps| + 1 && IsRun(log, config, 0, run, steps)
      && slipAt < |steps| && steps[slipAt] == SeeClock(0) && Slips(log, config, run[slipAt], SeeClock(0))
    ensures var s := run[|steps|];
      && s.batches == map[] && s.applied == 2 && s.live == {1} && 1 in s.readers
      && s.feed == Opened(0).(subscribers := 1, events := [At(2)], position := 2)
      && s.readers[1] == Reader(NewSub(Attached(0, true)), Some(0), 0, None)
  {
    var log := [At(1), At(2)];
    run, steps, slipAt := ReaderComesWhileAsking(config);
    hide IsRun, Slice, Slips, Next, Enabled, NothingSlips;
    TwoChanges();
    var s := run[|steps|];
    BeginsWatched(log, config, s, 0, 2);
    run, steps, s := Goes(log, config, run, steps, Begin(0, 2));
    Drains(log, config, s, 0);
    run, steps, s := Goes(log, config, run, steps, Drain(0));
    PublishesOne(log, config, s, 0, At(2));
    run, steps, s := Goes(log, config, run, steps, Finish(0, {}));
    assert s.batches == map[] && s.feed.events == [At(2)];
  }

  /** and the second reader, owed change 1 as well, is handed change 2 alone. */
  lemma ReaderIsNeverTold(config: Config) returns (run: seq<System>, steps: seq<Step>)
    requires config.bufferEvents >= 1 && config.maxSubscribers >= 1 && config.idleRetention >= 1
    ensures var log := [At(1), At(2)];
      && IsRun(log, config, 0, run, steps) && !NothingSlips(log, config, run, steps, |steps|)
      && var s := run[|steps|];
         && s.batches == map[] && s.applied == 2 && 1 in s.live && 1 in s.readers
         && s.readers[1].named == Some(0) && s.readers[1].end == None && s.readers[1].sub.handed == [At(2)]
         && Slice(log, 0, s.applied) == [At(1), At(2)]
  {
    var log := [At(1), At(2)];
    var slipAt;
    run, steps, slipAt := NextIsPublished(config);
    hide IsRun, Slice, Slips, Next, Enabled, NothingSlips;
    TwoChanges();
    var s := run[|steps|];
    HandsOne(log, config, s, 1, At(2));
    run, steps, s := Goes(log, config, run, steps, Poll(1));
    assert steps[slipAt] == SeeClock(0);
    ItSlips(log, config, run, steps, slipAt);
  }

  lemma ItSlips(log: seq<Event>, config: Config, run: seq<System>, steps: seq<Step>, i: nat)
    requires IsRun(log, config, 0, run, steps) && i < |steps|
    requires Enabled(run[i], steps[i]) ==> Slips(log, config, run[i], steps[i])
    ensures !NothingSlips(log, config, run, steps, |steps|)
  {
    hide Slips, Enabled, Next;
    assert Enabled(run[i], steps[i]);
  }

  // ----- two batches in flight

  /** A reader at 0 of a feed nothing has been let go from. */
  function Watched(events: seq<Event>, position: nat, applied: nat, batches: map<nat, Batch>, sub: Sub): System {
    var feed := Opened(0).(subscribers := 1, events := events, position := position);
    System(feed, applied, batches, 0, map[0 := Reader(sub, Some(0), 0, None)], {0})
  }

  const AtZero: Sub := NewSub(Attached(0, true))
  const AtTwo: Sub := AtZero.(cursor := 2, delivered := true, handed := [At(2)])

  lemma WatchedFromZero(log: seq<Event>, config: Config) returns (run: seq<System>, steps: seq<Step>)
    requires config.maxSubscribers >= 1
    ensures |run| == |steps| + 1 && IsRun(log, config, 0, run, steps) && NothingSlips(log, config, run, steps, |steps|)
    ensures |steps| == 1 && run[|steps|] == Watched([], 0, 0, map[], AtZero)
  {
    hide IsRun, NothingSlips, Next, Enabled, Slips, Quiet;
    var s := Initial(0);
    Starts(log, config);
    Attaches(log, config, s, 0, 0);
    run, steps, s := Goes(log, config, [s], [], Attach(0, Some(0), 0));
  }

  /** Both changes are drained, in order, by two batches that a reader at 0 watches. */
  lemma TwoInFlight(config: Config) returns (run: seq<System>, steps: seq<Step>)
    requires config.maxSubscribers >= 1
    ensures var log := [At(1), At(2)];
      && |run| == |steps| + 1 && IsRun(log, config, 0, run, steps) && NothingSlips(log, config, run, steps, |steps|)
    ensures |steps| == 5 && run[|steps|] ==
      Watched([], 0, 2, map[0 := Drained(true, 0, 1), 1 := Drained(true, 1, 2)], AtZero)
  {
    var log := [At(1), At(2)];
    hide IsRun, NothingSlips, Next, Enabled, Slips;
    run, steps := WatchedFromZero(log, config);
    var s := run[|steps|];
    BeginsWatched(log, config, s, 0, 1);
    run, steps, s := Goes(log, config, run, steps, Begin(0, 1));
    BeginsWatched(log, config, s, 1, 2);
    run, steps, s := Goes(log, config, run, steps, Begin(1, 2));
    Drains(log, config, s, 0);
    run, steps, s := Goes(log, config, run, steps, Drain(0));
    Drains(log, config, s, 1);
    run, steps, s := Goes(log, config, run, steps, Drain(1));
  }

  /** The later one publishes first, */
  lemma LaterFirst(config: Config) returns (run: seq<System>, steps: seq<Step>)
    requires config.bufferEvents >= 2 && config.maxSubscribers >= 1
    ensures var log := [At(1), At(2)];
      && |run| == 7 && |steps| == 6 && IsRun(log, config, 0, run, steps) && steps[5] == Finish(1, {})
      && NothingSlips(log, config, run, steps, 5)
      && Enabled(run[5], Finish(1, {})) && Slips(log, config, run[5], Finish(1, {}))
      && run[6] == Watched([At(2)], 2, 2, map[0 := Drained(true, 0, 1)], AtZero)
  {
    hide *;
    var log := [At(1), At(2)];
    var before, first := TwoInFlight(config);
    LaterPublishes(log, config);
    var s;
    run, steps, s := Goes(log, config, before, first, Finish(1, {}));
    NoneSlipBefore(log, config, before, first, run, steps, 5);
  }

  /** and the reader polls. */
  lemma LaterRead(config: Config) returns (run: seq<System>, steps: seq<Step>)
    requires config.bufferEvents >= 2 && config.maxSubscribers >= 1
    ensures var log := [At(1), At(2)];
      && |run| == 8 && |steps| == 7 && IsRun(log, config, 0, run, steps) && steps[5] == Finish(1, {})
      && NothingSlips(log, config, run, steps, 5)
      && Enabled(run[5], Finish(1, {})) && Slips(log, config, run[5], Finish(1, {}))
      && run[7] == Watched([At(2)], 2, 2, map[0 := Drained(true, 0, 1)], AtTwo)
  {
    hide *;
    var log := [At(1), At(2)];
    var before, first := LaterFirst(config);
    LaterIsHanded(log, config);
    var s;
    run, steps, s := Goes(log, config, before, first, Poll(0));
    NoneSlipBefore(log, config, before, first, run, steps, 5);
  }

  lemma LaterPublishes(log: seq<Event>, config: Config)
    requires log == [At(1), At(2)] && config.bufferEvents >= 2
    ensures var s := Watched([], 0, 2, map[0 := Drained(true, 0, 1), 1 := Drained(true, 1, 2)], AtZero);
      && Enabled(s, Finish(1, {})) && Slips(log, config, s, Finish(1, {}))
      && Next(log, config, s, Finish(1, {})) == Watched([At(2)], 2, 2, map[0 := Drained(true, 0, 1)], AtZero)
  {
    hide Slice, Slips, Enabled, Next;
    var s := Watched([], 0, 2, map[0 := Drained(true, 0, 1), 1 := Drained(true, 1, 2)], AtZero);
    TwoChanges();
    OvertakesOne(log, config, s);
    PublishesOne(log, config, s, 1, At(2));
  }

  lemma LaterIsHanded(log: seq<Event>, config: Config)
    ensures var s := Watched([At(2)], 2, 2, map[0 := Drained(true, 0, 1)], AtZero);
      && Enabled(s, Poll(0))
      && Next(log, config, s, Poll(0)) == Watched([At(2)], 2, 2, map[0 := Drained(true, 0, 1)], AtTwo)
  {
    hide Slips, Enabled, Next;
    var s := Watched([At(2)], 2, 2, map[0 := Drained(true, 0, 1)], AtZero);
    HandsOne(log, config, s, 0, At(2));
    assert [] + [At(2)] == [At(2)];
    assert s.readers[0 := Reader(AtTwo, Some(0), 0, None)] == map[0 := Reader(AtTwo, Some(0), 0, None)];
  }

  lemma NoneSlipBefore(
    log: seq<Event>, config: Config, run: seq<System>, steps: seq<Step>, longer: seq<System>, more: seq<Step>, n: nat)
    requires |steps| < |run| <= |longer| && |steps| <= |more| < |longer| && n <= |steps|
    requires run == longer[..|run|] && steps == more[..|steps|] && NothingSlips(log, config, run, steps, n)
    ensures NothingSlips(log, config, longer, more, n)
  {
    hide Slips, Enabled;
    forall i | 0 <= i < n && Enabled(longer[i], more[i])
      ensures !Slips(log, config, longer[i], more[i])
    {
      assert longer[i] == run[i] && more[i] == steps[i];
    }
  }

  /** Then the earlier one publishes: the reader has been handed 2, waits, and is never handed 1, with nothing
      in flight and no gap noted. */
  lemma PublishedOutOfTurn(config: Config) returns (run: seq<System>, steps: seq<Step>)
    requires config.bufferEvents >= 2 && config.maxSubscribers >= 1
    ensures var log := [At(1), At(2)];
      && |run| == 9 && |steps| == 8 && IsRun(log, config, 0, run, steps) && steps[5] == Finish(1, {})
      && NothingSlips(log, config, run, steps, 5)
      && Enabled(run[5], Finish(1, {})) && Slips(log, config, run[5], Finish(1, {}))
    ensures var log, s := [At(1), At(2)], run[8];
      && s == Watched([At(2), At(1)], 2, 2, map[], AtTwo) && AtTwo.handed == [At(2)]
      && !Sound(log, config, s.feed) && Polled(s.feed, AtTwo) == (AtTwo, Waits)
      && Slice(log, 0, 2) == [At(1), At(2)]
  {
    hide *;
    var log := [At(1), At(2)];
    var before, first := LaterRead(config);
    TwoChanges();
    EarlierPublishes(log, config);
    var s;
    run, steps, s := Goes(log, config, before, first, Finish(0, {}));
    NoneSlipBefore(log, config, before, first, run, steps, 5);
    WaitsBeside(log, config);
  }

  lemma EarlierPublishes(log: seq<Event>, config: Config)
    requires log == [At(1), At(2)] && config.bufferEvents >= 2
    ensures var s := Watched([At(2)], 2, 2, map[0 := Drained(true, 0, 1)], AtTwo);
      && Enabled(s, Finish(0, {}))
      && Next(log, config, s, Finish(0, {})) == Watched([At(2), At(1)], 2, 2, map[], AtTwo)
  {
    hide Slice, Slips, Enabled, Next;
    TwoChanges();
    PublishesOne(log, config, Watched([At(2)], 2, 2, map[0 := Drained(true, 0, 1)], AtTwo), 0, At(1));
  }

  lemma WaitsBeside(log: seq<Event>, config: Config)
    ensures var f := Watched([At(2), At(1)], 2, 2, map[], AtTwo).feed;
      Polled(f, AtTwo) == (AtTwo, Waits) && !Sound(log, config, f)
    ensures AtTwo.handed == [At(2)]
  {
    var f := Watched([At(2), At(1)], 2, 2, map[], AtTwo).feed;
    assert f.events[0].lsn > f.events[1].lsn;
  }

  lemma OvertakesOne(log: seq<Event>, config: Config, s: System)
    requires log == [At(1), At(2)] && s.feed == Opened(0).(subscribers := 1) && config.bufferEvents >= 2
    requires 1 in s.batches && s.batches[1] == Drained(true, 1, 2)
    ensures Enabled(s, Finish(1, {})) && Slips(log, config, s, Finish(1, {}))
  {
    hide Slice;
    TwoChanges();
    var es := Resolved(log, s.batches[1], {});
    assert [At(2)][1..] == [] && es == [At(2)];
    assert At(1) in log && At(2) in es && At(1) !in es;
    assert Overtakes(log, FloorAfter(0, s.feed.events + es, config.bufferEvents), s.feed.events, es);
  }

  // ----- a lost change that readers are told of

  /** The newest change of a batch cannot be resolved, and a gap over it is due. */
  lemma LostNewestIsNoted(config: Config) returns (run: seq<System>, steps: seq<Step>)
    requires config.bufferEvents >= 1 && config.maxSubscribers >= 1
    ensures var log := [At(1), At(2)];
      && |run| == |steps| + 1 && IsRun(log, config, 0, run, steps) && NothingSlips(log, config, run, steps, |steps|)
    ensures |steps| == 4 && steps[3] == Finish(0, {2})
    ensures run[|steps|] == Watched([At(1)], 2, 2, map[0 := Noting(2)], AtZero)
  {
    var log := [At(1), At(2)];
    hide IsRun, NothingSlips, Next, Enabled, Slips;
    run, steps := WatchedFromZero(log, config);
    var s := run[|steps|];
    BeginsWatched(log, config, s, 0, 2);
    run, steps, s := Goes(log, config, run, steps, Begin(0, 2));
    Drains(log, config, s, 0);
    run, steps, s := Goes(log, config, run, steps, Drain(0));
    LosesNewest(log, config, s);
    run, steps, s := Goes(log, config, run, steps, Finish(0, {2}));
  }

  /** Which costs nothing: the reader is handed the change before it, and is then ended over the gap. */
  lemma LostNewestIsTold(config: Config) returns (run: seq<System>, steps: seq<Step>)
    requires config.bufferEvents >= 1 && config.maxSubscribers >= 1
    ensures var log := [At(1), At(2)];
      && IsRun(log, config, 0, run, steps) && NothingSlips(log, config, run, steps, |steps|)
      && |steps| == 7 && steps[3] == Finish(0, {2})
    ensures var s := run[|steps|];
      && s.batches == map[] && s.applied == 2 && 0 in s.readers && s.readers[0].named == Some(0)
      && s.readers[0].sub.handed == [At(1)] && s.readers[0].end == Some(Overran(2))
  {
    var log := [At(1), At(2)];
    hide IsRun, NothingSlips, Next, Enabled, Slips;
    run, steps := LostNewestIsNoted(config);
    var s := run[|steps|];
    HandsOne(log, config, s, 0, At(1));
    run, steps, s := Goes(log, config, run, steps, Poll(0));
    EndsOverGap(log, config, s);
    run, steps, s := Goes(log, config, run, steps, Gap(0));
    run, steps, s := Goes(log, config, run, steps, Poll(0));
  }

  lemma LosesNewest(log: seq<Event>, config: Config, s: System)
    requires log == [At(1), At(2)] && config.bufferEvents >= 1
    requires s == Watched([], 0, 2, map[0 := Drained(true, 0, 2)], AtZero)
    ensures Enabled(s, Finish(0, {2})) && !Slips(log, config, s, Finish(0, {2}))
    ensures Next(log, config, s, Finish(0, {2})) == Watched([At(1)], 2, 2, map[0 := Noting(2)], AtZero)
  {
    hide Slice, PushAll, FloorAfter;
    TwoChanges();
    var lost := Resolves({2});
    assert log[1..] == [At(2)] && [At(2)][1..] == [] && Filter(lost, log) == [At(1)];
    assert log[..1] == [At(1)] && [At(1)][..0] == [] && NewestLost(lost, []) == 0 && NewestLost(lost, [At(1)]) == 0;
    OnePushed(config, s.feed, At(1));
  }

  lemma EndsOverGap(log: seq<Event>, config: Config, s: System)
    requires s.feed == Opened(0).(subscribers := 1, events := [At(1)], position := 2) && s.applied == 2
    requires s.batches == map[0 := Noting(2)] && s.live == {0} && 0 in s.readers && s.readers[0].end.None?
    requires s.readers[0].sub.strict && s.readers[0].sub.cursor < 2
    ensures Enabled(s, Gap(0)) && !Slips(log, config, s, Gap(0))
    ensures var t := Next(log, config, s, Gap(0));
      && t.batches == map[] && t.applied == 2
      && Enabled(t, Poll(0)) && !Slips(log, config, t, Poll(0))
      && Next(log, config, t, Poll(0)) == t.(readers := s.readers[0 := s.readers[0].(end := Some(Overran(2)))])
  {
  }
}
