/** What a run of the feed promises one reader: where it starts, who is let in, how long the feed stays awake,
    and that a closed feed ends everybody (src/changefeed.rs). */
module FeedReaders {
  import opened JsonValues
  import opened Sorting
  import opened Feeds
  import opened FeedRuns
  import opened FeedGaps

  lemma OneStep(
    log: seq<Event>, config: Config, position: nat, run: seq<System>, steps: seq<Step>, i: nat)
    requires IsRun(log, config, position, run, steps) && i < |steps|
    ensures |run| == |steps| + 1 && Enabled(run[i], steps[i]) && run[i + 1] == Next(log, config, run[i], steps[i])
  {
    hide Enabled, Next;
  }

  /** Every live reader is counted, slip or no slip. */
  ghost predicate Counted(s: System) {
    s.live <= s.readers.Keys && s.feed.subscribers == |s.live|
  }

  lemma OtherStepsCountNobody(log: seq<Event>, config: Config, s: System, step: Step)
    requires Enabled(s, step) && !step.Attach? && !step.Leave?
    ensures var t := Next(log, config, s, step);
      t.live == s.live && t.feed.subscribers == s.feed.subscribers && s.readers.Keys <= t.readers.Keys
  {
    hide Slice, Polled, Quiet, Retained, Filter, NewestLost;
    if step.Finish? && s.batches[step.id].watched {
      PushRaisesFloor(config, s.feed, Resolved(log, s.batches[step.id], step.lost));
    }
  }

  lemma StepCounts(log: seq<Event>, config: Config, s: System, step: Step)
    requires Counted(s) && Enabled(s, step)
    ensures Counted(Next(log, config, s, step))
  {
    if step.Attach? {
      hide Quiet, Retained;
      assert step.reader !in s.live;
    } else if step.Leave? {
      assert |s.live - {step.reader}| == |s.live| - 1;
    } else {
      hide Next, Enabled;
      OtherStepsCountNobody(log, config, s, step);
    }
  }

  lemma {:induction false} RunCounts(
    log: seq<Event>, config: Config, position: nat, run: seq<System>, steps: seq<Step>, i: nat)
    requires IsRun(log, config, position, run, steps) && i < |run|
    ensures Counted(run[i])
  {
    if i > 0 {
      hide Enabled, Next, Counted;
      OneStep(log, config, position, run, steps, i - 1);
      RunCounts(log, config, position, run, steps, i - 1);
      StepCounts(log, config, run[i - 1], steps[i - 1]);
    }
  }

  // ----- where a reader starts

  /** Somebody reads the feed, a pin holds it, or its last reader left less than the window ago. */
  predicate InUse(config: Config, f: Feed, now: nat) {
    || f.subscribers > 0
    || f.pins > 0
    || (f.idleSince.Some? && now - f.idleSince.value < config.idleRetention)
  }

  /** Where a reader that comes now finds the feed: a feed in use where it stands, one not in use no earlier
      than the applied position its caller read. */
  function StandsAt(config: Config, f: Feed, sampled: nat, now: nat): nat {
    if InUse(config, f, now) then f.position else Max(f.position, sampled)
  }

  function OpenFrom(config: Config, f: Feed, sampled: nat, now: nat): nat {
    if !InUse(config, f, now) && sampled > f.position then Max(f.floor, sampled) else f.floor
  }

  /** A reader is let in if and only if the feed is open and not full and the position it names, if it names
      one, is neither under the floor nor ahead of the feed; and it starts at the position it names, or, naming
      none, where the feed stands. */
  lemma ReaderStarts(
    log: seq<Event>, config: Config, position: nat, run: seq<System>, steps: seq<Step>, i: nat,
    id: nat, after: Option<nat>, sampled: nat)
    requires IsRun(log, config, position, run, steps) && i < |steps| && steps[i] == Attach(id, after, sampled)
    ensures var f, now := run[i].feed, run[i].now;
      var stands, opens := StandsAt(config, f, sampled, now), OpenFrom(config, f, sampled, now);
      && (id in run[i + 1].readers <==>
            !f.closed && f.subscribers < config.maxSubscribers && (after.Some? ==> opens <= after.value <= stands))
      && (id in run[i + 1].readers <==> id in run[i + 1].live)
      && (id in run[i + 1].readers ==>
            var start := if after.Some? then after.value else stands;
            run[i + 1].readers[id] == Reader(Sub(start, after.Some?, false, start, []), after, start, None))
  {
    OneStep(log, config, position, run, steps, i);
    RunCounts(log, config, position, run, steps, i);
  }

  // ----- what it is handed

  /** A reader stays known, as the one that came. */
  lemma StepKeepsReader(log: seq<Event>, config: Config, s: System, step: Step, id: nat)
    requires Enabled(s, step) && id in s.readers
    ensures var t := Next(log, config, s, step);
      id in t.readers && t.readers[id].named == s.readers[id].named && t.readers[id].joined == s.readers[id].joined
  {
    hide Slice, Polled, Subscribed, Published, Filter, NewestLost;
  }

  lemma {:induction false} ReaderLasts(
    log: seq<Event>, config: Config, position: nat, run: seq<System>, steps: seq<Step>, i: nat, n: nat, id: nat)
    requires IsRun(log, config, position, run, steps) && i <= n < |run| && id in run[i].readers
    ensures id in run[n].readers
    ensures run[n].readers[id].named == run[i].readers[id].named
    ensures run[n].readers[id].joined == run[i].readers[id].joined
    decreases n
  {
    hide Enabled, Next;
    if i < n {
      OneStep(log, config, position, run, steps, n - 1);
      ReaderLasts(log, config, position, run, steps, i, n - 1, id);
      StepKeepsReader(log, config, run[n - 1], steps[n - 1], id);
    }
  }

  /** A reader that names no position is never handed what was published before it came; and one that names a
      position, nothing at or before that. */
  lemma HandedOnlyLater(
    log: seq<Event>, config: Config, position: nat, run: seq<System>, steps: seq<Step>, i: nat, n: nat,
    id: nat, after: Option<nat>, sampled: nat)
    requires Ascending(log) && IsRun(log, config, position, run, steps) && i < n < |run|
    requires NothingSlips(log, config, run, steps, n)
    requires steps[i] == Attach(id, after, sampled) && id in run[i + 1].readers
    ensures id in run[n].readers
    ensures forall e :: e in run[n].readers[id].sub.handed ==>
      e.lsn > if after.Some? then after.value else run[i].feed.position
  {
    hide Enabled, Next, NothingSlips, Slice;
    ReaderStarts(log, config, position, run, steps, i, id, after, sampled);
    ReaderLasts(log, config, position, run, steps, i + 1, n, id);
    NoReaderMissesAnEvent(log, config, position, run, steps, n, id);
    var r := run[n].readers[id];
    SliceHas(log, r.sub.start, r.sub.cursor);
  }

  // ----- a full feed, a closed feed

  /** No more readers at once than the feed allows. */
  lemma {:induction false} NeverTooMany(
    log: seq<Event>, config: Config, position: nat, run: seq<System>, steps: seq<Step>, i: nat)
    requires IsRun(log, config, position, run, steps) && i < |run|
    ensures |run[i].live| <= config.maxSubscribers
  {
    if i > 0 {
      OneStep(log, config, position, run, steps, i - 1);
      RunCounts(log, config, position, run, steps, i - 1);
      NeverTooMany(log, config, position, run, steps, i - 1);
      StepNeverTooMany(log, config, run[i - 1], steps[i - 1]);
    }
  }

  lemma StepNeverTooMany(log: seq<Event>, config: Config, s: System, step: Step)
    requires Enabled(s, step) && Counted(s) && |s.live| <= config.maxSubscribers
    ensures |Next(log, config, s, step).live| <= config.maxSubscribers
  {
    hide Slice, Polled, Published, Filter, NewestLost;
    match step
    case Attach(id, after, sampled) => assert id !in s.live;
    case Leave(id) => assert |s.live - {id}| == |s.live| - 1;
    case _ =>
  }

  /** Once closed, a feed stays closed, lets nobody in, and ends the reader that polls it. */
  lemma ClosedEndsReaders(log: seq<Event>, config: Config, s: System, step: Step)
    requires Enabled(s, step) && (step.Close? || s.feed.closed)
    ensures var t := Next(log, config, s, step);
      && t.feed.closed
      && (s.feed.closed ==> t.readers.Keys == s.readers.Keys)
      && (s.feed.closed && s.feed.events == [] && step.Poll? ==> t.readers[step.reader].end.Some?)
      && (step.Close? || s.feed.events == [] ==> t.feed.events == [])
  {
    hide Slice, Filter, NewestLost;
    if step.Poll? { PollGoesOn(s.feed, s.readers[step.reader].sub); }
  }

  lemma {:induction false} StaysClosed(
    log: seq<Event>, config: Config, position: nat, run: seq<System>, steps: seq<Step>, i: nat, n: nat)
    requires IsRun(log, config, position, run, steps) && i < n < |run| && steps[i] == Close
    ensures run[n].feed.closed && run[n].feed.events == [] && run[n].readers.Keys == run[i].readers.Keys
    ensures n < |steps| && steps[n].Poll? ==> run[n + 1].readers[steps[n].reader].end.Some?
    decreases n
  {
    hide Enabled, Next;
    OneStep(log, config, position, run, steps, n - 1);
    if i + 1 < n { StaysClosed(log, config, position, run, steps, i, n - 1); }
    ClosedEndsReaders(log, config, run[n - 1], steps[n - 1]);
    CloseKeepsReaders(log, config, run[n - 1]);
    if n < |steps| {
      OneStep(log, config, position, run, steps, n);
      ClosedEndsReaders(log, config, run[n], steps[n]);
    }
  }

  lemma CloseKeepsReaders(log: seq<Event>, config: Config, s: System)
    ensures Enabled(s, Close) && Next(log, config, s, Close).readers == s.readers
  {
  }

  // ----- how long a feed stays awake

  /** The three reads of an asking, with nothing between them, answer whether the feed is active. */
  lemma AskedAtOnce(config: Config, f: Feed, asking: Batch, now: nat)
    requires (asking.Opening? || asking.Closing?) && !asking.noPins
    ensures var one := SawReaders(f, asking);
      var two := if one == Some(asking) then SawPins(f, asking) else one;
      var three := if two == Some(asking.(noPins := true)) then SawClock(config, f, two.value, now) else two;
      three == Answered(asking, Active(config, f, now))
  {
  }

  function Count(steps: seq<Step>, which: Step -> bool): nat {
    if steps == [] then 0 else Count(steps[..|steps| - 1], which) + if which(steps[|steps| - 1]) then 1 else 0
  }

  /** The pins are those taken and not dropped yet, and while there is one the feed is active. */
  lemma {:induction false} PinsHold(
    log: seq<Event>, config: Config, position: nat, run: seq<System>, steps: seq<Step>, n: nat)
    requires IsRun(log, config, position, run, steps) && n < |run|
    ensures var pins, unpins := Count(steps[..n], (s: Step) => s.Pin?), Count(steps[..n], (s: Step) => s.Unpin?);
      && unpins <= pins && run[n].feed.pins == pins - unpins
      && (unpins < pins ==> Active(config, run[n].feed, run[n].now))
  {
    if n > 0 {
      OneStep(log, config, position, run, steps, n - 1);
      PinsHold(log, config, position, run, steps, n - 1);
      assert steps[..n][..n - 1] == steps[..n - 1];
      StepPins(log, config, run[n - 1], steps[n - 1]);
    }
  }

  lemma StepPins(log: seq<Event>, config: Config, s: System, step: Step)
    requires Enabled(s, step)
    ensures Next(log, config, s, step).feed.pins ==
      s.feed.pins + (if step.Pin? then 1 else 0) - (if step.Unpin? then 1 else 0)
  {
    hide Slice, Polled, Filter, NewestLost, Quiet;
    if step.Finish? && s.batches[step.id].watched {
      PushRaisesFloor(config, s.feed, Resolved(log, s.batches[step.id], step.lost));
    }
  }

  /** The last reader's leaving keeps the feed active, while nobody comes, for exactly the window; a pin keeps
      it longer, and closing ends it. */
  lemma RetainedForTheWindow(
    log: seq<Event>, config: Config, position: nat, run: seq<System>, steps: seq<Step>, i: nat, n: nat)
    requires IsRun(log, config, position, run, steps) && i < n < |run|
    requires steps[i].Leave? && forall j :: i < j <= n ==> run[j].live == {}
    ensures Active(config, run[n].feed, run[n].now) <==>
      run[n].feed.pins > 0 || (!run[n].feed.closed && run[n].now - run[i].now < config.idleRetention)
  {
    hide IsRun, Enabled, Next;
    IdleSince(log, config, position, run, steps, i, n);
    RunCounts(log, config, position, run, steps, n);
  }

  lemma {:induction false} IdleSince(
    log: seq<Event>, config: Config, position: nat, run: seq<System>, steps: seq<Step>, i: nat, n: nat)
    requires IsRun(log, config, position, run, steps) && i < n < |run|
    requires steps[i].Leave? && forall j :: i < j <= n ==> run[j].live == {}
    ensures run[n].feed.idleSince == Some(run[i].now)
    decreases n
  {
    hide Enabled, Next;
    OneStep(log, config, position, run, steps, n - 1);
    RunCounts(log, config, position, run, steps, n - 1);
    RunCounts(log, config, position, run, steps, n);
    if i + 1 < n { IdleSince(log, config, position, run, steps, i, n - 1); }
    StepIdles(log, config, run[n - 1], steps[n - 1]);
  }

  lemma StepIdles(log: seq<Event>, config: Config, s: System, step: Step)
    requires Enabled(s, step) && Counted(s) && Next(log, config, s, step).live == {}
    ensures step.Leave? ==> s.live != {} && Next(log, config, s, step).feed.idleSince == Some(s.now)
    ensures !step.Leave? ==> Next(log, config, s, step).feed.idleSince == s.feed.idleSince
  {
    hide Slice, Polled, Filter, NewestLost, Quiet;
    if step.Leave? { assert |s.live - {step.reader}| == |s.live| - 1; }
    if step.Finish? && s.batches[step.id].watched {
      PushRaisesFloor(config, s.feed, Resolved(log, s.batches[step.id], step.lost));
    }
    if step.Attach? { assert step.reader in s.live + {step.reader}; }
  }
}
