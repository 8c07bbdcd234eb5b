/** At-least-once delivery over whole runs: step-downs, restarts and promotions (src/webhook.rs). */
module WebhookRuns {
  import opened JsonValues
  import opened Sorting
  import opened Feeds
  import opened ChangeStreams

  /** `yielded` is what the stream opened at `base` has yielded; the first `sent` of it is settled and the
      rest is the batch in hand, acknowledged or not. */
  datatype Sender = Sender(base: nat, yielded: seq<Event>, sent: nat, acked: bool)

  datatype Node = Node(local: nat, sender: Option<Sender>)

  /** `recorded` is the greatest position a majority has held, `proposed` the positions written to the progress
      log, and `acks` the batches the endpoint answered with success. */
  datatype Group = Group(recorded: nat, proposed: set<nat>, nodes: map<nat, Node>, acks: seq<seq<Event>>, gapped: bool)

  /** A proposed position may land at any time, long after the sender that proposed it stopped. */
  datatype Step =
    | Open(n: nat, seen: nat)
    | OpenPastGap(n: nat, to: nat)
    | Pull(n: nat, e: Event)
    | PostFails(n: nat)
    | PostSucceeds(n: nat)
    | Propose(n: nat)
    | Land(position: nat)
    | Record(n: nat)
    | Stop(n: nat)
    | Restart(n: nat, kept: nat)

  function Batch(s: Sender): seq<Event> {
    if s.sent <= |s.yielded| then s.yielded[s.sent..] else []
  }

  predicate Sending(g: Group, n: nat) {
    n in g.nodes && g.nodes[n].sender.Some?
  }

  /** `owed` is the log as the registration's filter admits it. */
  predicate Enabled(owed: seq<Event>, g: Group, step: Step) {
    match step
    case Open(n, seen) => n in g.nodes && g.nodes[n].sender.None? && seen <= g.recorded
    case OpenPastGap(n, _) => n in g.nodes && g.nodes[n].sender.None?
    case Pull(n, e) =>
      Sending(g, n) && !g.nodes[n].sender.value.acked &&
      var s := g.nodes[n].sender.value; s.yielded + [e] == Slice(owed, s.base, e.lsn)
    case PostFails(n) => Sending(g, n) && !g.nodes[n].sender.value.acked && Batch(g.nodes[n].sender.value) != []
    case PostSucceeds(n) => Sending(g, n) && !g.nodes[n].sender.value.acked && Batch(g.nodes[n].sender.value) != []
    case Propose(n) => Sending(g, n) && g.nodes[n].sender.value.acked && Batch(g.nodes[n].sender.value) != []
    case Land(position) => position in g.proposed
    case Record(n) => Sending(g, n) && g.nodes[n].sender.value.acked && Batch(g.nodes[n].sender.value) != []
    case Stop(n) => n in g.nodes
    case Restart(n, kept) => n in g.nodes && kept <= g.nodes[n].local
  }

  function Put(g: Group, n: nat, node: Node): Group {
    g.(nodes := g.nodes[n := node])
  }

  function Next(owed: seq<Event>, g: Group, step: Step): Group
    requires Enabled(owed, g, step)
  {
    match step
    case Open(n, seen) =>
      var at := Max(g.nodes[n].local, seen);
      Put(g, n, Node(at, Some(Sender(at, [], 0, false))))
    case OpenPastGap(n, to) => Put(g, n, Node(to, None)).(gapped := true)
    case Pull(n, e) =>
      var s := g.nodes[n].sender.value;
      Put(g, n, g.nodes[n].(sender := Some(s.(yielded := s.yielded + [e]))))
    case PostFails(n) => g
    case PostSucceeds(n) =>
      var s := g.nodes[n].sender.value;
      Put(g, n, g.nodes[n].(sender := Some(s.(acked := true)))).(acks := g.acks + [Batch(s)])
    case Propose(n) => g.(proposed := g.proposed + {Reach(g.nodes[n].sender.value)})
    case Land(position) => g.(recorded := Max(g.recorded, position))
    case Record(n) =>
      var s := g.nodes[n].sender.value;
      var last := s.yielded[|s.yielded| - 1].lsn;
      Put(g, n, Node(last, Some(s.(sent := |s.yielded|, acked := false)))).(recorded := Max(g.recorded, last))
    case Stop(n) => Put(g, n, g.nodes[n].(sender := None))
    case Restart(n, kept) => Put(g, n, Node(kept, None))
  }

  // ----- what the endpoint has seen

  /** The newest event acknowledged so far. */
  function High(start: nat, acks: seq<seq<Event>>): nat {
    if acks == [] then start
    else
      var last := acks[|acks| - 1];
      var before := High(start, acks[..|acks| - 1]);
      if last == [] then before else Max(before, last[|last| - 1].lsn)
  }

  function Newer(than: nat): Event -> bool {
    (e: Event) => e.lsn > than
  }

  /** The acknowledged events in the order they came, redeliveries dropped. */
  function Collapsed(start: nat, acks: seq<seq<Event>>): seq<Event> {
    if acks == [] then []
    else
      var before := acks[..|acks| - 1];
      Collapsed(start, before) + Filter(Newer(High(start, before)), acks[|acks| - 1])
  }

  function Reach(s: Sender): nat {
    if s.yielded == [] then s.base else s.yielded[|s.yielded| - 1].lsn
  }

  function Settled(s: Sender): nat
    requires s.sent <= |s.yielded|
  {
    if s.sent == 0 then s.base else s.yielded[s.sent - 1].lsn
  }

  ghost predicate SenderInv(owed: seq<Event>, start: nat, high: nat, s: Sender) {
    && start <= s.base && s.sent <= |s.yielded|
    && s.yielded == Slice(owed, s.base, Reach(s))
    && Settled(s) <= high
    && (s.acked ==> Reach(s) <= high)
  }

  /** A node's position is recorded, and a sender's is where it has settled. */
  ghost predicate NodeInv(owed: seq<Event>, start: nat, recorded: nat, high: nat, node: Node) {
    && node.local <= recorded
    && (node.sender.Some? ==>
          SenderInv(owed, start, high, node.sender.value) && node.local == Settled(node.sender.value))
  }

  ghost predicate Inv(owed: seq<Event>, start: nat, g: Group) {
    var high := High(start, g.acks);
    && Collapsed(start, g.acks) == Slice(owed, start, high)
    && start <= g.recorded <= high && (forall p :: p in g.proposed ==> p <= high)
    && forall n :: n in g.nodes ==> NodeInv(owed, start, g.recorded, high, g.nodes[n])
  }

  lemma {:induction false} NewerOfSlice(owed: seq<Event>, lo: nat, mid: nat, hi: nat)
    requires lo <= mid
    ensures Filter(Newer(mid), Slice(owed, lo, hi)) == Slice(owed, mid, hi)
  {
    if owed != [] { NewerOfSlice(owed[1..], lo, mid, hi); }
  }

  lemma {:induction false} EmptyWindow(owed: seq<Event>, lo: nat, hi: nat)
    requires hi <= lo
    ensures Slice(owed, lo, hi) == []
  {
    if owed != [] { EmptyWindow(owed[1..], lo, hi); }
  }

  /** A batch in hand continues the log from what is settled. */
  lemma BatchIsSlice(owed: seq<Event>, start: nat, high: nat, s: Sender)
    requires Ascending(owed) && SenderInv(owed, start, high, s)
    ensures Batch(s) == Slice(owed, Settled(s), Reach(s)) && s.base <= Settled(s) <= Reach(s)
    ensures Batch(s) != [] ==> Batch(s)[|Batch(s)| - 1].lsn == Reach(s)
  {
    if s.yielded != [] { SlicePrefix(owed, s.base, Reach(s), |s.yielded|); }
    if s.sent > 0 {
      SlicePrefix(owed, s.base, Reach(s), s.sent);
      SliceJoins(owed, s.base, Settled(s), Reach(s));
      assert s.yielded == s.yielded[..s.sent] + s.yielded[s.sent..];
    }
  }

  lemma AckExtends(owed: seq<Event>, start: nat, acks: seq<seq<Event>>, settled: nat, reach: nat, batch: seq<Event>)
    requires Ascending(owed) && Collapsed(start, acks) == Slice(owed, start, High(start, acks))
    requires batch == Slice(owed, settled, reach) && batch != [] && batch[|batch| - 1].lsn == reach
    requires settled <= High(start, acks) && start <= High(start, acks)
    ensures High(start, acks + [batch]) == Max(High(start, acks), reach)
    ensures Collapsed(start, acks + [batch]) == Slice(owed, start, High(start, acks + [batch]))
  {
    var high := High(start, acks);
    assert (acks + [batch])[..|acks|] == acks;
    NewerOfSlice(owed, settled, high, reach);
    if reach <= high {
      EmptyWindow(owed, high, reach);
    } else {
      SliceJoins(owed, start, high, reach);
    }
  }

  lemma PullKeeps(owed: seq<Event>, start: nat, high: nat, s: Sender, e: Event)
    requires Ascending(owed) && SenderInv(owed, start, high, s) && s.yielded + [e] == Slice(owed, s.base, e.lsn)
      && !s.acked
    ensures SenderInv(owed, start, high, s.(yielded := s.yielded + [e]))
    ensures s.sent <= |s.yielded| && Settled(s.(yielded := s.yielded + [e])) == Settled(s)
  {
  }

  lemma StepKeeps(owed: seq<Event>, start: nat, g: Group, step: Step)
    requires Ascending(owed) && Inv(owed, start, g) && LocalsFrom(start, g) && Enabled(owed, g, step)
    requires step.Restart? ==> step.kept >= start
    ensures !step.OpenPastGap? ==> Inv(owed, start, Next(owed, g, step)) && LocalsFrom(start, Next(owed, g, step))
  {
    LocalsStay(owed, start, g, step);
    match step
    case Open(n, seen) => OpenKeeps(owed, start, g, n, seen);
    case OpenPastGap(_, _) =>
    case Pull(n, e) => PullStepKeeps(owed, start, g, n, e);
    case PostSucceeds(n) => AckKeeps(owed, start, g, n);
    case Record(n) => RecordKeeps(owed, start, g, n);
    case _ => StoppingKeeps(owed, start, g, step);
  }

  ghost predicate LocalsFrom(start: nat, g: Group) {
    forall n :: n in g.nodes ==> g.nodes[n].local >= start
  }

  lemma LocalsStay(owed: seq<Event>, start: nat, g: Group, step: Step)
    requires Ascending(owed) && Inv(owed, start, g) && LocalsFrom(start, g) && Enabled(owed, g, step)
    requires step.Restart? ==> step.kept >= start
    ensures !step.OpenPastGap? ==> LocalsFrom(start, Next(owed, g, step))
  {
    hide Slice, Collapsed, High, Ascending;
    if step.Record? {
      BatchIsSlice(owed, start, High(start, g.acks), g.nodes[step.n].sender.value);
    }
  }

  lemma OpenKeeps(owed: seq<Event>, start: nat, g: Group, n: nat, seen: nat)
    requires Inv(owed, start, g) && LocalsFrom(start, g) && Enabled(owed, g, Open(n, seen))
    ensures Inv(owed, start, Next(owed, g, Open(n, seen)))
  {
    hide Slice, Collapsed, High;
    OpenedSlice(owed, Max(g.nodes[n].local, seen));
  }

  lemma PullStepKeeps(owed: seq<Event>, start: nat, g: Group, n: nat, e: Event)
    requires Ascending(owed) && Inv(owed, start, g) && Enabled(owed, g, Pull(n, e))
    ensures Inv(owed, start, Next(owed, g, Pull(n, e)))
  {
    hide Slice, Collapsed, High, Ascending, SenderInv;
    PullKeeps(owed, start, High(start, g.acks), g.nodes[n].sender.value, e);
  }

  lemma RecordKeeps(owed: seq<Event>, start: nat, g: Group, n: nat)
    requires Ascending(owed) && Inv(owed, start, g) && Enabled(owed, g, Record(n))
    ensures Inv(owed, start, Next(owed, g, Record(n)))
  {
    hide Slice, Collapsed, High, Ascending;
    BatchIsSlice(owed, start, High(start, g.acks), g.nodes[n].sender.value);
  }

  lemma StoppingKeeps(owed: seq<Event>, start: nat, g: Group, step: Step)
    requires Inv(owed, start, g) && Enabled(owed, g, step)
      && (step.PostFails? || step.Propose? || step.Land? || step.Stop? || step.Restart?)
    ensures Inv(owed, start, Next(owed, g, step))
  {
    hide Slice, Collapsed, High;
  }

  lemma OpenedSlice(owed: seq<Event>, at: nat)
    ensures Slice(owed, at, at) == []
  {
    EmptyWindow(owed, at, at);
  }

  lemma AckKeeps(owed: seq<Event>, start: nat, g: Group, n: nat)
    requires Ascending(owed) && Inv(owed, start, g) && Enabled(owed, g, PostSucceeds(n))
    ensures Inv(owed, start, Next(owed, g, PostSucceeds(n)))
  {
    hide Slice, Collapsed, High;
    var high, s := High(start, g.acks), g.nodes[n].sender.value;
    BatchIsSlice(owed, start, high, s);
    AckExtends(owed, start, g.acks, Settled(s), Reach(s), Batch(s));
  }

  function Initial(start: nat, members: set<nat>): Group {
    Group(start, {}, map n | n in members :: Node(start, None), [], false)
  }

  ghost predicate IsRun(owed: seq<Event>, start: nat, members: set<nat>, run: seq<Group>, steps: seq<Step>) {
    && |run| == |steps| + 1 && run[0] == Initial(start, members)
    && forall i :: 0 <= i < |steps| ==>
         && Enabled(owed, run[i], steps[i]) && run[i + 1] == Next(owed, run[i], steps[i])
         && (steps[i].Restart? ==> steps[i].kept >= start)
  }

  /** A sender opens at the greater of its node's position and the recorded one it sees, and no position goes
      back but by a restart or a gap. */
  lemma PositionsOnlyGrow(owed: seq<Event>, start: nat, g: Group, step: Step, n: nat)
    requires Ascending(owed) && Inv(owed, start, g) && Enabled(owed, g, step) && n in g.nodes
    requires !step.Restart? && !step.OpenPastGap?
    ensures var t := Next(owed, g, step);
      && n in t.nodes && t.nodes[n].local >= g.nodes[n].local && t.recorded >= g.recorded
      && (step.Open? && step.n == n ==>
            && t.nodes[n].local >= step.seen && (t.nodes[n].local == step.seen || t.nodes[n].local == g.nodes[n].local)
            && t.nodes[n].sender == Some(Sender(t.nodes[n].local, [], 0, false)))
  {
    hide Slice, Collapsed, High;
    if step.Record? { BatchIsSlice(owed, start, High(start, g.acks), g.nodes[step.n].sender.value); }
  }

  lemma NeverUngapped(owed: seq<Event>, g: Group, step: Step)
    requires Enabled(owed, g, step)
    ensures Next(owed, g, step).gapped == (g.gapped || step.OpenPastGap?)
  {
    hide Slice;
  }

  lemma StartKept(owed: seq<Event>, start: nat, members: set<nat>)
    ensures Inv(owed, start, Initial(start, members)) && LocalsFrom(start, Initial(start, members))
  {
    EmptyWindow(owed, start, start);
  }

  lemma RunSteps(owed: seq<Event>, start: nat, members: set<nat>, run: seq<Group>, steps: seq<Step>, i: nat)
    requires IsRun(owed, start, members, run, steps) && i < |run|
    ensures |run| == |steps| + 1 && (i == 0 ==> run[i] == Initial(start, members))
    ensures i > 0 ==>
      && Enabled(owed, run[i - 1], steps[i - 1]) && run[i] == Next(owed, run[i - 1], steps[i - 1])
      && (steps[i - 1].Restart? ==> steps[i - 1].kept >= start)
  {
    hide Enabled, Next, Initial;
  }

  lemma {:induction false} RunKeeps(
    owed: seq<Event>, start: nat, members: set<nat>, run: seq<Group>, steps: seq<Step>, i: nat)
    requires Ascending(owed) && IsRun(owed, start, members, run, steps) && i < |run| && !run[i].gapped
    ensures Inv(owed, start, run[i]) && LocalsFrom(start, run[i])
  {
    hide *;
    RunSteps(owed, start, members, run, steps, i);
    if i == 0 {
      StartKept(owed, start, members);
    } else {
      NeverUngapped(owed, run[i - 1], steps[i - 1]);
      RunKeeps(owed, start, members, run, steps, i - 1);
      StepKeeps(owed, start, run[i - 1], steps[i - 1]);
    }
  }

  /** Across any run with no recorded gap, what the endpoint acknowledged, redeliveries collapsed, is in
      order exactly the admitted events above the start and up to the recorded position, followed by the
      admitted events whose acknowledgement has not been recorded yet; and no node's own position passes an
      admitted event the endpoint has not acknowledged. */
  lemma EveryAdmittedEventIsAcknowledged(log: seq<Event>, filter: CdcFilter, start: nat, members: set<nat>,
                                         run: seq<Group>, steps: seq<Step>, i: nat)
    requires Ascending(log)
    requires IsRun(Filter(Admitting(filter), log), start, members, run, steps) && i < |run| && !run[i].gapped
    ensures var g := run[i]; var high := High(start, g.acks);
      && start <= g.recorded <= high
      && Collapsed(start, g.acks) == AdmittedIn(log, filter, start, g.recorded)
        + AdmittedIn(log, filter, g.recorded, high)
      && (forall n :: n in g.nodes ==> g.nodes[n].local <= g.recorded)
      && forall n, e :: n in g.nodes && e in log && Admits(filter, e) && start < e.lsn <= g.nodes[n].local
           ==> e in Collapsed(start, g.acks)
  {
    var owed, g := Filter(Admitting(filter), log), run[i];
    var high := High(start, g.acks);
    FilterAscends(log, Admitting(filter));
    RunKeeps(owed, start, members, run, steps, i);
    FiltersCommute(log, filter, start, g.recorded);
    FiltersCommute(log, filter, g.recorded, high);
    SliceJoins(owed, start, g.recorded, high);
    SliceHas(owed, start, high);
    FilterHas(log, Admitting(filter));
  }

  lemma {:induction false} HighIsAcknowledged(start: nat, acks: seq<seq<Event>>)
    ensures High(start, acks) >= start
    ensures High(start, acks) == start || exists b, e :: b in acks && e in b && e.lsn == High(start, acks)
  {
    if acks != [] {
      var before, last := acks[..|acks| - 1], acks[|acks| - 1];
      HighIsAcknowledged(start, before);
      assert acks == before + [last];
      if last != [] { assert last in acks && last[|last| - 1] in last; }
    }
  }

  /** No acknowledged event is newer than the newest. */
  ghost predicate AcksUnder(high: nat, acks: seq<seq<Event>>) {
    forall b, e :: b in acks && e in b ==> e.lsn <= high
  }

  lemma AckStaysUnder(owed: seq<Event>, start: nat, g: Group, n: nat)
    requires Ascending(owed) && Inv(owed, start, g) && Enabled(owed, g, PostSucceeds(n))
      && AcksUnder(High(start, g.acks), g.acks)
    ensures var t := Next(owed, g, PostSucceeds(n)); AcksUnder(High(start, t.acks), t.acks)
  {
    hide Slice, Collapsed, High;
    var high, s := High(start, g.acks), g.nodes[n].sender.value;
    BatchIsSlice(owed, start, high, s);
    AckExtends(owed, start, g.acks, Settled(s), Reach(s), Batch(s));
    SliceHas(owed, Settled(s), Reach(s));
  }

  lemma {:induction false} AcksAreUnder(
    owed: seq<Event>, start: nat, members: set<nat>, run: seq<Group>, steps: seq<Step>, i: nat)
    requires Ascending(owed) && IsRun(owed, start, members, run, steps) && i < |run| && !run[i].gapped
    ensures AcksUnder(High(start, run[i].acks), run[i].acks)
  {
    if i > 0 {
      hide Inv, LocalsFrom, High, AcksUnder, Enabled, Slice;
      var g, step := run[i - 1], steps[i - 1];
      NeverUngapped(owed, g, step);
      assert run[i] == Next(owed, g, step);
      AcksAreUnder(owed, start, members, run, steps, i - 1);
      RunKeeps(owed, start, members, run, steps, i - 1);
      if step.PostSucceeds? { AckStaysUnder(owed, start, g, step.n); }
    }
  }

  /** The acknowledged events are exactly the admitted ones up to the recorded position if and only if none of
      them is newer than it. */
  lemma RecordedIsAllIff(
    log: seq<Event>, filter: CdcFilter, start: nat, members: set<nat>, run: seq<Group>, steps: seq<Step>, i: nat)
    requires Ascending(log)
    requires IsRun(Filter(Admitting(filter), log), start, members, run, steps) && i < |run| && !run[i].gapped
    ensures var g := run[i];
      Collapsed(start, g.acks) == AdmittedIn(log, filter, start, g.recorded)
      <==> forall b, e :: b in g.acks && e in b ==> e.lsn <= g.recorded
  {
    hide High, Collapsed, Slice, AdmittedIn, IsRun;
    var owed, g := Filter(Admitting(filter), log), run[i];
    var high := High(start, g.acks);
    FilterAscends(log, Admitting(filter));
    AcksAreUnder(owed, start, members, run, steps, i);
    HighIsAcknowledged(start, g.acks);
    EveryAdmittedEventIsAcknowledged(log, filter, start, members, run, steps, i);
    var settled, unrecorded := AdmittedIn(log, filter, start, g.recorded), AdmittedIn(log, filter, g.recorded, high);
    assert |settled + unrecorded| == |settled| + |unrecorded|;
    FiltersCommute(log, filter, g.recorded, high);
    if forall b, e :: b in g.acks && e in b ==> e.lsn <= g.recorded {
      EmptyWindow(owed, g.recorded, high);
      assert settled + [] == settled;
    }
    if Collapsed(start, g.acks) == settled {
      NewestIsAdmitted(owed, start, members, run, steps, i);
      SliceHas(owed, g.recorded, high);
    }
  }

  /** The newest acknowledged event is one of the admitted. */
  lemma NewestIsAdmitted(owed: seq<Event>, start: nat, members: set<nat>, run: seq<Group>, steps: seq<Step>, i: nat)
    requires Ascending(owed) && IsRun(owed, start, members, run, steps) && i < |run| && !run[i].gapped
    ensures var high := High(start, run[i].acks); high == start || exists e :: e in owed && e.lsn == high
  {
    var high := High(start, run[i].acks);
    RunKeeps(owed, start, members, run, steps, i);
    HighIsCollapsed(start, run[i].acks);
    SliceHas(owed, start, high);
  }

  lemma {:induction false} HighIsCollapsed(start: nat, acks: seq<seq<Event>>)
    ensures High(start, acks) >= start
    ensures High(start, acks) == start || exists e :: e in Collapsed(start, acks) && e.lsn == High(start, acks)
  {
    if acks != [] {
      var before, last := acks[..|acks| - 1], acks[|acks| - 1];
      HighIsCollapsed(start, before);
      FilterHas(last, Newer(High(start, before)));
      if last != [] { assert last[|last| - 1] in last; }
    }
  }

  lemma WindowOfOne(e: Event)
    requires e.lsn > 0
    ensures Slice([e], 0, e.lsn) == [e] && Slice([e], 0, 0) == []
  {
    SliceHas([e], 0, e.lsn);
    SliceAscends([e], 0, e.lsn);
    AscendingIsUnique(Slice([e], 0, e.lsn), [e]);
    EmptyWindow([e], 0, 0);
  }

  lemma Goes(owed: seq<Event>, run: seq<Group>, steps: seq<Step>, step: Step)
    returns (longer: seq<Group>, more: seq<Step>, g: Group)
    requires IsRun(owed, 0, {0}, run, steps) && Enabled(owed, run[|steps|], step) && !step.Restart?
    ensures longer == run + [g] && more == steps + [step] && g == Next(owed, run[|steps|], step)
    ensures IsRun(owed, 0, {0}, longer, more)
  {
    hide Enabled, Next, Initial;
    g := Next(owed, run[|steps|], step);
    longer, more := run + [g], steps + [step];
  }

  /** An endpoint that has acknowledged, before a step-down, what nobody recorded. */
  lemma AcknowledgedBeyondRecorded(e: Event) returns (run: seq<Group>, steps: seq<Step>)
    requires e.lsn > 0
    ensures IsRun([e], 0, {0}, run, steps)
    ensures var g := run[|steps|];
      !g.gapped && g.recorded == 0 && g.acks == [[e]] && Collapsed(0, g.acks) == [e] && Slice([e], 0, g.recorded) == []
  {
    hide IsRun, Slice, Collapsed;
    WindowOfOne(e);
    OneAck(e);
    var g := Initial(0, {0});
    run, steps := [g], [];
    StartsARun(e);
    run, steps, g := Goes([e], run, steps, Open(0, 0));
    assert g.nodes[0] == Node(0, Some(Sender(0, [], 0, false))) && [] + [e] == [e];
    run, steps, g := Goes([e], run, steps, Pull(0, e));
    assert Batch(g.nodes[0].sender.value) == [e];
    run, steps, g := Goes([e], run, steps, PostSucceeds(0));
    assert g.acks == [[e]];
    run, steps, g := Goes([e], run, steps, Stop(0));
  }

  lemma StartsARun(e: Event)
    ensures IsRun([e], 0, {0}, [Initial(0, {0})], [])
  {
  }

  lemma OneAck(e: Event)
    requires e.lsn > 0
    ensures Collapsed(0, [[e]]) == [e]
  {
    assert [[e]][..0] == [] && High(0, []) == 0 && Collapsed(0, []) == [];
    assert [e][1..] == [] && Filter(Newer(0), [e]) == [e];
  }
}
