/** Write admission over whole runs: every interleaving of sampling, deciding, staging, committing and
    releasing, with frames of a replicated log staged beside them (src/state.rs, src/storage/wal.rs). */
module AdmissionRuns {
  import opened Sums
  import opened AdmissionGate

  datatype Reservation = Reservation(collection: string, frames: nat, staged: nat)

  /** A request that holds the lock and has sampled the staged count. */
  datatype Lock = Free | Sampling(collection: string, frames: nat, sample: nat)

  /** `pending` counts the staged frames of a collection, and `unreserved` those among them that nobody asked
      the bound for: a follower stages what its leader sends. */
  datatype State = State(
    held: map<string, nat>, pending: map<string, nat>, unreserved: map<string, nat>,
    live: map<nat, Reservation>, lock: Lock)

  datatype Step =
    | Sample(collection: string, frames: nat)
    | Settle(id: nat)
    | Stage(id: nat, n: nat)
    | StageUnreserved(collection: string, n: nat)
    | Commit(collection: string, reserved: nat, unreserved: nat)
    | Release(id: nat)

  /** Staged frames that were asked for. */
  function Asked(s: State, c: string): int {
    HeldFor(s.pending, c) - HeldFor(s.unreserved, c)
  }

  /** Frames leave when they commit or when the log is cut below them. */
  predicate Enabled(bound: nat, s: State, step: Step) {
    match step
    case Sample(_, frames) => s.lock.Free? && frames <= bound
    case Settle(id) => s.lock.Sampling? && id !in s.live
    case Stage(id, n) => id in s.live && s.live[id].staged + n <= s.live[id].frames
    case StageUnreserved(_, _) => true
    case Commit(c, reserved, unreserved) => reserved <= Asked(s, c) && unreserved <= HeldFor(s.unreserved, c)
    case Release(id) => s.lock.Free? && id in s.live
  }

  function Next(bound: nat, s: State, step: Step): State
    requires Enabled(bound, s, step)
  {
    match step
    case Sample(c, frames) => s.(lock := Sampling(c, frames, HeldFor(s.pending, c)))
    case Settle(id) =>
      var Sampling(c, frames, sample) := s.lock;
      if Decide(bound, true, sample, HeldFor(s.held, c), frames).Reserved? then
        s.(held := s.held[c := HeldFor(s.held, c) + frames],
           live := s.live[id := Reservation(c, frames, 0)], lock := Free)
      else s.(lock := Free)
    case Stage(id, n) =>
      var r := s.live[id];
      s.(live := s.live[id := r.(staged := r.staged + n)],
         pending := s.pending[r.collection := HeldFor(s.pending, r.collection) + n])
    case StageUnreserved(c, n) =>
      s.(pending := s.pending[c := HeldFor(s.pending, c) + n],
         unreserved := s.unreserved[c := HeldFor(s.unreserved, c) + n])
    case Commit(c, reserved, unreserved) =>
      s.(pending := s.pending[c := HeldFor(s.pending, c) - reserved - unreserved],
         unreserved := s.unreserved[c := HeldFor(s.unreserved, c) - unreserved])
    case Release(id) =>
      s.(held := AfterRelease(s.held, s.live[id].collection, s.live[id].frames), live := s.live - {id})
  }

  function Frames(c: string): Reservation -> nat {
    (r: Reservation) => if r.collection == c then r.frames else 0
  }

  function Unstaged(c: string): Reservation -> nat {
    (r: Reservation) => if r.collection == c && r.staged < r.frames then r.frames - r.staged else 0
  }

  /** Frames a collection has reserved and not staged yet. */
  ghost function Promised(s: State, c: string): nat {
    SumBy(s.live, Unstaged(c))
  }

  ghost predicate Bounded(bound: nat, s: State, c: string) {
    && HeldFor(s.held, c) == SumBy(s.live, Frames(c))
    && 0 <= Asked(s, c) && Asked(s, c) + Promised(s, c) <= bound
    && Promised(s, c) <= HeldFor(s.held, c)
    && Accounted(s, c)
    && (s.lock.Sampling? && s.lock.collection == c ==>
          s.lock.frames <= bound && Asked(s, c) + Promised(s, c) <= s.lock.sample + HeldFor(s.held, c))
  }

  ghost predicate Inv(bound: nat, s: State) {
    && (forall id :: id in s.live ==> s.live[id].staged <= s.live[id].frames)
    && forall c :: Bounded(bound, s, c)
  }

  lemma {:induction false} UnstagedIsLess(live: map<nat, Reservation>, c: string)
    ensures SumBy(live, Unstaged(c)) <= SumBy(live, Frames(c))
    decreases |live|
  {
    if live != map[] {
      var k :| k in live;
      SumPeels(live, Unstaged(c), k);
      SumPeels(live, Frames(c), k);
      UnstagedIsLess(live - {k}, c);
    }
  }

  /** An entry is there for a reservation. */
  ghost predicate Accounted(s: State, c: string) {
    c in s.held ==> exists id :: id in s.live && s.live[id].collection == c
  }

  lemma SettleAccounts(bound: nat, s: State, id: nat, c: string)
    requires Enabled(bound, s, Settle(id)) && Accounted(s, c)
    ensures Accounted(Next(bound, s, Settle(id)), c)
  {
    var t := Next(bound, s, Settle(id));
    if c in t.held {
      if c == s.lock.collection && id in t.live {
        assert t.live[id].collection == c;
      } else {
        var k :| k in s.live && s.live[k].collection == c;
        assert k in t.live && t.live[k].collection == c;
      }
    }
  }

  lemma SettleKeeps(bound: nat, s: State, id: nat, c: string)
    requires Inv(bound, s) && Enabled(bound, s, Settle(id)) && bound > 0
    ensures Bounded(bound, Next(bound, s, Settle(id)), c)
  {
    hide SumBy, Accounted;
    var t, r := Next(bound, s, Settle(id)), Reservation(s.lock.collection, s.lock.frames, 0);
    assert Bounded(bound, s, c) && Bounded(bound, s, s.lock.collection);
    SumPuts(s.live, Frames(c), id, r);
    SumPuts(s.live, Unstaged(c), id, r);
    UnstagedIsLess(t.live, c);
    SettleAccounts(bound, s, id, c);
  }

  lemma StageKeeps(bound: nat, s: State, id: nat, n: nat, c: string)
    requires Inv(bound, s) && Enabled(bound, s, Stage(id, n))
    ensures Bounded(bound, Next(bound, s, Stage(id, n)), c)
  {
    hide SumBy;
    var t, r := Next(bound, s, Stage(id, n)), s.live[id].(staged := s.live[id].staged + n);
    assert Bounded(bound, s, c);
    SumPuts(s.live, Frames(c), id, r);
    SumPuts(s.live, Unstaged(c), id, r);
    UnstagedIsLess(t.live, c);
    if c in t.held {
      var k :| k in s.live && s.live[k].collection == c;
      assert k in t.live && t.live[k].collection == c;
    }
  }

  lemma ReleaseKeeps(bound: nat, s: State, id: nat, c: string)
    requires Inv(bound, s) && Enabled(bound, s, Release(id))
    ensures Bounded(bound, Next(bound, s, Release(id)), c)
  {
    hide SumBy;
    var t, r := Next(bound, s, Release(id)), s.live[id];
    assert Bounded(bound, s, c);
    SumPeels(s.live, Frames(c), id);
    SumPeels(s.live, Unstaged(c), id);
    UnstagedIsLess(t.live, c);
    if c in t.held {
      if c == r.collection {
        SumHasEntry(t.live, Frames(c));
      } else {
        var k :| k in s.live && s.live[k].collection == c;
        assert k in t.live && t.live[k].collection == c;
      }
    }
  }

  lemma StepKeeps(bound: nat, s: State, step: Step)
    requires Inv(bound, s) && Enabled(bound, s, step) && bound > 0
    ensures Inv(bound, Next(bound, s, step))
  {
    var t := Next(bound, s, step);
    forall c
      ensures Bounded(bound, t, c)
    {
      assert Bounded(bound, s, c);
      match step
      case Settle(id) => SettleKeeps(bound, s, id, c);
      case Stage(id, n) => StageKeeps(bound, s, id, n, c);
      case Release(id) => ReleaseKeeps(bound, s, id, c);
      case _ =>
    }
  }

  const START := State(map[], map[], map[], map[], Free)

  ghost predicate IsRun(bound: nat, run: seq<State>, steps: seq<Step>) {
    && |run| == |steps| + 1 && run[0] == START
    && forall i :: 0 <= i < |steps| ==> Enabled(bound, run[i], steps[i]) && run[i + 1] == Next(bound, run[i], steps[i])
  }

  lemma {:induction false} RunKeeps(bound: nat, run: seq<State>, steps: seq<Step>, i: nat)
    requires bound > 0 && IsRun(bound, run, steps) && i < |run|
    ensures Inv(bound, run[i])
  {
    if i > 0 {
      RunKeeps(bound, run, steps, i - 1);
      StepKeeps(bound, run[i - 1], steps[i - 1]);
    }
  }

  /** However requests interleave, and whatever replication stages beside them, what a collection has staged
      of its own and what it may still stage stay within the bound together, so that all that is staged passes
      it by no more than what replication staged; the held count is the sum of the live reservations, and with
      none of them left there is no entry. */
  lemma BoundHolds(bound: nat, run: seq<State>, steps: seq<Step>, i: nat, c: string)
    requires bound > 0 && IsRun(bound, run, steps) && i < |run|
    ensures var s := run[i];
      && HeldFor(s.pending, c) + Promised(s, c) <= bound + HeldFor(s.unreserved, c)
      && HeldFor(s.unreserved, c) <= HeldFor(s.pending, c)
      && HeldFor(s.held, c) == SumBy(s.live, Frames(c))
      && ((forall id :: id in s.live ==> s.live[id].collection != c) ==> c !in s.held)
      && (s.live == map[] ==> s.held == map[])
  {
    RunKeeps(bound, run, steps, i);
    assert Bounded(bound, run[i], c);
    if run[i].live == map[] {
      forall d
        ensures d !in run[i].held
      {
        assert Bounded(bound, run[i], d);
      }
    }
  }

  /** And a write is refused only for want of room: it is admitted exactly when what is staged, what the live
      reservations hold and its own frames fit the bound together. */
  lemma AdmittedWhenItFits(bound: nat, run: seq<State>, steps: seq<Step>, i: nat, c: string, frames: nat)
    requires bound > 0 && IsRun(bound, run, steps) && i < |run|
    ensures var s := run[i];
      && (Decide(bound, true, HeldFor(s.pending, c), HeldFor(s.held, c), frames).Reserved?
          <==> HeldFor(s.pending, c) + SumBy(s.live, Frames(c)) + frames <= bound)
      && (s.live == map[] && HeldFor(s.pending, c) == 0 ==>
          (Decide(bound, true, 0, HeldFor(s.held, c), frames).Reserved? <==> frames <= bound))
  {
    BoundHolds(bound, run, steps, i, c);
  }
}
