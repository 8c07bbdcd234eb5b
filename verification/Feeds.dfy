/** The committed change feed: its buffer, floor and position, and what each operation keeps
    (src/changefeed.rs). */
module Feeds {
  import opened JsonValues
  import opened Sorting

  const READ_BATCH: nat := 256

  datatype ChangeOp = Insert | Update | Delete | Drop

  datatype Event = Event(lsn: nat, op: ChangeOp, key: string, value: Option<Json>)

  datatype Config = Config(bufferEvents: nat, idleRetention: nat, maxSubscribers: nat)

  /** `events` is the buffer, oldest first; `idleSince` is when the last subscriber left. */
  datatype Feed = Feed(
    events: seq<Event>, floor: nat, position: nat, subscribers: nat, pins: nat, idleSince: Option<nat>, closed: bool)

  function Max(a: nat, b: nat): nat {
    if a < b then b else a
  }

  // ----- the operations, on values

  function Opened(position: nat): Feed {
    Feed([], position, position, 0, 0, None, false)
  }

  predicate Retained(config: Config, f: Feed, now: nat) {
    f.idleSince.Some? && now - f.idleSince.value < config.idleRetention
  }

  predicate Active(config: Config, f: Feed, now: nat) {
    f.subscribers > 0 || f.pins > 0 || (!f.closed && Retained(config, f, now))
  }

  predicate Quiet(config: Config, f: Feed, now: nat) {
    f.subscribers == 0 && f.pins == 0 && !Retained(config, f, now)
  }

  function Push(config: Config, f: Feed, e: Event): Feed {
    var events := f.events + [e];
    if |events| > config.bufferEvents then f.(events := events[1..], floor := Max(f.floor, events[0].lsn))
    else f.(events := events)
  }

  function PushAll(config: Config, f: Feed, es: seq<Event>): Feed {
    if es == [] then f else Push(config, PushAll(config, f, es[..|es| - 1]), es[|es| - 1])
  }

  function Published(config: Config, f: Feed, es: seq<Event>, through: nat): Feed {
    if f.closed then f
    else
      var g := PushAll(config, f, es);
      g.(position := Max(g.position, through))
  }

  function Gapped(f: Feed, through: nat): Feed {
    if f.closed then f
    else f.(floor := Max(f.floor, through), position := Max(f.position, through), events := [])
  }

  function Closed(f: Feed): Feed {
    f.(closed := true, events := [])
  }

  /** A quiet feed jumps to what the collection has applied; a feed in use is left alone. */
  function CaughtUp(config: Config, f: Feed, applied: nat, now: nat): Feed {
    if Quiet(config, f, now) && applied > f.position
    then f.(floor := Max(f.floor, applied), position := applied, events := [])
    else f
  }

  datatype SubscribeError = Overrun(floor: nat) | Ahead(position: nat) | TooMany(n: nat) | Shut

  datatype Attached = Attached(cursor: nat, strict: bool)

  datatype Admission = Admitted(sub: Attached) | Refused(why: SubscribeError)

  function Subscribed(config: Config, f: Feed, after: Option<nat>, applied: nat, now: nat): (Feed, Admission) {
    if f.closed then (f, Refused(Shut))
    else if f.subscribers >= config.maxSubscribers then (f, Refused(TooMany(config.maxSubscribers)))
    else
      var g := CaughtUp(config, f, applied, now);
      if after.Some? && after.value > g.position then (g, Refused(Ahead(g.position)))
      else if after.Some? && after.value < g.floor then (g, Refused(Overrun(g.floor)))
      else
        (g.(subscribers := g.subscribers + 1, idleSince := None),
         Admitted(if after.Some? then Attached(after.value, true) else Attached(g.position, false)))
  }

  function Pinned(config: Config, f: Feed, applied: nat, now: nat): Feed {
    var g := CaughtUp(config, f, applied, now);
    g.(pins := g.pins + 1)
  }

  function Unpinned(f: Feed): Feed {
    f.(pins := if f.pins > 0 then f.pins - 1 else 0)
  }

  function Detached(f: Feed, now: nat): Feed {
    var n := if f.subscribers > 0 then f.subscribers - 1 else 0;
    f.(subscribers := n, idleSince := if n == 0 then Some(now) else f.idleSince)
  }

  datatype Read = Events(batch: seq<Event>) | Empty | Behind(floor: nat) | Skipped(floor: nat) | Ended

  /** Index of the first event above `cursor`. */
  function PartitionPoint(events: seq<Event>, cursor: nat): (i: nat)
    ensures i <= |events|
    ensures forall j :: 0 <= j < i ==> events[j].lsn <= cursor
    ensures i < |events| ==> events[i].lsn > cursor
  {
    if events == [] || events[0].lsn > cursor then 0 else 1 + PartitionPoint(events[1..], cursor)
  }

  function ReadFrom(f: Feed, cursor: nat, strict: bool): Read {
    if cursor < f.floor then (if strict then Behind(f.floor) else Skipped(f.floor))
    else
      var batch := Take(f.events[PartitionPoint(f.events, cursor)..], READ_BATCH);
      if batch != [] then Events(batch) else if f.closed then Ended else Empty
  }

  // ----- the committed log, and what a sound feed holds of it

  ghost predicate Ascending(es: seq<Event>) {
    forall i, j :: 0 <= i < j < |es| ==> es[i].lsn < es[j].lsn
  }

  function Between(lo: nat, hi: nat): Event -> bool {
    (e: Event) => lo < e.lsn <= hi
  }

  /** The committed events above `lo` and up to `hi`. */
  function Slice(log: seq<Event>, lo: nat, hi: nat): seq<Event> {
    Filter(Between(lo, hi), log)
  }

  /** `log` is everything the collection ever commits, in log order. The feed never invents an event and
      never holds too many. */
  ghost predicate Contained(log: seq<Event>, config: Config, f: Feed) {
    && f.floor <= f.position
    && |f.events| <= config.bufferEvents
    && (forall e :: e in f.events ==> e in log && e.lsn <= f.position)
    && (f.closed ==> f.events == [])
  }

  /** And it holds them in order, and, while it is open, holds every committed event above its floor and up
      to its position. */
  ghost predicate Sound(log: seq<Event>, config: Config, f: Feed) {
    && Contained(log, config, f)
    && Ascending(f.events)
    && (!f.closed ==> Complete(log, f))
  }

  /** Nothing above the floor is missing below something held. */
  ghost predicate Unbroken(log: seq<Event>, f: Feed) {
    forall e, h :: e in log && h in f.events && f.floor < e.lsn < h.lsn ==> e in f.events
  }

  ghost predicate Complete(log: seq<Event>, f: Feed) {
    forall e :: e in log && f.floor < e.lsn <= f.position ==> e in f.events
  }

  lemma {:induction false} SliceHas(log: seq<Event>, lo: nat, hi: nat)
    ensures forall e :: e in Slice(log, lo, hi) <==> e in log && lo < e.lsn <= hi
  {
    if log != [] { SliceHas(log[1..], lo, hi); }
  }

  lemma {:induction false} FilterAscends(log: seq<Event>, keep: Event -> bool)
    requires Ascending(log)
    ensures Ascending(Filter(keep, log)) && forall e :: e in Filter(keep, log) ==> e in log
  {
    if log != [] {
      FilterAscends(log[1..], keep);
      assert forall e :: e in log[1..] ==> log[0].lsn < e.lsn;
    }
  }

  lemma {:induction false} FilterHas(log: seq<Event>, keep: Event -> bool)
    ensures forall e :: e in Filter(keep, log) <==> e in log && keep(e)
  {
    if log != [] { FilterHas(log[1..], keep); }
  }

  /** Filtering a window of the log and taking a window of the filtered log agree. */
  lemma {:induction false} WindowOfFilter(log: seq<Event>, keep: Event -> bool, lo: nat, hi: nat)
    ensures Filter(keep, Slice(log, lo, hi)) == Slice(Filter(keep, log), lo, hi)
  {
    if log != [] { WindowOfFilter(log[1..], keep, lo, hi); }
  }

  lemma {:induction false} FiltersAgree(a: Event -> bool, b: Event -> bool, s: seq<Event>)
    requires forall e :: e in s ==> a(e) == b(e)
    ensures Filter(a, s) == Filter(b, s)
  {
    if s != [] {
      assert s[0] in s;
      FiltersAgree(a, b, s[1..]);
    }
  }

  lemma NonEmptyHolds(s: seq<Event>)
    ensures s == [] || exists e :: e in s
  {
    if s != [] { assert s[0] in s; }
  }

  lemma {:induction false} SliceAscends(log: seq<Event>, lo: nat, hi: nat)
    requires Ascending(log)
    ensures Ascending(Slice(log, lo, hi))
  {
    if log != [] {
      SliceAscends(log[1..], lo, hi);
      SliceHas(log[1..], lo, hi);
      assert forall e :: e in log[1..] ==> log[0].lsn < e.lsn;
    }
  }

  lemma {:induction false} SliceJoins(log: seq<Event>, lo: nat, mid: nat, hi: nat)
    requires Ascending(log) && lo <= mid <= hi
    ensures Slice(log, lo, hi) == Slice(log, lo, mid) + Slice(log, mid, hi)
  {
    if log != [] {
      SliceJoins(log[1..], lo, mid, hi);
      if log[0].lsn > mid {
        assert forall e :: e in log[1..] ==> log[0].lsn < e.lsn;
        SliceHas(log[1..], lo, mid);
        NonEmptyHolds(Slice(log[1..], lo, mid));
      }
    }
  }

  /** Ascending sequences with the same elements are the same. */
  lemma {:induction false} AscendingIsUnique(a: seq<Event>, b: seq<Event>)
    requires Ascending(a) && Ascending(b) && forall e :: e in a <==> e in b
    ensures a == b
  {
    NonEmptyHolds(b);
    if a != [] {
      assert a[0] in b && b != [];
      assert b[0] in a;
      assert a[0] == b[0];
      forall e
        ensures e in a[1..] <==> e in b[1..]
      {
        assert e in a[1..] ==> e in a && e != a[0];
        assert e in b[1..] ==> e in b && e != b[0];
        assert e in a ==> e == a[0] || e in a[1..];
        assert e in b ==> e == b[0] || e in b[1..];
      }
      AscendingIsUnique(a[1..], b[1..]);
    }
  }

  /** From a cursor the floor does not refuse, the buffer continues the log without a hole. */
  lemma HeldIsSlice(log: seq<Event>, config: Config, f: Feed, cursor: nat)
    requires Ascending(log) && Sound(log, config, f) && !f.closed && f.floor <= cursor
    ensures f.events[PartitionPoint(f.events, cursor)..] == Slice(log, cursor, f.position)
  {
    hide Slice, PartitionPoint;
    var rest := f.events[PartitionPoint(f.events, cursor)..];
    SliceHas(log, cursor, f.position);
    SliceAscends(log, cursor, f.position);
    AboveIsTail(f.events, cursor);
    AscendingIsUnique(rest, Slice(log, cursor, f.position));
  }

  lemma AboveIsTail(es: seq<Event>, cursor: nat)
    requires Ascending(es)
    ensures var rest := es[PartitionPoint(es, cursor)..];
      Ascending(rest) && forall e :: e in rest <==> e in es && cursor < e.lsn
  {
    var i := PartitionPoint(es, cursor);
    var rest := es[i..];
    forall e | e in es && cursor < e.lsn
      ensures e in rest
    {
      var j :| 0 <= j < |es| && es[j] == e;
      assert rest[j - i] == e;
    }
  }

  lemma {:induction false} SlicePrefix(log: seq<Event>, lo: nat, hi: nat, n: nat)
    requires Ascending(log) && 0 < n <= |Slice(log, lo, hi)|
    ensures var s := Slice(log, lo, hi); lo < s[n - 1].lsn <= hi && s[..n] == Slice(log, lo, s[n - 1].lsn)
  {
    var s := Slice(log, lo, hi);
    var at := s[n - 1].lsn;
    SliceHas(log, lo, hi);
    assert s[n - 1] in s;
    SliceHas(log, lo, at);
    SliceAscends(log, lo, hi);
    SliceAscends(log, lo, at);
    forall e
      ensures e in s[..n] <==> e in Slice(log, lo, at)
    {
      if e in s {
        var j :| 0 <= j < |s| && s[j] == e;
        assert j < n ==> s[..n][j] == e;
      }
    }
    AscendingIsUnique(s[..n], Slice(log, lo, at));
  }

  // ----- what each operation keeps

  /** The last `n` of a sequence. */
  function Tail(es: seq<Event>, n: nat): seq<Event> {
    if |es| > n then es[|es| - n..] else es
  }

  /** What letting these go leaves of the floor. */
  function Raised(floor: nat, gone: seq<Event>): nat {
    if gone == [] then floor else Max(Raised(floor, gone[..|gone| - 1]), gone[|gone| - 1].lsn)
  }

  /** What letting the oldest of `all` go leaves of the floor. */
  function FloorAfter(floor: nat, all: seq<Event>, cap: nat): nat {
    if |all| > cap then Raised(floor, all[..|all| - cap]) else floor
  }

  lemma {:induction false} RaisedIsOver(floor: nat, gone: seq<Event>)
    ensures Raised(floor, gone) >= floor && forall e :: e in gone ==> e.lsn <= Raised(floor, gone)
    ensures Raised(floor, gone) == floor || exists e :: e in gone && e.lsn == Raised(floor, gone)
  {
    if gone != [] {
      RaisedIsOver(floor, gone[..|gone| - 1]);
      assert gone == gone[..|gone| - 1] + [gone[|gone| - 1]];
    }
  }

  lemma {:induction false} PushOne(config: Config, f: Feed, g: Feed, all: seq<Event>, e: Event)
    requires g == f.(events := Tail(all, config.bufferEvents), floor := FloorAfter(f.floor, all, config.bufferEvents))
    ensures Push(config, g, e) ==
      f.(events := Tail(all + [e], config.bufferEvents), floor := FloorAfter(f.floor, all + [e], config.bufferEvents))
  {
    hide Raised;
    var cap, more := config.bufferEvents, all + [e];
    if |more| > cap {
      assert g.events + [e] == more[|more| - cap - 1..];
      assert (g.events + [e])[1..] == more[|more| - cap..];
      RaisedByOne(f.floor, more[..|more| - cap]);
      var gone := more[..|more| - cap];
      assert gone[..|gone| - 1] == all[..|all| - cap];
      NothingRaised(f.floor);
    }
  }

  lemma RaisedByOne(floor: nat, gone: seq<Event>)
    requires gone != []
    ensures Raised(floor, gone) == Max(Raised(floor, gone[..|gone| - 1]), gone[|gone| - 1].lsn)
  {
  }

  lemma NothingRaised(floor: nat)
    ensures Raised(floor, []) == floor
  {
  }

  /** Publishing keeps the newest events, and raises the floor over all it let go. */
  lemma {:induction false} PushAllKeepsTail(config: Config, f: Feed, es: seq<Event>)
    requires |f.events| <= config.bufferEvents
    ensures PushAll(config, f, es) == f.(events := Tail(f.events + es, config.bufferEvents),
                                         floor := FloorAfter(f.floor, f.events + es, config.bufferEvents))
  {
    if es == [] {
      assert f.events + es == f.events;
    } else {
      hide Push, Tail, FloorAfter;
      var before, e := es[..|es| - 1], es[|es| - 1];
      assert f.events + es == (f.events + before) + [e];
      PushAllKeepsTail(config, f, before);
      PushOne(config, f, PushAll(config, f, before), f.events + before, e);
    }
  }

  /** The apply path's duty: one whole batch of the log, above everything held. */
  ghost predicate WholeBatch(log: seq<Event>, f: Feed, es: seq<Event>, lo: nat, through: nat) {
    && lo <= through && es == Slice(log, lo, through)
    && forall e :: e in f.events ==> e.lsn <= lo
  }

  lemma {:induction false} TailOf(all: seq<Event>, cap: nat, floor: nat)
    ensures |Tail(all, cap)| <= cap && (Ascending(all) ==> Ascending(Tail(all, cap)))
    ensures forall e :: e in Tail(all, cap) ==> e in all
    ensures forall e :: e in all ==> e in Tail(all, cap) || e.lsn <= FloorAfter(floor, all, cap)
    ensures FloorAfter(floor, all, cap) >= floor
    ensures FloorAfter(floor, all, cap) == floor || exists e :: e in all && e.lsn == FloorAfter(floor, all, cap)
  {
    if |all| > cap {
      var gone := all[..|all| - cap];
      RaisedIsOver(floor, gone);
      assert all == gone + Tail(all, cap);
    }
  }

  /** What a publish of some committed events leaves. */
  lemma PublishLeaves(log: seq<Event>, config: Config, f: Feed, es: seq<Event>, through: nat)
    requires Contained(log, config, f) && !f.closed && forall e :: e in es ==> e in log && e.lsn <= through
    ensures var g := Published(config, f, es, through);
      && Contained(log, config, g) && !g.closed && g.position == Max(f.position, through) && g.floor >= f.floor
      && g.events == Tail(f.events + es, config.bufferEvents)
      && g.floor == FloorAfter(f.floor, f.events + es, config.bufferEvents)
      && (forall e :: e in g.events ==> e in f.events || e in es)
      && (forall e :: e in f.events || e in es ==> e in g.events || e.lsn <= g.floor)
      && (Ascending(f.events + es) ==> Ascending(g.events))
  {
    hide Tail, FloorAfter, PushAll, Ascending;
    var all := f.events + es;
    PushAllKeepsTail(config, f, es);
    TailOf(all, config.bufferEvents, f.floor);
    assert forall e :: e in all <==> e in f.events || e in es;
  }

  /** The published events come too late for the newest that is held, and do not evict it. */
  predicate OutOfTurn(cap: nat, held: seq<Event>, es: seq<Event>) {
    held != [] && es != [] && |es| < cap && es[0].lsn <= held[|held| - 1].lsn
  }

  lemma OutOfTurnIff(cap: nat, held: seq<Event>, es: seq<Event>)
    requires Ascending(held) && Ascending(es) && |held| <= cap
    ensures Ascending(Tail(held + es, cap)) <==> !OutOfTurn(cap, held, es)
  {
    var all, n := held + es, |held|;
    var drop := if |all| > cap then |all| - cap else 0;
    assert Tail(all, cap) == all[drop..];
    if OutOfTurn(cap, held, es) {
      assert all[drop..][n - 1 - drop] == held[n - 1] && all[drop..][n - drop] == es[0];
    } else {
      forall i, j | 0 <= i < j < |all[drop..]|
        ensures all[drop..][i].lsn < all[drop..][j].lsn
      {
        if drop + i < n <= drop + j {
          assert held[drop + i].lsn <= held[n - 1].lsn && es[0].lsn <= es[drop + j - n].lsn;
        }
      }
    }
  }

  /** Publishing everything the log has in a window, whenever it comes, keeps the feed sound if and only if it
      does not come out of turn, and every change below the window that was not published yet lies under the
      floor the eviction leaves. */
  lemma PublishIsSoundIff(log: seq<Event>, config: Config, f: Feed, lo: nat, through: nat)
    requires Ascending(log) && Sound(log, config, f) && !f.closed
    ensures var es := Slice(log, lo, through);
      var floor := FloorAfter(f.floor, f.events + es, config.bufferEvents);
      Sound(log, config, Published(config, f, es, through)) <==>
      && !OutOfTurn(config.bufferEvents, f.events, es)
      && forall e :: e in log && f.position < e.lsn <= lo && e.lsn <= through ==> e.lsn <= floor
  {
    hide Published, FloorAfter, Tail, Ascending, Slice, OutOfTurn;
    var es := Slice(log, lo, through);
    SliceHas(log, lo, through);
    SliceAscends(log, lo, through);
    OutOfTurnIff(config.bufferEvents, f.events, es);
    PublishLeaves(log, config, f, es, through);
    var g := Published(config, f, es, through);
    if Complete(log, g) {
      forall e | e in log && f.position < e.lsn <= lo && e.lsn <= through
        ensures e.lsn <= g.floor
      {
        assert e !in es && e !in f.events;
      }
    }
  }

  /** Of a whole batch above everything held, the second half is all there is. */
  lemma WholeBatchIsSoundIff(log: seq<Event>, config: Config, f: Feed, es: seq<Event>, lo: nat, through: nat)
    requires Ascending(log) && Sound(log, config, f) && !f.closed && WholeBatch(log, f, es, lo, through)
    ensures var floor := FloorAfter(f.floor, f.events + es, config.bufferEvents);
      Sound(log, config, Published(config, f, es, through)) <==>
      forall e :: e in log && f.position < e.lsn <= lo ==> e.lsn <= floor
  {
    hide Published, FloorAfter, Ascending, Slice;
    SliceHas(log, lo, through);
    if f.events != [] && es != [] { assert f.events[|f.events| - 1] in f.events && es[0] in es; }
    PublishIsSoundIff(log, config, f, lo, through);
  }

  lemma PublishKeepsSound(log: seq<Event>, config: Config, f: Feed, es: seq<Event>, lo: nat, through: nat)
    requires Ascending(log) && Sound(log, config, f) && WholeBatch(log, f, es, lo, through) && lo <= f.position
    ensures Sound(log, config, Published(config, f, es, through))
  {
    if !f.closed { WholeBatchIsSoundIff(log, config, f, es, lo, through); }
  }

  /** A gap is noted soundly exactly when nothing held lies above it. */
  lemma GapIsSoundIff(log: seq<Event>, config: Config, f: Feed, through: nat)
    requires Sound(log, config, f) && !f.closed
    ensures Sound(log, config, Gapped(f, through)) <==> forall e :: e in f.events ==> e.lsn <= Max(f.floor, through)
  {
    var g := Gapped(f, through);
    if Sound(log, config, g) {
      forall e | e in f.events
        ensures e.lsn <= Max(f.floor, through)
      {
        assert e in log && e !in g.events;
      }
    }
  }

  /** Attaching, pinning, leaving and closing keep the feed sound at any time and any watermark. */
  lemma OtherStepsKeepSound(log: seq<Event>, config: Config, f: Feed, after: Option<nat>, applied: nat, now: nat)
    requires Sound(log, config, f)
    ensures Sound(log, config, Subscribed(config, f, after, applied, now).0)
    ensures Sound(log, config, Pinned(config, f, applied, now))
    ensures Sound(log, config, Unpinned(f)) && Sound(log, config, Detached(f, now)) && Sound(log, config, Closed(f))
  {
  }

  /** A refusal for falling behind names a floor the same state accepts; and on an open feed recording is
      the exact complement of the quiet test that permits catching up. */
  lemma OverrunNamesAWayBack(config: Config, f: Feed, after: Option<nat>, applied: nat, now: nat)
    requires f.floor <= f.position
    ensures var (g, answer) := Subscribed(config, f, after, applied, now);
      answer.Refused? && answer.why.Overrun? ==>
        Subscribed(config, f, Some(answer.why.floor), applied, now).1 == Admitted(Attached(answer.why.floor, true))
    ensures !f.closed ==> (Active(config, f, now) <==> !Quiet(config, f, now))
  {
  }

  /** Every answer to a subscription, and what it leaves of the feed. */
  lemma AnswersAre(config: Config, f: Feed, after: Option<nat>, applied: nat, now: nat)
    requires f.floor <= f.position
    ensures var seen, (g, answer) := CaughtUp(config, f, applied, now), Subscribed(config, f, after, applied, now);
      var room := !f.closed && f.subscribers < config.maxSubscribers;
      && seen.floor <= seen.position && seen.subscribers == f.subscribers
      && (answer == Refused(Shut) <==> f.closed)
      && (answer == Refused(TooMany(config.maxSubscribers)) <==> !f.closed && !room)
      && (answer == Refused(Ahead(seen.position)) <==> room && after.Some? && after.value > seen.position)
      && (answer == Refused(Overrun(seen.floor)) <==> room && after.Some? && after.value < seen.floor)
      && (answer == Admitted(if after.Some? then Attached(after.value, true) else Attached(seen.position, false)) <==>
            room && (after.Some? ==> seen.floor <= after.value <= seen.position))
      && g == if !room then f else if answer.Refused? then seen
              else seen.(subscribers := f.subscribers + 1, idleSince := None)
  {
  }

  // ----- one subscriber

  /** `handed` is everything it was given; `start` is where its promise begins. */
  datatype Sub = Sub(cursor: nat, strict: bool, delivered: bool, start: nat, handed: seq<Event>)

  function NewSub(a: Attached): Sub {
    Sub(a.cursor, a.strict, false, a.cursor, [])
  }

  datatype Outcome = Batch(events: seq<Event>) | Waits | Overran(floor: nat) | Over

  /** One turn of the read loop, up to a batch, an end or a wait. */
  function Polled(f: Feed, s: Sub): (Sub, Outcome) {
    match ReadFrom(f, s.cursor, s.strict || s.delivered)
    case Events(batch) =>
      (s.(cursor := batch[|batch| - 1].lsn, delivered := true, handed := s.handed + batch), Batch(batch))
    case Empty => (s, Waits)
    case Behind(floor) => (s, Overran(floor))
    case Ended => (s, Over)
    case Skipped(floor) =>
      var t := s.(cursor := floor, start := floor);
      match ReadFrom(f, floor, false)
      case Events(batch) =>
        (t.(cursor := batch[|batch| - 1].lsn, delivered := true, handed := t.handed + batch), Batch(batch))
      case Empty => (t, Waits)
      case _ => (t, Over)
  }

  /** The promise to a subscriber: exactly the committed events from its start to its cursor, in order and
      once each. */
  ghost predicate Kept(log: seq<Event>, f: Feed, s: Sub) {
    && s.start <= s.cursor <= f.position
    && s.handed == Slice(log, s.start, s.cursor)
    && (s.delivered <==> s.handed != [])
  }

  lemma HeldUpTo(log: seq<Event>, f: Feed, newest: Event, cursor: nat)
    requires Ascending(log) && Unbroken(log, f) && f.floor <= cursor && newest in log && newest in f.events
    ensures forall e :: e in log && cursor < e.lsn <= newest.lsn ==> e in f.events
  {
    hide Ascending;
    forall e | e in log && cursor < e.lsn <= newest.lsn
      ensures e in f.events
    {
      if e.lsn == newest.lsn { SameLsnSameEvent(log, e, newest); }
    }
  }

  /** What is held above a cursor the floor does not refuse is the next stretch of the log. */
  lemma HeldRuns(log: seq<Event>, config: Config, f: Feed, cursor: nat)
    requires Ascending(log) && Contained(log, config, f) && Ascending(f.events) && Unbroken(log, f) && f.floor <= cursor
    ensures var rest := f.events[PartitionPoint(f.events, cursor)..];
      rest != [] ==> rest == Slice(log, cursor, rest[|rest| - 1].lsn)
  {
    hide Slice, PartitionPoint, Unbroken, Ascending;
    var rest := f.events[PartitionPoint(f.events, cursor)..];
    AboveIsTail(f.events, cursor);
    if rest != [] {
      var newest := rest[|rest| - 1];
      assert newest in rest;
      SliceHas(log, cursor, newest.lsn);
      SliceAscends(log, cursor, newest.lsn);
      LastIsNewest(rest);
      HeldUpTo(log, f, newest, cursor);
      AscendingIsUnique(rest, Slice(log, cursor, newest.lsn));
    }
  }

  lemma LastIsNewest(es: seq<Event>)
    requires Ascending(es) && es != []
    ensures forall e :: e in es ==> e.lsn <= es[|es| - 1].lsn
  {
    forall e | e in es
      ensures e.lsn <= es[|es| - 1].lsn
    {
      var i :| 0 <= i < |es| && es[i] == e;
      assert i < |es| - 1 ==> es[i].lsn < es[|es| - 1].lsn;
    }
  }

  lemma SameLsnSameEvent(log: seq<Event>, a: Event, b: Event)
    requires Ascending(log) && a in log && b in log && a.lsn == b.lsn
    ensures a == b
  {
    var i :| 0 <= i < |log| && log[i] == a;
    var j :| 0 <= j < |log| && log[j] == b;
    assert !(i < j) && !(j < i);
  }

  lemma ReadExtends(log: seq<Event>, config: Config, f: Feed, start: nat, cursor: nat, batch: seq<Event>)
    requires Ascending(log) && Contained(log, config, f) && Ascending(f.events) && Unbroken(log, f)
    requires start <= cursor && f.floor <= cursor
    requires batch != [] && ReadFrom(f, cursor, true) == Events(batch)
    ensures var last := batch[|batch| - 1].lsn;
      cursor < last <= f.position && Slice(log, start, last) == Slice(log, start, cursor) + batch
  {
    hide Slice, PartitionPoint, Unbroken;
    var rest := f.events[PartitionPoint(f.events, cursor)..];
    HeldRuns(log, config, f, cursor);
    SlicePrefix(log, cursor, rest[|rest| - 1].lsn, |batch|);
    AboveIsTail(f.events, cursor);
    assert batch[|batch| - 1] in rest;
    SliceJoins(log, start, cursor, batch[|batch| - 1].lsn);
  }

  lemma {:induction false} EmptySlice(log: seq<Event>, at: nat)
    ensures Slice(log, at, at) == []
  {
    if log != [] { EmptySlice(log[1..], at); }
  }

  /** A read goes on from the cursor, or, for a subscriber that named none and has been given nothing, from a
      floor that has passed it. */
  lemma PollGoesOn(f: Feed, s: Sub)
    ensures var (t, out) := Polled(f, s);
      var skips := s.cursor < f.floor;
      var from := if skips then f.floor else s.cursor;
      var batch := Take(f.events[PartitionPoint(f.events, from)..], READ_BATCH);
      var on := s.(cursor := from, start := if skips then f.floor else s.start);
      && (out.Overran? <==> skips && (s.strict || s.delivered))
      && (out.Overran? ==> t == s && out.floor == f.floor)
      && (out.Batch? ==>
            out.events == batch != []
            && t == on.(cursor := batch[|batch| - 1].lsn, delivered := true, handed := s.handed + batch))
      && (out.Waits? ==> t == on && batch == [] && !f.closed)
      && (out.Over? ==> t == on && f.closed)
  {
    hide PartitionPoint;
  }

  /** A batch is at most 256 events, and a shorter one is everything held. */
  lemma BatchesAreBounded(f: Feed, s: Sub)
    ensures var (t, out) := Polled(f, s);
      out.Batch? ==>
        && 1 <= |out.events| <= 256
        && (|out.events| < 256 && Ascending(f.events) ==> forall e :: e in f.events ==> e.lsn <= t.cursor)
  {
    hide PartitionPoint, Polled;
    PollGoesOn(f, s);
    var from := if s.cursor < f.floor then f.floor else s.cursor;
    if Ascending(f.events) {
      AboveIsTail(f.events, from);
      var rest := f.events[PartitionPoint(f.events, from)..];
      if rest != [] { LastIsNewest(rest); }
    }
  }

  /** Every read of an unbroken feed keeps the promise, or ends the subscription; a start once promised moves
      only for a subscriber that named none and has been given nothing; and a subscriber left waiting has been
      given everything held. */
  lemma PollKeepsPromise(log: seq<Event>, config: Config, f: Feed, s: Sub)
    requires Ascending(log) && Contained(log, config, f) && Ascending(f.events) && Unbroken(log, f) && Kept(log, f, s)
    ensures var (t, out) := Polled(f, s);
      && Kept(log, f, t)
      && (out.Batch? ==> out.events != [] && t.handed == s.handed + out.events && s.cursor < t.cursor)
      && (t.start != s.start ==> !s.strict && !s.delivered && t.start == f.floor && s.cursor < f.floor)
      && (!out.Batch? ==> t.handed == s.handed)
      && (out.Waits? ==> !f.closed && f.floor <= t.cursor && forall e :: e in f.events ==> e.lsn <= t.cursor)
      && (out.Overran? ==> t == s && (s.strict || s.delivered) && s.cursor < f.floor == out.floor)
      && (out.Over? ==> f.closed)
  {
    hide Slice, PartitionPoint, Unbroken, Ascending, Contained, Polled, ReadFrom;
    PollGoesOn(f, s);
    var out := Polled(f, s).1;
    EmptySlice(log, f.floor);
    FloorUnderPosition(log, config, f);
    var skips := s.cursor < f.floor;
    var from := if skips then f.floor else s.cursor;
    AboveIsTail(f.events, from);
    if out.Batch? {
      ReadsBatch(f, from, out.events);
      ReadExtends(log, config, f, if skips then f.floor else s.start, from, out.events);
    }
  }

  lemma ReadsBatch(f: Feed, from: nat, batch: seq<Event>)
    requires f.floor <= from && batch == Take(f.events[PartitionPoint(f.events, from)..], READ_BATCH) && batch != []
    ensures ReadFrom(f, from, true) == Events(batch)
  {
  }

  /** Of a sound feed, what is held is everything committed up to the position. */
  lemma WaitingHasAll(log: seq<Event>, config: Config, f: Feed, s: Sub)
    requires Ascending(log) && Sound(log, config, f) && Polled(f, s).1.Waits?
    ensures f.floor <= Polled(f, s).0.cursor && Slice(log, Polled(f, s).0.cursor, f.position) == []
  {
    hide Sound, Slice, PartitionPoint, Polled;
    PollGoesOn(f, s);
    HeldIsSlice(log, config, f, Polled(f, s).0.cursor);
  }

  lemma SoundIsUnbroken(log: seq<Event>, config: Config, f: Feed)
    requires Sound(log, config, f)
    ensures Contained(log, config, f) && Ascending(f.events) && Unbroken(log, f)
  {
  }

  /** Every reader that is true to the log stays true through a poll if and only if the feed is unbroken. */
  lemma PollsKeepIff(log: seq<Event>, config: Config, f: Feed)
    requires Ascending(log) && Contained(log, config, f) && Ascending(f.events)
    ensures (forall s: Sub :: Kept(log, f, s) ==> Kept(log, f, Polled(f, s).0)) <==> Unbroken(log, f)
  {
    hide Slice, PartitionPoint, Polled, Kept, Contained, Ascending;
    if Unbroken(log, f) {
      forall s: Sub | Kept(log, f, s)
        ensures Kept(log, f, Polled(f, s).0)
      {
        PollKeepsPromise(log, config, f, s);
      }
    }
    if forall s: Sub :: Kept(log, f, s) ==> Kept(log, f, Polled(f, s).0) {
      forall e, h | e in log && h in f.events && f.floor < e.lsn < h.lsn
        ensures e in f.events
      {
        if e !in f.events {
          assert Kept(log, f, JustBefore(e)) ==> Kept(log, f, Polled(f, JustBefore(e)).0);
          ReaderPassesIt(log, config, f, e, h);
        }
      }
    }
  }

  function JustBefore(e: Event): Sub {
    var at := if e.lsn > 0 then e.lsn - 1 else 0;
    Sub(at, true, false, at, [])
  }

  /** A reader just under a change that is missing below something held is handed something newer. */
  lemma ReaderPassesIt(log: seq<Event>, config: Config, f: Feed, e: Event, h: Event)
    requires Ascending(log) && Contained(log, config, f) && Ascending(f.events)
    requires e in log && e !in f.events && h in f.events && f.floor < e.lsn < h.lsn
    ensures Kept(log, f, JustBefore(e)) && !Kept(log, f, Polled(f, JustBefore(e)).0)
  {
    hide Slice, PartitionPoint, Polled;
    var s := JustBefore(e);
    PollGoesOn(f, s);
    EmptySlice(log, s.cursor);
    AboveIsTail(f.events, s.cursor);
    var rest := f.events[PartitionPoint(f.events, s.cursor)..];
    var batch := Take(rest, READ_BATCH);
    assert h in rest;
    assert batch[0] in rest && batch[|batch| - 1] in rest;
    if batch[|batch| - 1].lsn == e.lsn { SameLsnSameEvent(log, e, batch[|batch| - 1]); }
    SliceHas(log, s.cursor, batch[|batch| - 1].lsn);
    assert e in Slice(log, s.cursor, batch[|batch| - 1].lsn);
    assert forall x :: x in batch ==> x in rest;
  }

  /** A reader that left and names its cursor is let in again if and only if the floor has not passed it and
      the feed has not slept through something since; and then nothing is lost or repeated in between. */
  lemma ReconnectContinues(log: seq<Event>, config: Config, f: Feed, s: Sub, applied: nat, now: nat)
    requires Ascending(log) && Sound(log, config, f) && Kept(log, f, s)
    requires !f.closed && f.subscribers < config.maxSubscribers
    ensures var (g, answer) := Subscribed(config, f, Some(s.cursor), applied, now);
      && (answer.Admitted? <==> f.floor <= s.cursor && (Quiet(config, f, now) ==> applied <= f.position))
      && (answer.Admitted? ==>
            var (t, out) := Polled(g, NewSub(answer.sub));
            && (out.Batch? || (out.Waits? && Slice(log, s.cursor, g.position) == []))
            && s.handed + t.handed == Slice(log, s.start, t.cursor))
  {
    hide Sound, Slice, Polled;
    var (g, answer) := Subscribed(config, f, Some(s.cursor), applied, now);
    if answer.Admitted? {
      var again := NewSub(answer.sub);
      OtherStepsKeepSound(log, config, f, Some(s.cursor), applied, now);
      EmptySlice(log, s.cursor);
      SoundIsUnbroken(log, config, g);
      PollKeepsPromise(log, config, g, again);
      StrictStays(g, again);
      if Polled(g, again).1.Waits? { WaitingHasAll(log, config, g, again); }
      SliceJoins(log, s.start, s.cursor, Polled(g, again).0.cursor);
    }
  }

  lemma StrictStays(f: Feed, s: Sub)
    requires s.strict && f.floor <= s.cursor
    ensures Polled(f, s).0.start == s.start && !Polled(f, s).1.Overran?
    ensures Polled(f, s).1.Waits? ==> Polled(f, s).0 == s
  {
  }

  lemma {:induction false} PushRaisesFloor(config: Config, f: Feed, es: seq<Event>)
    ensures var g := PushAll(config, f, es); g.floor >= f.floor && g == f.(events := g.events, floor := g.floor)
  {
    if es != [] { PushRaisesFloor(config, f, es[..|es| - 1]); }
  }

  lemma FloorUnderPosition(log: seq<Event>, config: Config, f: Feed)
    requires Contained(log, config, f)
    ensures f.floor <= f.position
  {
  }

  /** A committed event above `lo` and up to `hi`. */
  ghost predicate Missing(log: seq<Event>, lo: nat, hi: nat) {
    exists e :: e in log && lo < e.lsn <= hi
  }
}
