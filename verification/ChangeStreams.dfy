/** A filtered view of one subscription (src/cdc.rs). */
module ChangeStreams {
  import opened JsonValues
  import opened Sorting
  import opened Filters
  import opened Feeds
  import opened FeedObjects
  import FilterMeanings

  datatype CdcFilter = CdcFilter(doc: Option<Expr>, ops: Option<seq<ChangeOp>>)

  /** A document filter judges only events that carry a document; an op list judges every event. */
  predicate Admits(filter: CdcFilter, e: Event) {
    && (filter.ops.Some? ==> e.op in filter.ops.value)
    && (e.value.Some? && filter.doc.Some? ==> Eval(filter.doc.value, e.value.value))
  }

  /** An event is admitted if and only if its operation is listed, where there is a list, and its document, where
      it carries one, is what the filter's text asks for. A delete carries none, so no document filter hides it. */
  lemma AdmittedIsAsked(asked: Json, ops: Option<seq<ChangeOp>>, e: Event)
    requires ParseExpr(asked, 0).Ok?
    ensures Admits(CdcFilter(Some(ParseExpr(asked, 0).value), ops), e) <==>
      && (ops.None? || e.op in ops.value)
      && (e.value.None? || FilterMeanings.MeansDoc(asked, e.value.value))
    ensures Admits(CdcFilter(None, ops), e) <==> ops.None? || e.op in ops.value
  {
    if e.value.Some? { FilterMeanings.AcceptedIsAsked(asked, 0, e.value.value); }
  }

  function Admitting(filter: CdcFilter): Event -> bool {
    (e: Event) => Admits(filter, e)
  }

  /** The committed events above `lo` and up to `hi` that the filter admits. */
  function AdmittedIn(log: seq<Event>, filter: CdcFilter, lo: nat, hi: nat): seq<Event> {
    Filter(Admitting(filter), Slice(log, lo, hi))
  }

  datatype Answer = Yielded(e: Event) | Overrun(floor: nat) | Closed | NotLeading | Pending

  /** What has been yielded and what is queued are, filtered, everything handed over. */
  ghost predicate Faithful(filter: CdcFilter, handed: seq<Event>, queue: seq<Event>, yielded: seq<Event>) {
    yielded + Filter(Admitting(filter), queue) == Filter(Admitting(filter), handed)
  }

  class CdcStream {
    const sub: Subscription
    const filter: CdcFilter
    const leaderOnly: bool
    var queue: seq<Event>
    ghost var yielded: seq<Event>

    ghost predicate Valid()
      reads this, sub
    {
      Faithful(filter, sub.handed, queue, yielded)
    }

    constructor (sub: Subscription, filter: CdcFilter, leaderOnly: bool)
      requires sub.handed == []
      ensures this.sub == sub && this.filter == filter && this.leaderOnly == leaderOnly && Valid() && yielded == []
    {
      this.sub, this.filter, this.leaderOnly := sub, filter, leaderOnly;
      queue, yielded := [], [];
    }

    /** The next admitted event of the log after those yielded before, or why there is none; `Pending` is
        the wait for the feed to move. */
    method Next(leading: bool, ghost log: seq<Event>) returns (answer: Answer)
      requires Valid() && Feeds.Ascending(log)
      requires Contained(log, sub.feed.config, sub.feed.State()) && Kept(log, sub.feed.State(), sub.State())
      requires Feeds.Ascending(sub.feed.State().events) && Unbroken(log, sub.feed.State())
      modifies this, sub, sub.feed`overruns
      ensures Valid() && sub.feed.State() == old(sub.feed.State()) && Kept(log, sub.feed.State(), sub.State())
      ensures sub.start != old(sub.start) ==> !sub.strict && old(sub.handed) == []
      ensures answer.Yielded? ==> yielded == old(yielded) + [answer.e]
      ensures answer.Yielded? ==> yielded == AdmittedIn(log, filter, sub.start, answer.e.lsn)
      ensures !answer.Yielded? ==> yielded == old(yielded) == AdmittedIn(log, filter, sub.start, sub.cursor)
      ensures answer.NotLeading? <==> !answer.Yielded? && leaderOnly && !leading
      ensures answer.Overrun? ==>
        sub.cursor < answer.floor == sub.feed.resumeFloor && (sub.strict || sub.handed != [])
      ensures answer.Closed? ==> sub.feed.closed
      ensures answer.Pending? ==> !sub.feed.closed && sub.feed.resumeFloor <= sub.cursor
      ensures answer.Pending? ==> forall e :: e in sub.feed.State().events ==> e.lsn <= sub.cursor
      ensures answer.Pending? && Sound(log, sub.feed.config, sub.feed.State()) ==>
        Slice(log, sub.cursor, sub.feed.position) == []
    {
      hide Sound, Contained, Unbroken, Polled, Slice, Faithful, AdmittedIn;
      ghost var view := sub.feed.State();
      while true
        invariant Valid() && sub.feed.State() == view && Kept(log, view, sub.State()) && yielded == old(yielded)
        invariant sub.start != old(sub.start) ==> !sub.strict && old(sub.handed) == []
        invariant sub.handed == [] ==> old(sub.handed) == []
        decreases view.position - sub.cursor
      {
        var head := Drain();
        if head.Some? {
          YieldedIsNext(log, filter, sub.State(), queue, yielded, view);
          return Yielded(head.value);
        }
        YieldedAll(log, filter, sub.State(), yielded, view);
        if leaderOnly && !leading { return NotLeading; }
        ghost var before := sub.State();
        PollKeepsPromise(log, sub.feed.config, view, before);
        var out := sub.NextBatch();
        if !out.Batch? { YieldedAll(log, filter, sub.State(), yielded, view); }
        match out {
          case Waits =>
            if Sound(log, sub.feed.config, view) { WaitingHasAll(log, sub.feed.config, view, before); }
            return Pending;
          case Overran(floor) => return Answer.Overrun(floor);
          case Over => return Answer.Closed;
          case Batch(batch) =>
            FaithfulGrows(filter, before.handed, yielded, batch);
            queue := queue + batch;
        }
      }
    }

    /** Pops the queue down to its first admitted event. */
    method Drain() returns (head: Option<Event>)
      requires Valid()
      modifies this
      ensures Valid() && (head.None? ==> queue == [] && yielded == old(yielded))
      ensures head.Some? ==> yielded == old(yielded) + [head.value] && Admits(filter, head.value)
    {
      while queue != []
        invariant Valid() && yielded == old(yielded)
        decreases |queue|
      {
        var e := queue[0];
        queue := queue[1..];
        if Admits(filter, e) {
          yielded := yielded + [e];
          return Some(e);
        }
      }
      return None;
    }
  }

  lemma FiltersCommute(log: seq<Event>, filter: CdcFilter, lo: nat, hi: nat)
    ensures AdmittedIn(log, filter, lo, hi) == Slice(Filter(Admitting(filter), log), lo, hi)
  {
    WindowOfFilter(log, Admitting(filter), lo, hi);
  }

  /** Yielding in queue order is yielding in log order, each admitted event next to the one before it. */
  lemma YieldedIsNext(log: seq<Event>, filter: CdcFilter, s: Sub, queue: seq<Event>, yielded: seq<Event>, f: Feed)
    requires Feeds.Ascending(log) && yielded != [] && Kept(log, f, s) && Faithful(filter, s.handed, queue, yielded)
    ensures yielded == AdmittedIn(log, filter, s.start, yielded[|yielded| - 1].lsn)
  {
    var start, cursor := s.start, s.cursor;
    var admitted := Filter(Admitting(filter), log);
    FiltersCommute(log, filter, start, cursor);
    FiltersCommute(log, filter, start, yielded[|yielded| - 1].lsn);
    FilterAscends(log, Admitting(filter));
    var all := AdmittedIn(log, filter, start, cursor);
    assert all[..|yielded|] == yielded;
    SlicePrefix(admitted, start, cursor, |yielded|);
  }

  lemma YieldedAll(log: seq<Event>, filter: CdcFilter, s: Sub, yielded: seq<Event>, f: Feed)
    requires Kept(log, f, s) && Faithful(filter, s.handed, [], yielded)
    ensures yielded == AdmittedIn(log, filter, s.start, s.cursor)
  {
  }

  lemma FaithfulGrows(filter: CdcFilter, handed: seq<Event>, yielded: seq<Event>, batch: seq<Event>)
    requires Faithful(filter, handed, [], yielded)
    ensures Faithful(filter, handed + batch, [] + batch, yielded)
  {
    FilterAppends(Admitting(filter), handed, batch);
    assert [] + batch == batch;
  }
}
