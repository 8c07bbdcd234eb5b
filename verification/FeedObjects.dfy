/** The feed and its subscriptions as the objects the collection and its consumers hold
    (src/changefeed.rs). Time is the caller's clock. */
module FeedObjects {
  import opened JsonValues
  import opened Sorting
  import opened Feeds

  class Changefeed {
    const config: Config
    var events: seq<Event>
    var resumeFloor: nat
    var position: nat
    var subscribers: nat
    var idleSince: Option<nat>
    var closed: bool
    /** What the wake channel last carried, and how often it was sent: a waiter sees every send. */
    var wake: nat
    var sends: nat
    /** Mirrors `subscribers` for the write path. */
    var live: nat
    var pins: nat
    var published: nat
    var overruns: nat

    ghost function State(): Feed
      reads this
    {
      Feed(events, resumeFloor, position, subscribers, pins, idleSince, closed)
    }

    /** The lock-free count the write path reads agrees with the ring. */
    ghost predicate Mirrored()
      reads this
    {
      live == subscribers
    }

    constructor (config: Config, position: nat)
      ensures this.config == config && State() == Opened(position) && Mirrored() && published == 0 && overruns == 0
    {
      this.config := config;
      events, resumeFloor, this.position, subscribers := [], position, position, 0;
      idleSince, closed, wake, sends, live, pins, published, overruns := None, false, position, 0, 0, 0, 0, 0;
    }

    /** The three reads of `active`: two without the lock, the third under it. */
    method SeesReaders() returns (seen: bool)
      requires Mirrored()
      ensures seen <==> State().subscribers > 0
    {
      return live > 0;
    }

    method SeesPins() returns (seen: bool)
      ensures seen <==> State().pins > 0
    {
      return pins > 0;
    }

    method SeesClock(now: nat) returns (retained: bool)
      ensures retained <==> !State().closed && Retained(config, State(), now)
    {
      return !closed && idleSince.Some? && now - idleSince.value < config.idleRetention;
    }

    /** The answer when nothing comes between the reads. */
    method IsActive(now: nat) returns (active: bool)
      requires Mirrored()
      ensures active <==> Active(config, State(), now)
      ensures !closed ==> (active <==> !Quiet(config, State(), now))
    {
      active := SeesReaders();
      if !active { active := SeesPins(); }
      if !active { active := SeesClock(now); }
    }

    method Publish(es: seq<Event>, through: nat)
      requires Mirrored()
      modifies this
      ensures Mirrored() && State() == Published(config, old(State()), es, through)
      ensures published == old(published) + (if old(closed) then 0 else |es|) && overruns == old(overruns)
      ensures !old(closed) ==> wake == position && sends == old(sends) + 1
    {
      if closed { return; }
      for i := 0 to |es|
        invariant State() == PushAll(config, old(State()), es[..i])
        invariant live == old(live) && subscribers == old(subscribers) && sends == old(sends)
        invariant published == old(published) && overruns == old(overruns) && position == old(position)
      {
        assert es[..i + 1][..i] == es[..i];
        events := events + [es[i]];
        if |events| > config.bufferEvents {
          var gone := events[0];
          events := events[1..];
          resumeFloor := Max(resumeFloor, gone.lsn);
        }
      }
      assert es[..|es|] == es;
      position := Max(position, through);
      published := published + |es|;
      wake, sends := position, sends + 1;
    }

    method NoteGap(through: nat)
      requires Mirrored()
      modifies this
      ensures Mirrored() && State() == Gapped(old(State()), through)
      ensures published == old(published) && overruns == old(overruns)
      ensures !old(closed) ==> wake == position && sends == old(sends) + 1
    {
      if closed { return; }
      resumeFloor := Max(resumeFloor, through);
      position := Max(position, through);
      events := [];
      wake, sends := position, sends + 1;
    }

    method Close()
      requires Mirrored()
      modifies this
      ensures Mirrored() && State() == Closed(old(State())) && published == old(published) && overruns == old(overruns)
      ensures wake == position && sends == old(sends) + 1
    {
      closed := true;
      events := [];
      wake, sends := position, sends + 1;
    }

    method Subscribe(after: Option<nat>, applied: nat, now: nat) returns (answer: Admission)
      requires Mirrored()
      modifies this
      ensures Mirrored() && published == old(published) && sends == old(sends)
      ensures (State(), answer) == Subscribed(config, old(State()), after, applied, now)
      ensures overruns == old(overruns) + if answer.Refused? && answer.why.Overrun? then 1 else 0
      ensures answer.Admitted? ==>
        answer.sub == if after.None? then Attached(position, false) else Attached(after.value, true)
    {
      if closed { return Refused(Shut); }
      if subscribers >= config.maxSubscribers { return Refused(TooMany(config.maxSubscribers)); }
      var quiet := subscribers == 0 && pins == 0 && !(idleSince.Some? && now - idleSince.value < config.idleRetention);
      if quiet && applied > position {
        resumeFloor := Max(resumeFloor, applied);
        position := applied;
        events := [];
      }
      var cursor, strict := position, false;
      match after {
        case None =>
        case Some(a) =>
          if a > position { return Refused(Ahead(position)); }
          if a < resumeFloor {
            overruns := overruns + 1;
            return Refused(Overrun(resumeFloor));
          }
          cursor, strict := a, true;
      }
      subscribers := subscribers + 1;
      idleSince := None;
      live := subscribers;
      return Admitted(Attached(cursor, strict));
    }

    method PinFrom(applied: nat, now: nat)
      modifies this
      ensures State() == Pinned(config, old(State()), applied, now) && live == old(live)
      ensures sends == old(sends) + if position != old(position) then 1 else 0
      ensures published == old(published) && overruns == old(overruns)
      ensures old(Mirrored()) ==> Mirrored()
    {
      var quiet := subscribers == 0 && pins == 0 && !(idleSince.Some? && now - idleSince.value < config.idleRetention);
      pins := pins + 1;
      if quiet && applied > position {
        resumeFloor := Max(resumeFloor, applied);
        position := applied;
        events := [];
        wake, sends := position, sends + 1;
      }
    }

    method DropPin()
      modifies this
      ensures State() == Unpinned(old(State())) && live == old(live) && sends == old(sends)
      ensures published == old(published) && overruns == old(overruns)
    {
      pins := if pins > 0 then pins - 1 else 0;
    }

    method Detach(now: nat)
      modifies this
      ensures State() == Detached(old(State()), now) && Mirrored() && sends == old(sends)
      ensures idleSince == if subscribers == 0 then Some(now) else old(idleSince)
      ensures published == old(published) && overruns == old(overruns)
    {
      subscribers := if subscribers > 0 then subscribers - 1 else 0;
      if subscribers == 0 { idleSince := Some(now); }
      live := subscribers;
    }

    method Read(cursor: nat, strict: bool) returns (r: Read)
      ensures r == ReadFrom(State(), cursor, strict)
    {
      if cursor < resumeFloor {
        return if strict then Behind(resumeFloor) else Skipped(resumeFloor);
      }
      var start := PartitionPoint(events, cursor);
      var batch := Take(events[start..], READ_BATCH);
      return if batch != [] then Events(batch) else if closed then Ended else Empty;
    }
  }

  class Subscription {
    const feed: Changefeed
    var cursor: nat
    const strict: bool
    var delivered: bool
    ghost var start: nat
    ghost var handed: seq<Event>

    ghost function State(): Sub
      reads this
    {
      Sub(cursor, strict, delivered, start, handed)
    }

    constructor (feed: Changefeed, at: Attached)
      ensures this.feed == feed && State() == NewSub(at)
    {
      this.feed := feed;
      cursor, strict, delivered, start, handed := at.cursor, at.strict, false, at.cursor, [];
    }

    /** The read loop up to its next wait: a batch, an end, or nothing yet. */
    method NextBatch() returns (out: Outcome)
      modifies this, feed`overruns
      ensures (State(), out) == Polled(old(feed.State()), old(State()))
      ensures feed.State() == old(feed.State())
      ensures feed.overruns == old(feed.overruns) + if out.Overran? then 1 else 0
    {
      ghost var before, view := State(), feed.State();
      while true
        invariant feed.State() == view && feed.overruns == old(feed.overruns)
        invariant handed == before.handed && delivered == before.delivered && handed == State().handed
        invariant State() == before ||
          (ReadFrom(view, before.cursor, before.strict || before.delivered) == Skipped(view.floor)
           && State() == before.(cursor := view.floor, start := view.floor))
        decreases if cursor < feed.resumeFloor then 1 else 0
      {
        var read := feed.Read(cursor, strict || delivered);
        match read {
          case Events(batch) =>
            delivered := true;
            cursor := batch[|batch| - 1].lsn;
            handed := handed + batch;
            return Batch(batch);
          case Skipped(floor) =>
            cursor, start := floor, floor;
          case Behind(floor) =>
            feed.overruns := feed.overruns + 1;
            return Overran(floor);
          case Ended => return Over;
          case Empty => return Waits;
        }
      }
    }
  }
}
