/** Webhook delivery: the retry loop and opening a feed at the durable position
    (src/webhook.rs). What the endpoint, the quorum and the election answer is given as a script. */
module Webhooks {
  import opened JsonValues
  import opened Sorting
  import opened Feeds
  import opened FeedObjects
  import opened ChangeStreams

  datatype Reply = Success(commit: seq<CommitTurn>) | Gone | Failure(why: string)

  /** One try at recording a position: what the node sees recorded, whether it leads, and how its write went. */
  datatype CommitTurn = CommitTurn(recorded: nat, leading: bool, met: bool, recordedAfter: nat)

  datatype Turn = Turn(registered: bool, leading: bool, revoked: bool, reply: Reply)

  datatype CommitResult = Recorded | Deposed | Unfinished

  datatype PostResult = Acked | Done | SteppedDown | Trying

  /** A majority holds the position, before this try or through it. */
  predicate Holds(turn: CommitTurn, position: nat) {
    turn.recorded >= position || (turn.leading && turn.met && turn.recordedAfter >= position)
  }

  /** So far it leads and nobody holds the position. */
  predicate Undecided(turns: seq<CommitTurn>, position: nat, n: nat)
    requires n <= |turns|
  {
    forall j :: 0 <= j < n ==> turns[j].leading && !Holds(turns[j], position)
  }

  /** The first try that decides finds a majority holding the position. */
  predicate CommitsBy(turns: seq<CommitTurn>, position: nat) {
    exists i: nat :: i < |turns| && Holds(turns[i], position) && Undecided(turns, position, i)
  }

  /** The first try that decides finds the leadership gone below the position. */
  predicate DeposedBelow(turns: seq<CommitTurn>, position: nat) {
    exists i: nat :: i < |turns| && !turns[i].leading && turns[i].recorded < position && Undecided(turns, position, i)
  }

  /** A leader's post of a registration that stands, answered with a failure: it is posted again. */
  predicate Retried(turn: Turn) {
    turn.registered && turn.leading && !turn.revoked && turn.reply.Failure?
  }

  /** What the first turn that is not retried comes to. */
  ghost predicate EndsAs(turn: Turn, position: nat, r: PostResult) {
    if !turn.registered then r.Done?
    else if !turn.leading then r.SteppedDown?
    else if turn.revoked then r.Done?
    else match turn.reply
      case Gone => r.Done?
      case Failure(_) => false
      case Success(commit) =>
        && (r.Acked? <==> CommitsBy(commit, position))
        && (r.SteppedDown? <==> DeposedBelow(commit, position))
        && (r.Trying? <==> Undecided(commit, position, |commit|))
  }

  /** The turn disables the registration: its credential is no longer accepted, or the endpoint says it is gone. */
  predicate Disables(turn: Turn) {
    turn.registered && turn.leading && (turn.revoked || turn.reply.Gone?)
  }

  /** The text of the last failure, if the latest of the first `n` turns was one. */
  function LastFailure(turns: seq<Turn>, n: nat, before: Option<string>): Option<string>
    requires n <= |turns|
  {
    if n > 0 && turns[n - 1].reply.Failure? then Some(turns[n - 1].reply.why) else before
  }

  class Delivery {
    var position: nat
    var delivered: nat
    var attempts: nat
    var failures: nat
    var gaps: nat
    var lastError: Option<string>
    var disabled: bool

    constructor (position: nat)
      ensures this.position == position && !disabled && gaps == 0 && failures == 0
      ensures delivered == 0 && attempts == 0 && lastError == None
    {
      this.position := position;
      delivered, attempts, failures, gaps, lastError, disabled := 0, 0, 0, 0, None, false;
    }

    /** Retries until acknowledged and recorded, or until there is nobody left to retry for: `tries` posts fail,
        and the turn after them decides. The position moves only on an acknowledgement that was recorded, and
        then to the batch's last event. */
    method PostUntilAcknowledged(events: seq<Event>, turns: seq<Turn>) returns (r: PostResult, ghost tries: nat)
      requires events != []
      modifies this
      ensures tries <= |turns| && forall j :: 0 <= j < tries ==> Retried(turns[j])
      ensures if tries < |turns| then EndsAs(turns[tries], events[|events| - 1].lsn, r) else r.Trying?
      ensures r.Acked? ==>
        && position == events[|events| - 1].lsn && delivered == old(delivered) + |events|
        && failures == 0 && lastError == None
      ensures !r.Acked? ==>
        && position == old(position) && delivered == old(delivered) && failures == old(failures) + tries
        && lastError == LastFailure(turns, tries, old(lastError))
      ensures gaps == old(gaps)
      ensures disabled <==> old(disabled) || (tries < |turns| && Disables(turns[tries]))
      ensures attempts == old(attempts) + tries +
        if r.Acked? || (tries < |turns| && Disables(turns[tries]) && !turns[tries].revoked) then 1 else 0
    {
      tries := 0;
      for i := 0 to |turns|
        invariant position == old(position) && delivered == old(delivered) && gaps == old(gaps)
        invariant disabled == old(disabled) && forall j :: 0 <= j < i ==> Retried(turns[j])
        invariant tries == i && attempts == old(attempts) + tries && failures == old(failures) + tries
        invariant lastError == LastFailure(turns, tries, old(lastError))
      {
        var turn := turns[i];
        if !turn.registered { return Done, tries; }
        if !turn.leading { return SteppedDown, tries; }
        if turn.revoked {
          disabled := true;
          return Done, tries;
        }
        match turn.reply {
          case Gone =>
            attempts := attempts + 1;
            disabled := true;
            return Done, tries;
          case Success(commit) =>
            var last := events[|events| - 1];
            var result := CommitPosition(last.lsn, commit);
            OneDecision(commit, last.lsn);
            if result.Deposed? { return SteppedDown, tries; }
            if result.Unfinished? { return Trying, tries; }
            attempts := attempts + 1;
            delivered := delivered + |events|;
            failures := 0;
            lastError := None;
            position := last.lsn;
            return Acked, tries;
          case Failure(why) =>
            attempts := attempts + 1;
            failures := failures + 1;
            lastError := Some(why);
            tries := tries + 1;
        }
      }
      return Trying, tries;
    }

    /** Opens the feed at the durable position, the greater of its own and the recorded one. A feed with room
        lets it in exactly where the buffer still reaches that position; below the floor is a gap, resumed past
        at the floor; above the feed is one only if the log itself ends below, and else is tried again. */
    method Open(registered: bool, revoked: bool, feed: Changefeed, recorded: nat, pendingProgress: bool,
                lastAppended: nat, applied: nat, now: nat)
      returns (sub: Option<Attached>)
      requires feed.Mirrored() && feed.resumeFloor <= feed.position
      modifies this, feed
      ensures feed.Mirrored()
      ensures delivered == old(delivered) && attempts == old(attempts) && failures == old(failures)
      ensures disabled <==> old(disabled) || (registered && revoked)
      ensures if gaps == old(gaps) then lastError == old(lastError) else lastError.Some?
      ensures !registered || revoked || pendingProgress ==>
        sub.None? && position == old(position) && gaps == old(gaps) && feed.State() == old(feed.State())
      ensures registered && !revoked && !pendingProgress ==>
        var at, f := Max(old(position), recorded), old(feed.State());
        var seen := CaughtUp(feed.config, f, applied, now);
        if f.closed || f.subscribers >= feed.config.maxSubscribers then
          sub.None? && position == at && gaps == old(gaps) && feed.State() == f
        else
          && (seen.floor <= at <= seen.position ==>
                && sub == Some(Attached(at, true)) && position == at && gaps == old(gaps)
                && feed.State() == seen.(subscribers := f.subscribers + 1, idleSince := None))
          && (at < seen.floor ==>
                sub.None? && position == seen.floor && gaps == old(gaps) + 1 && feed.State() == seen)
          && (seen.position < at ==>
                && sub.None? && feed.State() == seen
                && (if lastAppended < at then position == seen.position && gaps == old(gaps) + 1
                    else position == at && gaps == old(gaps)))
    {
      if !registered { return None; }
      if revoked {
        disabled := true;
        return None;
      }
      if pendingProgress { return None; }
      var at := Max(position, recorded);
      if at > position { position := at; }
      ghost var f := feed.State();
      AnswersAre(feed.config, f, Some(at), applied, now);
      var answer := feed.Subscribe(Some(at), applied, now);
      match answer {
        case Admitted(a) => return Some(a);
        case Refused(Overrun(floor)) =>
          gaps := gaps + 1;
          position := floor;
          lastError := Some("fell behind the change buffer");
          return None;
        case Refused(Ahead(top)) =>
          if lastAppended >= at { return None; }
          gaps := gaps + 1;
          position := top;
          lastError := Some("position was above the log");
          return None;
        case Refused(_) => return None;
      }
    }
  }

  /** Retries until a majority holds the position or this node stops leading: the first try that decides does. */
  method CommitPosition(position: nat, turns: seq<CommitTurn>) returns (r: CommitResult)
    ensures r.Recorded? <==> CommitsBy(turns, position)
    ensures r.Deposed? <==> DeposedBelow(turns, position)
    ensures r.Unfinished? <==> Undecided(turns, position, |turns|)
  {
    OneDecision(turns, position);
    for i := 0 to |turns|
      invariant Undecided(turns, position, i)
    {
      if turns[i].recorded >= position { return Recorded; }
      if !turns[i].leading { return Deposed; }
      if turns[i].met && turns[i].recordedAfter >= position { return Recorded; }
    }
    return Unfinished;
  }

  /** Of the three endings there is one. */
  lemma OneDecision(turns: seq<CommitTurn>, position: nat)
    ensures !(CommitsBy(turns, position) && DeposedBelow(turns, position))
    ensures Undecided(turns, position, |turns|) <==> !CommitsBy(turns, position) && !DeposedBelow(turns, position)
  {
    var i := 0;
    while i < |turns| && turns[i].leading && !Holds(turns[i], position)
      invariant i <= |turns| && Undecided(turns, position, i)
    {
      i := i + 1;
    }
    if a: nat :| a < |turns| && Holds(turns[a], position) && Undecided(turns, position, a) {
      assert a <= i;
    }
    if b: nat :| b < |turns| && !turns[b].leading && turns[b].recorded < position && Undecided(turns, position, b) {
      assert b <= i;
    }
  }
}
