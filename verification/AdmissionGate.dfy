/** The write-admission bound: reservations against staged frames (src/state.rs). */
module AdmissionGate {
  datatype Outcome =
    | Unbounded
    | Reserved
    | Backlog(inFlight: nat)
    | TooWide(frames: nat)

  function HeldFor(held: map<string, nat>, collection: string): nat {
    if collection in held then held[collection] else 0
  }

  /** The decision, from the frames staged and held when the lock is taken. */
  function Decide(bound: nat, replicated: bool, pending: nat, held: nat, frames: nat): Outcome {
    if bound == 0 || !replicated then Unbounded
    else if frames > bound then TooWide(frames)
    else if pending + held + frames > bound then Backlog(pending + held)
    else Reserved
  }

  function AfterRelease(held: map<string, nat>, collection: string, frames: nat): map<string, nat> {
    if collection !in held then held
    else
      var left := if held[collection] > frames then held[collection] - frames else 0;
      if left == 0 then held - {collection} else held[collection := left]
  }

  /** Each answer, exactly when it is given. */
  lemma DecidesIff(bound: nat, replicated: bool, pending: nat, held: nat, frames: nat)
    ensures var o := Decide(bound, replicated, pending, held, frames);
      && (o == Unbounded <==> bound == 0 || !replicated)
      && (o == TooWide(frames) <==> bound > 0 && replicated && frames > bound)
      && (o == Backlog(pending + held) <==>
            bound > 0 && replicated && frames <= bound && pending + held + frames > bound)
      && (o == Reserved <==> bound > 0 && replicated && pending + held + frames <= bound)
  {
  }

  /** A release gives back its own frames alone, and leaves no entry of zero. */
  lemma ReleaseGivesBack(held: map<string, nat>, collection: string, frames: nat, other: string)
    ensures var after := AfterRelease(held, collection, frames);
      && HeldFor(after, collection) ==
           (if HeldFor(held, collection) > frames then HeldFor(held, collection) - frames else 0)
      && (collection in after <==> HeldFor(after, collection) > 0)
      && (other != collection ==>
            HeldFor(after, other) == HeldFor(held, other) && (other in after <==> other in held))
  {
  }

  class Gate {
    const bound: nat
    const replicated: bool
    var held: map<string, nat>
    var rejected: nat

    constructor (bound: nat, replicated: bool)
      ensures this.bound == bound && this.replicated == replicated && held == map[] && rejected == 0
    {
      this.bound, this.replicated, held, rejected := bound, replicated, map[], 0;
    }

    /** `pending` is the collection's staged frame count, read under the reservation lock. */
    method AdmitWrite(collection: string, frames: nat, pending: nat) returns (r: Outcome)
      modifies this
      ensures r == Decide(bound, replicated, pending, old(HeldFor(held, collection)), frames)
      ensures held == if r.Reserved? then old(held)[collection := old(HeldFor(held, collection)) + frames]
        else old(held)
      ensures rejected == old(rejected) + if r.TooWide? || r.Backlog? then 1 else 0
      ensures r.Unbounded? <==> bound == 0 || !replicated
      ensures r.TooWide? <==> bound > 0 && replicated && frames > bound
      ensures r.Backlog? ==> r.inFlight == pending + old(HeldFor(held, collection)) > bound - frames >= 0
    {
      if bound == 0 || !replicated { return Unbounded; }
      if frames > bound {
        rejected := rejected + 1;
        return TooWide(frames);
      }
      var inFlight := pending + HeldFor(held, collection);
      if inFlight + frames > bound {
        rejected := rejected + 1;
        return Backlog(inFlight);
      }
      held := held[collection := HeldFor(held, collection) + frames];
      return Reserved;
    }

    method Release(collection: string, frames: nat)
      modifies this
      ensures held == AfterRelease(old(held), collection, frames) && rejected == old(rejected)
    {
      if collection in held {
        var count := if held[collection] > frames then held[collection] - frames else 0;
        held := held[collection := count];
        if count == 0 {
          held := held - {collection};
          assert held == old(held) - {collection};
        }
      }
    }
  }
}
