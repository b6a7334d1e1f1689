/**
  The nonces of relay control packets (control_auth.go): a random instance ID in the high
  half and a counter in the low half. When the counter is used up a fresh instance ID is
  drawn, which may fail and is then tried again on the next call.
 */
module RelayNonce {
  import opened Common

  const DRAWS := 32

  /** What the random source gives to 32 reads; `None` is a read error. */
  type Draws = seq<Option<uint32>>

  datatype Nonces = Nonces(instance: uint32, counter: uint32, exhausted: bool, used: set<uint32>)

  /** The ID newRelayInstanceIDLocked settles on: the first that is not zero and not used. */
  function Draw(used: set<uint32>, draws: Draws): Option<uint32> {
    if draws == [] || draws[0].None? then None
    else if draws[0].value != 0 && draws[0].value !in used then draws[0]
    else Draw(used, draws[1..])
  }

  function Nonce(instance: uint32, counter: uint32): nat {
    instance * TWO_32 + counter
  }

  function Advance(s: Nonces): Nonces {
    if s.counter == TWO_32 - 1 then s.(exhausted := true) else s.(counter := s.counter + 1)
  }

  /** The state a nonce is taken from: the same, or a fresh instance ID after the counter is used up. */
  function Ready(s: Nonces, draws: Draws): Option<Nonces> {
    if !s.exhausted then Some(s) else
    var id := Draw(s.used, draws);
    if id.None? then None else Some(Nonces(id.value, 0, false, s.used + {id.value}))
  }

  function Next(s: Nonces, draws: Draws): (Nonces, Option<nat>) {
    var ready := Ready(s, draws);
    if ready.None? then (s, None) else (Advance(ready.value), Some(Nonce(ready.value.instance, ready.value.counter)))
  }

  class RelayNonces {
    var relayInstanceID: uint32
    var relayCounter: uint32
    var relayCounterExhausted: bool
    var usedRelayInstanceIDs: set<uint32>

    constructor ()
      ensures State() == Nonces(0, 0, false, {})
    {
      relayInstanceID, relayCounter, relayCounterExhausted, usedRelayInstanceIDs := 0, 0, false, {};
    }

    /** newControlAuthState, unless authentication is off; without a first ID it fails. */
    method Start(draws: Draws) returns (ok: bool)
      requires |draws| == DRAWS && State() == Nonces(0, 0, false, {})
      modifies this
      ensures ok == Draw({}, draws).Some?
      ensures ok ==> Valid(State()) && State() == Nonces(Draw({}, draws).value, 0, false, {Draw({}, draws).value})
    {
      var id := NewRelayInstanceIDLocked(draws);
      if id.None? {
        return false;
      }
      DrawIsFresh({}, draws);
      relayInstanceID := id.value;
      ok := true;
    }

    function State(): Nonces
      reads this
    {
      Nonces(relayInstanceID, relayCounter, relayCounterExhausted, usedRelayInstanceIDs)
    }

    method NewRelayInstanceIDLocked(draws: Draws) returns (id: Option<uint32>)
      requires |draws| == DRAWS
      modifies this`usedRelayInstanceIDs
      ensures id == Draw(old(usedRelayInstanceIDs), draws)
      ensures usedRelayInstanceIDs ==
        if id.Some? then old(usedRelayInstanceIDs) + {id.value} else old(usedRelayInstanceIDs)
    {
      assert draws[0..] == draws;
      for attempts := 0 to DRAWS
        invariant usedRelayInstanceIDs == old(usedRelayInstanceIDs)
        invariant Draw(usedRelayInstanceIDs, draws) == Draw(usedRelayInstanceIDs, draws[attempts..])
      {
        assert draws[attempts..][1..] == draws[attempts + 1..];
        if draws[attempts].None? {
          return None;
        }
        var instanceID := draws[attempts].value;
        if instanceID != 0 && instanceID !in usedRelayInstanceIDs {
          usedRelayInstanceIDs := usedRelayInstanceIDs + {instanceID};
          return Some(instanceID);
        }
      }
      id := None;
    }

    method NextRelayNonce(draws: Draws) returns (nonce: Option<nat>)
      requires |draws| == DRAWS
      modifies this
      ensures (State(), nonce) == Next(old(State()), draws)
    {
      if relayCounterExhausted {
        var id := NewRelayInstanceIDLocked(draws);
        if id.None? {
          return None;
        }
        relayInstanceID, relayCounter, relayCounterExhausted := id.value, 0, false;
      }
      nonce := Some(relayInstanceID * TWO_32 + relayCounter);
      if relayCounter == TWO_32 - 1 {
        relayCounterExhausted := true;
      } else {
        relayCounter := relayCounter + 1;
      }
    }
  }

  // Runs: one list of draws a call.

  function Outputs(s: Nonces, calls: seq<Draws>): (r: seq<Option<nat>>)
    ensures |r| == |calls|
    decreases calls
  {
    if calls == [] then [] else [Next(s, calls[0]).1] + Outputs(Next(s, calls[0]).0, calls[1..])
  }

  ghost predicate Valid(s: Nonces) {
    s.instance in s.used && 0 !in s.used && (s.exhausted ==> s.counter == TWO_32 - 1)
  }

  /** `nonce` was given out before `s`: its instance ID is used, and the current one's counter is past it. */
  ghost predicate Given(s: Nonces, nonce: nat) {
    && nonce / TWO_32 in s.used
    && (nonce / TWO_32 == s.instance ==> s.exhausted || nonce % TWO_32 < s.counter)
  }

  lemma Halves(instance: uint32, counter: uint32)
    ensures Nonce(instance, counter) / TWO_32 == instance && Nonce(instance, counter) % TWO_32 == counter
  {
  }

  lemma {:induction false} DrawIsFresh(used: set<uint32>, draws: Draws)
    ensures Draw(used, draws).Some? ==> Draw(used, draws).value != 0 && Draw(used, draws).value !in used
  {
    if draws != [] && draws[0].Some? {
      DrawIsFresh(used, draws[1..]);
    }
  }

  lemma CallIsFresh(s: Nonces, draws: Draws, given: nat)
    requires Valid(s)
    ensures var (next, nonce) := Next(s, draws);
      && Valid(next) && (nonce.Some? ==> nonce.value / TWO_32 != 0 && Given(next, nonce.value))
      && (Given(s, given) ==> Given(next, given) && nonce != Some(given))
  {
    DrawIsFresh(s.used, draws);
    if Ready(s, draws).Some? {
      var ready := Ready(s, draws).value;
      Halves(ready.instance, ready.counter);
      assert Nonce(ready.instance, ready.counter) % TWO_32 < TWO_32;
      assert given % TWO_32 < TWO_32;
    }
  }

  lemma {:induction false} NeverGivenAgain(s: Nonces, calls: seq<Draws>, given: nat, i: nat)
    requires Valid(s) && Given(s, given) && i < |calls|
    ensures Outputs(s, calls)[i] != Some(given)
    decreases calls
  {
    CallIsFresh(s, calls[0], given);
    if i > 0 {
      NeverGivenAgain(Next(s, calls[0]).0, calls[1..], given, i - 1);
    }
  }

  /**
    Across any number of rollovers and failed draws, no two successful calls return the same
    nonce, and the high half is never zero.
   */
  lemma {:induction false} NoncesNeverRepeat(s: Nonces, calls: seq<Draws>, i: nat, j: nat)
    requires Valid(s) && i < j < |calls|
    ensures Outputs(s, calls)[i].Some? ==>
      Outputs(s, calls)[i].value / TWO_32 != 0 && Outputs(s, calls)[j] != Outputs(s, calls)[i]
    decreases calls
  {
    var (next, nonce) := Next(s, calls[0]);
    CallIsFresh(s, calls[0], if nonce.Some? then nonce.value else 0);
    if i > 0 {
      NoncesNeverRepeat(next, calls[1..], i - 1, j - 1);
    } else if nonce.Some? {
      NeverGivenAgain(next, calls[1..], nonce.value, j - 1);
    }
  }

  /** The first of 32 draws that is not zero and not used is taken; a read error before it, or none such, fails. */
  lemma {:induction false} DrawExactly(used: set<uint32>, draws: Draws, i: nat)
    requires i < |draws| && draws[i].Some? && draws[i].value != 0 && draws[i].value !in used
    requires forall j :: 0 <= j < i ==> draws[j].None? || draws[j].value == 0 || draws[j].value in used
    ensures Draw(used, draws) == if exists j :: 0 <= j < i && draws[j].None? then None else draws[i]
    decreases i
  {
    if i > 0 && draws[0].Some? {
      DrawExactly(used, draws[1..], i - 1);
      assert forall j :: 0 < j < i ==> draws[j] == draws[1..][j - 1];
      assert (exists j :: 0 <= j < i && draws[j].None?) <==> (exists j :: 0 <= j < i - 1 && draws[1..][j].None?);
    }
  }

  lemma {:induction false} DrawFails(used: set<uint32>, draws: Draws)
    requires forall j :: 0 <= j < |draws| ==> draws[j].None? || draws[j].value == 0 || draws[j].value in used
    ensures Draw(used, draws).None?
    decreases |draws|
  {
    if draws != [] && draws[0].Some? {
      DrawFails(used, draws[1..]);
    }
  }

  /** Until the counter is used up the calls return consecutive nonces, without a draw. */
  lemma {:induction false} NoncesCount(s: Nonces, calls: seq<Draws>, i: nat)
    requires !s.exhausted && i < |calls| && s.counter + i < TWO_32
    ensures Outputs(s, calls)[i] == Some(s.instance * TWO_32 + s.counter + i)
    decreases calls
  {
    if i > 0 {
      NoncesCount(Next(s, calls[0]).0, calls[1..], i - 1);
    }
  }

  /** With the counter used up a call draws a fresh instance ID, or fails and leaves everything as it was. */
  lemma RolloverExactly(s: Nonces, draws: Draws)
    requires s.exhausted
    ensures var (next, nonce) := Next(s, draws);
      && (nonce.Some? <==> Draw(s.used, draws).Some?)
      && (nonce.None? ==> next == s)
      && (nonce.Some? ==>
            var id := Draw(s.used, draws).value;
            nonce.value == id * TWO_32 && next == Nonces(id, 1, false, s.used + {id}))
  {
  }
}
