/**
  The peer records of one channel (main.go), the admissions a peer may carry, and the
  decision a JOIN is admitted by (main.go, control_auth.go, identity_admission.go).
 */
module Membership {
  import opened Common
  import opened ServiceAdmission

  const PERMISSION_TALK: uint8 := 2
  const PERMISSION_INTERRUPT: uint8 := 4

  const RELEASE_MEMBERSHIP_TIMEOUT: uint8 := 0x02
  const RELEASE_IDENTITY_EXPIRED: uint8 := 0x05
  const RELEASE_SERVICE_EXPIRED: uint8 := 0x08

  datatype IdentityAdmission = IdentityAdmission(permissions: uint8, priority: uint8, expiresAt: Time)

  /** A UDP endpoint, as the peer map's key. */
  type Address = string

  /** `deadline` is 0 until the membership starts. */
  datatype Peer = Peer(
    sender: uint32, lease: Time, deadline: Time,
    identity: Option<IdentityAdmission>, service: Option<Admission>)

  type Peers = map<Address, Peer>

  const NEW_PEER := Peer(0, 0, 0, None, None)

  /** upsertPeer and upsertAuthenticatedPeerWithReplay: an existing record keeps its admissions and deadline. */
  function Upsert(peers: Peers, sender: uint32, address: Address): Peers {
    var p := if address in peers then peers[address] else NEW_PEER;
    peers[address := p.(sender := sender)]
  }

  predicate Carries(peers: Peers, sender: uint32, address: Address) {
    address in peers && peers[address].sender == sender
  }

  /**
    setPeerIdentityAdmission and setPeerServiceAdmission: the peer must be the packet's, and
    must not hold an admission of the other kind.
   */
  function AttachAdmission(peers: Peers, sender: uint32, address: Address,
                           identity: Option<IdentityAdmission>, service: Option<Admission>): Option<Peers> {
    if !Carries(peers, sender, address)
       || (identity.Some? && peers[address].service.Some?)
       || (service.Some? && peers[address].identity.Some?)
    then None
    else
      var p := peers[address];
      Some(peers[address := if identity.Some? then p.(identity := identity) else p.(service := service)])
  }

  /** The peer's service admission is one the target revokes. */
  predicate Revoked(p: Peer, target: Target) {
    p.service.Some? && target.Matches(target.channelID, p.service.value)
  }

  /** The peers of the target's channel that a revocation leaves. */
  ghost function Unrevoked(peers: Peers, target: Target): Peers {
    map a | a in peers && !Revoked(peers[a], target) :: peers[a]
  }

  /** Why a membership has ended by `now`, if it has. A tie counts as the ordinary timeout. */
  function Expired(p: Peer, now: Time): (reason: Option<uint8>)
    ensures reason.None? <==>
      && (p.deadline == 0 || p.deadline > now)
      && (p.identity.Some? ==> p.identity.value.expiresAt > now)
      && (p.service.Some? ==> p.service.value.MembershipCurrent(now))
    ensures reason == Some(RELEASE_IDENTITY_EXPIRED) <==>
      p.identity.Some? && p.identity.value.expiresAt <= now
      && (p.deadline == 0 || p.deadline > now || p.identity.value.expiresAt < p.deadline)
    ensures reason == Some(RELEASE_SERVICE_EXPIRED) <==>
      reason != Some(RELEASE_IDENTITY_EXPIRED) && p.service.Some? && !p.service.value.MembershipCurrent(now)
      && (p.deadline == 0 || p.deadline > now || p.service.value.ExpiryDeadline() < p.deadline)
    ensures reason.Some? ==>
      reason.value in {RELEASE_IDENTITY_EXPIRED, RELEASE_SERVICE_EXPIRED, RELEASE_MEMBERSHIP_TIMEOUT}
  {
    var normal := p.deadline != 0 && p.deadline <= now;
    var identity := p.identity.Some? && p.identity.value.expiresAt <= now;
    var service := p.service.Some? && p.service.value.ExpiryDeadline() <= now;
    if !normal && !identity && !service then None
    else if identity && (!normal || p.identity.value.expiresAt < p.deadline) then Some(RELEASE_IDENTITY_EXPIRED)
    else if service && (!normal || p.service.value.ExpiryDeadline() < p.deadline) then Some(RELEASE_SERVICE_EXPIRED)
    else Some(RELEASE_MEMBERSHIP_TIMEOUT)
  }

  // The JOIN decision.

  datatype IdentityOutcome = IdentityAdmitted(admission: IdentityAdmission) | NoIdentity | IdentityDenied(reason: uint8)

  datatype IdentityState = IdentityState(
    required: bool, pending: map<Key, (IdentityAdmission, Time)>,
    verified: map<Key, IdentityAdmission>, failed: map<Key, Failure>)

  ghost function IdentityCleanup(s: IdentityState, now: Time): IdentityState {
    IdentityState(
      s.required,
      Without(s.pending, (k: Key, p: (IdentityAdmission, Time)) => p.1 <= now),
      Without(s.verified, (k: Key, a: IdentityAdmission) => a.expiresAt <= now),
      Without(s.failed, (k: Key, f: Failure) => f.expiresAt <= now))
  }

  /** The verdict of identityAdmissionState.admissionForJoin. */
  function IdentityForJoin(s: IdentityState, key: Key, now: Time): (r: IdentityOutcome)
    ensures var admitted := key in s.verified && s.verified[key].expiresAt > now;
      var refused := key in s.failed && s.failed[key].expiresAt > now;
      var waiting := key in s.pending && s.pending[key].1 > now;
      && (admitted ==> r == IdentityAdmitted(s.verified[key]))
      && (!admitted && refused ==> r == IdentityDenied(s.failed[key].reason))
      && (!admitted && !refused && waiting ==> r == IdentityDenied(DENY_INVALID_PROOF))
      && (!admitted && !refused && !waiting ==>
            r == if s.required then IdentityDenied(DENY_ADMISSION_REQUIRED) else NoIdentity)
  {
    if key in s.verified && s.verified[key].expiresAt > now then IdentityAdmitted(s.verified[key])
    else if key in s.failed && s.failed[key].expiresAt > now then IdentityDenied(s.failed[key].reason)
    else if key in s.pending && s.pending[key].1 > now then IdentityDenied(DENY_INVALID_PROOF)
    else if s.required then IdentityDenied(DENY_ADMISSION_REQUIRED)
    else NoIdentity
  }

  /** An identity that is admitted is used up. */
  ghost function IdentityAfterJoin(s: IdentityState, key: Key, now: Time): IdentityState {
    var c := IdentityCleanup(s, now);
    if IdentityForJoin(s, key, now).IdentityAdmitted? then c.(verified := c.verified - {key}) else c
  }

  /** An admitted identity is used up; every other endpoint keeps what has not expired. */
  lemma IdentityUsedOnce(s: IdentityState, key: Key, now: Time, again: Time, k: Key)
    ensures var t, first := IdentityAfterJoin(s, key, now), IdentityForJoin(s, key, now);
      && (first.IdentityAdmitted? ==> !IdentityForJoin(t, key, again).IdentityAdmitted?)
      && (now <= again && (k != key || !first.IdentityAdmitted?) ==>
            IdentityForJoin(t, k, again) == IdentityForJoin(s, k, again))
  {
  }

  class IdentityAdmissionState {
    const required: bool
    var pending: map<Key, (IdentityAdmission, Time)>
    var verified: map<Key, IdentityAdmission>
    var failed: map<Key, Failure>

    constructor (required: bool)
      ensures State() == IdentityState(required, map[], map[], map[])
    {
      this.required := required;
      pending, verified, failed := map[], map[], map[];
    }

    function State(): IdentityState
      reads this
    {
      IdentityState(required, pending, verified, failed)
    }

    method CleanupLocked(now: Time)
      modifies this
      ensures State() == IdentityCleanup(old(State()), now)
    {
      pending := DeleteWhere(pending, (k: Key, p: (IdentityAdmission, Time)) => p.1 <= now);
      verified := DeleteWhere(verified, (k: Key, a: IdentityAdmission) => a.expiresAt <= now);
      failed := DeleteWhere(failed, (k: Key, f: Failure) => f.expiresAt <= now);
    }

    method AdmissionForJoin(key: Key, now: Time) returns (r: IdentityOutcome)
      modifies this
      ensures r == IdentityForJoin(old(State()), key, now)
      ensures State() == IdentityAfterJoin(old(State()), key, now)
    {
      CleanupLocked(now);
      if key in verified && verified[key].expiresAt > now {
        r := IdentityAdmitted(verified[key]);
        verified := verified - {key};
        return;
      }
      if key in failed {
        return IdentityDenied(failed[key].reason);
      }
      if key in pending {
        return IdentityDenied(DENY_INVALID_PROOF);
      }
      if required {
        return IdentityDenied(DENY_ADMISSION_REQUIRED);
      }
      return NoIdentity;
    }
  }

  datatype JoinDecision =
    | Admit(identity: Option<IdentityAdmission>, service: Option<Admission>)
    | RefuseIdentity(reason: uint8)
    | RefuseService(reason: uint8)

  /** resolveJoinAdmission: a peer uses one admission path, and under required mode exactly one. */
  function ResolveJoin(identity: IdentityOutcome, service: JoinOutcome, required: bool): (d: JoinDecision)
    ensures d.Admit? ==> !(d.identity.Some? && d.service.Some?)
    ensures d.Admit? && required ==> d.identity.Some? || d.service.Some?
    ensures d.Admit? && d.identity.Some? ==> identity == IdentityAdmitted(d.identity.value)
    ensures d.Admit? && d.service.Some? ==> service == Admitted(d.service.value)
    ensures d.Admit? && identity.IdentityAdmitted? ==> d.identity == Some(identity.admission)
    ensures d.Admit? && service.Admitted? ==> d.service == Some(service.admission)
    ensures d.Admit? <==>
      || (identity.IdentityAdmitted? && service.NoAdmission?)
      || (service.Admitted? && (identity.NoIdentity? || identity == IdentityDenied(DENY_ADMISSION_REQUIRED)))
      || (identity.NoIdentity? && service.NoAdmission? && !required)
    ensures d.RefuseService? <==> service.JoinDenied?
    ensures service.JoinDenied? ==> d == RefuseService(service.reason)
    ensures d.RefuseIdentity? && identity.IdentityDenied? ==> d.reason == identity.reason
    ensures d.RefuseIdentity? && identity.IdentityAdmitted? ==> d.reason == DENY_SCOPE_MISMATCH
    ensures d.RefuseIdentity? && identity.NoIdentity? ==> d.reason == DENY_ADMISSION_REQUIRED
  {
    if service.JoinDenied? then RefuseService(service.reason)
    else if identity.IdentityDenied? && !(identity.reason == DENY_ADMISSION_REQUIRED && service.Admitted?) then
      RefuseIdentity(identity.reason)
    else if identity.IdentityAdmitted? && service.Admitted? then RefuseIdentity(DENY_SCOPE_MISMATCH)
    else if required && !identity.IdentityAdmitted? && !service.Admitted? then RefuseIdentity(DENY_ADMISSION_REQUIRED)
    else
      Admit(
        if identity.IdentityAdmitted? then Some(identity.admission) else None,
        if service.Admitted? then Some(service.admission) else None)
  }
}
