/**
  service_admission.go: the pending, verified, failed and denied maps of managed
  service admission, all guarded by one mutex. Each method is one critical section.
  `AdmissionState` is the value of the four maps; the functions on it say what each
  critical section does, and the lemmas are about those functions.
 */
module ServiceAdmission {
  import opened Common

  const CHALLENGE_TTL: Time := 30 * SECOND
  const MAX_PENDING := 1024
  const MAX_DENY_RULES := 1024
  const PERMISSION_LISTEN: uint8 := 1

  const DENY_ADMISSION_REQUIRED: uint8 := 0x00
  const DENY_INVALID_GRANT: uint8 := 0x01
  const DENY_SCOPE_MISMATCH: uint8 := 0x03
  const DENY_INVALID_PROOF: uint8 := 0x05
  const DENY_REVOKED: uint8 := 0x07

  /** A SHA-256 digest; 0 is the all-zero array. */
  type Hash = nat

  datatype Admission = Admission(
    serviceID: string, permissions: uint8, priority: uint8,
    grantExpires: Time, grace: nat, grantIDHash: Hash) {

    function ExpiryDeadline(): Time {
      if permissions == PERMISSION_LISTEN && grace > 0 then grantExpires + grace else grantExpires
    }

    predicate GrantCurrent(now: Time) {
      grantExpires > now
    }

    predicate MembershipCurrent(now: Time) {
      ExpiryDeadline() > now
    }
  }

  datatype Target = Target(channelID: uint32, serviceID: string, grantIDHash: Option<Hash>) {
    predicate Matches(channel: uint32, admission: Admission) {
      && channelID == channel
      && (serviceID == "" || serviceID == admission.serviceID)
      && (grantIDHash.None? || grantIDHash.value == admission.grantIDHash)
    }

    function Rule(): DenyRule {
      match grantIDHash
      case None => DenyRule(channelID, serviceID, 0, false)
      case Some(hash) => DenyRule(channelID, serviceID, hash, true)
    }

    /** A target names a service, a grant, or both. */
    predicate Specific() {
      serviceID != "" || grantIDHash.Some?
    }
  }

  datatype DenyRule = DenyRule(channelID: uint32, serviceID: string, grantIDHash: Hash, hasGrantIDHash: bool) {
    predicate Matches(channel: uint32, admission: Admission) {
      && channelID == channel
      && (serviceID == "" || serviceID == admission.serviceID)
      && (!hasGrantIDHash || grantIDHash == admission.grantIDHash)
    }

    /** The target a persisted rule is read back as. */
    function ToTarget(): Target {
      Target(channelID, serviceID, if hasGrantIDHash then Some(grantIDHash) else None)
    }

    /** Rules that come from a target: an absent grant hash is stored as zero. */
    predicate Canonical() {
      (!hasGrantIDHash ==> grantIDHash == 0) && ToTarget().Specific()
    }
  }

  datatype Key = Key(channelID: uint32, senderID: uint32, sessionID: uint32, address: string)
  datatype Pending = Pending(admission: Admission, expiresAt: Time)
  datatype Failure = Failure(reason: uint8, expiresAt: Time)

  /** The outcome of checking a grant's signature and claims. */
  datatype Validation = Granted(admission: Admission) | Refused(reason: uint8)

  datatype JoinOutcome = Admitted(admission: Admission) | NoAdmission | JoinDenied(reason: uint8)

  datatype AdmissionState = AdmissionState(
    pending: map<Key, Pending>, verified: map<Key, Admission>,
    failed: map<Key, Failure>, denied: map<DenyRule, Time>) {

    predicate Denied(channel: uint32, admission: Admission) {
      exists rule :: rule in denied && rule.Matches(channel, admission)
    }

    /** No admission that is on its way to a membership matches an installed rule. */
    ghost predicate Quiet() {
      && (forall k :: k in pending ==> !Denied(k.channelID, pending[k].admission))
      && (forall k :: k in verified ==> !Denied(k.channelID, verified[k]))
    }

    ghost predicate Bounded() {
      |pending| <= MAX_PENDING && |denied| <= MAX_DENY_RULES
    }
  }

  const EMPTY := AdmissionState(map[], map[], map[], map[])

  ghost function Cleanup(s: AdmissionState, now: Time): AdmissionState {
    AdmissionState(
      Without(s.pending, (k: Key, p: Pending) => p.expiresAt <= now),
      Without(s.verified, (k: Key, a: Admission) => !a.GrantCurrent(now)),
      Without(s.failed, (k: Key, f: Failure) => f.expiresAt <= now),
      Without(s.denied, (r: DenyRule, expiry: Time) => expiry <= now))
  }

  /** Whether installRevocation installs the rule. */
  ghost predicate Installs(s: AdmissionState, target: Target, denyUntil: Time, now: Time) {
    && denyUntil > now && target.Specific()
    && (target.Rule() in Cleanup(s, now).denied || |Cleanup(s, now).denied| < MAX_DENY_RULES)
  }

  ghost function Install(s: AdmissionState, target: Target, denyUntil: Time, now: Time): AdmissionState {
    if denyUntil <= now || !target.Specific() then s
    else if !Installs(s, target, denyUntil, now) then Cleanup(s, now)
    else
      var c := Cleanup(s, now);
      var rule := target.Rule();
      var expiresAt := if rule in c.denied && c.denied[rule] > denyUntil then c.denied[rule] else denyUntil;
      AdmissionState(
        Without(c.pending, (k: Key, p: Pending) => target.Matches(k.channelID, p.admission)),
        Without(c.verified, (k: Key, a: Admission) => target.Matches(k.channelID, a)),
        c.failed, c.denied[rule := expiresAt])
  }

  function Fail(s: AdmissionState, key: Key, reason: uint8, now: Time): AdmissionState {
    s.(failed := s.failed[key := Failure(reason, now + CHALLENGE_TTL)])
  }

  /** The reason `begin` refuses with, if it does; `drawn` says that reading randomness succeeded. */
  ghost function BeginReason(s: AdmissionState, key: Key, grant: Validation, drawn: bool, now: Time): Option<uint8> {
    var c := Cleanup(s, now);
    if grant.Refused? then Some(grant.reason)
    else if c.Denied(key.channelID, grant.admission) then Some(DENY_REVOKED)
    else if |c.pending| >= MAX_PENDING || !drawn then Some(DENY_INVALID_GRANT)
    else None
  }

  ghost function Begin(s: AdmissionState, key: Key, grant: Validation, drawn: bool, now: Time): AdmissionState {
    var c := Cleanup(s, now);
    match BeginReason(s, key, grant, drawn, now)
    case Some(reason) =>
      if grant.Granted? && !c.Denied(key.channelID, grant.admission) && |c.pending| < MAX_PENDING then c
      else Fail(c, key, reason, now)
    case None =>
      var ttl := now + CHALLENGE_TTL;
      var expiresAt := if grant.admission.grantExpires < ttl then grant.admission.grantExpires else ttl;
      c.(pending := c.pending[key := Pending(grant.admission, expiresAt)], failed := c.failed - {key})
  }

  /** The reason `proof` refuses with, if it does. */
  ghost function ProofReason(s: AdmissionState, key: Key, signed: bool, now: Time): Option<uint8> {
    var c := Cleanup(s, now);
    if key !in c.pending then Some(DENY_INVALID_PROOF)
    else if c.Denied(key.channelID, c.pending[key].admission) then Some(DENY_REVOKED)
    else if !signed then Some(DENY_INVALID_PROOF)
    else None
  }

  ghost function Proof(s: AdmissionState, key: Key, signed: bool, now: Time): AdmissionState {
    var c := Cleanup(s, now);
    var rest := c.(pending := c.pending - {key});
    match ProofReason(s, key, signed, now)
    case Some(reason) => Fail(rest, key, reason, now)
    case None => rest.(failed := c.failed - {key}, verified := c.verified[key := c.pending[key].admission])
  }

  ghost function Taken(s: AdmissionState, key: Key, now: Time): Option<Admission> {
    var c := Cleanup(s, now);
    if key in c.verified && !c.Denied(key.channelID, c.verified[key]) then Some(c.verified[key]) else None
  }

  ghost function Take(s: AdmissionState, key: Key, now: Time): AdmissionState {
    var c := Cleanup(s, now);
    c.(verified := c.verified - {key})
  }

  ghost function JoinVerdict(s: AdmissionState, key: Key, now: Time): JoinOutcome {
    var c := Cleanup(s, now);
    if Taken(s, key, now).Some? then Admitted(Taken(s, key, now).value)
    else if key in c.failed then JoinDenied(c.failed[key].reason)
    else if key in c.pending then JoinDenied(DENY_INVALID_PROOF)
    else NoAdmission
  }

  ghost function Join(s: AdmissionState, key: Key, now: Time): AdmissionState {
    var c := Cleanup(s, now);
    if Taken(s, key, now).Some? then c.(verified := c.verified - {key}) else c
  }

  class ServiceAdmissionState {
    var pending: map<Key, Pending>
    var verified: map<Key, Admission>
    var failed: map<Key, Failure>
    var denied: map<DenyRule, Time>

    function State(): AdmissionState
      reads this
    {
      AdmissionState(pending, verified, failed, denied)
    }

    constructor ()
      ensures State() == EMPTY
    {
      pending, verified, failed, denied := map[], map[], map[], map[];
    }

    method CleanupLocked(now: Time)
      modifies this
      ensures State() == Cleanup(old(State()), now)
    {
      pending := DeleteWhere(pending, (k: Key, p: Pending) => p.expiresAt <= now);
      verified := DeleteWhere(verified, (k: Key, a: Admission) => !a.GrantCurrent(now));
      failed := DeleteWhere(failed, (k: Key, f: Failure) => f.expiresAt <= now);
      denied := DeleteWhere(denied, (r: DenyRule, expiry: Time) => expiry <= now);
    }

    method DeniedLocked(channel: uint32, admission: Admission) returns (found: bool)
      ensures found <==> State().Denied(channel, admission)
    {
      found := false;
      var todo := denied.Keys;
      while todo != {} && !found
        invariant todo <= denied.Keys
        invariant found ==> State().Denied(channel, admission)
        invariant forall rule :: rule in denied && rule.Matches(channel, admission) ==> found || rule in todo
        decreases todo, !found
      {
        var rule :| rule in todo;
        todo := todo - {rule};
        if rule.Matches(channel, admission) {
          found := true;
        }
      }
    }

    method InstallRevocation(target: Target, denyUntil: Time, now: Time) returns (ok: bool)
      modifies this
      ensures ok <==> Installs(old(State()), target, denyUntil, now)
      ensures State() == Install(old(State()), target, denyUntil, now)
    {
      if denyUntil <= now || (target.serviceID == "" && target.grantIDHash.None?) {
        return false;
      }
      var rule := target.Rule();
      var expiresAt := denyUntil;
      CleanupLocked(now);
      if rule in denied {
        if denied[rule] > expiresAt {
          expiresAt := denied[rule];
        }
      } else if |denied| >= MAX_DENY_RULES {
        return false;
      }
      denied := denied[rule := expiresAt];
      pending := DeleteWhere(pending, (k: Key, p: Pending) => target.Matches(k.channelID, p.admission));
      verified := DeleteWhere(verified, (k: Key, a: Admission) => target.Matches(k.channelID, a));
      ok := true;
    }

    method BeginAdmission(key: Key, grant: Validation, drawn: bool, now: Time) returns (reason: Option<uint8>)
      modifies this
      ensures reason == BeginReason(old(State()), key, grant, drawn, now)
      ensures State() == Begin(old(State()), key, grant, drawn, now)
    {
      CleanupLocked(now);
      var denyReason := if grant.Refused? then Some(grant.reason) else None;
      if denyReason.None? {
        var revoked := DeniedLocked(key.channelID, grant.admission);
        if revoked {
          denyReason := Some(DENY_REVOKED);
        }
      }
      if denyReason.Some? {
        failed := failed[key := Failure(denyReason.value, now + CHALLENGE_TTL)];
        return denyReason;
      }
      if |pending| >= MAX_PENDING {
        failed := failed[key := Failure(DENY_INVALID_GRANT, now + CHALLENGE_TTL)];
        return Some(DENY_INVALID_GRANT);
      }
      if !drawn {
        return Some(DENY_INVALID_GRANT);
      }
      var challengeExpiry := now + CHALLENGE_TTL;
      if grant.admission.grantExpires < challengeExpiry {
        challengeExpiry := grant.admission.grantExpires;
      }
      pending := pending[key := Pending(grant.admission, challengeExpiry)];
      failed := failed - {key};
      return None;
    }

    method ProveAdmission(key: Key, signed: bool, now: Time) returns (reason: Option<uint8>)
      modifies this
      ensures reason == ProofReason(old(State()), key, signed, now)
      ensures State() == Proof(old(State()), key, signed, now)
    {
      CleanupLocked(now);
      if key !in pending || pending[key].expiresAt <= now {
        failed := failed[key := Failure(DENY_INVALID_PROOF, now + CHALLENGE_TTL)];
        assert pending - {key} == pending;
        return Some(DENY_INVALID_PROOF);
      }
      var entry := pending[key];
      var revoked := DeniedLocked(key.channelID, entry.admission);
      if revoked {
        pending := pending - {key};
        failed := failed[key := Failure(DENY_REVOKED, now + CHALLENGE_TTL)];
        return Some(DENY_REVOKED);
      }
      if !signed {
        pending := pending - {key};
        failed := failed[key := Failure(DENY_INVALID_PROOF, now + CHALLENGE_TTL)];
        return Some(DENY_INVALID_PROOF);
      }
      pending := pending - {key};
      failed := failed - {key};
      verified := verified[key := entry.admission];
      return None;
    }

    method TakeVerifiedAdmission(key: Key, now: Time) returns (r: Option<Admission>)
      modifies this
      ensures r == Taken(old(State()), key, now)
      ensures State() == Take(old(State()), key, now)
    {
      CleanupLocked(now);
      if key !in verified || !verified[key].GrantCurrent(now) {
        verified := verified - {key};
        return None;
      }
      var revoked := DeniedLocked(key.channelID, verified[key]);
      r := if revoked then None else Some(verified[key]);
      verified := verified - {key};
    }

    method AdmissionForJoin(key: Key, now: Time) returns (r: JoinOutcome)
      modifies this
      ensures r == JoinVerdict(old(State()), key, now)
      ensures State() == Join(old(State()), key, now)
    {
      CleanupLocked(now);
      if key in verified && verified[key].GrantCurrent(now) {
        var revoked := DeniedLocked(key.channelID, verified[key]);
        if !revoked {
          r := Admitted(verified[key]);
          verified := verified - {key};
          return;
        }
      }
      if key in failed {
        return JoinDenied(failed[key].reason);
      }
      if key in pending {
        return JoinDenied(DENY_INVALID_PROOF);
      }
      return NoAdmission;
    }

    /** The check made while attaching, under the server's lock as well as this one. */
    method AdmissionAllowedForMembership(channel: uint32, admission: Admission, now: Time) returns (ok: bool)
      modifies this
      ensures State() == Cleanup(old(State()), now)
      ensures ok <==> admission.GrantCurrent(now) && !State().Denied(channel, admission)
    {
      CleanupLocked(now);
      var revoked := DeniedLocked(channel, admission);
      ok := admission.GrantCurrent(now) && !revoked;
    }
  }

  /** A target and the rule built from it agree on every channel and admission. */
  lemma TargetAgreesWithRule(target: Target, channel: uint32, admission: Admission)
    ensures target.Matches(channel, admission) <==> target.Rule().Matches(channel, admission)
  {
  }

  /** Writing a rule out and reading it back through a target gives the same rule. */
  lemma RuleRoundTrip(rule: DenyRule, target: Target)
    ensures rule.Canonical() <==> rule.ToTarget().Specific() && rule.ToTarget().Rule() == rule
    ensures target.Rule().ToTarget() == target
    ensures target.Specific() ==> target.Rule().Canonical()
  {
  }

  datatype Op =
    | DoInstall(target: Target, denyUntil: Time)
    | DoBegin(key: Key, grant: Validation, drawn: bool)
    | DoProof(key: Key, signed: bool)
    | DoTake(key: Key)
    | DoJoin(key: Key)
    | DoCheck

  ghost function Step(s: AdmissionState, op: Op, now: Time): AdmissionState {
    match op
    case DoInstall(target, denyUntil) => Install(s, target, denyUntil, now)
    case DoBegin(key, grant, drawn) => Begin(s, key, grant, drawn, now)
    case DoProof(key, signed) => Proof(s, key, signed, now)
    case DoTake(key) => Take(s, key, now)
    case DoJoin(key) => Join(s, key, now)
    case DoCheck => Cleanup(s, now)
  }

  /** A run of critical sections; the clock readings need not even be monotone. */
  ghost function Run(s: AdmissionState, ops: seq<(Op, Time)>): AdmissionState
    decreases ops
  {
    if ops == [] then s else Run(Step(s, ops[0].0, ops[0].1), ops[1..])
  }

  /** The target's rule is installed at least until `deadline`. */
  ghost predicate RuleHolds(s: AdmissionState, target: Target, deadline: Time) {
    target.Rule() in s.denied && s.denied[target.Rule()] >= deadline
  }

  /** No critical section with an earlier clock reading drops a rule before its deadline. */
  lemma RulesSurvive(s: AdmissionState, op: Op, now: Time, target: Target, deadline: Time)
    requires RuleHolds(s, target, deadline) && now < deadline
    ensures RuleHolds(Step(s, op, now), target, deadline)
  {
  }

  ghost predicate AllCanonical(s: AdmissionState) {
    forall r :: r in s.denied ==> r.Canonical()
  }

  lemma CanonicalStep(s: AdmissionState, op: Op, now: Time)
    requires AllCanonical(s)
    ensures AllCanonical(Step(s, op, now))
  {
    if op.DoInstall? {
      RuleRoundTrip(op.target.Rule(), op.target);
    }
  }

  lemma CleanupBounded(s: AdmissionState, now: Time)
    requires s.Bounded()
    ensures Cleanup(s, now).Bounded()
  {
    var c := Cleanup(s, now);
    MapSize(c.pending, s.pending.Keys);
    MapSize(c.denied, s.denied.Keys);
    MapSize(s.pending, s.pending.Keys);
    MapSize(s.denied, s.denied.Keys);
  }

  lemma StepBounded(s: AdmissionState, op: Op, now: Time)
    requires s.Bounded()
    ensures Step(s, op, now).Bounded()
  {
    CleanupBounded(s, now);
    var c, t := Cleanup(s, now), Step(s, op, now);
    match op {
      case DoInstall(target, denyUntil) =>
        if Installs(s, target, denyUntil, now) {
          MapSize(t.pending, c.pending.Keys);
        }
      case DoProof(key, _) => MapSize(t.pending, c.pending.Keys);
      case _ =>
    }
  }

  /** With rules and admissions only removed, the state stays quiet. */
  lemma FewerQuiet(s: AdmissionState, t: AdmissionState)
    requires s.Quiet() && t.denied.Keys <= s.denied.Keys
    requires forall k :: k in t.pending ==> k in s.pending && t.pending[k] == s.pending[k]
    requires forall k :: k in t.verified ==> k in s.verified && t.verified[k] == s.verified[k]
    ensures t.Quiet()
  {
  }

  lemma CleanupQuiet(s: AdmissionState, now: Time)
    requires s.Quiet()
    ensures Cleanup(s, now).Quiet()
  {
    FewerQuiet(s, Cleanup(s, now));
  }

  /** Installing a rule: what it newly denies is exactly what its target matches, and that is dropped. */
  lemma InstallQuiet(c: AdmissionState, t: AdmissionState, target: Target)
    requires c.Quiet() && t.denied.Keys == c.denied.Keys + {target.Rule()}
    requires forall k :: k in t.pending ==>
      k in c.pending && t.pending[k] == c.pending[k] && !target.Matches(k.channelID, t.pending[k].admission)
    requires forall k :: k in t.verified ==>
      k in c.verified && t.verified[k] == c.verified[k] && !target.Matches(k.channelID, t.verified[k])
    ensures t.Quiet()
  {
    forall channel, a | t.Denied(channel, a) && !c.Denied(channel, a)
      ensures target.Matches(channel, a)
    {
      var rule :| rule in t.denied && rule.Matches(channel, a);
      assert rule == target.Rule();
      TargetAgreesWithRule(target, channel, a);
    }
  }

  /** With the rules unchanged, adding an unmatched admission keeps the state quiet. */
  lemma AddQuiet(c: AdmissionState, t: AdmissionState, key: Key)
    requires c.Quiet() && t.denied == c.denied
    requires forall k :: k in t.pending && k != key ==> k in c.pending && t.pending[k] == c.pending[k]
    requires forall k :: k in t.verified && k != key ==> k in c.verified && t.verified[k] == c.verified[k]
    requires key in t.pending ==> !c.Denied(key.channelID, t.pending[key].admission)
    requires key in t.verified ==> !c.Denied(key.channelID, t.verified[key])
    ensures t.Quiet()
  {
    assert forall channel, a :: t.Denied(channel, a) == c.Denied(channel, a);
  }

  /** What a successful installation leaves of a cleaned-up state. */
  lemma InstallShape(s: AdmissionState, target: Target, denyUntil: Time, now: Time)
    requires Installs(s, target, denyUntil, now)
    ensures var c, t := Cleanup(s, now), Install(s, target, denyUntil, now);
      && t.denied.Keys == c.denied.Keys + {target.Rule()}
      && (forall k :: k in t.pending ==>
            k in c.pending && t.pending[k] == c.pending[k] && !target.Matches(k.channelID, t.pending[k].admission))
      && (forall k :: k in t.verified ==>
            k in c.verified && t.verified[k] == c.verified[k] && !target.Matches(k.channelID, t.verified[k]))
  {
  }

  lemma InstallStepQuiet(s: AdmissionState, target: Target, denyUntil: Time, now: Time)
    requires s.Quiet()
    ensures Install(s, target, denyUntil, now).Quiet()
  {
    CleanupQuiet(s, now);
    if Installs(s, target, denyUntil, now) {
      InstallShape(s, target, denyUntil, now);
      InstallQuiet(Cleanup(s, now), Install(s, target, denyUntil, now), target);
    }
  }

  lemma BeginQuiet(s: AdmissionState, key: Key, grant: Validation, drawn: bool, now: Time)
    requires s.Quiet()
    ensures Begin(s, key, grant, drawn, now).Quiet()
  {
    CleanupQuiet(s, now);
    AddQuiet(Cleanup(s, now), Begin(s, key, grant, drawn, now), key);
  }

  lemma ProofQuiet(s: AdmissionState, key: Key, signed: bool, now: Time)
    requires s.Quiet()
    ensures Proof(s, key, signed, now).Quiet()
  {
    CleanupQuiet(s, now);
    AddQuiet(Cleanup(s, now), Proof(s, key, signed, now), key);
  }

  lemma TakeJoinQuiet(s: AdmissionState, key: Key, now: Time)
    requires s.Quiet()
    ensures Take(s, key, now).Quiet() && Join(s, key, now).Quiet()
  {
    CleanupQuiet(s, now);
    FewerQuiet(Cleanup(s, now), Take(s, key, now));
    FewerQuiet(Cleanup(s, now), Join(s, key, now));
  }

  lemma StepQuiet(s: AdmissionState, op: Op, now: Time)
    requires s.Quiet()
    ensures Step(s, op, now).Quiet()
  {
    match op
    case DoInstall(target, denyUntil) => InstallStepQuiet(s, target, denyUntil, now);
    case DoBegin(key, grant, drawn) => BeginQuiet(s, key, grant, drawn, now);
    case DoProof(key, signed) => ProofQuiet(s, key, signed, now);
    case DoTake(key) => TakeJoinQuiet(s, key, now);
    case DoJoin(key) => TakeJoinQuiet(s, key, now);
    case DoCheck => CleanupQuiet(s, now);
  }

  /** In every reachable state no admission in flight matches an installed rule. */
  lemma {:induction false} ReachableQuiet(s: AdmissionState, ops: seq<(Op, Time)>)
    requires s.Quiet() && s.Bounded()
    ensures Run(s, ops).Quiet() && Run(s, ops).Bounded()
    decreases ops
  {
    if ops != [] {
      StepQuiet(s, ops[0].0, ops[0].1);
      StepBounded(s, ops[0].0, ops[0].1);
      ReachableQuiet(Step(s, ops[0].0, ops[0].1), ops[1..]);
    }
  }

  /**
    So the deny checks repeated after `begin` never fire: a proof is never refused as
    revoked, and a verified admission is always found by take and by join.
   */
  lemma RechecksNeverFire(ops: seq<(Op, Time)>, key: Key, signed: bool, now: Time)
    ensures var s := Run(EMPTY, ops); var c := Cleanup(s, now);
      && ProofReason(s, key, signed, now) != Some(DENY_REVOKED)
      && (Taken(s, key, now).Some? <==> key in c.verified)
      && (key in c.verified ==> JoinVerdict(s, key, now) == Admitted(c.verified[key]))
  {
    ReachableQuiet(EMPTY, ops);
    CleanupQuiet(Run(EMPTY, ops), now);
  }
}
