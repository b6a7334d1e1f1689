/**
  What the admission sections promise a service, in the fields of admissions, targets and
  rules: what a revocation leaves in flight, who is admitted in the end, and that nobody is
  without a granted begin and a signed proof.
 */
module AdmissionLaws {
  import opened Common
  import opened ServiceAdmission

  /** The target names another channel, another service or another grant. */
  predicate Unconcerns(target: Target, key: Key, a: Admission) {
    || key.channelID != target.channelID
    || (target.serviceID != "" && a.serviceID != target.serviceID)
    || (target.grantIDHash.Some? && a.grantIDHash != target.grantIDHash.value)
  }

  /**
    A revocation that is installed leaves in flight exactly what has not expired and differs
    from its target in channel, service or grant; failures and other rules are left alone,
    and its own rule lasts until the later of its deadlines.
   */
  lemma InstallLeaves(s: AdmissionState, target: Target, denyUntil: Time, now: Time)
    requires Installs(s, target, denyUntil, now)
    ensures var t := Install(s, target, denyUntil, now);
      && (forall k :: k in t.pending <==>
            k in s.pending && s.pending[k].expiresAt > now && Unconcerns(target, k, s.pending[k].admission))
      && (forall k :: k in t.verified <==>
            k in s.verified && s.verified[k].grantExpires > now && Unconcerns(target, k, s.verified[k]))
      && (forall k :: k in t.pending ==> t.pending[k] == s.pending[k])
      && (forall k :: k in t.verified ==> t.verified[k] == s.verified[k])
    ensures var t := Install(s, target, denyUntil, now);
      && (forall k :: k in t.failed <==> k in s.failed && s.failed[k].expiresAt > now)
      && (forall k :: k in t.failed ==> t.failed[k] == s.failed[k])
    ensures var t, own := Install(s, target, denyUntil, now), target.Rule();
      && (forall r :: r != own ==> (r in t.denied <==> r in s.denied && s.denied[r] > now))
      && (forall r :: r != own && r in t.denied ==> t.denied[r] == s.denied[r])
      && own in t.denied
      && t.denied[own] == if own in s.denied && s.denied[own] > denyUntil then s.denied[own] else denyUntil
  {
  }

  /** A revocation is refused if it is late, names nothing, or is new while 1024 others have not expired. */
  lemma InstallsExactly(s: AdmissionState, target: Target, denyUntil: Time, now: Time)
    ensures Installs(s, target, denyUntil, now) <==>
      && denyUntil > now && !(target.serviceID == "" && target.grantIDHash.None?)
      && ((target.Rule() in s.denied && s.denied[target.Rule()] > now)
          || |set r | r in s.denied && s.denied[r] > now| < 1024)
  {
    var c := Cleanup(s, now);
    assert c.denied.Keys == set r | r in s.denied && s.denied[r] > now;
    assert |c.denied| == |c.denied.Keys|;
  }

  /** Some rule in force names the channel, and the service and the grant as far as it says. */
  ghost predicate Forbidden(s: AdmissionState, now: Time, channel: uint32, serviceID: string, grantIDHash: Hash) {
    exists r :: r in s.denied && s.denied[r] > now && r.channelID == channel
                && (r.serviceID != "" ==> serviceID == r.serviceID)
                && (r.hasGrantIDHash ==> grantIDHash == r.grantIDHash)
  }

  lemma DeniedExactly(s: AdmissionState, now: Time, channel: uint32, a: Admission)
    ensures Cleanup(s, now).Denied(channel, a) <==> Forbidden(s, now, channel, a.serviceID, a.grantIDHash)
  {
    var c := Cleanup(s, now);
    if c.Denied(channel, a) {
      var r :| r in c.denied && r.Matches(channel, a);
      assert r in s.denied && s.denied[r] > now;
    }
    if Forbidden(s, now, channel, a.serviceID, a.grantIDHash) {
      var r :| r in s.denied && s.denied[r] > now && r.channelID == channel
               && (r.serviceID != "" ==> a.serviceID == r.serviceID)
               && (r.hasGrantIDHash ==> a.grantIDHash == r.grantIDHash);
      assert r in c.denied && r.Matches(channel, a);
    }
  }

  ghost function Outstanding(s: AdmissionState, now: Time): nat {
    |set k | k in s.pending && s.pending[k].expiresAt > now|
  }

  /** Why a begin is refused: what the grant's check said, a rule in force, or 1024 begins outstanding. */
  lemma BeginDecides(s: AdmissionState, key: Key, grant: Validation, drawn: bool, now: Time)
    ensures var reason := BeginReason(s, key, grant, drawn, now);
      && (grant.Refused? ==> reason == Some(grant.reason))
      && (grant.Granted? ==>
            var a := grant.admission;
            var forbidden := Forbidden(s, now, key.channelID, a.serviceID, a.grantIDHash);
            && (forbidden ==> reason == Some(DENY_REVOKED))
            && (!forbidden && (Outstanding(s, now) >= 1024 || !drawn) ==> reason == Some(DENY_INVALID_GRANT))
            && (!forbidden && Outstanding(s, now) < 1024 && drawn ==> reason == None))
  {
    var c := Cleanup(s, now);
    if grant.Granted? {
      DeniedExactly(s, now, key.channelID, grant.admission);
    }
    assert c.pending.Keys == set k | k in s.pending && s.pending[k].expiresAt > now;
    assert |c.pending| == |c.pending.Keys|;
  }

  // One admission on its way, whatever else happens.

  /** Sections of other endpoints, checks, and revocations that do not concern the admission. */
  predicate Aside(op: Op, key: Key, a: Admission) {
    match op
    case DoInstall(target, _) => Unconcerns(target, key, a)
    case DoBegin(k, _, _) => k != key
    case DoProof(k, _) => k != key
    case DoTake(k) => k != key
    case DoJoin(k) => k != key
    case DoCheck => true
  }

  /** Sections of other endpoints, and any revocation. */
  predicate OfOthers(op: Op, key: Key) {
    op.DoInstall? || op.DoCheck? || op.key != key
  }

  predicate AllAside(ops: seq<(Op, Time)>, key: Key, a: Admission, deadline: Time) {
    forall i :: 0 <= i < |ops| ==> Aside(ops[i].0, key, a) && ops[i].1 < deadline
  }

  /** What `key` has in flight, or failed at, is still there if it has not expired; and nothing is verified anew. */
  ghost predicate Spares(s: AdmissionState, t: AdmissionState, key: Key, now: Time) {
    && (key in s.pending && s.pending[key].expiresAt > now ==> key in t.pending && t.pending[key] == s.pending[key])
    && (key in s.verified && s.verified[key].grantExpires > now ==>
          key in t.verified && t.verified[key] == s.verified[key])
    && (key in s.failed && s.failed[key].expiresAt > now ==> key in t.failed && t.failed[key] == s.failed[key])
    && (key in t.verified ==> key in s.verified && t.verified[key] == s.verified[key])
    && (key in t.failed ==> key in s.failed && t.failed[key] == s.failed[key])
  }

  lemma CleanupSpares(s: AdmissionState, now: Time, key: Key)
    ensures Spares(s, Cleanup(s, now), key, now)
  {
  }

  lemma BeginSpares(s: AdmissionState, k: Key, grant: Validation, drawn: bool, now: Time, key: Key)
    requires k != key
    ensures Spares(s, Begin(s, k, grant, drawn, now), key, now)
  {
    CleanupSpares(s, now, key);
  }

  lemma ProofSpares(s: AdmissionState, k: Key, signed: bool, now: Time, key: Key)
    requires k != key
    ensures Spares(s, Proof(s, k, signed, now), key, now)
  {
    CleanupSpares(s, now, key);
  }

  lemma TakeJoinSpares(s: AdmissionState, k: Key, now: Time, key: Key)
    requires k != key
    ensures Spares(s, Take(s, k, now), key, now) && Spares(s, Join(s, k, now), key, now)
  {
    CleanupSpares(s, now, key);
  }

  lemma OthersSpare(s: AdmissionState, op: Op, now: Time, key: Key)
    requires OfOthers(op, key) && !op.DoInstall?
    ensures Spares(s, Step(s, op, now), key, now)
  {
    match op
    case DoBegin(k, grant, drawn) => BeginSpares(s, k, grant, drawn, now, key);
    case DoProof(k, signed) => ProofSpares(s, k, signed, now, key);
    case DoTake(k) => TakeJoinSpares(s, k, now, key);
    case DoJoin(k) => TakeJoinSpares(s, k, now, key);
    case DoCheck => CleanupSpares(s, now, key);
  }

  lemma InstallSpares(s: AdmissionState, target: Target, denyUntil: Time, now: Time, key: Key)
    ensures var t := Install(s, target, denyUntil, now);
      && (key in s.pending && s.pending[key].expiresAt > now
          && Unconcerns(target, key, s.pending[key].admission) ==>
            key in t.pending && t.pending[key] == s.pending[key])
      && (key in s.verified && s.verified[key].grantExpires > now
          && Unconcerns(target, key, s.verified[key]) ==>
            key in t.verified && t.verified[key] == s.verified[key])
      && (key in s.failed && s.failed[key].expiresAt > now ==> key in t.failed && t.failed[key] == s.failed[key])
      && (key in t.verified ==> key in s.verified && t.verified[key] == s.verified[key])
      && (key in t.failed ==> key in s.failed && t.failed[key] == s.failed[key])
  {
    if Installs(s, target, denyUntil, now) {
      InstallLeaves(s, target, denyUntil, now);
    } else {
      CleanupSpares(s, now, key);
    }
  }

  lemma PendingStays(s: AdmissionState, op: Op, now: Time, key: Key)
    requires key in s.pending && Aside(op, key, s.pending[key].admission) && now < s.pending[key].expiresAt
    ensures key in Step(s, op, now).pending && Step(s, op, now).pending[key] == s.pending[key]
  {
    if op.DoInstall? {
      InstallSpares(s, op.target, op.denyUntil, now, key);
    } else {
      OthersSpare(s, op, now, key);
    }
  }

  lemma VerifiedStays(s: AdmissionState, op: Op, now: Time, key: Key)
    requires key in s.verified && Aside(op, key, s.verified[key]) && now < s.verified[key].grantExpires
    ensures key in Step(s, op, now).verified && Step(s, op, now).verified[key] == s.verified[key]
  {
    if op.DoInstall? {
      InstallSpares(s, op.target, op.denyUntil, now, key);
    } else {
      OthersSpare(s, op, now, key);
    }
  }

  lemma {:induction false} PendingLasts(s: AdmissionState, ops: seq<(Op, Time)>, key: Key)
    requires key in s.pending && AllAside(ops, key, s.pending[key].admission, s.pending[key].expiresAt)
    ensures key in Run(s, ops).pending && Run(s, ops).pending[key] == s.pending[key]
    decreases ops
  {
    if ops != [] {
      PendingStays(s, ops[0].0, ops[0].1, key);
      PendingLasts(Step(s, ops[0].0, ops[0].1), ops[1..], key);
    }
  }

  lemma {:induction false} VerifiedLasts(s: AdmissionState, ops: seq<(Op, Time)>, key: Key)
    requires key in s.verified && AllAside(ops, key, s.verified[key], s.verified[key].grantExpires)
    ensures key in Run(s, ops).verified && Run(s, ops).verified[key] == s.verified[key]
    decreases ops
  {
    if ops != [] {
      VerifiedStays(s, ops[0].0, ops[0].1, key);
      VerifiedLasts(Step(s, ops[0].0, ops[0].1), ops[1..], key);
    }
  }

  /** A challenge has 30 seconds, and no longer than its grant. */
  function ChallengeEnd(a: Admission, now: Time): Time {
    if a.grantExpires < now + 30 * SECOND then a.grantExpires else now + 30 * SECOND
  }

  lemma BegunIsPending(s: AdmissionState, key: Key, a: Admission, now: Time)
    requires BeginReason(s, key, Granted(a), true, now).None?
    ensures key in Begin(s, key, Granted(a), true, now).pending
    ensures Begin(s, key, Granted(a), true, now).pending[key] == Pending(a, ChallengeEnd(a, now))
  {
  }

  lemma SignedIsVerified(s: AdmissionState, key: Key, now: Time)
    requires s.Quiet() && key in s.pending && s.pending[key].expiresAt > now
    ensures ProofReason(s, key, true, now).None?
    ensures key in Proof(s, key, true, now).verified
    ensures Proof(s, key, true, now).verified[key] == s.pending[key].admission
  {
    CleanupQuiet(s, now);
  }

  lemma VerifiedIsAdmitted(s: AdmissionState, key: Key, now: Time)
    requires s.Quiet() && key in s.verified && s.verified[key].grantExpires > now
    ensures JoinVerdict(s, key, now) == Admitted(s.verified[key])
  {
    CleanupQuiet(s, now);
  }

  lemma BegunIsProved(s: AdmissionState, key: Key, a: Admission, begun: Time, ops: seq<(Op, Time)>, proved: Time)
    requires s.Quiet() && s.Bounded() && BeginReason(s, key, Granted(a), true, begun).None?
    requires AllAside(ops, key, a, ChallengeEnd(a, begun)) && proved < ChallengeEnd(a, begun)
    ensures var t := Run(Begin(s, key, Granted(a), true, begun), ops);
      && t.Quiet() && t.Bounded() && ProofReason(t, key, true, proved).None?
      && key in Proof(t, key, true, proved).verified && Proof(t, key, true, proved).verified[key] == a
  {
    var b := Begin(s, key, Granted(a), true, begun);
    BegunIsPending(s, key, a, begun);
    KeepsFit(s, DoBegin(key, Granted(a), true), begun);
    PendingLasts(b, ops, key);
    ReachableQuiet(b, ops);
    SignedIsVerified(Run(b, ops), key, proved);
  }

  lemma ProvedIsAdmitted(s: AdmissionState, key: Key, proved: Time, a: Admission, ops: seq<(Op, Time)>, joined: Time)
    requires s.Quiet() && s.Bounded()
    requires key in Proof(s, key, true, proved).verified && Proof(s, key, true, proved).verified[key] == a
    requires AllAside(ops, key, a, a.grantExpires) && joined < a.grantExpires
    ensures JoinVerdict(Run(Proof(s, key, true, proved), ops), key, joined) == Admitted(a)
  {
    var v := Proof(s, key, true, proved);
    KeepsFit(s, DoProof(key, true), proved);
    VerifiedLasts(v, ops, key);
    ReachableQuiet(v, ops);
    VerifiedIsAdmitted(Run(v, ops), key, joined);
  }

  /**
    In every reachable state, whatever other endpoints do and whatever revocations that do
    not concern it are installed in between: a service whose begin was accepted, which signs
    its proof and sends its JOIN in time, is admitted with that admission.
   */
  lemma ServiceIsAdmitted(before: seq<(Op, Time)>, key: Key, a: Admission, begun: Time,
                          first: seq<(Op, Time)>, proved: Time, second: seq<(Op, Time)>, joined: Time)
    requires BeginReason(Run(EMPTY, before), key, Granted(a), true, begun).None?
    requires AllAside(first, key, a, ChallengeEnd(a, begun)) && proved < ChallengeEnd(a, begun)
    requires AllAside(second, key, a, a.grantExpires) && joined < a.grantExpires
    ensures var pending := Run(Begin(Run(EMPTY, before), key, Granted(a), true, begun), first);
      && ProofReason(pending, key, true, proved).None?
      && JoinVerdict(Run(Proof(pending, key, true, proved), second), key, joined) == Admitted(a)
  {
    var s := Run(EMPTY, before);
    ReachableQuiet(EMPTY, before);
    BegunIsProved(s, key, a, begun, first, proved);
    var pending := Run(Begin(s, key, Granted(a), true, begun), first);
    ProvedIsAdmitted(pending, key, proved, a, second, joined);
  }

  lemma KeepsFit(s: AdmissionState, op: Op, now: Time)
    requires s.Quiet() && s.Bounded()
    ensures Step(s, op, now).Quiet() && Step(s, op, now).Bounded()
  {
    StepQuiet(s, op, now);
    StepBounded(s, op, now);
  }

  // Nobody else is.

  lemma {:induction false} RunSnoc(s: AdmissionState, ops: seq<(Op, Time)>)
    requires ops != []
    ensures var n := |ops| - 1; Run(s, ops) == Step(Run(s, ops[..n]), ops[n].0, ops[n].1)
    decreases ops
  {
    var n := |ops| - 1;
    if n > 0 {
      RunSnoc(Step(s, ops[0].0, ops[0].1), ops[1..]);
      assert ops[1..][..n - 1] == ops[..n][1..];
    } else {
      assert Run(Step(s, ops[0].0, ops[0].1), ops[1..]) == Step(s, ops[0].0, ops[0].1);
    }
  }

  /** Where a section's pending entries come from. */
  lemma PendingOrigin(s: AdmissionState, op: Op, now: Time, key: Key)
    requires key in Step(s, op, now).pending
    ensures var a := Step(s, op, now).pending[key];
      op == DoBegin(key, Granted(a.admission), true) || (key in s.pending && s.pending[key] == a)
  {
  }

  lemma VerifiedOrigin(s: AdmissionState, op: Op, now: Time, key: Key)
    requires key in Step(s, op, now).verified
    ensures var a := Step(s, op, now).verified[key];
      || (op == DoProof(key, true) && key in s.pending && s.pending[key].admission == a)
      || (key in s.verified && s.verified[key] == a)
  {
    if op.DoInstall? {
      InstallSpares(s, op.target, op.denyUntil, now, key);
    } else if OfOthers(op, key) {
      OthersSpare(s, op, now, key);
    }
  }

  /** Among the first `n` sections is a begin of `key` with a grant of `a`. */
  ghost predicate GrantedBefore(ops: seq<(Op, Time)>, n: nat, key: Key, a: Admission) {
    exists i :: 0 <= i < n && i < |ops| && ops[i].0 == DoBegin(key, Granted(a), true)
  }

  /** And a signed proof follows. */
  ghost predicate Proved(ops: seq<(Op, Time)>, key: Key, a: Admission) {
    exists j :: 0 <= j < |ops| && ops[j].0 == DoProof(key, true) && GrantedBefore(ops, j, key, a)
  }

  lemma {:induction false} EntriesProved(ops: seq<(Op, Time)>, key: Key)
    ensures var s := Run(EMPTY, ops);
      && (key in s.pending ==> GrantedBefore(ops, |ops|, key, s.pending[key].admission))
      && (key in s.verified ==> Proved(ops, key, s.verified[key]))
    decreases |ops|
  {
    if ops != [] {
      var n := |ops| - 1;
      var front, s := ops[..n], Run(EMPTY, ops[..n]);
      EntriesProved(front, key);
      RunSnoc(EMPTY, ops);
      if key in Run(EMPTY, ops).pending {
        PendingOrigin(s, ops[n].0, ops[n].1, key);
      }
      if key in Run(EMPTY, ops).verified {
        VerifiedOrigin(s, ops[n].0, ops[n].1, key);
      }
      GrowsProved(front, ops, key);
    }
  }

  lemma GrowsProved(front: seq<(Op, Time)>, ops: seq<(Op, Time)>, key: Key)
    requires ops != [] && front == ops[..|ops| - 1]
    ensures forall a :: GrantedBefore(front, |front|, key, a) ==>
              GrantedBefore(ops, |front|, key, a) && GrantedBefore(ops, |ops|, key, a)
    ensures forall a :: Proved(front, key, a) ==> Proved(ops, key, a)
    ensures forall a :: ops[|front|].0 == DoBegin(key, Granted(a), true) ==> GrantedBefore(ops, |ops|, key, a)
    ensures forall a :: ops[|front|].0 == DoProof(key, true) && GrantedBefore(ops, |front|, key, a) ==>
              Proved(ops, key, a)
  {
    forall a | GrantedBefore(front, |front|, key, a)
      ensures GrantedBefore(ops, |front|, key, a) && GrantedBefore(ops, |ops|, key, a)
    {
      var i :| 0 <= i < |front| && front[i].0 == DoBegin(key, Granted(a), true);
      assert ops[i] == front[i];
    }
    forall a | Proved(front, key, a) ensures Proved(ops, key, a) {
      var j :| 0 <= j < |front| && front[j].0 == DoProof(key, true) && GrantedBefore(front, j, key, a);
      var i :| 0 <= i < j && front[i].0 == DoBegin(key, Granted(a), true);
      assert ops[i] == front[i] && ops[j] == front[j];
      assert GrantedBefore(ops, j, key, a);
    }
  }

  /**
    In every run, a JOIN is admitted only with an admission that an earlier begin of the same
    endpoint was granted and that a signed proof followed, whose grant has not expired and
    which no rule in force forbids.
   */
  lemma AdmissionIsProved(ops: seq<(Op, Time)>, key: Key, now: Time, a: Admission)
    requires JoinVerdict(Run(EMPTY, ops), key, now) == Admitted(a)
    ensures Proved(ops, key, a) && a.grantExpires > now
    ensures !Forbidden(Run(EMPTY, ops), now, key.channelID, a.serviceID, a.grantIDHash)
  {
    EntriesProved(ops, key);
    DeniedExactly(Run(EMPTY, ops), now, key.channelID, a);
  }

  /** A proof without a valid signature, or without a challenge in time, is refused and uses the challenge up. */
  lemma UnsignedIsRefused(s: AdmissionState, key: Key, signed: bool, now: Time)
    requires !signed || key !in s.pending || s.pending[key].expiresAt <= now
    ensures ProofReason(s, key, signed, now).Some? && key !in Proof(s, key, signed, now).pending
    ensures s.Quiet() ==> ProofReason(s, key, signed, now) == Some(DENY_INVALID_PROOF)
  {
    if s.Quiet() {
      CleanupQuiet(s, now);
    }
  }

  // Refusals are remembered for 30 seconds.

  /** The begin or the proof of `key` was refused; a failed random read is not remembered. */
  ghost predicate Refuses(s: AdmissionState, op: Op, now: Time, key: Key, reason: uint8) {
    match op
    case DoBegin(k, grant, _) =>
      && k == key && BeginReason(s, k, grant, true, now) == Some(reason)
    case DoProof(k, signed) => k == key && ProofReason(s, k, signed, now) == Some(reason)
    case _ => false
  }

  lemma RefusalIsKept(s: AdmissionState, op: Op, now: Time, key: Key, reason: uint8)
    requires Refuses(s, op, now, key, reason)
    ensures var t := Step(s, op, now); key in t.failed && t.failed[key] == Failure(reason, now + 30 * SECOND)
  {
  }

  lemma FailureStays(s: AdmissionState, op: Op, now: Time, key: Key)
    requires key in s.failed && OfOthers(op, key) && now < s.failed[key].expiresAt
    ensures var t := Step(s, op, now);
      && key in t.failed && t.failed[key] == s.failed[key] && (key !in s.verified ==> key !in t.verified)
  {
    if op.DoInstall? {
      InstallSpares(s, op.target, op.denyUntil, now, key);
    } else {
      OthersSpare(s, op, now, key);
    }
  }

  lemma {:induction false} FailureLasts(s: AdmissionState, ops: seq<(Op, Time)>, key: Key)
    requires key in s.failed
    requires forall i :: 0 <= i < |ops| ==> OfOthers(ops[i].0, key) && ops[i].1 < s.failed[key].expiresAt
    ensures key in Run(s, ops).failed && Run(s, ops).failed[key] == s.failed[key]
    ensures key !in s.verified ==> key !in Run(s, ops).verified
    decreases ops
  {
    if ops != [] {
      FailureStays(s, ops[0].0, ops[0].1, key);
      FailureLasts(Step(s, ops[0].0, ops[0].1), ops[1..], key);
    }
  }

  /**
    After a refused begin or proof of an endpoint that holds no verified admission, its JOIN
    is refused with the same reason for 30 seconds, whatever others do.
   */
  lemma RefusedIsDenied(s: AdmissionState, op: Op, now: Time, key: Key, reason: uint8,
                        ops: seq<(Op, Time)>, joined: Time)
    requires Refuses(s, op, now, key, reason) && key !in s.verified && joined < now + 30 * SECOND
    requires forall i :: 0 <= i < |ops| ==> OfOthers(ops[i].0, key) && ops[i].1 < now + 30 * SECOND
    ensures JoinVerdict(Run(Step(s, op, now), ops), key, joined) == JoinDenied(reason)
  {
    RefusalIsKept(s, op, now, key, reason);
    FailureLasts(Step(s, op, now), ops, key);
  }

  /** Without a verified admission or a failure, a JOIN is refused while a proof is pending and left open otherwise. */
  lemma JoinOtherwise(s: AdmissionState, key: Key, now: Time)
    requires key in s.verified ==> s.verified[key].grantExpires <= now
    requires key in s.failed ==> s.failed[key].expiresAt <= now
    ensures JoinVerdict(s, key, now) ==
      if key in s.pending && s.pending[key].expiresAt > now then JoinDenied(DENY_INVALID_PROOF) else NoAdmission
  {
  }

  /** A JOIN between an accepted begin and the proof is refused as unproved, whatever had failed before. */
  lemma UnprovedIsDenied(s: AdmissionState, key: Key, a: Admission, begun: Time, ops: seq<(Op, Time)>, joined: Time)
    requires BeginReason(s, key, Granted(a), true, begun).None? && key !in s.verified
    requires AllAside(ops, key, a, ChallengeEnd(a, begun)) && joined < ChallengeEnd(a, begun)
    ensures JoinVerdict(Run(Begin(s, key, Granted(a), true, begun), ops), key, joined) == JoinDenied(DENY_INVALID_PROOF)
  {
    var b := Begin(s, key, Granted(a), true, begun);
    BegunIsPending(s, key, a, begun);
    PendingLasts(b, ops, key);
    NothingFails(b, ops, key, a);
    JoinOtherwise(Run(b, ops), key, joined);
  }

  lemma {:induction false} NothingFails(s: AdmissionState, ops: seq<(Op, Time)>, key: Key, a: Admission)
    requires forall i :: 0 <= i < |ops| ==> Aside(ops[i].0, key, a)
    ensures key !in s.failed ==> key !in Run(s, ops).failed
    ensures key !in s.verified ==> key !in Run(s, ops).verified
    decreases ops
  {
    if ops != [] {
      NothingNew(s, ops[0].0, ops[0].1, key, a);
      NothingFails(Step(s, ops[0].0, ops[0].1), ops[1..], key, a);
    }
  }

  lemma NothingNew(s: AdmissionState, op: Op, now: Time, key: Key, a: Admission)
    requires Aside(op, key, a)
    ensures key !in s.failed ==> key !in Step(s, op, now).failed
    ensures key !in s.verified ==> key !in Step(s, op, now).verified
  {
    if op.DoInstall? {
      InstallSpares(s, op.target, op.denyUntil, now, key);
    } else {
      OthersSpare(s, op, now, key);
    }
  }

  /** After an accepted proof and the JOIN it admits, another JOIN finds neither an admission nor a failure. */
  lemma SecondJoinFindsNothing(s: AdmissionState, key: Key, proved: Time, joined: Time, again: Time)
    requires ProofReason(s, key, true, proved).None?
    requires JoinVerdict(Proof(s, key, true, proved), key, joined).Admitted?
    ensures JoinVerdict(Join(Proof(s, key, true, proved), key, joined), key, again) == NoAdmission
  {
    var t := Join(Proof(s, key, true, proved), key, joined);
    assert key !in t.verified && key !in t.failed && key !in t.pending;
    JoinOtherwise(t, key, again);
  }

  /** Taking and joining use up the endpoint's verified admission, and concern nothing else that is current. */
  lemma UsedOnce(s: AdmissionState, key: Key, now: Time, k: Key)
    requires JoinVerdict(s, key, now).Admitted?
    ensures key !in Join(s, key, now).verified && Take(s, key, now) == Join(s, key, now)
    ensures k != key && k in s.verified && s.verified[k].grantExpires > now ==>
      k in Join(s, key, now).verified && Join(s, key, now).verified[k] == s.verified[k]
  {
  }
}
