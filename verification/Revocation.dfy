/**
  Managed-service revocation racing with admission, at lock granularity. Two mutexes are
  involved: the server's (peers) and the admission state's (deny rules). A revocation
  installs its rule under the second and evicts members under the first; the packet
  handler resolves a JOIN, creates the peer, checks and attaches the admission and starts
  the membership in separate sections. Between the check and the write of an attachment
  the handler keeps the server's lock but not the admission state's.
 */
module Revocation {
  import opened Common
  import opened ServiceAdmission
  import opened Membership

  datatype Revoke = Revoke(target: Target, denyUntil: Time)

  /** What the handler is attaching; `join` tells a JOIN from a proof of an existing peer. */
  datatype Request = Request(
    channel: uint32, sender: uint32, address: Address,
    identity: Option<IdentityAdmission>, service: Option<Admission>, join: bool)

  /** Where the (single) packet handler is. In `Checked` it holds the server's lock. */
  datatype Handler = Idle | Resolved(r: Request) | Upserted(r: Request) | Checked(r: Request) | Attached(r: Request)

  datatype World = World(
    required: bool, lease: Time, clock: Time, admission: AdmissionState,
    channels: map<uint32, Peers>, handler: Handler,
    installed: set<Revoke>, evicted: set<Revoke>) {

    function PeersOf(channel: uint32): Peers {
      if channel in channels then channels[channel] else map[]
    }

    predicate ServerLockFree() {
      !handler.Checked?
    }
  }

  datatype Step =
    | Tick(now: Time)
    | AdmissionSection(op: Op, now: Time)
    | ResolveJoinStep(key: Key, identity: IdentityOutcome, now: Time)
    | ProofDone(r: Request)
    | UpsertPeer
    | AttachIdentity
    | SkipAttach
    | CheckService(now: Time)
    | AttachService
    | StartMembership(now: Time)
    | RefreshMembership(channel: uint32, address: Address, now: Time)
    | RemovePeers(channel: uint32, gone: set<Address>)
    | InstallRule(revoke: Revoke, now: Time)
    | EvictMembers(revoke: Revoke)

  /** A clock reading passed to a step was taken no later than the step. */
  predicate Enabled(w: World, step: Step) {
    match step
    case Tick(now) => w.clock <= now
    case AdmissionSection(_, now) => now <= w.clock
    case ResolveJoinStep(_, identity, now) =>
      w.handler.Idle? && now <= w.clock && (w.required ==> !identity.NoIdentity?)
    case ProofDone(r) => w.handler.Idle? && !r.join && r.identity.Some? != r.service.Some?
    case UpsertPeer => w.handler.Resolved?
    case AttachIdentity => w.handler.Upserted? && w.handler.r.identity.Some?
    case SkipAttach => w.handler.Upserted? && w.handler.r.identity.None? && w.handler.r.service.None?
    case CheckService(now) => w.handler.Upserted? && w.handler.r.service.Some? && now <= w.clock
    case AttachService => w.handler.Checked?
    case StartMembership(now) => w.handler.Attached? && now <= w.clock
    case RefreshMembership(_, _, now) => w.handler.Idle? && now <= w.clock
    case RemovePeers(_, _) => w.ServerLockFree()
    case InstallRule(_, now) => now <= w.clock
    case EvictMembers(revoke) => w.ServerLockFree() && revoke in w.installed
  }

  function SetPeers(w: World, channel: uint32, peers: Peers): World {
    w.(channels := if peers == map[] then w.channels - {channel} else w.channels[channel := peers])
  }

  /** The two attach sections of control_auth.go, once past their checks of the other state. */
  function Attach(w: World, r: Request): World {
    match AttachAdmission(w.PeersOf(r.channel), r.sender, r.address, r.identity, r.service)
    case None => w.(handler := Idle)
    case Some(peers) => SetPeers(w, r.channel, peers).(handler := if r.join then Attached(r) else Idle)
  }

  ghost function Next(w: World, step: Step): World
    requires Enabled(w, step)
  {
    match step
    case Tick(now) => w.(clock := now)
    case AdmissionSection(op, now) => w.(admission := ServiceAdmission.Step(w.admission, op, now))
    case ResolveJoinStep(key, identity, now) =>
      var decision := ResolveJoin(identity, JoinVerdict(w.admission, key, now), w.required);
      w.(admission := Join(w.admission, key, now),
         handler := if !decision.Admit? then Idle else
           Resolved(Request(key.channelID, key.senderID, key.address, decision.identity, decision.service, true)))
    case ProofDone(r) => w.(handler := Upserted(r))
    case UpsertPeer =>
      var r := w.handler.r;
      SetPeers(w, r.channel, Upsert(w.PeersOf(r.channel), r.sender, r.address)).(handler := Upserted(r))
    case AttachIdentity => Attach(w, w.handler.r)
    case SkipAttach => w.(handler := Attached(w.handler.r))
    case CheckService(now) =>
      var r, c := w.handler.r, Cleanup(w.admission, now);
      var allowed := r.service.value.GrantCurrent(now) && !c.Denied(r.channel, r.service.value);
      w.(admission := c, handler := if allowed then Checked(r) else Idle)
    case AttachService => Attach(w, w.handler.r)
    case StartMembership(now) =>
      var r, peers := w.handler.r, w.PeersOf(w.handler.r.channel);
      if !Carries(peers, r.sender, r.address) then w.(handler := Idle) else
      var p := peers[r.address].(lease := w.lease, deadline := now + w.lease);
      SetPeers(w, r.channel, peers[r.address := p]).(handler := Idle)
    case RefreshMembership(channel, address, now) =>
      var peers := w.PeersOf(channel);
      if address !in peers || peers[address].deadline == 0 || peers[address].deadline <= now then w else
      SetPeers(w, channel, peers[address := peers[address].(deadline := now + peers[address].lease)])
    case RemovePeers(channel, gone) => SetPeers(w, channel, w.PeersOf(channel) - gone)
    case InstallRule(revoke, now) =>
      var ok := Installs(w.admission, revoke.target, revoke.denyUntil, now);
      w.(admission := Install(w.admission, revoke.target, revoke.denyUntil, now),
         installed := if ok then w.installed + {revoke} else w.installed)
    case EvictMembers(revoke) =>
      SetPeers(w, revoke.target.channelID, Unrevoked(w.PeersOf(revoke.target.channelID), revoke.target))
        .(evicted := w.evicted + {revoke})
  }

  ghost predicate Initial(w: World) {
    w.admission == EMPTY && w.channels == map[] && w.handler == Idle && w.installed == {} && w.evicted == {}
  }

  ghost predicate IsRun(w: World, steps: seq<Step>)
    decreases steps
  {
    steps == [] || (Enabled(w, steps[0]) && IsRun(Next(w, steps[0]), steps[1..]))
  }

  ghost function After(w: World, steps: seq<Step>): World
    requires IsRun(w, steps)
    decreases steps
  {
    if steps == [] then w else After(Next(w, steps[0]), steps[1..])
  }

  // Revocation: rules that are in force, and members that are gone.

  predicate InForce(w: World, revoke: Revoke) {
    w.clock < revoke.denyUntil
  }

  ghost predicate Spares(revoke: Revoke, channel: uint32, service: Option<Admission>) {
    service.Some? ==> !revoke.target.Matches(channel, service.value)
  }

  /** The channel's members, and an admission about to be attached, are clear of a revocation. */
  ghost predicate Clear(w: World, v: Revoke) {
    && (forall a :: a in w.PeersOf(v.target.channelID) ==>
          Spares(v, v.target.channelID, w.PeersOf(v.target.channelID)[a].service))
    && (w.handler.Checked? ==> Spares(v, w.handler.r.channel, w.handler.r.service))
  }

  ghost predicate Guarded(w: World) {
    && w.evicted <= w.installed
    && (forall v :: v in w.installed && InForce(w, v) ==> RuleHolds(w.admission, v.target, v.denyUntil))
    && (forall v :: v in w.evicted && InForce(w, v) ==> Clear(w, v))
  }

  lemma CheckSpares(s: AdmissionState, channel: uint32, admission: Admission, now: Time, revoke: Revoke)
    requires RuleHolds(s, revoke.target, revoke.denyUntil) && now < revoke.denyUntil
    requires !Cleanup(s, now).Denied(channel, admission)
    ensures !revoke.target.Matches(channel, admission)
  {
    TargetAgreesWithRule(revoke.target, channel, admission);
    assert revoke.target.Rule() in Cleanup(s, now).denied;
  }

  /** The admission-state section of a step, if it has one. */
  function SectionOf(step: Step): Option<(Op, Time)> {
    match step
    case AdmissionSection(op, now) => Some((op, now))
    case ResolveJoinStep(key, _, now) => Some((DoJoin(key), now))
    case InstallRule(revoke, now) => Some((DoInstall(revoke.target, revoke.denyUntil), now))
    case CheckService(now) => Some((DoCheck, now))
    case _ => None
  }

  lemma RulesKept(w: World, step: Step)
    requires Guarded(w) && Enabled(w, step)
    ensures var t := Next(w, step);
      forall v :: v in t.installed && InForce(t, v) ==> RuleHolds(t.admission, v.target, v.denyUntil)
  {
    var t, section := Next(w, step), SectionOf(step);
    if section.Some? {
      forall v | v in w.installed && InForce(t, v)
        ensures RuleHolds(t.admission, v.target, v.denyUntil)
      {
        RulesSurvive(w.admission, section.value.0, section.value.1, v.target, v.denyUntil);
      }
    }
  }

  /** A step that leaves every peer's service admission alone, or removes the peer, keeps members clear. */
  lemma FewerMembers(w: World, t: World, v: Revoke)
    requires Clear(w, v)
    requires t.handler.Checked? ==> Spares(v, t.handler.r.channel, t.handler.r.service)
    requires var c := v.target.channelID; forall a :: a in t.PeersOf(c) ==>
      Spares(v, c, t.PeersOf(c)[a].service) || (a in w.PeersOf(c) && t.PeersOf(c)[a].service == w.PeersOf(c)[a].service)
    ensures Clear(t, v)
  {
  }

  /** But for the attach of a service admission, every member's service admission is an old one. */
  lemma ServicesOld(w: World, step: Step, channel: uint32, address: Address)
    requires Enabled(w, step) && !step.AttachService? && address in Next(w, step).PeersOf(channel)
    requires step.AttachIdentity? ==> w.handler.r.service.None?
    ensures var p := Next(w, step).PeersOf(channel)[address];
      p.service.None? || (address in w.PeersOf(channel) && w.PeersOf(channel)[address].service == p.service)
  {
  }

  /** The attach itself was checked against the rules. */
  lemma ClearAttach(w: World, v: Revoke)
    requires w.handler.Checked? && Clear(w, v)
    ensures Clear(Next(w, AttachService), v)
  {
    FewerMembers(w, Next(w, AttachService), v);
  }

  lemma HandlerClear(w: World, step: Step, v: Revoke)
    requires Guarded(w) && OneAdmission(w) && Enabled(w, step) && v in w.evicted && InForce(Next(w, step), v)
    requires Next(w, step).handler.Checked?
    ensures Spares(v, Next(w, step).handler.r.channel, Next(w, step).handler.r.service)
  {
    if step.CheckService? {
      assert RuleHolds(w.admission, v.target, v.denyUntil);
      CheckSpares(w.admission, w.handler.r.channel, w.handler.r.service.value, step.now, v);
    } else {
      assert Clear(w, v) && Next(w, step).handler == w.handler;
    }
  }

  lemma ClearKept(w: World, step: Step, v: Revoke)
    requires Guarded(w) && OneAdmission(w) && Enabled(w, step)
    requires v in w.evicted && InForce(Next(w, step), v)
    ensures Clear(Next(w, step), v)
  {
    var t, c := Next(w, step), v.target.channelID;
    assert w.clock <= t.clock && Clear(w, v);
    if step.AttachService? {
      ClearAttach(w, v);
    } else {
      if t.handler.Checked? {
        HandlerClear(w, step, v);
      }
      forall a | a in t.PeersOf(c) ensures Spares(v, c, t.PeersOf(c)[a].service) {
        ServicesOld(w, step, c, a);
      }
    }
  }

  lemma GuardedStep(w: World, step: Step)
    requires Guarded(w) && OneAdmission(w) && Enabled(w, step)
    ensures Guarded(Next(w, step))
  {
    RulesKept(w, step);
    forall v | v in w.evicted && InForce(Next(w, step), v)
      ensures Clear(Next(w, step), v)
    {
      ClearKept(w, step, v);
    }
  }

  // Exactly one admission per started membership.

  ghost predicate PeerOk(required: bool, p: Peer) {
    && !(p.identity.Some? && p.service.Some?)
    && (required && p.deadline != 0 ==> p.identity.Some? || p.service.Some?)
  }

  ghost predicate RequestOk(required: bool, r: Request) {
    && !(r.identity.Some? && r.service.Some?)
    && (required || !r.join ==> r.identity.Some? || r.service.Some?)
  }

  ghost predicate OneAdmission(w: World) {
    && (forall c, a :: c in w.channels && a in w.channels[c] ==> PeerOk(w.required, w.channels[c][a]))
    && (!w.handler.Idle? ==> RequestOk(w.required, w.handler.r))
    && (w.handler.Checked? ==> w.handler.r.service.Some?)
    && (w.handler.Attached? && w.required ==>
          var peers := w.PeersOf(w.handler.r.channel);
          Carries(peers, w.handler.r.sender, w.handler.r.address) ==>
            peers[w.handler.r.address].identity.Some? || peers[w.handler.r.address].service.Some?)
  }

  lemma PeerStaysOk(w: World, step: Step, channel: uint32, address: Address)
    requires OneAdmission(w) && Enabled(w, step) && address in Next(w, step).PeersOf(channel)
    ensures PeerOk(w.required, Next(w, step).PeersOf(channel)[address])
  {
    assert channel in w.channels && address in w.channels[channel] ==> PeerOk(w.required, w.channels[channel][address]);
  }

  lemma OneAdmissionStep(w: World, step: Step)
    requires OneAdmission(w) && Enabled(w, step)
    ensures OneAdmission(Next(w, step))
  {
    var t := Next(w, step);
    assert t.required == w.required;
    forall c, a | c in t.channels && a in t.channels[c] ensures PeerOk(t.required, t.channels[c][a]) {
      PeerStaysOk(w, step, c, a);
    }
  }

  lemma {:induction false} Reachable(w: World, steps: seq<Step>)
    requires Guarded(w) && OneAdmission(w) && IsRun(w, steps)
    ensures Guarded(After(w, steps)) && OneAdmission(After(w, steps))
    decreases steps
  {
    if steps != [] {
      GuardedStep(w, steps[0]);
      OneAdmissionStep(w, steps[0]);
      Reachable(Next(w, steps[0]), steps[1..]);
    }
  }

  /**
    Once a revocation's eviction section has run, and until its deadline, no peer of its
    channel carries a matching service admission, whatever the interleaving.
   */
  lemma NoRevokedMember(w: World, steps: seq<Step>, revoke: Revoke, address: Address)
    requires Initial(w) && IsRun(w, steps)
    ensures var end := After(w, steps); var peers := end.PeersOf(revoke.target.channelID);
      revoke in end.evicted && end.clock < revoke.denyUntil && address in peers && peers[address].service.Some? ==>
        !revoke.target.Matches(revoke.target.channelID, peers[address].service.value)
  {
    Reachable(w, steps);
  }

  /** With identity admission required, a peer whose membership ever started has exactly one admission. */
  lemma ExactlyOneAdmission(w: World, steps: seq<Step>, channel: uint32, address: Address)
    requires Initial(w) && IsRun(w, steps) && w.required
    ensures var end := After(w, steps); var peers := end.PeersOf(channel);
      address in peers && peers[address].deadline != 0 ==>
        peers[address].identity.Some? != peers[address].service.Some?
  {
    Reachable(w, steps);
    RequiredFixed(w, steps);
  }

  lemma {:induction false} RequiredFixed(w: World, steps: seq<Step>)
    requires IsRun(w, steps)
    ensures After(w, steps).required == w.required
    decreases steps
  {
    if steps != [] {
      RequiredFixed(Next(w, steps[0]), steps[1..]);
    }
  }

  // A JOIN that nothing interrupts.

  /** The sections of a JOIN with a service admission: its decision and its peer, then its admission and its lease. */
  function Opening(key: Key, identity: IdentityOutcome, now: Time): seq<Step> {
    [ResolveJoinStep(key, identity, now), UpsertPeer]
  }

  function Closing(now: Time): seq<Step> {
    [CheckService(now), AttachService, StartMembership(now)]
  }

  ghost predicate Leads(w: World, steps: seq<Step>, t: World) {
    IsRun(w, steps) && After(w, steps) == t
  }

  lemma LeadsOn(w: World, steps: seq<Step>, t: World, end: World)
    requires steps != [] && Enabled(w, steps[0]) && Next(w, steps[0]) == t && Leads(t, steps[1..], end)
    ensures Leads(w, steps, end)
  {
  }

  lemma {:induction false} LeadsThen(w: World, first: seq<Step>, t: World, rest: seq<Step>, end: World)
    requires Leads(w, first, t) && Leads(t, rest, end)
    ensures Leads(w, first + rest, end)
    decreases first
  {
    if first == [] {
      assert first + rest == rest;
    } else {
      var next := Next(w, first[0]);
      assert (first + rest)[1..] == first[1..] + rest;
      LeadsThen(next, first[1..], t, rest, end);
      LeadsOn(w, first + rest, next, end);
    }
  }

  lemma ResolvesAndCreates(w: World, key: Key, identity: IdentityOutcome, now: Time, a: Admission)
      returns (t: World)
    requires w.handler.Idle? && now <= w.clock && JoinVerdict(w.admission, key, now) == Admitted(a)
    requires (identity.NoIdentity? && !w.required) || identity == IdentityDenied(DENY_ADMISSION_REQUIRED)
    ensures Leads(w, Opening(key, identity, now), t)
    ensures t.handler == Upserted(Request(key.channelID, key.senderID, key.address, None, Some(a), true))
    ensures t.PeersOf(key.channelID) == Upsert(w.PeersOf(key.channelID), key.senderID, key.address)
    ensures t.clock == w.clock && t.lease == w.lease && t.admission == Join(w.admission, key, now)
  {
    var steps := Opening(key, identity, now);
    var resolved := Next(w, steps[0]);
    t := Next(resolved, steps[1]);
    assert steps[1..][1..] == [];
    LeadsOn(resolved, steps[1..], t, t);
    LeadsOn(w, steps, resolved, t);
  }

  /** The check made while attaching passes: nothing has expired and no rule has come. */
  lemma ChecksAgain(s: AdmissionState, key: Key, now: Time, a: Admission)
    requires JoinVerdict(s, key, now) == Admitted(a)
    ensures a.GrantCurrent(now) && !Cleanup(Join(s, key, now), now).Denied(key.channelID, a)
  {
    assert Cleanup(Join(s, key, now), now).denied == Cleanup(s, now).denied;
  }

  lemma AttachesAndStarts(t: World, key: Key, now: Time, a: Admission) returns (end: World)
    requires t.handler == Upserted(Request(key.channelID, key.senderID, key.address, None, Some(a), true))
    requires now <= t.clock && a.GrantCurrent(now) && !Cleanup(t.admission, now).Denied(key.channelID, a)
    requires var peers := t.PeersOf(key.channelID);
      Carries(peers, key.senderID, key.address) && peers[key.address].identity.None?
    ensures Leads(t, Closing(now), end)
    ensures var peers := t.PeersOf(key.channelID);
      end.handler.Idle? && end.PeersOf(key.channelID) == peers[key.address :=
        peers[key.address].(service := Some(a), lease := t.lease, deadline := now + t.lease)]
  {
    var steps := Closing(now);
    var checked := Next(t, steps[0]);
    var attached := Next(checked, steps[1]);
    end := Next(attached, steps[2]);
    var peers, r := t.PeersOf(key.channelID), t.handler.r;
    var carrying := peers[key.address := peers[key.address].(service := Some(a))];
    assert key.address in carrying && attached.PeersOf(key.channelID) == carrying && attached.handler == Attached(r);
    assert steps[1..][1..][1..] == [];
    LeadsOn(attached, steps[1..][1..], end, end);
    LeadsOn(checked, steps[1..], attached, end);
    LeadsOn(t, steps, checked, end);
  }

  /**
    The counterpart of `NoRevokedMember`: a JOIN whose service admission is found, of an
    endpoint without an identity, makes its sender a member with just that admission for a
    whole lease, and changes no other peer.
   */
  lemma JoinMakesMember(w: World, key: Key, identity: IdentityOutcome, now: Time, a: Admission)
    requires w.handler.Idle? && now <= w.clock && JoinVerdict(w.admission, key, now) == Admitted(a)
    requires (identity.NoIdentity? && !w.required) || identity == IdentityDenied(DENY_ADMISSION_REQUIRED)
    requires var peers := w.PeersOf(key.channelID); key.address in peers ==> peers[key.address].identity.None?
    ensures IsRun(w, Opening(key, identity, now) + Closing(now))
    ensures var before := w.PeersOf(key.channelID);
      var after := After(w, Opening(key, identity, now) + Closing(now)).PeersOf(key.channelID);
      && after.Keys == before.Keys + {key.address}
      && after[key.address] == Peer(key.senderID, w.lease, now + w.lease, None, Some(a))
      && forall b :: b in before && b != key.address ==> after[b] == before[b]
  {
    var t := ResolvesAndCreates(w, key, identity, now, a);
    ChecksAgain(w.admission, key, now, a);
    var end := AttachesAndStarts(t, key, now, a);
    LeadsThen(w, Opening(key, identity, now), t, Closing(now), end);
  }
}
