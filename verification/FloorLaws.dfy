/**
  What the floor's sections do, in the fields of peers, admissions and talkers: who stays a
  member, whose talk goes on, who may ask for the floor, and who gets it.
 */
module FloorLaws {
  import opened Common
  import opened ServiceAdmission
  import opened Membership
  import opened Floor
  import opened FloorRun
  import opened FloorPriority
  import FloorPackets

  // Members.

  /** The membership's time is over, or that of an admission; a listener has its grace. */
  predicate Lapsed(p: Peer, now: Time) {
    || (p.deadline != 0 && p.deadline <= now)
    || (p.identity.Some? && p.identity.value.expiresAt <= now)
    || (p.service.Some? && p.service.value.grantExpires <= now
        && (p.service.value.permissions != 1 || p.service.value.grantExpires + p.service.value.grace <= now))
  }

  /** The peer was admitted with a service or a grant that the target names. */
  predicate Named(p: Peer, target: Target) {
    && p.service.Some?
    && (target.serviceID == "" || p.service.value.serviceID == target.serviceID)
    && (target.grantIDHash.Some? ==> p.service.value.grantIDHash == target.grantIDHash.value)
  }

  lemma LapsedExpire(p: Peer, now: Time)
    ensures Expired(p, now).Some? <==> Lapsed(p, now)
  {
  }

  /** Removing members ends the talks of their senders, and no other. */
  lemma RemovalDecides(ch: Channel, gone: set<Address>, s: uint32)
    ensures var o, silenced := RemoveMembers(ch, gone),
                               exists a :: a in gone && a in ch.peers && ch.peers[a].sender == s;
      && (s in o.ended <==> s in ch.talkers && silenced)
      && (s in o.channel.talkers <==> s in ch.talkers && !silenced)
      && (s in o.channel.talkers ==> o.channel.talkers[s] == ch.talkers[s])
  {
  }

  /** An expiry removes exactly the lapsed members and ends exactly their senders' talks. */
  lemma ExpiryDecides(ch: Channel, config: Config, now: Time, a: Address, s: uint32)
    ensures var o, lapsed := Effect(ch, config, ExpireMembers(now)),
                             exists b :: b in ch.peers && ch.peers[b].sender == s && Lapsed(ch.peers[b], now);
      && (a in o.channel.peers <==> a in ch.peers && !Lapsed(ch.peers[a], now))
      && (a in o.channel.peers ==> o.channel.peers[a] == ch.peers[a])
      && (s in o.ended <==> s in ch.talkers && lapsed)
      && (s in o.channel.talkers <==> s in ch.talkers && !lapsed)
      && (s in o.channel.talkers ==> o.channel.talkers[s] == ch.talkers[s])
  {
    RemovalDecides(ch, ExpiredAt(ch.peers, now), s);
    if b :| b in ch.peers && ch.peers[b].sender == s && Lapsed(ch.peers[b], now) {
      assert b in ExpiredAt(ch.peers, now);
    }
  }

  /** A revocation removes exactly the members it names and ends exactly their senders' talks. */
  lemma EvictionDecides(ch: Channel, config: Config, target: Target, a: Address, s: uint32)
    ensures var o, named := Effect(ch, config, Evict(target)),
                            exists b :: b in ch.peers && ch.peers[b].sender == s && Named(ch.peers[b], target);
      && (a in o.channel.peers <==> a in ch.peers && !Named(ch.peers[a], target))
      && (a in o.channel.peers ==> o.channel.peers[a] == ch.peers[a])
      && (s in o.ended <==> s in ch.talkers && named)
      && (s in o.channel.talkers <==> s in ch.talkers && !named)
      && (s in o.channel.talkers ==> o.channel.talkers[s] == ch.talkers[s])
  {
    RemovalDecides(ch, RevokedBy(ch.peers, target), s);
    if b :| b in ch.peers && ch.peers[b].sender == s && Named(ch.peers[b], target) {
      assert b in RevokedBy(ch.peers, target);
    }
  }

  // Talk time.

  /** A talk goes on while there is no maximum, its clock has not started, or less than the maximum has passed. */
  predicate TimeLeft(started: Time, now: Time, talkMax: Time) {
    talkMax == 0 || started == 0 || now < started + talkMax
  }

  /** Exactly the talks with time left go on; a clock that has not started does so now, if there is a maximum. */
  lemma TalkTimeDecides(ch: Channel, config: Config, now: Time, s: uint32)
    ensures var o := Effect(ch, config, ExpireTalkers(now));
      && o.channel.peers == ch.peers
      && (s in o.ended <==> s in ch.talkers && !TimeLeft(ch.talkers[s], now, config.talkMax))
      && (s in o.channel.talkers <==> s in ch.talkers && TimeLeft(ch.talkers[s], now, config.talkMax))
      && (s in o.channel.talkers ==>
            o.channel.talkers[s] == if ch.talkers[s] == 0 && config.talkMax != 0 then now else ch.talkers[s])
  {
  }

  /**
    A cleanup tick: exactly the members that have not lapsed stay; a talk goes on exactly if
    no member of its sender lapsed and it has time left, and every other one is told as
    ended.
   */
  lemma SweepDecides(ch: Channel, config: Config, now: Time, a: Address, s: uint32)
    ensures var o := Effect(ch, config, SweepChannel(now));
      var lapsed := exists b :: b in ch.peers && ch.peers[b].sender == s && Lapsed(ch.peers[b], now);
      var stays := s in ch.talkers && !lapsed && TimeLeft(ch.talkers[s], now, config.talkMax);
      && (a in o.channel.peers <==> a in ch.peers && !Lapsed(ch.peers[a], now))
      && (a in o.channel.peers ==> o.channel.peers[a] == ch.peers[a])
      && (s in o.channel.talkers <==> stays)
      && (s in o.ended <==> s in ch.talkers && !stays)
      && (stays ==> o.channel.talkers[s] == if ch.talkers[s] == 0 && config.talkMax != 0 then now else ch.talkers[s])
  {
    ExpiryDecides(ch, config, now, a, s);
    TalkTimeDecides(Effect(ch, config, ExpireMembers(now)).channel, config, now, s);
  }

  // Asking for the floor.

  /** Bits 2 and 4 of a permission byte: talk and interrupt. */
  lemma InterruptBits(permissions: uint8)
    ensures HasBits(permissions) <==> permissions as bv8 & 6 == 6
  {
  }

  lemma TalkBit(permissions: uint8)
    ensures permissions / PERMISSION_TALK % 2 == 1 <==> permissions as bv8 & 2 == 2
  {
  }

  /** The priority of the admission that lets a peer interrupt: current, not 0, and with both permissions. */
  ghost predicate MayInterrupt(p: Peer, now: Time, priority: uint8) {
    match p.identity
    case Some(a) =>
      a.expiresAt > now && a.permissions as bv8 & 6 == 6 && a.priority == priority != 0
    case None =>
      p.service.Some? && var a := p.service.value;
      a.grantExpires > now && a.permissions as bv8 & 6 == 6 && a.priority == priority != 0
  }

  lemma InterruptExactly(p: Peer, now: Time)
    ensures AllowsInterrupt(p, now) <==> exists n :: MayInterrupt(p, now, n)
    ensures forall n: uint8 :: MayInterrupt(p, now, n) ==> CurrentPriority(p, now) == Some(n)
  {
    if p.identity.Some? {
      InterruptBits(p.identity.value.permissions);
      assert MayInterrupt(p, now, p.identity.value.priority) <==> AllowsInterrupt(p, now);
    } else if p.service.Some? {
      ServiceInterrupts(p.service.value, now);
      assert MayInterrupt(p, now, p.service.value.priority) <==> AllowsInterrupt(p, now);
    }
  }

  /** Whoever may interrupt is no mere listener, and has no grace. */
  lemma ServiceInterrupts(a: Admission, now: Time)
    ensures a.MembershipCurrent(now) && HasBits(a.permissions) <==>
      a.grantExpires > now && a.permissions as bv8 & 6 == 6
  {
    InterruptBits(a.permissions);
  }

  /** The relay interrupts talks at all, and the endpoint is the sender's with a running membership. */
  predicate MayAsk(ch: Channel, config: Config, sender: uint32, address: Address, now: Time) {
    && config.floorInterrupt && config.identityRequired && config.authRequired
    && address in ch.peers && ch.peers[address].sender == sender && ch.peers[address].deadline > now
  }

  /**
    A floor request is refused as unauthorized unless its endpoint may ask and has an
    admission to interrupt with. Otherwise a talker goes on, a free place is taken, and for a
    full floor the admission's priority decides against the least that is found of a talker.
   */
  lemma RequestDecides(ch: Channel, config: Config, sender: uint32, address: Address, now: Time,
                       prio: map<uint32, uint8>, grant: Grant)
    requires RequestGrant(ch, config, sender, address, now, prio, grant)
    ensures !grant.Unauthorized? <==>
      MayAsk(ch, config, sender, address, now) && exists n :: MayInterrupt(ch.peers[address], now, n)
    ensures !grant.Unauthorized? ==>
      && (grant.AlreadyTalking? <==> sender in ch.talkers)
      && (grant.TalkGranted? <==> sender !in ch.talkers && |ch.talkers| < config.Limit())
      && (sender !in ch.talkers && |ch.talkers| >= config.Limit() ==>
            && prio.Keys == ch.talkers.Keys
            && forall n :: MayInterrupt(ch.peers[address], now, n) ==>
                 && (grant.Preempted? <==> exists s :: s in prio && prio[s] < n)
                 && (grant.TalkDenied? <==> forall s :: s in prio ==> n <= prio[s])
                 && (grant.Preempted? ==>
                       grant.victim in prio && forall s :: s in prio ==> prio[grant.victim] <= prio[s]))
  {
    if address in ch.peers {
      InterruptExactly(ch.peers[address], now);
    }
    if Contested(ch, config, sender, address, now) {
      PreemptsExactly(ch, config, sender, address, now, prio, grant);
    }
  }

  /** What is found of a talker: the priority of a current admission of one of its endpoints, or 0 without one. */
  lemma FoundExactly(peers: Peers, s: uint32, now: Time, n: uint8)
    ensures PriorityOf(peers, s, now, n) <==>
      || (exists a :: a in peers && peers[a].sender == s && Holds(peers[a], now, n))
      || (n == 0 && forall a, k: uint8 :: a in peers && peers[a].sender == s ==> !Holds(peers[a], now, k))
  {
    forall a | a in peers && peers[a].sender == s
      ensures forall k: uint8 :: Holds(peers[a], now, k) <==> CurrentPriority(peers[a], now) == Some(k)
      ensures CurrentPriority(peers[a], now).None? <==> forall k: uint8 :: !Holds(peers[a], now, k)
    {
      HoldsExactly(peers[a], now);
    }
  }

  lemma HoldsExactly(p: Peer, now: Time)
    ensures forall k: uint8 :: Holds(p, now, k) <==> CurrentPriority(p, now) == Some(k)
    ensures CurrentPriority(p, now).None? <==> forall k: uint8 :: !Holds(p, now, k)
  {
    var found := CurrentPriority(p, now);
    if found.Some? {
      assert Holds(p, now, found.value);
    }
  }

  /** The peer's identity, or else its service admission, is current and has priority `n`. */
  predicate Holds(p: Peer, now: Time, n: uint8) {
    if p.identity.Some? && p.identity.value.expiresAt > now then p.identity.value.priority == n
    else p.service.Some? && p.service.value.priority == n
         && (p.service.value.grantExpires > now
             || (p.service.value.permissions == 1 && p.service.value.grantExpires + p.service.value.grace > now))
  }

  // Taking and leaving the floor.

  /** An ordinary PTT_ON: its sender talks if it did, or if the channel exists and has a place. */
  lemma TakeDecides(ch: Channel, config: Config, sender: uint32, now: Time, s: uint32)
    requires sender != 0
    ensures var o, place := Effect(ch, config, TakeFloor(sender, now)),
                            sender !in ch.talkers && ch.peers != map[] && |ch.talkers| < config.Limit();
      && o.channel.peers == ch.peers && o.ended == {} && o.started == (if place then {sender} else {})
      && (sender in o.channel.talkers <==> sender in ch.talkers || place)
      && (place ==> o.channel.talkers[sender] == now)
      && (s in ch.talkers ==> s in o.channel.talkers && o.channel.talkers[s] == ch.talkers[s])
      && (s != sender ==> (s in o.channel.talkers <==> s in ch.talkers))
  {
  }

  /** A request that is granted adds its sender; a preemption puts it in the place of its victim only. */
  lemma GrantDecides(ch: Channel, sender: uint32, now: Time, grant: Grant, s: uint32)
    requires grant.Preempted? ==> grant.victim != sender
    ensures var o, takes := GrantFloor(ch, sender, now, grant), grant.TalkGranted? || grant.Preempted?;
      && o.channel.peers == ch.peers && o.started == (if takes then {sender} else {})
      && o.ended == (if grant.Preempted? then {grant.victim} else {})
      && (takes ==> sender in o.channel.talkers && o.channel.talkers[sender] == now)
      && (grant.Preempted? ==> grant.victim !in o.channel.talkers)
      && (s != sender && !(grant.Preempted? && s == grant.victim) ==>
            && (s in o.channel.talkers <==> s in ch.talkers)
            && (s in ch.talkers ==> o.channel.talkers[s] == ch.talkers[s]))
      && (!takes ==> o.channel == ch)
  {
  }

  /** PTT_OFF and LEAVE end the sender's talk, and no other. */
  lemma ReleaseDecides(ch: Channel, config: Config, sender: uint32, s: uint32)
    ensures var o := Effect(ch, config, ReleaseFloor(sender));
      && o.channel.peers == ch.peers && o.started == {}
      && (s in o.ended <==> s == sender && s in ch.talkers)
      && (s in o.channel.talkers <==> s in ch.talkers && s != sender)
      && (s in o.channel.talkers ==> o.channel.talkers[s] == ch.talkers[s])
  {
  }

  // A whole PTT_ON.

  /** An admission that lets the peer talk, or none where none is required. */
  predicate MayTalk(p: Peer, required: bool, now: Time) {
    if p.identity.Some? then p.identity.value.expiresAt > now && p.identity.value.permissions as bv8 & 2 == 2
    else if p.service.Some? then p.service.value.grantExpires > now && p.service.value.permissions as bv8 & 2 == 2
    else !required
  }

  lemma TalkExactly(p: Peer, required: bool, now: Time)
    ensures FloorPackets.AllowsTalk(p, required, now) <==> MayTalk(p, required, now)
  {
    if p.identity.Some? {
      TalkBit(p.identity.value.permissions);
    } else if p.service.Some? {
      TalkBit(p.service.value.permissions);
    }
  }

  /** The channel that an accepted packet of a member finds: without lapsed members, and without late talks. */
  ghost function Found(ch: Channel, config: Config, p: FloorPackets.Packet): Channel {
    Next(Next(ch, config, ExpireMembers(p.clock.expire)), config, ExpireTalkers(p.clock.talk))
  }

  /**
    A PTT_ON of an endpoint whose membership has not lapsed: afterwards the sender talks
    exactly if it already did, or if it may talk and there is a place. Nobody else's talk is
    touched.
   */
  lemma PttOnDecides(ch: Channel, config: Config, p: FloorPackets.Packet, s: uint32)
    requires p.kind.PttOnPacket? && p.accepted && p.sender != 0
    requires p.address in ch.peers && ch.peers[p.address].sender == p.sender
    requires !Lapsed(ch.peers[p.address], p.clock.expire)
    ensures FloorPackets.Possible(ch, config, FloorPackets.Received(p))
    ensures var found := Found(ch, config, p);
      var end := After(ch, config, FloorPackets.Plan(ch, config, FloorPackets.Received(p)));
      && (p.sender in end.talkers <==>
            || p.sender in found.talkers
            || (MayTalk(ch.peers[p.address], config.identityRequired, p.clock.allow)
                && |found.talkers| < config.Limit()))
      && (s != p.sender ==> (s in end.talkers <==> s in found.talkers))
      && (s in found.talkers ==> s in end.talkers && end.talkers[s] == found.talkers[s])
  {
    var now := FloorPackets.Current(ch, config, p);
    ExpiryDecides(ch, config, p.clock.expire, p.address, s);
    assert p.address in now.peers && now.peers[p.address] == ch.peers[p.address];
    var talk, found := ExpireTalkers(p.clock.talk), Found(ch, config, p);
    TalkExactly(ch.peers[p.address], config.identityRequired, p.clock.allow);
    FloorPackets.Cons(ch, config, ExpireMembers(p.clock.expire), FloorPackets.Dispatch(now, config, p));
    FloorPackets.Cons(now, config, talk, FloorPackets.Handle(found, config, p));
    FoundTakes(found, config, p, s);
  }

  lemma FoundTakes(found: Channel, config: Config, p: FloorPackets.Packet, s: uint32)
    requires p.kind.PttOnPacket? && p.sender != 0 && Carries(found.peers, p.sender, p.address)
    ensures IsRun(found, config, FloorPackets.Handle(found, config, p))
    ensures var end := After(found, config, FloorPackets.Handle(found, config, p));
      && (p.sender in end.talkers <==>
            || p.sender in found.talkers
            || (FloorPackets.AllowsTalk(found.peers[p.address], config.identityRequired, p.clock.allow)
                && |found.talkers| < config.Limit()))
      && (s != p.sender ==> (s in end.talkers <==> s in found.talkers))
      && (s in found.talkers ==> s in end.talkers && end.talkers[s] == found.talkers[s])
  {
    if FloorPackets.AllowsTalk(found.peers[p.address], config.identityRequired, p.clock.allow) {
      var refresh, take := RefreshLease(p.sender, p.address, p.clock.refresh), TakeFloor(p.sender, p.clock.floor);
      var next := Next(found, config, refresh);
      assert p.address in next.peers;
      assert FloorPackets.Handle(found, config, p) == [refresh] + ([take] + []);
      FloorPackets.Cons(found, config, refresh, [take] + []);
      FloorPackets.Cons(next, config, take, []);
      TakeDecides(next, config, p.sender, p.clock.floor, s);
    }
  }

  // The other packets of a member.

  /** The accepted packet of a running member, after the expiry of members and talks it starts with. */
  ghost predicate Finds(ch: Channel, config: Config, p: FloorPackets.Packet) {
    && p.accepted && p.sender != 0
    && p.address in ch.peers && ch.peers[p.address].sender == p.sender && !Lapsed(ch.peers[p.address], p.clock.expire)
  }

  lemma MemberPacket(ch: Channel, config: Config, p: FloorPackets.Packet)
    requires Finds(ch, config, p)
    requires p.kind.KeepalivePacket? || p.kind.CodecPacket? || p.kind.PttOffPacket? || p.kind.LeavePacket?
    requires IsRun(Found(ch, config, p), config, FloorPackets.Handle(Found(ch, config, p), config, p))
    ensures var found := Found(ch, config, p);
      && p.address in found.peers && found.peers[p.address] == ch.peers[p.address]
      && FloorPackets.Possible(ch, config, FloorPackets.Received(p))
      && After(ch, config, FloorPackets.Plan(ch, config, FloorPackets.Received(p)))
         == After(found, config, FloorPackets.Handle(found, config, p))
  {
    var now := FloorPackets.Current(ch, config, p);
    ExpiryDecides(ch, config, p.clock.expire, p.address, p.sender);
    assert p.address in now.peers && now.peers[p.address] == ch.peers[p.address];
    var talk, found := ExpireTalkers(p.clock.talk), Found(ch, config, p);
    FloorPackets.Cons(ch, config, ExpireMembers(p.clock.expire), FloorPackets.Dispatch(now, config, p));
    FloorPackets.Cons(now, config, talk, FloorPackets.Handle(found, config, p));
  }

  /** KEEPALIVE and CODEC_CONFIG make a running lease full again, and do nothing else. */
  lemma KeepaliveExtends(ch: Channel, config: Config, p: FloorPackets.Packet)
    requires Finds(ch, config, p) && (p.kind.KeepalivePacket? || p.kind.CodecPacket?)
    requires ch.peers[p.address].deadline > p.clock.refresh
    ensures FloorPackets.Possible(ch, config, FloorPackets.Received(p))
    ensures var found := Found(ch, config, p);
      var end := After(ch, config, FloorPackets.Plan(ch, config, FloorPackets.Received(p)));
      && end.talkers == found.talkers && end.peers.Keys == found.peers.Keys && p.address in end.peers
      && end.peers[p.address] == ch.peers[p.address].(deadline := p.clock.refresh + ch.peers[p.address].lease)
      && forall a :: a in found.peers && a != p.address ==> end.peers[a] == found.peers[a]
  {
    var found, refresh := Found(ch, config, p), RefreshLease(p.sender, p.address, p.clock.refresh);
    FloorPackets.Cons(found, config, refresh, []);
    assert FloorPackets.Handle(found, config, p) == [refresh] + [];
    MemberPacket(ch, config, p);
  }

  /** PTT_OFF ends the sender's talk, and nobody else's. */
  lemma PttOffReleases(ch: Channel, config: Config, p: FloorPackets.Packet)
    requires Finds(ch, config, p) && p.kind.PttOffPacket?
    ensures FloorPackets.Possible(ch, config, FloorPackets.Received(p))
    ensures var found := Found(ch, config, p);
      var end := After(ch, config, FloorPackets.Plan(ch, config, FloorPackets.Received(p)));
      end.talkers == found.talkers - {p.sender} && end.peers.Keys == found.peers.Keys
  {
    var found := Found(ch, config, p);
    var refresh, release := RefreshLease(p.sender, p.address, p.clock.refresh), ReleaseFloor(p.sender);
    var next := Next(found, config, refresh);
    ExpiryDecides(ch, config, p.clock.expire, p.address, p.sender);
    assert p.address in next.peers;
    FloorPackets.Cons(next, config, release, []);
    FloorPackets.Cons(found, config, refresh, [release] + []);
    assert FloorPackets.Handle(found, config, p) == [refresh] + ([release] + []);
    MemberPacket(ch, config, p);
  }

  /** LEAVE ends the sender's talk and removes its endpoint, and nobody else's. */
  lemma LeaveDeparts(ch: Channel, config: Config, p: FloorPackets.Packet)
    requires Finds(ch, config, p) && p.kind.LeavePacket?
    ensures FloorPackets.Possible(ch, config, FloorPackets.Received(p))
    ensures var found := Found(ch, config, p);
      var end := After(ch, config, FloorPackets.Plan(ch, config, FloorPackets.Received(p)));
      && end.peers == found.peers - {p.address}
      && (end.peers != map[] ==> end.talkers == found.talkers - {p.sender})
  {
    var found := Found(ch, config, p);
    var release, depart := ReleaseFloor(p.sender), Depart(p.sender, p.address, p.address);
    var next := Next(found, config, release);
    ExpiryDecides(ch, config, p.clock.expire, p.address, p.sender);
    assert p.address in found.peers && next.peers == found.peers;
    FloorPackets.Cons(next, config, depart, []);
    FloorPackets.Cons(found, config, release, [depart] + []);
    assert FloorPackets.Handle(found, config, p) == [release] + ([depart] + []);
    MemberPacket(ch, config, p);
  }

  // Endpoints.

  /** A departure removes the packet's endpoint if it is the sender's, or else another one of the sender's. */
  lemma DepartDecides(ch: Channel, config: Config, sender: uint32, address: Address, at: Address)
    requires Enabled(ch, config, Depart(sender, address, at))
    ensures at in ch.peers && ch.peers[at].sender == sender
    ensures address in ch.peers && ch.peers[address].sender == sender ==> at == address
    ensures var o := Effect(ch, config, Depart(sender, address, at));
      o.channel == Channel(ch.peers - {at}, ch.talkers) && o.ended == {} && o.started == {}
  {
  }

  /** The endpoint a packet's section may change. */
  function Endpoint(s: Section): Option<Address> {
    match s
    case JoinAs(_, address) => Some(address)
    case AttachTo(_, address, _, _) => Some(address)
    case StartLease(_, address, _) => Some(address)
    case RefreshLease(_, address, _) => Some(address)
    case Depart(_, _, at) => Some(at)
    case _ => None
  }

  /** A packet's section changes the record of its own endpoint at most. */
  lemma OthersUntouched(ch: Channel, config: Config, s: Section, a: Address)
    requires Enabled(ch, config, s) && !s.ExpireMembers? && !s.SweepChannel? && !s.Evict? && Endpoint(s) != Some(a)
    ensures var peers := Effect(ch, config, s).channel.peers;
      (a in peers <==> a in ch.peers) && (a in peers ==> peers[a] == ch.peers[a])
  {
  }

  /** A JOIN gives the endpoint its sender; a new endpoint has no membership yet, a known one keeps its own. */
  lemma JoinDecides(ch: Channel, config: Config, sender: uint32, address: Address)
    requires sender != 0
    ensures var peers := Effect(ch, config, JoinAs(sender, address)).channel.peers;
      && address in peers && peers[address].sender == sender
      && (address !in ch.peers ==>
            && peers[address].deadline == 0 && peers[address].identity.None? && peers[address].service.None?)
      && (address in ch.peers ==>
            && peers[address].deadline == ch.peers[address].deadline && peers[address].lease == ch.peers[address].lease
            && peers[address].identity == ch.peers[address].identity
            && peers[address].service == ch.peers[address].service)
  {
  }

  /** An admission is attached exactly to the sender's own peer without one of the other kind. */
  lemma AttachDecides(peers: Peers, sender: uint32, address: Address,
                      identity: Option<IdentityAdmission>, service: Option<Admission>)
    requires identity.Some? != service.Some?
    ensures AttachAdmission(peers, sender, address, identity, service).Some? <==>
      && address in peers && peers[address].sender == sender
      && (if identity.Some? then peers[address].service.None? else peers[address].identity.None?)
    ensures var after := AttachAdmission(peers, sender, address, identity, service);
      after.Some? ==>
        && after.value.Keys == peers.Keys && (forall a :: a in peers && a != address ==> after.value[a] == peers[a])
        && var was, p := peers[address], after.value[address];
        && p.identity == (if identity.Some? then identity else was.identity)
        && p.service == (if service.Some? then service else was.service)
        && p.sender == was.sender && p.lease == was.lease && p.deadline == was.deadline
  {
  }

  /** A lease is started at any time and extended while it runs, by the sender's own endpoint; then it is full again. */
  lemma LeaseDecides(ch: Channel, config: Config, sender: uint32, address: Address, now: Time)
    requires address in ch.peers
    ensures var was := ch.peers[address];
      var p := Effect(ch, config, StartLease(sender, address, now)).channel.peers[address];
      p == if was.sender == sender then was.(lease := config.lease, deadline := now + config.lease) else was
    ensures var was := ch.peers[address];
      var p := Effect(ch, config, RefreshLease(sender, address, now)).channel.peers[address];
      p == if was.sender == sender && was.deadline > now then was.(deadline := now + was.lease) else was
  {
  }
}
