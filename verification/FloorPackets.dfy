/**
  Whole packets, cleanup ticks and revocations as the steps of one channel's floor control
  (handlePacket and cleanupLoop of main.go, revokeManagedServiceAdmission of management.go).
  A step is the sequence of critical sections it goes through, with nothing in between; its
  plan follows the branches of handlePacket. Every section of every step meets its guard,
  except the one a rebinding JOIN may miss.
 */
module FloorPackets {
  import opened Common
  import opened ServiceAdmission
  import opened Membership
  import opened Floor
  import opened FloorRun

  datatype Kind =
    | JoinPacket | LeavePacket | KeepalivePacket | CodecPacket | MediaPacket | ProofPacket | OtherPacket
    | PttOnPacket | PttOffPacket | PttRequestPacket(prio: map<uint32, uint8>, grant: Grant)

  /** The clock readings of a packet's sections. */
  datatype Clock = Clock(expire: Time, start: Time, talk: Time, allow: Time, refresh: Time, floor: Time)

  /**
    `accepted`: authentication, challenge, admission and payload checks passed.
    `attached`: the admission the packet brings was written to the peer.
   */
  datatype Packet = Packet(
    kind: Kind, sender: uint32, address: Address, accepted: bool, attached: bool,
    identity: Option<IdentityAdmission>, service: Option<Admission>, clock: Clock)

  datatype Event = Received(p: Packet) | CleanupTick(now: Time) | Revocation(target: Target)

  /** peerAllowsTalk, for the peer at the packet's address. */
  predicate AllowsTalk(p: Peer, required: bool, now: Time) {
    if p.identity.Some? then p.identity.value.expiresAt > now && p.identity.value.permissions / PERMISSION_TALK % 2 == 1
    else if p.service.Some? then
      p.service.value.MembershipCurrent(now) && p.service.value.permissions / PERMISSION_TALK % 2 == 1
    else !required
  }

  ghost function Plan(ch: Channel, config: Config, e: Event): seq<Section> {
    match e
    case CleanupTick(now) => [SweepChannel(now)]
    case Revocation(target) => [Evict(target)]
    case Received(p) => [ExpireMembers(p.clock.expire)] + Dispatch(Current(ch, config, p), config, p)
  }

  /** The channel after the expiry every packet starts with. */
  ghost function Current(ch: Channel, config: Config, p: Packet): Channel {
    Next(ch, config, ExpireMembers(p.clock.expire))
  }

  ghost function Dispatch(ch: Channel, config: Config, p: Packet): seq<Section> {
    var refresh := RefreshLease(p.sender, p.address, p.clock.refresh);
    match p.kind
    case JoinPacket => if p.accepted then [JoinAs(p.sender, p.address)] + Admit(p) else []
    case MediaPacket =>
      if p.accepted && Carries(ch.peers, p.sender, p.address) && p.sender in ch.talkers
         && AllowsTalk(ch.peers[p.address], config.identityRequired, p.clock.allow) then [refresh] else []
    case ProofPacket =>
      if p.attached && Carries(ch.peers, p.sender, p.address)
      then [AttachTo(p.sender, p.address, p.identity, p.service)] else []
    case _ =>
      if p.accepted && Carries(ch.peers, p.sender, p.address)
      then [ExpireTalkers(p.clock.talk)] + Handle(Next(ch, config, ExpireTalkers(p.clock.talk)), config, p)
      else []
  }

  /** A JOIN whose admission can no longer be attached leaves a peer without a membership. */
  function Admit(p: Packet): seq<Section> {
    if (p.identity.Some? || p.service.Some?) && !p.attached then []
    else
      (if p.attached then [AttachTo(p.sender, p.address, p.identity, p.service)] else [])
      + [StartLease(p.sender, p.address, p.clock.start), ExpireTalkers(p.clock.talk)]
  }

  ghost function Handle(ch: Channel, config: Config, p: Packet): seq<Section> {
    var refresh := RefreshLease(p.sender, p.address, p.clock.refresh);
    match p.kind
    case LeavePacket => [ReleaseFloor(p.sender), Depart(p.sender, p.address, p.address)]
    case KeepalivePacket => [refresh]
    case CodecPacket => [refresh]
    case PttOnPacket =>
      if && Carries(ch.peers, p.sender, p.address)
         && AllowsTalk(ch.peers[p.address], config.identityRequired, p.clock.allow)
      then [refresh, TakeFloor(p.sender, p.clock.floor)] else []
    case PttOffPacket => [refresh, ReleaseFloor(p.sender)]
    case PttRequestPacket(prio, grant) =>
      [RequestFloor(p.sender, p.address, p.clock.floor, prio, grant)] + if grant.Unauthorized? then [] else [refresh]
    case _ => []
  }

  /** A JOIN must not take the last peer of a talker. */
  ghost predicate JoinGuard(ch: Channel, config: Config, e: Event) {
    e.Received? && e.p.kind.JoinPacket? && e.p.accepted ==>
      Guard(Current(ch, config, e.p), config, JoinAs(e.p.sender, e.p.address))
  }

  /** No endpoint JOINs under a sender ID other than the one its peer has. */
  ghost predicate NoRebinding(ch: Channel, config: Config, e: Event) {
    e.Received? && e.p.kind.JoinPacket? && e.p.accepted && e.p.address in Current(ch, config, e.p).peers ==>
      Current(ch, config, e.p).peers[e.p.address].sender == e.p.sender
  }

  /** The event's packet has a sender, and a floor request is decided as handlePttRequest does. */
  ghost predicate Possible(ch: Channel, config: Config, e: Event) {
    (e.Received? ==> e.p.sender != 0) && IsRun(ch, config, Plan(ch, config, e))
  }

  lemma Cons(ch: Channel, config: Config, s: Section, rest: seq<Section>)
    requires Enabled(ch, config, s)
    ensures IsRun(ch, config, [s] + rest) <==> IsRun(Next(ch, config, s), config, rest)
    ensures IsRun(ch, config, [s] + rest) ==>
      && (Guarded(ch, config, [s] + rest) <==> Guard(ch, config, s) && Guarded(Next(ch, config, s), config, rest))
      && After(ch, config, [s] + rest) == After(Next(ch, config, s), config, rest)
  {
    assert ([s] + rest)[0] == s && ([s] + rest)[1..] == rest;
  }

  /** Sections that are always guarded: everything but joining, taking the floor and departing. */
  predicate Plain(s: Section) {
    !s.JoinAs? && !s.TakeFloor? && !s.Depart?
  }

  lemma {:induction false} PlainGuarded(ch: Channel, config: Config, run: seq<Section>)
    requires IsRun(ch, config, run) && forall s :: s in run ==> Plain(s)
    ensures Guarded(ch, config, run)
    decreases run
  {
    if run != [] {
      assert run[0] in run;
      PlainGuarded(Next(ch, config, run[0]), config, run[1..]);
    }
  }

  lemma HandleGuarded(ch: Channel, config: Config, p: Packet)
    requires Carries(ch.peers, p.sender, p.address) && IsRun(ch, config, Handle(ch, config, p))
    ensures Guarded(ch, config, Handle(ch, config, p))
  {
    var refresh := RefreshLease(p.sender, p.address, p.clock.refresh);
    if p.kind.LeavePacket? {
      assert HasPeer(ch.peers, p.sender);
      Cons(ch, config, ReleaseFloor(p.sender), [Depart(p.sender, p.address, p.address)]);
      var next := Next(ch, config, ReleaseFloor(p.sender));
      assert [Depart(p.sender, p.address, p.address)] == [Depart(p.sender, p.address, p.address)] + [];
      assert Handle(ch, config, p) == [ReleaseFloor(p.sender)] + [Depart(p.sender, p.address, p.address)];
      assert p.sender !in next.talkers;
      Cons(next, config, Depart(p.sender, p.address, p.address), []);
    } else if p.kind.PttOnPacket? && Handle(ch, config, p) != [] {
      var take := TakeFloor(p.sender, p.clock.floor);
      assert Handle(ch, config, p) == [refresh] + [take] && [take] == [take] + [];
      Cons(ch, config, refresh, [take]);
      var next := Next(ch, config, refresh);
      assert next.peers[p.address].sender == p.sender;
      Cons(next, config, take, []);
    } else {
      PlainGuarded(ch, config, Handle(ch, config, p));
    }
  }

  lemma JoinPlanGuarded(now: Channel, config: Config, p: Packet)
    requires p.kind.JoinPacket? && p.accepted && IsRun(now, config, Dispatch(now, config, p))
    ensures Guarded(now, config, Dispatch(now, config, p)) <==> Guard(now, config, JoinAs(p.sender, p.address))
  {
    Cons(now, config, JoinAs(p.sender, p.address), Admit(p));
    PlainGuarded(Next(now, config, JoinAs(p.sender, p.address)), config, Admit(p));
  }

  lemma OtherPlanGuarded(now: Channel, config: Config, p: Packet)
    requires !(p.kind.JoinPacket? && p.accepted) && IsRun(now, config, Dispatch(now, config, p))
    ensures Guarded(now, config, Dispatch(now, config, p))
  {
    var rest := Dispatch(now, config, p);
    if rest != [] && !p.kind.MediaPacket? && !p.kind.ProofPacket? {
      var talk := ExpireTalkers(p.clock.talk);
      var next := Next(now, config, talk);
      Cons(now, config, talk, Handle(next, config, p));
      HandleGuarded(next, config, p);
    } else {
      PlainGuarded(now, config, rest);
    }
  }

  /** Every section of a step is guarded, provided that the JOIN is. */
  lemma PlanGuarded(ch: Channel, config: Config, e: Event)
    requires Possible(ch, config, e)
    ensures Guarded(ch, config, Plan(ch, config, e)) <==> JoinGuard(ch, config, e)
  {
    if e.Received? {
      var p := e.p;
      var now, expire := Current(ch, config, p), ExpireMembers(p.clock.expire);
      Cons(ch, config, expire, Dispatch(now, config, p));
      if p.kind.JoinPacket? && p.accepted {
        JoinPlanGuarded(now, config, p);
      } else {
        OtherPlanGuarded(now, config, p);
      }
    } else {
      PlainGuarded(ch, config, Plan(ch, config, e));
    }
  }

  // Runs of steps.

  ghost predicate IsEventRun(ch: Channel, config: Config, events: seq<Event>)
    decreases events
  {
    events == [] ||
    (Possible(ch, config, events[0]) && IsEventRun(After(ch, config, Plan(ch, config, events[0])), config, events[1..]))
  }

  ghost function Sections(ch: Channel, config: Config, events: seq<Event>): seq<Section>
    requires IsEventRun(ch, config, events)
    decreases events
  {
    if events == [] then [] else
    Plan(ch, config, events[0]) + Sections(After(ch, config, Plan(ch, config, events[0])), config, events[1..])
  }

  /** Every JOIN of the run meets `JoinGuard`. */
  ghost predicate JoinsGuarded(ch: Channel, config: Config, events: seq<Event>)
    requires IsEventRun(ch, config, events)
    decreases events
  {
    events == [] ||
    (JoinGuard(ch, config, events[0])
     && JoinsGuarded(After(ch, config, Plan(ch, config, events[0])), config, events[1..]))
  }

  /** No endpoint rebinds during the run. */
  ghost predicate Unrebound(ch: Channel, config: Config, events: seq<Event>)
    requires IsEventRun(ch, config, events)
    decreases events
  {
    events == [] ||
    (NoRebinding(ch, config, events[0])
     && Unrebound(After(ch, config, Plan(ch, config, events[0])), config, events[1..]))
  }

  lemma {:induction false} UnreboundGuarded(ch: Channel, config: Config, events: seq<Event>)
    requires IsEventRun(ch, config, events) && Unrebound(ch, config, events)
    ensures JoinsGuarded(ch, config, events)
    decreases events
  {
    if events != [] {
      UnreboundGuarded(After(ch, config, Plan(ch, config, events[0])), config, events[1..]);
    }
  }

  lemma {:induction false} SectionsGuarded(ch: Channel, config: Config, events: seq<Event>)
    requires IsEventRun(ch, config, events)
    ensures IsRun(ch, config, Sections(ch, config, events))
    ensures Guarded(ch, config, Sections(ch, config, events)) <==> JoinsGuarded(ch, config, events)
    decreases events
  {
    if events != [] {
      var plan := Plan(ch, config, events[0]);
      var next := After(ch, config, plan);
      PlanGuarded(ch, config, events[0]);
      SectionsGuarded(next, config, events[1..]);
      RunAppend(ch, config, plan, Sections(next, config, events[1..]));
      GuardedAppend(ch, config, plan, Sections(next, config, events[1..]));
    }
  }

  /**
    From an empty channel, over any run of packets, cleanup ticks and revocations without a
    rebinding: every talker has a peer, the talkers stay within the limit of 1 to 16, no
    talker is dropped with the channel, and each sender's talk_started and talk_ended
    strictly alternate, beginning with talk_started; the last one tells who is talking.
   */
  lemma FloorIsSafe(config: Config, events: seq<Event>, sender: uint32)
    requires IsEventRun(EMPTY_CHANNEL, config, events) && Unrebound(EMPTY_CHANNEL, config, events)
    ensures var run := Sections(EMPTY_CHANNEL, config, events);
      && IsRun(EMPTY_CHANNEL, config, run)
      && var ch, told := After(EMPTY_CHANNEL, config, run), Events(EMPTY_CHANNEL, config, run, sender);
      && Owned(ch) && |ch.talkers| <= config.Limit() <= MAX_ACTIVE_TALKERS && 0 !in ch.talkers
      && Alternates(told, false)
      && (sender in ch.talkers <==> told != [] && told[|told| - 1])
  {
    UnreboundGuarded(EMPTY_CHANNEL, config, events);
    var run := Sections(EMPTY_CHANNEL, config, events);
    SectionsGuarded(EMPTY_CHANNEL, config, events);
    RunOwned(EMPTY_CHANNEL, config, run);
    RunBounded(EMPTY_CHANNEL, config, run);
    EventsAlternate(EMPTY_CHANNEL, config, run, sender);
  }

  // Without the hypotheses.

  /** The run leads to `to` and tells `told` of the sender. */
  ghost predicate Goes(ch: Channel, config: Config, run: seq<Section>, to: Channel, sender: uint32, told: seq<bool>) {
    IsRun(ch, config, run) && After(ch, config, run) == to && Events(ch, config, run, sender) == told
  }

  lemma GoesOne(ch: Channel, config: Config, s: Section, to: Channel, sender: uint32, told: seq<bool>)
    requires Enabled(ch, config, s) && Next(ch, config, s) == to && Told(Effect(ch, config, s), sender) == told
    ensures Goes(ch, config, [s], to, sender, told)
  {
    assert [s][1..] == [];
    assert told + [] == told;
  }

  lemma GoesThen(ch: Channel, config: Config, a: seq<Section>, mid: Channel, b: seq<Section>, to: Channel,
                 sender: uint32, first: seq<bool>, rest: seq<bool>)
    requires Goes(ch, config, a, mid, sender, first) && Goes(mid, config, b, to, sender, rest)
    ensures Goes(ch, config, a + b, to, sender, first + rest)
  {
    RunAppend(ch, config, a, b);
    EventsAppend(ch, config, a, b, sender);
  }

  lemma GoesFour(ch: Channel, config: Config, s: seq<Section>, to: seq<Channel>, sender: uint32, told: seq<bool>)
    requires |s| == |to| == 4 && Enabled(ch, config, s[0]) && Next(ch, config, s[0]) == to[0]
    requires Enabled(to[0], config, s[1]) && Next(to[0], config, s[1]) == to[1]
    requires Enabled(to[1], config, s[2]) && Next(to[1], config, s[2]) == to[2]
    requires Enabled(to[2], config, s[3]) && Next(to[2], config, s[3]) == to[3]
    requires Told(Effect(ch, config, s[0]), sender) == Told(Effect(to[0], config, s[1]), sender) == []
    requires Told(Effect(to[1], config, s[2]), sender) == [] && Told(Effect(to[2], config, s[3]), sender) == told
    ensures Goes(ch, config, s, to[3], sender, told)
  {
    GoesOne(ch, config, s[0], to[0], sender, []);
    GoesOne(to[0], config, s[1], to[1], sender, []);
    GoesOne(to[1], config, s[2], to[2], sender, []);
    GoesOne(to[2], config, s[3], to[3], sender, told);
    GoesThen(to[1], config, [s[2]], to[2], [s[3]], to[3], sender, [], told);
    GoesThen(to[0], config, [s[1]], to[1], [s[2]] + [s[3]], to[3], sender, [], [] + told);
    GoesThen(ch, config, [s[0]], to[0], [s[1]] + ([s[2]] + [s[3]]), to[3], sender, [], [] + ([] + told));
    assert s == [s[0]] + ([s[1]] + ([s[2]] + [s[3]]));
    assert [] + ([] + ([] + told)) == told;
  }

  /** A packet from the endpoint "a" without an admission, all sections at `t`. */
  function From(kind: Kind, sender: uint32, t: Time): Event {
    Received(Packet(kind, sender, "a", true, false, None, None, Clock(t, t, t, t, t, t)))
  }

  /** The channel with the one endpoint "a", its membership started at `t`. */
  function Solo(config: Config, sender: uint32, t: Time, talkers: map<uint32, Time>): Channel {
    Channel(map["a" := NEW_PEER.(sender := sender, lease := config.lease, deadline := t + config.lease)], talkers)
  }

  /** At time `t` memberships run, and no admission is required. */
  predicate Open(config: Config, t: Time) {
    t > 0 && config.lease > 0 && !config.identityRequired
  }

  /** Nothing of the channel has expired at `t`. */
  lemma NothingExpires(config: Config, sender: uint32, t: Time, talkers: map<uint32, Time>)
    requires Open(config, t) && (talkers == map[] || talkers == map[1 := t])
    ensures var ch := Solo(config, sender, t, talkers);
      && Effect(ch, config, ExpireMembers(t)) == Outcome(ch, {}, {}) == Effect(ch, config, ExpireTalkers(t))
      && Next(ch, config, ExpireMembers(t)) == ch == Next(ch, config, ExpireTalkers(t))
  {
    var ch := Solo(config, sender, t, talkers);
    assert "a" in ch.peers && ch.peers.Keys == {"a"} && Expired(ch.peers["a"], t).None?;
    assert ExpiredAt(ch.peers, t) == {};
    assert Silenced(ch, {}) == {} && ch.peers - {} == ch.peers && ch.talkers - {} == ch.talkers;
    assert ExpireTalk(ch, t, config.talkMax).channel.talkers == ch.talkers;
  }

  lemma JoinGoes(ch: Channel, config: Config, sender: uint32, t: Time, talkers: map<uint32, Time>)
    requires Open(config, t) && sender != 0 && (talkers == map[] || talkers == map[1 := t])
    requires ch == Channel(map[], talkers) == EMPTY_CHANNEL || ch == Solo(config, 1, t, talkers)
    ensures var e := From(JoinPacket, sender, t);
      Possible(ch, config, e) && Goes(ch, config, Plan(ch, config, e), Solo(config, sender, t, talkers), 1, [])
  {
    var s := [ExpireMembers(t), JoinAs(sender, "a"), StartLease(sender, "a", t), ExpireTalkers(t)];
    if ch == EMPTY_CHANNEL {
      assert RemoveMembers(ch, ExpiredAt(ch.peers, t)) == Outcome(ch, {}, {});
    } else {
      NothingExpires(config, 1, t, talkers);
    }
    var joined := ch.(peers := Upsert(ch.peers, sender, "a"));
    var to := Solo(config, sender, t, talkers);
    assert "a" in joined.peers && Next(ch, config, s[1]) == joined;
    assert Next(joined, config, s[2]) == to;
    NothingExpires(config, sender, t, talkers);
    GoesFour(ch, config, s, [ch, joined, to, to], 1, []);
    assert Plan(ch, config, From(JoinPacket, sender, t)) == s;
  }

  lemma SoloTakes(config: Config, t: Time)
    requires Open(config, t)
    ensures var ch, to := Solo(config, 1, t, map[]), Solo(config, 1, t, map[1 := t]);
      Effect(ch, config, TakeFloor(1, t)) == Outcome(to, {}, {1}) && Next(ch, config, TakeFloor(1, t)) == to
  {
  }

  lemma TakeGoes(config: Config, t: Time)
    requires Open(config, t)
    ensures var ch, e := Solo(config, 1, t, map[]), From(PttOnPacket, 1, t);
      Possible(ch, config, e) && Goes(ch, config, Plan(ch, config, e), Solo(config, 1, t, map[1 := t]), 1, [true])
  {
    var ch, to := Solo(config, 1, t, map[]), Solo(config, 1, t, map[1 := t]);
    var s := [ExpireMembers(t), ExpireTalkers(t), RefreshLease(1, "a", t), TakeFloor(1, t)];
    NothingExpires(config, 1, t, map[]);
    SoloTakes(config, t);
    assert "a" in ch.peers && Next(ch, config, s[2]) == ch;
    GoesFour(ch, config, s, [ch, ch, ch, to], 1, [true]);
    assert Plan(ch, config, From(PttOnPacket, 1, t)) == s;
  }

  lemma LeaveGoes(config: Config, t: Time)
    requires Open(config, t)
    ensures var ch, e := Solo(config, 2, t, map[1 := t]), From(LeavePacket, 2, t);
      Possible(ch, config, e) && Goes(ch, config, Plan(ch, config, e), EMPTY_CHANNEL, 1, [])
  {
    var ch := Solo(config, 2, t, map[1 := t]);
    var s := [ExpireMembers(t), ExpireTalkers(t), ReleaseFloor(2), Depart(2, "a", "a")];
    NothingExpires(config, 2, t, map[1 := t]);
    assert "a" in ch.peers && Next(ch, config, s[2]) == ch;
    assert RemovePeerAt(ch, "a").peers == map[];
    GoesFour(ch, config, s, [ch, ch, ch, EMPTY_CHANNEL], 1, []);
    assert Plan(ch, config, From(LeavePacket, 2, t)) == s;
  }

  lemma EventGoes(ch: Channel, config: Config, e: Event, to: Channel, rest: seq<Event>, end: Channel,
                  first: seq<bool>, told: seq<bool>)
    requires Possible(ch, config, e) && Goes(ch, config, Plan(ch, config, e), to, 1, first)
    requires IsEventRun(to, config, rest) && Goes(to, config, Sections(to, config, rest), end, 1, told)
    ensures IsEventRun(ch, config, [e] + rest)
    ensures Goes(ch, config, Sections(ch, config, [e] + rest), end, 1, first + told)
  {
    assert ([e] + rest)[1..] == rest;
    GoesThen(ch, config, Plan(ch, config, e), to, Sections(to, config, rest), end, 1, first, told);
  }

  /**
    An endpoint JOINs as sender 1, takes the floor and JOINs again as sender 2: sender 1 now
    talks without a peer. When it leaves as sender 2 the channel goes, and with it sender
    1's talk, whose end is never told.
   */
  lemma RebindingOrphans(config: Config, t: Time)
    requires Open(config, t)
    ensures var orphaned := [From(JoinPacket, 1, t)] + ([From(PttOnPacket, 1, t)] + ([From(JoinPacket, 2, t)] + []));
      && IsEventRun(EMPTY_CHANNEL, config, orphaned)
      && var ch := Solo(config, 2, t, map[1 := t]);
      && Goes(EMPTY_CHANNEL, config, Sections(EMPTY_CHANNEL, config, orphaned), ch, 1, [true])
      && 1 in ch.talkers && !HasPeer(ch.peers, 1)
    ensures var ended :=
        [From(JoinPacket, 1, t)]
        + ([From(PttOnPacket, 1, t)] + ([From(JoinPacket, 2, t)] + ([From(LeavePacket, 2, t)] + [])));
      && IsEventRun(EMPTY_CHANNEL, config, ended)
      && Goes(EMPTY_CHANNEL, config, Sections(EMPTY_CHANNEL, config, ended), EMPTY_CHANNEL, 1, [true])
  {
    var two := Solo(config, 2, t, map[1 := t]);
    LeaveGoes(config, t);
    var leave := [From(LeavePacket, 2, t)] + [];
    EventGoes(two, config, From(LeavePacket, 2, t), EMPTY_CHANNEL, [], EMPTY_CHANNEL, [], []);
    FromTalking(config, t, [], two, []);
    FromTalking(config, t, leave, EMPTY_CHANNEL, [] + []);
  }

  lemma FromTalking(config: Config, t: Time, rest: seq<Event>, end: Channel, told: seq<bool>)
    requires Open(config, t)
    requires var two := Solo(config, 2, t, map[1 := t]);
      IsEventRun(two, config, rest) && Goes(two, config, Sections(two, config, rest), end, 1, told) && told == []
    ensures var events := [From(JoinPacket, 1, t)] + ([From(PttOnPacket, 1, t)] + ([From(JoinPacket, 2, t)] + rest));
      && IsEventRun(EMPTY_CHANNEL, config, events)
      && Goes(EMPTY_CHANNEL, config, Sections(EMPTY_CHANNEL, config, events), end, 1, [true])
  {
    var one, talking := Solo(config, 1, t, map[]), Solo(config, 1, t, map[1 := t]);
    var two := Solo(config, 2, t, map[1 := t]);
    var third := [From(JoinPacket, 2, t)] + rest;
    var second := [From(PttOnPacket, 1, t)] + third;
    JoinGoes(talking, config, 2, t, map[1 := t]);
    EventGoes(talking, config, From(JoinPacket, 2, t), two, rest, end, [], told);
    TakeGoes(config, t);
    EventGoes(one, config, From(PttOnPacket, 1, t), talking, third, end, [true], [] + told);
    JoinGoes(EMPTY_CHANNEL, config, 1, t, map[]);
    EventGoes(EMPTY_CHANNEL, config, From(JoinPacket, 1, t), one, second, end, [], [true] + ([] + told));
    assert [] + ([true] + ([] + told)) == [true];
  }

  /**
    A revocation between a PTT_ON's permission check and its grant: if it evicts all of the
    sender's peers but not the channel's, and the floor is free, the grant goes to a sender
    without a peer, although the check had passed.
   */
  lemma EvictionRace(
      ch: Channel, config: Config, target: Target, sender: uint32, address: Address, checked: Time, now: Time)
    requires sender != 0 && sender !in ch.talkers && |ch.talkers| < config.Limit()
    requires Carries(ch.peers, sender, address) && AllowsTalk(ch.peers[address], config.identityRequired, checked)
    requires forall a :: a in ch.peers && ch.peers[a].sender == sender ==> Revoked(ch.peers[a], target)
    requires exists a :: a in ch.peers && !Revoked(ch.peers[a], target)
    ensures var evicted := Next(ch, config, Evict(target));
      !Guard(evicted, config, TakeFloor(sender, now)) && !Owned(Next(evicted, config, TakeFloor(sender, now)))
  {
    var evicted := Next(ch, config, Evict(target));
    var a :| a in ch.peers && !Revoked(ch.peers[a], target);
    assert a in evicted.peers;
    assert !HasPeer(evicted.peers, sender);
    FewerTalkers(ch.talkers, evicted.talkers);
    assert PttOnGrant(evicted, sender, config.Limit()).TalkGranted?;
    assert sender in Next(evicted, config, TakeFloor(sender, now)).talkers;
  }
}
