/**
  Floor control (main.go, management.go): who may talk on a channel. Every grant, denial,
  preemption, leave, timeout, expiry and revocation changes one map of active talkers. A
  `Channel` is the value of a channel's peers and talkers; a channel that does not exist
  is one without peers. `Relay` holds the channels and runs the critical sections.
 */
module Floor {
  import opened Common
  import opened ServiceAdmission
  import opened Membership

  const MAX_ACTIVE_TALKERS := 16

  datatype Channel = Channel(peers: Peers, talkers: map<uint32, Time>)

  const EMPTY_CHANNEL := Channel(map[], map[])

  datatype Config = Config(
    floorInterrupt: bool, identityRequired: bool, authRequired: bool,
    multiTalk: bool, maxActiveTalkers: int, talkMax: Time, lease: Time) {

    /** newServer clamps the configured maximum; the grant sections take 1 unless multi-talk is on. */
    function Limit(): (n: nat)
      ensures 1 <= n <= MAX_ACTIVE_TALKERS
      ensures !multiTalk || maxActiveTalkers < 1 ==> n == 1
      ensures multiTalk && 1 <= maxActiveTalkers <= MAX_ACTIVE_TALKERS ==> n == maxActiveTalkers
      ensures multiTalk && maxActiveTalkers > MAX_ACTIVE_TALKERS ==> n == MAX_ACTIVE_TALKERS
    {
      if !multiTalk || maxActiveTalkers < 1 then 1
      else if maxActiveTalkers > MAX_ACTIVE_TALKERS then MAX_ACTIVE_TALKERS
      else maxActiveTalkers
    }
  }

  /** What a critical section leaves behind, whose talk it ended and whose it started. */
  datatype Outcome = Outcome(channel: Channel, ended: set<uint32>, started: set<uint32>)

  /** A channel is deleted with its last peer, at the end of the section that removes it. */
  function Kept(ch: Channel): Channel {
    if ch.peers == map[] then EMPTY_CHANNEL else ch
  }

  // Peers coming and going.

  ghost predicate HasPeer(peers: Peers, sender: uint32) {
    exists a :: a in peers && peers[a].sender == sender
  }

  function StartPeer(peers: Peers, sender: uint32, address: Address, now: Time, lease: Time): Peers {
    if !Carries(peers, sender, address) then peers else
    peers[address := peers[address].(lease := lease, deadline := now + lease)]
  }

  /** refreshMembership: only a running membership is extended. */
  function RefreshPeer(peers: Peers, sender: uint32, address: Address, now: Time): Peers {
    if !Carries(peers, sender, address) || peers[address].deadline == 0 || peers[address].deadline <= now
    then peers else
    peers[address := peers[address].(deadline := now + peers[address].lease)]
  }

  ghost function Silenced(ch: Channel, gone: set<Address>): set<uint32> {
    set s | s in ch.talkers && exists a :: a in gone && a in ch.peers && ch.peers[a].sender == s
  }

  /** Expiry and revocation: the talk of every removed peer's sender ends with it. */
  ghost function RemoveMembers(ch: Channel, gone: set<Address>): Outcome {
    var silenced := Silenced(ch, gone);
    Outcome(Channel(ch.peers - gone, ch.talkers - silenced), silenced, {})
  }

  ghost function Selected(peers: Peers, drop: Peer -> bool): set<Address> {
    set a | a in peers && drop(peers[a])
  }

  ghost function ExpiredAt(peers: Peers, now: Time): set<Address> {
    set a | a in peers && Expired(peers[a], now).Some?
  }

  ghost function RevokedBy(peers: Peers, target: Target): set<Address> {
    set a | a in peers && Revoked(peers[a], target)
  }

  /** removePeer falls back to some peer of the sender if the address is another's. */
  predicate RemovesAt(peers: Peers, sender: uint32, address: Address, at: Address) {
    Carries(peers, sender, at) && (Carries(peers, sender, address) ==> at == address)
  }

  /** removePeer leaves the talkers alone. */
  function RemovePeerAt(ch: Channel, at: Address): Channel {
    ch.(peers := ch.peers - {at})
  }

  // Talk time.

  predicate TimedOut(startedAt: Time, now: Time, talkMax: Time) {
    startedAt != 0 && now - startedAt >= talkMax
  }

  ghost function ExpireTalk(ch: Channel, now: Time, talkMax: Time): Outcome {
    if talkMax == 0 then Outcome(ch, {}, {}) else
    var late := set s | s in ch.talkers && TimedOut(ch.talkers[s], now, talkMax);
    var kept := map s | s in ch.talkers && s !in late :: if ch.talkers[s] == 0 then now else ch.talkers[s];
    Outcome(ch.(talkers := kept), late, {})
  }

  /** One channel's share of the periodic cleanup. */
  ghost function Sweep(ch: Channel, now: Time, talkMax: Time): Outcome {
    var members := RemoveMembers(ch, ExpiredAt(ch.peers, now));
    var talk := ExpireTalk(members.channel, now, talkMax);
    Outcome(talk.channel, members.ended + talk.ended, {})
  }

  // Taking and releasing the floor.

  datatype Grant = NoChannel | AlreadyTalking | TalkGranted | TalkDenied | Preempted(victim: uint32) | Unauthorized

  /** handlePttOn; it looks at the talkers only, not at the peers. */
  function PttOnGrant(ch: Channel, sender: uint32, limit: nat): Grant {
    if ch.peers == map[] then NoChannel
    else if sender in ch.talkers then AlreadyTalking
    else if |ch.talkers| < limit then TalkGranted
    else TalkDenied
  }

  function GrantFloor(ch: Channel, sender: uint32, now: Time, grant: Grant): Outcome {
    match grant
    case TalkGranted => Outcome(ch.(talkers := ch.talkers[sender := now]), {}, {sender})
    case Preempted(victim) => Outcome(ch.(talkers := (ch.talkers - {victim})[sender := now]), {victim}, {sender})
    case _ => Outcome(ch, {}, {})
  }

  /** handlePttOff and releaseTalkIfNeeded. */
  function Release(ch: Channel, sender: uint32): Outcome {
    if sender in ch.talkers then Outcome(ch.(talkers := ch.talkers - {sender}), {sender}, {}) else Outcome(ch, {}, {})
  }

  // Priorities.

  /** The priority of the admission a peer currently holds. */
  function CurrentPriority(p: Peer, now: Time): Option<uint8> {
    if p.identity.Some? && p.identity.value.expiresAt > now then Some(p.identity.value.priority)
    else if p.service.Some? && p.service.value.MembershipCurrent(now) then Some(p.service.value.priority)
    else None
  }

  /** Talk and interrupt permission, bits 1 and 2. */
  predicate HasBits(permissions: uint8) {
    permissions / PERMISSION_TALK % 2 == 1 && permissions / PERMISSION_INTERRUPT % 2 == 1
  }

  predicate AllowsInterrupt(p: Peer, now: Time) {
    if p.identity.Some? then
      p.identity.value.expiresAt > now && HasBits(p.identity.value.permissions) && p.identity.value.priority != 0
    else p.service.Some? && p.service.value.MembershipCurrent(now)
         && HasBits(p.service.value.permissions) && p.service.value.priority != 0
  }

  /** `n` is a priority activeTalkerPriority may find for `sender`, depending on the order it visits the peers in. */
  ghost predicate PriorityOf(peers: Peers, sender: uint32, now: Time, n: uint8) {
    || (exists a :: a in peers && peers[a].sender == sender && CurrentPriority(peers[a], now) == Some(n))
    || (n == 0 && forall a :: a in peers && peers[a].sender == sender ==> CurrentPriority(peers[a], now).None?)
  }

  /** Lower priority first, then lower sender ID. */
  predicate Before(p: uint8, s: uint32, q: uint8, t: uint32) {
    p < q || (p == q && s < t)
  }

  ghost predicate Prioritised(peers: Peers, talkers: map<uint32, Time>, now: Time, prio: map<uint32, uint8>) {
    prio.Keys == talkers.Keys && forall s :: s in talkers ==> PriorityOf(peers, s, now, prio[s])
  }

  /** `v` comes before every other talker. */
  ghost predicate IsVictim(prio: map<uint32, uint8>, v: uint32) {
    v in prio && forall s :: s in prio && s != v ==> Before(prio[v], v, prio[s], s)
  }

  /** Whether handlePttRequest may consider the requester at all. */
  predicate Authorized(ch: Channel, config: Config, sender: uint32, address: Address, now: Time) {
    && config.floorInterrupt && config.identityRequired && config.authRequired
    && Carries(ch.peers, sender, address)
    && ch.peers[address].deadline > now
    && AllowsInterrupt(ch.peers[address], now)
  }

  /** Under the priorities found, `grant` is the outcome of handlePttRequest. */
  ghost predicate RequestGrant(ch: Channel, config: Config, sender: uint32, address: Address, now: Time,
                               prio: map<uint32, uint8>, grant: Grant) {
    if !Authorized(ch, config, sender, address, now) then grant.Unauthorized?
    else if sender in ch.talkers then grant.AlreadyTalking?
    else if |ch.talkers| < config.Limit() then grant.TalkGranted?
    else
      var own := CurrentPriority(ch.peers[address], now);
      && Prioritised(ch.peers, ch.talkers, now, prio) && own.Some?
      && match grant
         case Preempted(victim) => IsVictim(prio, victim) && prio[victim] < own.value
         case TalkDenied => forall s :: s in prio && IsVictim(prio, s) ==> own.value <= prio[s]
         case _ => false
  }

  lemma RemoveNone(ch: Channel)
    ensures RemoveMembers(ch, {}) == Outcome(ch, {}, {})
  {
    assert ch.peers - {} == ch.peers && Silenced(ch, {}) == {} && ch.talkers - {} == ch.talkers;
  }

  /** Removing one more member. */
  lemma RemoveOne(ch: Channel, gone: set<Address>, key: Address)
    requires key in ch.peers
    ensures var o, sender := RemoveMembers(ch, gone), ch.peers[key].sender;
      RemoveMembers(ch, gone + {key}) ==
        if sender in o.channel.talkers
        then Outcome(Channel(o.channel.peers - {key}, o.channel.talkers - {sender}), o.ended + {sender}, {})
        else Outcome(o.channel.(peers := o.channel.peers - {key}), o.ended, {})
  {
    var o, sender := RemoveMembers(ch, gone), ch.peers[key].sender;
    assert Silenced(ch, gone + {key}) == Silenced(ch, gone) + if sender in ch.talkers then {sender} else {};
    assert ch.peers - (gone + {key}) == ch.peers - gone - {key};
    assert sender in o.channel.talkers <==> sender in ch.talkers && sender !in Silenced(ch, gone);
    if sender in o.channel.talkers {
      assert ch.talkers - (Silenced(ch, gone) + {sender}) == ch.talkers - Silenced(ch, gone) - {sender};
    } else {
      assert Silenced(ch, gone + {key}) == Silenced(ch, gone);
    }
  }

  class Relay {
    const config: Config
    var channels: map<uint32, Channel>

    constructor (config: Config)
      ensures this.config == config && channels == map[] && Valid()
    {
      this.config := config;
      channels := map[];
    }

    function At(id: uint32): Channel
      reads this
    {
      if id in channels then channels[id] else EMPTY_CHANNEL
    }

    /** Every stored channel has a peer, and no talker is the relay's own sender ID 0. */
    ghost predicate Valid()
      reads this
    {
      forall id :: id in channels ==> channels[id].peers != map[] && 0 !in channels[id].talkers
    }

    /** Only channel `id` changes, to `ch`; it is deleted if `ch` has no peers. */
    twostate predicate Becomes(id: uint32, ch: Channel)
      reads this
    {
      channels == if ch.peers == map[] then old(channels) - {id} else old(channels)[id := ch]
    }

    method Store(id: uint32, ch: Channel)
      modifies this`channels
      ensures Becomes(id, ch)
    {
      if ch.peers == map[] {
        channels := channels - {id};
      } else {
        channels := channels[id := ch];
      }
    }

    /** The loop shared by expireMembershipIfNeeded, the cleanup and the eviction of a revocation. */
    method RemoveWhere(ch: Channel, drop: Peer -> bool) returns (r: Channel, released: set<uint32>, removed: nat)
      ensures Outcome(r, released, {}) == RemoveMembers(ch, Selected(ch.peers, drop))
      ensures removed == |Selected(ch.peers, drop)|
    {
      r, released, removed := ch, {}, 0;
      var todo := ch.peers.Keys;
      ghost var gone: set<Address> := {};
      RemoveNone(ch);
      while todo != {}
        invariant todo <= ch.peers.Keys && gone !! todo && removed == |gone|
        invariant forall a :: a in gone ==> a in ch.peers && drop(ch.peers[a])
        invariant forall a :: a in ch.peers && a !in todo && drop(ch.peers[a]) ==> a in gone
        invariant Outcome(r, released, {}) == RemoveMembers(ch, gone)
      {
        var key :| key in todo;
        todo := todo - {key};
        var peer := ch.peers[key];
        if drop(peer) {
          RemoveOne(ch, gone, key);
          gone := gone + {key};
          removed := removed + 1;
          r := r.(peers := r.peers - {key});
          if peer.sender in r.talkers {
            r := r.(talkers := r.talkers - {peer.sender});
            released := released + {peer.sender};
          }
        }
      }
      assert gone == Selected(ch.peers, drop);
    }

    method ExpireMembershipIfNeeded(id: uint32, now: Time) returns (released: set<uint32>)
      requires Valid()
      modifies this`channels
      ensures Valid()
      ensures var o := RemoveMembers(old(At(id)), ExpiredAt(old(At(id)).peers, now));
        Becomes(id, o.channel) && released == o.ended
    {
      if id !in channels {
        return {};
      }
      var ch := channels[id];
      var expired := (p: Peer) => Expired(p, now).Some?;
      var r, gone, _ := RemoveWhere(ch, expired);
      assert Selected(ch.peers, expired) == ExpiredAt(ch.peers, now);
      Store(id, r);
      released := gone;
    }

    /** The channel's half of revokeManagedServiceAdmission. */
    method EvictRevoked(target: Target) returns (affected: nat, talkReleases: nat)
      requires Valid()
      modifies this`channels
      ensures Valid()
      ensures var ch := old(At(target.channelID));
        var o := RemoveMembers(ch, RevokedBy(ch.peers, target));
        Becomes(target.channelID, o.channel) && affected == |RevokedBy(ch.peers, target)| && talkReleases == |o.ended|
    {
      if target.channelID !in channels {
        return 0, 0;
      }
      var ch := channels[target.channelID];
      var revoked := (p: Peer) => Revoked(p, target);
      var r, released, removed := RemoveWhere(ch, revoked);
      assert Selected(ch.peers, revoked) == RevokedBy(ch.peers, target);
      Store(target.channelID, r);
      affected, talkReleases := removed, |released|;
    }

    /**
      revokeManagedServiceAdmission: the rule is installed under the admission state's
      mutex before the members are evicted under the server's.
     */
    method RevokeManagedServiceAdmission(admissions: ServiceAdmissionState, target: Target, denyUntil: Time, now: Time)
      returns (ok: bool, affected: nat, talkReleases: nat)
      requires Valid()
      modifies this`channels, admissions
      ensures Valid()
      ensures ok <==> Installs(old(admissions.State()), target, denyUntil, now)
      ensures admissions.State() == Install(old(admissions.State()), target, denyUntil, now)
      ensures !ok ==> channels == old(channels)
      ensures ok ==>
        var o := RemoveMembers(old(At(target.channelID)), RevokedBy(old(At(target.channelID)).peers, target));
        Becomes(target.channelID, o.channel) && talkReleases == |o.ended|
        && affected == |RevokedBy(old(At(target.channelID)).peers, target)|
    {
      affected, talkReleases := 0, 0;
      ok := admissions.InstallRevocation(target, denyUntil, now);
      if ok {
        affected, talkReleases := EvictRevoked(target);
      }
    }

    /** The talk-time loop of expireTalkIfNeeded and of the cleanup. */
    method ExpireTalkers(ch: Channel, now: Time) returns (r: Channel, released: set<uint32>)
      requires config.talkMax > 0
      ensures Outcome(r, released, {}) == ExpireTalk(ch, now, config.talkMax)
    {
      r, released := ch, {};
      var todo := ch.talkers.Keys;
      while todo != {}
        invariant todo <= ch.talkers.Keys && r.peers == ch.peers
        invariant released == set s | s in ch.talkers && s !in todo && TimedOut(ch.talkers[s], now, config.talkMax)
        invariant r.talkers.Keys == ch.talkers.Keys - released
        invariant forall s :: s in r.talkers ==>
          r.talkers[s] == if s !in todo && ch.talkers[s] == 0 then now else ch.talkers[s]
      {
        var s :| s in todo;
        todo := todo - {s};
        if ch.talkers[s] == 0 {
          r := r.(talkers := r.talkers[s := now]);
        } else if now - ch.talkers[s] >= config.talkMax {
          r := r.(talkers := r.talkers - {s});
          released := released + {s};
        }
      }
    }

    method ExpireTalkIfNeeded(id: uint32, now: Time) returns (released: set<uint32>)
      requires Valid()
      modifies this`channels
      ensures Valid()
      ensures var o := ExpireTalk(old(At(id)), now, config.talkMax); Becomes(id, o.channel) && released == o.ended
    {
      if config.talkMax == 0 || id !in channels || channels[id].talkers == map[] {
        assert At(id).talkers == map[] ==> ExpireTalk(At(id), now, config.talkMax).channel.talkers == map[];
        return {};
      }
      var r, gone := ExpireTalkers(channels[id], now);
      Store(id, r);
      released := gone;
    }

    /** One tick of cleanupLoop: every channel is swept. */
    method RunCleanup(now: Time) returns (releases: map<uint32, set<uint32>>)
      requires Valid()
      modifies this`channels
      ensures Valid()
      ensures releases.Keys == old(channels).Keys
      ensures forall id :: id in releases ==> SweptTo(old(channels[id]), now, At(id), releases[id])
      ensures channels.Keys <= releases.Keys
    {
      releases := map[];
      var todo := channels.Keys;
      ghost var was := channels;
      while todo != {}
        invariant todo <= was.Keys && releases.Keys == was.Keys - todo && channels.Keys <= was.Keys
        invariant forall id :: id in todo ==> id in channels && channels[id] == was[id]
        invariant forall id :: id in channels ==> channels[id].peers != map[] && 0 !in channels[id].talkers
        invariant forall id :: id in releases ==> SweptTo(was[id], now, At(id), releases[id])
      {
        var id :| id in todo;
        todo := todo - {id};
        var r, released := SweepChannel(channels[id], now);
        Store(id, r);
        assert SweptTo(was[id], now, At(id), released);
        releases := releases[id := released];
      }
    }

    ghost predicate SweptTo(ch: Channel, now: Time, to: Channel, released: set<uint32>) {
      var o := Sweep(ch, now, config.talkMax);
      to == Kept(o.channel) && released == o.ended
    }

    method SweepChannel(ch: Channel, now: Time) returns (r: Channel, released: set<uint32>)
      ensures SweptTo(ch, now, Kept(r), released)
      ensures 0 !in ch.talkers ==> 0 !in r.talkers
    {
      var expired := (p: Peer) => Expired(p, now).Some?;
      var members, gone, _ := RemoveWhere(ch, expired);
      assert Selected(ch.peers, expired) == ExpiredAt(ch.peers, now);
      r, released := members, gone;
      if config.talkMax > 0 {
        var late: set<uint32>;
        r, late := ExpireTalkers(members, now);
        released := released + late;
      }
    }

    // Packets of the sender at an address. handlePacket has dropped sender ID 0.

    /** getOrCreateChannel and upsertPeer, one section. */
    method JoinPeer(id: uint32, sender: uint32, address: Address)
      requires Valid()
      modifies this`channels
      ensures Valid()
      ensures var ch := old(At(id)); Becomes(id, ch.(peers := Upsert(ch.peers, sender, address)))
    {
      var ch := At(id);
      channels := channels[id := ch.(peers := Upsert(ch.peers, sender, address))];
    }

    method SetPeerIdentityAdmission(id: uint32, sender: uint32, address: Address, admission: IdentityAdmission)
      returns (ok: bool)
      requires Valid()
      modifies this`channels
      ensures Valid()
      ensures var attached := AttachAdmission(old(At(id)).peers, sender, address, Some(admission), None);
        ok == attached.Some? && Becomes(id, if ok then old(At(id)).(peers := attached.value) else old(At(id)))
    {
      if id !in channels || !Carries(channels[id].peers, sender, address) || channels[id].peers[address].service.Some? {
        return false;
      }
      var ch := channels[id];
      var peer := ch.peers[address].(identity := Some(admission));
      channels := channels[id := ch.(peers := ch.peers[address := peer])];
      ok := true;
    }

    /** The server's mutex is held while the admission state's is taken for the check. */
    method SetPeerServiceAdmission(admissions: ServiceAdmissionState, id: uint32, sender: uint32, address: Address,
                                   admission: Admission, now: Time)
      returns (ok: bool)
      requires Valid()
      modifies this`channels, admissions
      ensures Valid() && admissions.State() == Cleanup(old(admissions.State()), now)
      ensures var allowed :=
                admission.GrantCurrent(now) && !Cleanup(old(admissions.State()), now).Denied(id, admission);
        var attached := AttachAdmission(old(At(id)).peers, sender, address, None, Some(admission));
        && ok == (allowed && attached.Some?)
        && Becomes(id, if ok then old(At(id)).(peers := attached.value) else old(At(id)))
    {
      var allowed := admissions.AdmissionAllowedForMembership(id, admission, now);
      if !allowed || id !in channels || !Carries(channels[id].peers, sender, address)
         || channels[id].peers[address].identity.Some? {
        return false;
      }
      var ch := channels[id];
      var peer := ch.peers[address].(service := Some(admission));
      channels := channels[id := ch.(peers := ch.peers[address := peer])];
      ok := true;
    }

    method StartMembership(id: uint32, sender: uint32, address: Address, now: Time) returns (ok: bool)
      requires Valid()
      modifies this`channels
      ensures Valid()
      ensures var ch := old(At(id)); Becomes(id, ch.(peers := StartPeer(ch.peers, sender, address, now, config.lease)))
      ensures ok == Carries(old(At(id)).peers, sender, address)
    {
      if id !in channels || !Carries(channels[id].peers, sender, address) {
        return false;
      }
      var ch := channels[id];
      var peer := ch.peers[address].(lease := config.lease, deadline := now + config.lease);
      channels := channels[id := ch.(peers := ch.peers[address := peer])];
      ok := true;
    }

    method RefreshMembership(id: uint32, sender: uint32, address: Address, now: Time) returns (ok: bool)
      requires Valid()
      modifies this`channels
      ensures Valid()
      ensures var ch := old(At(id)); Becomes(id, ch.(peers := RefreshPeer(ch.peers, sender, address, now)))
      ensures ok <==> Carries(old(At(id)).peers, sender, address) && old(At(id)).peers[address].deadline > now
    {
      if id !in channels || !Carries(channels[id].peers, sender, address)
         || channels[id].peers[address].deadline == 0 || channels[id].peers[address].deadline <= now {
        return false;
      }
      var ch := channels[id];
      var peer := ch.peers[address];
      channels := channels[id := ch.(peers := ch.peers[address := peer.(deadline := now + peer.lease)])];
      ok := true;
    }

    method HandlePttOn(id: uint32, sender: uint32, now: Time) returns (grant: Grant)
      requires Valid() && sender != 0
      modifies this`channels
      ensures Valid()
      ensures grant == PttOnGrant(old(At(id)), sender, config.Limit())
      ensures Becomes(id, GrantFloor(old(At(id)), sender, now, grant).channel)
    {
      if id !in channels {
        return NoChannel;
      }
      var ch := channels[id];
      if sender in ch.talkers {
        return AlreadyTalking;
      }
      if |ch.talkers| < config.Limit() {
        channels := channels[id := ch.(talkers := ch.talkers[sender := now])];
        return TalkGranted;
      }
      grant := TalkDenied;
    }

    /** handlePttOff, and releaseTalkIfNeeded for a LEAVE. */
    method ReleaseTalk(id: uint32, sender: uint32) returns (released: bool)
      requires Valid()
      modifies this`channels
      ensures Valid()
      ensures var o := Release(old(At(id)), sender);
        Becomes(id, o.channel) && o.ended == if released then {sender} else {}
    {
      if id !in channels || sender !in channels[id].talkers {
        return false;
      }
      var ch := channels[id];
      channels := channels[id := ch.(talkers := ch.talkers - {sender})];
      released := true;
    }

    method RemovePeer(id: uint32, sender: uint32, address: Address) returns (ghost at: Option<Address>)
      requires Valid() && sender != 0
      modifies this`channels
      ensures Valid()
      ensures at.Some? ==> RemovesAt(old(At(id)).peers, sender, address, at.value)
      ensures at.None? ==> !HasPeer(old(At(id)).peers, sender)
      ensures Becomes(id, if at.Some? then RemovePeerAt(old(At(id)), at.value) else old(At(id)))
    {
      at := None;
      if id !in channels {
        return;
      }
      var ch := channels[id];
      if Carries(ch.peers, sender, address) {
        at := Some(address);
        Store(id, RemovePeerAt(ch, address));
        return;
      }
      var todo := ch.peers.Keys;
      while todo != {}
        invariant todo <= ch.peers.Keys && channels == old(channels)
        invariant forall a :: a in ch.peers.Keys - todo ==> ch.peers[a].sender != sender
      {
        var key :| key in todo;
        todo := todo - {key};
        if ch.peers[key].sender == sender {
          at := Some(key);
          Store(id, RemovePeerAt(ch, key));
          return;
        }
      }
    }

    /** Peers are visited in any order; the first one holding a current admission decides. */
    method ActiveTalkerPriority(ch: Channel, sender: uint32, now: Time) returns (n: uint8)
      ensures PriorityOf(ch.peers, sender, now, n)
    {
      var todo := ch.peers.Keys;
      while todo != {}
        invariant todo <= ch.peers.Keys
        invariant forall a :: a in ch.peers.Keys - todo && ch.peers[a].sender == sender ==>
          CurrentPriority(ch.peers[a], now).None?
      {
        var key :| key in todo;
        todo := todo - {key};
        var peer := ch.peers[key];
        if peer.sender == sender {
          if peer.identity.Some? && peer.identity.value.expiresAt > now {
            return peer.identity.value.priority;
          }
          if peer.service.Some? && peer.service.value.MembershipCurrent(now) {
            return peer.service.value.priority;
          }
        }
      }
      n := 0;
    }

    /** The selection loop of handlePttRequest; 0 stands for no victim. */
    method SelectVictim(ch: Channel, now: Time)
      returns (victim: uint32, priority: uint8, ghost prio: map<uint32, uint8>)
      requires 0 !in ch.talkers
      ensures Prioritised(ch.peers, ch.talkers, now, prio)
      ensures victim == 0 <==> ch.talkers == map[]
      ensures victim != 0 ==> IsVictim(prio, victim) && priority == prio[victim]
    {
      victim, priority, prio := 0, 0xff, map[];
      var todo := ch.talkers.Keys;
      while todo != {}
        invariant todo <= ch.talkers.Keys && prio.Keys == ch.talkers.Keys - todo
        invariant forall s :: s in prio ==> PriorityOf(ch.peers, s, now, prio[s])
        invariant victim == 0 <==> prio == map[]
        invariant victim != 0 ==> IsVictim(prio, victim) && priority == prio[victim]
      {
        var s :| s in todo;
        todo := todo - {s};
        var p := ActiveTalkerPriority(ch, s, now);
        prio := prio[s := p];
        if victim == 0 || p < priority || (p == priority && s < victim) {
          victim, priority := s, p;
        }
      }
    }

    /** The decision of handlePttRequest for an existing channel. */
    method DecideRequest(ch: Channel, sender: uint32, address: Address, now: Time)
      returns (grant: Grant, ghost prio: map<uint32, uint8>)
      requires 0 !in ch.talkers
      ensures RequestGrant(ch, config, sender, address, now, prio, grant)
      ensures grant.Unauthorized? <==> !Authorized(ch, config, sender, address, now)
      ensures grant.TalkGranted? ==> sender !in ch.talkers && |ch.talkers| < config.Limit()
      ensures grant.Preempted? ==> grant.victim in ch.talkers && sender !in ch.talkers && |ch.talkers| >= config.Limit()
    {
      prio := map[];
      if !config.floorInterrupt || !config.identityRequired || !config.authRequired
         || !Carries(ch.peers, sender, address)
      {
        return Unauthorized, prio;
      }
      var requester := ch.peers[address];
      if requester.deadline == 0 || requester.deadline <= now || !AllowsInterrupt(requester, now) {
        return Unauthorized, prio;
      }
      if sender in ch.talkers {
        return AlreadyTalking, prio;
      }
      if |ch.talkers| < config.Limit() {
        return TalkGranted, prio;
      }
      var victim, priority;
      victim, priority, prio := SelectVictim(ch, now);
      var own :=
        if requester.identity.Some? then requester.identity.value.priority else requester.service.value.priority;
      if victim == 0 || own <= priority {
        return TalkDenied, prio;
      }
      grant := Preempted(victim);
    }

    method HandlePttRequest(id: uint32, sender: uint32, address: Address, now: Time)
      returns (grant: Grant, ghost prio: map<uint32, uint8>)
      requires Valid() && sender != 0
      modifies this`channels
      ensures Valid()
      ensures RequestGrant(old(At(id)), config, sender, address, now, prio, grant)
      ensures Becomes(id, GrantFloor(old(At(id)), sender, now, grant).channel)
    {
      var ch := At(id);
      grant, prio := DecideRequest(ch, sender, address, now);
      var after := GrantFloor(ch, sender, now, grant).channel;
      Store(id, after);
    }
  }
}
