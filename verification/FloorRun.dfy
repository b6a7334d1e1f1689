/**
  Floor control over whole runs, for one channel (main.go, management.go). A `Section` is
  one critical section under the server's lock. The packet handler, the cleanup and the
  revocations interleave section by section. `Guard` says exactly when a section keeps
  every talker's membership; packets that are not interrupted between their sections meet
  it as long as no endpoint JOINs again under another sender ID.
 */
module FloorRun {
  import opened Common
  import opened ServiceAdmission
  import opened Membership
  import opened Floor

  datatype Section =
    | ExpireMembers(now: Time)
    | JoinAs(sender: uint32, address: Address)
    | AttachTo(sender: uint32, address: Address, identity: Option<IdentityAdmission>, service: Option<Admission>)
    | StartLease(sender: uint32, address: Address, now: Time)
    | RefreshLease(sender: uint32, address: Address, now: Time)
    | ExpireTalkers(now: Time)
    | TakeFloor(sender: uint32, now: Time)
    | RequestFloor(sender: uint32, address: Address, now: Time, prio: map<uint32, uint8>, grant: Grant)
    | ReleaseFloor(sender: uint32)
    | Depart(sender: uint32, address: Address, at: Address)
    | SweepChannel(now: Time)
    | Evict(target: Target)

  ghost predicate Enabled(ch: Channel, config: Config, s: Section) {
    match s
    case JoinAs(sender, _) => sender != 0
    case TakeFloor(sender, _) => sender != 0
    case RequestFloor(sender, address, now, prio, grant) =>
      sender != 0 && RequestGrant(ch, config, sender, address, now, prio, grant)
    case Depart(sender, address, at) => RemovesAt(ch.peers, sender, address, at)
    case _ => true
  }

  function Attached(peers: Peers, sender: uint32, address: Address,
                    identity: Option<IdentityAdmission>, service: Option<Admission>): Peers {
    match AttachAdmission(peers, sender, address, identity, service)
    case None => peers
    case Some(after) => after
  }

  ghost function Effect(ch: Channel, config: Config, s: Section): Outcome
    requires Enabled(ch, config, s)
  {
    match s
    case ExpireMembers(now) => RemoveMembers(ch, ExpiredAt(ch.peers, now))
    case JoinAs(sender, address) => Outcome(ch.(peers := Upsert(ch.peers, sender, address)), {}, {})
    case AttachTo(sender, address, identity, service) =>
      Outcome(ch.(peers := Attached(ch.peers, sender, address, identity, service)), {}, {})
    case StartLease(sender, address, now) =>
      Outcome(ch.(peers := StartPeer(ch.peers, sender, address, now, config.lease)), {}, {})
    case RefreshLease(sender, address, now) =>
      Outcome(ch.(peers := RefreshPeer(ch.peers, sender, address, now)), {}, {})
    case ExpireTalkers(now) => ExpireTalk(ch, now, config.talkMax)
    case TakeFloor(sender, now) => GrantFloor(ch, sender, now, PttOnGrant(ch, sender, config.Limit()))
    case RequestFloor(sender, _, now, _, grant) => GrantFloor(ch, sender, now, grant)
    case ReleaseFloor(sender) => Release(ch, sender)
    case Depart(_, _, at) => Outcome(RemovePeerAt(ch, at), {}, {})
    case SweepChannel(now) => Sweep(ch, now, config.talkMax)
    case Evict(target) => RemoveMembers(ch, RevokedBy(ch.peers, target))
  }

  /** The channel after the section; it is gone if it has no peers. */
  ghost function Next(ch: Channel, config: Config, s: Section): Channel
    requires Enabled(ch, config, s)
  {
    Kept(Effect(ch, config, s).channel)
  }

  // What a single section keeps.

  ghost predicate Owned(ch: Channel) {
    forall s :: s in ch.talkers ==> HasPeer(ch.peers, s)
  }

  ghost predicate Bounded(ch: Channel, config: Config) {
    |ch.talkers| <= config.Limit() && 0 !in ch.talkers && (ch.peers == map[] ==> ch.talkers == map[])
  }

  /** Talks start only if not going on, end only if going on, and none is dropped in silence. */
  ghost predicate Conserves(ch: Channel, o: Outcome) {
    && o.ended <= ch.talkers.Keys && o.started !! ch.talkers.Keys
    && Kept(o.channel).talkers.Keys == ch.talkers.Keys - o.ended + o.started
  }

  /** The section left every talker a peer, and told of every talk it started or ended. */
  ghost predicate Sound(ch: Channel, o: Outcome) {
    Owned(Kept(o.channel)) && Conserves(ch, o)
  }

  /**
    A JOIN must not take the last peer of a talker, a PTT_ON grant must find a peer of its
    sender, and a departure must not remove the last peer of a talker.
   */
  ghost predicate Guard(ch: Channel, config: Config, s: Section) {
    match s
    case JoinAs(sender, address) =>
      address in ch.peers && ch.peers[address].sender != sender && ch.peers[address].sender in ch.talkers ==>
        HasPeer(ch.peers - {address}, ch.peers[address].sender)
    case TakeFloor(sender, _) => PttOnGrant(ch, sender, config.Limit()).TalkGranted? ==> HasPeer(ch.peers, sender)
    case Depart(sender, _, at) => sender in ch.talkers ==> HasPeer(ch.peers - {at}, sender)
    case _ => true
  }

  lemma FewerTalkers(before: map<uint32, Time>, after: map<uint32, Time>)
    requires after.Keys <= before.Keys
    ensures |after| <= |before|
  {
    MapSize(after, before.Keys);
    assert |before| == |before.Keys|;
  }

  /** With no peer left there is nobody to talk. */
  lemma OwnedBounded(ch: Channel)
    requires Owned(ch)
    ensures ch.peers == map[] ==> ch.talkers == map[]
    ensures Kept(ch) == ch
  {
    if ch.peers == map[] {
      assert forall s :: !HasPeer(ch.peers, s);
      assert ch.talkers == map[];
    }
  }

  lemma ReplacedCount(talkers: map<uint32, Time>, victim: uint32, sender: uint32, now: Time)
    requires victim in talkers
    ensures |(talkers - {victim})[sender := now]| <= |talkers|
    ensures sender !in talkers ==> |(talkers - {victim})[sender := now]| == |talkers|
  {
    var rest := talkers - {victim};
    assert rest.Keys == talkers.Keys - {victim} && |rest.Keys| == |rest|;
    assert |talkers.Keys| == |talkers|;
    assert rest[sender := now].Keys == rest.Keys + {sender} && |rest[sender := now]| == |rest[sender := now].Keys|;
  }

  lemma GrantBounded(ch: Channel, config: Config, sender: uint32, now: Time, grant: Grant)
    requires Bounded(ch, config) && sender != 0 && ch.peers != map[]
    requires grant.TalkGranted? ==> sender !in ch.talkers && |ch.talkers| < config.Limit()
    requires grant.Preempted? ==> grant.victim in ch.talkers
    ensures Bounded(GrantFloor(ch, sender, now, grant).channel, config)
  {
    match grant
    case TalkGranted =>
    case Preempted(victim) => ReplacedCount(ch.talkers, victim, sender, now);
    case _ =>
  }

  /** In any interleaving of sections, guarded or not, the talkers stay within the limit. */
  lemma SectionBounded(ch: Channel, config: Config, s: Section)
    requires Bounded(ch, config) && Enabled(ch, config, s)
    ensures Bounded(Next(ch, config, s), config)
  {
    match s
    case TakeFloor(sender, now) =>
      if ch.peers != map[] {
        GrantBounded(ch, config, sender, now, PttOnGrant(ch, sender, config.Limit()));
      }
    case RequestFloor(sender, _, now, _, grant) =>
      if ch.peers != map[] {
        GrantBounded(ch, config, sender, now, grant);
      }
    case _ =>
      FewerTalkers(ch.talkers, Next(ch, config, s).talkers);
  }

  lemma RemovalKeeps(ch: Channel, gone: set<Address>)
    requires Owned(ch)
    ensures Sound(ch, RemoveMembers(ch, gone)) && Owned(RemoveMembers(ch, gone).channel)
  {
    var o := RemoveMembers(ch, gone);
    forall s | s in o.channel.talkers ensures HasPeer(o.channel.peers, s) {
      var a :| a in ch.peers && ch.peers[a].sender == s;
      assert a !in gone;
      assert o.channel.peers[a].sender == s;
    }
    OwnedBounded(o.channel);
  }

  lemma TalkExpiryKeeps(ch: Channel, now: Time, talkMax: Time)
    requires Owned(ch)
    ensures Sound(ch, ExpireTalk(ch, now, talkMax)) && Owned(ExpireTalk(ch, now, talkMax).channel)
  {
    OwnedBounded(ch);
  }

  lemma SweepKeeps(ch: Channel, now: Time, talkMax: Time)
    requires Owned(ch)
    ensures Sound(ch, Sweep(ch, now, talkMax))
  {
    var members := RemoveMembers(ch, ExpiredAt(ch.peers, now));
    RemovalKeeps(ch, ExpiredAt(ch.peers, now));
    TalkExpiryKeeps(members.channel, now, talkMax);
    OwnedBounded(members.channel);
    OwnedBounded(Sweep(ch, now, talkMax).channel);
  }

  /** A change that only touches leases and admissions leaves every sender its peers. */
  lemma SameSendersKeep(ch: Channel, peers: Peers)
    requires Owned(ch) && peers.Keys == ch.peers.Keys
    requires forall a :: a in peers ==> peers[a].sender == ch.peers[a].sender
    ensures var o := Outcome(ch.(peers := peers), {}, {}); Sound(ch, o)
  {
    forall s | s in ch.talkers ensures HasPeer(peers, s) {
      var a :| a in ch.peers && ch.peers[a].sender == s;
      assert a in peers && peers[a].sender == s;
    }
    OwnedBounded(ch.(peers := peers));
  }

  lemma JoinExact(ch: Channel, config: Config, sender: uint32, address: Address)
    requires Owned(ch)
    ensures var o := Outcome(ch.(peers := Upsert(ch.peers, sender, address)), {}, {});
      Sound(ch, o) <==> Guard(ch, config, JoinAs(sender, address))
  {
    var after := ch.(peers := Upsert(ch.peers, sender, address));
    assert address in after.peers;
    if Guard(ch, config, JoinAs(sender, address)) {
      forall s | s in ch.talkers ensures HasPeer(after.peers, s) {
        var a :| a in ch.peers && ch.peers[a].sender == s;
        if a != address || sender == s {
          assert a in after.peers && after.peers[a].sender == s;
        } else {
          var b :| b in ch.peers - {address} && ch.peers[b].sender == s;
          assert b in after.peers && after.peers[b].sender == s;
        }
      }
    } else {
      var s := ch.peers[address].sender;
      var others := ch.peers - {address};
      assert forall a :: a in others ==> others[a].sender != s;
      assert forall a :: a in after.peers ==> a == address || a in others;
    }
  }

  lemma DepartExact(ch: Channel, sender: uint32, at: Address)
    requires Owned(ch) && at in ch.peers && ch.peers[at].sender == sender
    ensures var o := Outcome(RemovePeerAt(ch, at), {}, {});
      (sender in ch.talkers ==> HasPeer(ch.peers - {at}, sender)) <==> Sound(ch, o)
  {
    var after := RemovePeerAt(ch, at);
    if sender in ch.talkers ==> HasPeer(ch.peers - {at}, sender) {
      forall s | s in ch.talkers ensures HasPeer(after.peers, s) {
        if s != sender {
          var a :| a in ch.peers && ch.peers[a].sender == s;
          assert a in after.peers && after.peers[a].sender == s;
        }
      }
      OwnedBounded(after);
    }
  }

  lemma GrantExact(ch: Channel, sender: uint32, now: Time)
    requires Owned(ch) && ch.peers != map[] && sender !in ch.talkers
    ensures var o := GrantFloor(ch, sender, now, TalkGranted);
      Conserves(ch, o) && (HasPeer(ch.peers, sender) <==> Owned(o.channel))
  {
    var o := GrantFloor(ch, sender, now, TalkGranted);
    assert o.channel.talkers.Keys == ch.talkers.Keys + {sender};
    if !HasPeer(ch.peers, sender) {
      assert sender in o.channel.talkers && !HasPeer(o.channel.peers, sender);
    }
  }

  lemma NothingKeeps(ch: Channel)
    requires Owned(ch)
    ensures Sound(ch, Outcome(ch, {}, {}))
  {
    OwnedBounded(ch);
  }

  lemma TakeExact(ch: Channel, sender: uint32, now: Time, limit: nat)
    requires Owned(ch)
    ensures var grant := PttOnGrant(ch, sender, limit);
      var o := GrantFloor(ch, sender, now, grant);
      (grant.TalkGranted? ==> HasPeer(ch.peers, sender)) <==> Sound(ch, o)
  {
    if PttOnGrant(ch, sender, limit).TalkGranted? {
      GrantExact(ch, sender, now);
    } else {
      OwnedBounded(ch);
      NothingKeeps(ch);
    }
  }

  lemma ReleaseKeeps(ch: Channel, sender: uint32)
    requires Owned(ch)
    ensures Sound(ch, Release(ch, sender))
  {
    OwnedBounded(ch);
  }

  lemma RequestKeeps(ch: Channel, config: Config, sender: uint32, address: Address, now: Time,
                     prio: map<uint32, uint8>, grant: Grant)
    requires Owned(ch) && RequestGrant(ch, config, sender, address, now, prio, grant)
    ensures Sound(ch, GrantFloor(ch, sender, now, grant))
  {
    OwnedBounded(ch);
    if grant.TalkGranted? || grant.Preempted? {
      assert HasPeer(ch.peers, sender);
    }
  }

  /** The guard is exact: precisely the guarded sections keep the owners and conserve the talks. */
  lemma SectionExact(ch: Channel, config: Config, s: Section)
    requires Owned(ch) && Enabled(ch, config, s)
    ensures Sound(ch, Effect(ch, config, s)) <==> Guard(ch, config, s)
  {
    match s
    case ExpireMembers(now) => RemovalKeeps(ch, ExpiredAt(ch.peers, now));
    case JoinAs(sender, address) => JoinExact(ch, config, sender, address);
    case AttachTo(_, _, _, _) => SameSendersKeep(ch, Effect(ch, config, s).channel.peers);
    case StartLease(sender, address, now) =>
      SameSendersKeep(ch, StartPeer(ch.peers, sender, address, now, config.lease));
    case RefreshLease(sender, address, now) => SameSendersKeep(ch, RefreshPeer(ch.peers, sender, address, now));
    case ExpireTalkers(now) => TalkExpiryKeeps(ch, now, config.talkMax);
    case TakeFloor(sender, now) => TakeExact(ch, sender, now, config.Limit());
    case RequestFloor(sender, address, now, prio, grant) => RequestKeeps(ch, config, sender, address, now, prio, grant);
    case ReleaseFloor(sender) => ReleaseKeeps(ch, sender);
    case Depart(sender, _, at) => DepartExact(ch, sender, at);
    case SweepChannel(now) => SweepKeeps(ch, now, config.talkMax);
    case Evict(target) => RemovalKeeps(ch, RevokedBy(ch.peers, target));
  }

  /** What an eviction leaves is what the revocation spares. */
  lemma EvictionAgrees(ch: Channel, target: Target)
    ensures RemoveMembers(ch, RevokedBy(ch.peers, target)).channel.peers == Unrevoked(ch.peers, target)
  {
    assert forall a :: a in ch.peers ==> (a in RevokedBy(ch.peers, target) <==> Revoked(ch.peers[a], target));
  }

  /**
    A membership whose deadline has passed is never extended: until it is removed, no
    section but the start of a new one for its endpoint changes the deadline.
   */
  lemma EndedStaysEnded(ch: Channel, config: Config, s: Section, address: Address, now: Time)
    requires Enabled(ch, config, s) && address in ch.peers && 0 < ch.peers[address].deadline <= now
    requires !(s.StartLease? && s.address == address) && (s.RefreshLease? ==> now <= s.now)
    ensures address in Next(ch, config, s).peers ==>
      Next(ch, config, s).peers[address].deadline == ch.peers[address].deadline
  {
    match s
    case JoinAs(_, _) =>
    case RefreshLease(_, _, _) =>
    case SweepChannel(at) =>
      assert address in Effect(ch, config, s).channel.peers ==>
          Effect(ch, config, s).channel.peers[address] == ch.peers[address];
    case _ =>
  }

  /** A lease started or extended at `now` lasts exactly its length, as far as the admissions last. */
  lemma LeaseLasts(ch: Channel, config: Config, s: Section, sender: uint32, address: Address, now: Time, later: Time)
    requires Carries(ch.peers, sender, address)
    requires s == StartLease(sender, address, now)
             || (s == RefreshLease(sender, address, now) && ch.peers[address].deadline > now)
    ensures var p := ch.peers[address];
      var lease := if s.StartLease? then config.lease else p.lease;
      var next := Next(ch, config, s);
      && Carries(next.peers, sender, address)
      && (now + lease > 0 ==>
            (address in Next(next, config, ExpireMembers(later)).peers <==>
               && later < now + lease
               && (p.identity.Some? ==> later < p.identity.value.expiresAt)
               && (p.service.Some? ==> later < p.service.value.ExpiryDeadline())))
  {
    var next := Next(ch, config, s);
    assert address in next.peers;
    var gone := ExpiredAt(next.peers, later);
    assert address in next.peers - gone <==> Expired(next.peers[address], later).None?;
  }

  /** After a sweep no membership is over and no talk is late. */
  lemma SweepClears(ch: Channel, config: Config, now: Time)
    ensures var next := Next(ch, config, SweepChannel(now));
      && (forall a :: a in next.peers ==>
            a in ch.peers && next.peers[a] == ch.peers[a] && Expired(next.peers[a], now).None?)
      && (forall a :: a in ch.peers && Expired(ch.peers[a], now).None? ==> a in next.peers)
      && (config.talkMax > 0 ==> forall s :: s in next.talkers ==> now - next.talkers[s] < config.talkMax)
  {
    var members := RemoveMembers(ch, ExpiredAt(ch.peers, now)).channel;
    assert forall a :: a in members.peers <==> a in ch.peers && Expired(ch.peers[a], now).None?;
    assert Sweep(ch, now, config.talkMax).channel.peers == members.peers;
  }

  // Runs of sections.

  ghost predicate IsRun(ch: Channel, config: Config, run: seq<Section>)
    decreases run
  {
    run == [] || (Enabled(ch, config, run[0]) && IsRun(Next(ch, config, run[0]), config, run[1..]))
  }

  ghost function After(ch: Channel, config: Config, run: seq<Section>): Channel
    requires IsRun(ch, config, run)
    decreases run
  {
    if run == [] then ch else After(Next(ch, config, run[0]), config, run[1..])
  }

  /** Every section of the run meets its guard. */
  ghost predicate Guarded(ch: Channel, config: Config, run: seq<Section>)
    requires IsRun(ch, config, run)
    decreases run
  {
    run == [] || (Guard(ch, config, run[0]) && Guarded(Next(ch, config, run[0]), config, run[1..]))
  }

  function Told(o: Outcome, sender: uint32): seq<bool> {
    (if sender in o.ended then [false] else []) + (if sender in o.started then [true] else [])
  }

  /** The talk_started (true) and talk_ended (false) events of one sender. */
  ghost function Events(ch: Channel, config: Config, run: seq<Section>, sender: uint32): seq<bool>
    requires IsRun(ch, config, run)
    decreases run
  {
    if run == [] then [] else
    Told(Effect(ch, config, run[0]), sender) + Events(Next(ch, config, run[0]), config, run[1..], sender)
  }

  /** Whatever the interleaving, the talkers stay within the limit. */
  lemma {:induction false} RunBounded(ch: Channel, config: Config, run: seq<Section>)
    requires Bounded(ch, config) && IsRun(ch, config, run)
    ensures Bounded(After(ch, config, run), config)
    decreases run
  {
    if run != [] {
      SectionBounded(ch, config, run[0]);
      RunBounded(Next(ch, config, run[0]), config, run[1..]);
    }
  }

  lemma {:induction false} RunOwned(ch: Channel, config: Config, run: seq<Section>)
    requires Owned(ch) && IsRun(ch, config, run) && Guarded(ch, config, run)
    ensures Owned(After(ch, config, run))
    decreases run
  {
    if run != [] {
      SectionExact(ch, config, run[0]);
      RunOwned(Next(ch, config, run[0]), config, run[1..]);
    }
  }

  ghost predicate Alternates(events: seq<bool>, talking: bool) {
    && (events != [] ==> events[0] != talking)
    && forall i :: 0 < i < |events| ==> events[i] != events[i - 1]
  }

  predicate Consistent(events: seq<bool>, before: bool, after: bool) {
    after == if events == [] then before else events[|events| - 1]
  }

  /** One section tells at most one event of a sender, and only a change. */
  lemma ToldOnce(ch: Channel, o: Outcome, sender: uint32)
    requires Conserves(ch, o)
    ensures var told, before, after := Told(o, sender), sender in ch.talkers, sender in Kept(o.channel).talkers;
      |told| <= 1 && Alternates(told, before) && Consistent(told, before, after)
  {
    assert sender in o.channel.talkers <==> sender in o.channel.talkers.Keys;
    assert sender in Kept(o.channel).talkers <==> sender in Kept(o.channel).talkers.Keys;
    assert sender in ch.talkers <==> sender in ch.talkers.Keys;
  }

  lemma AlternatesAppend(first: seq<bool>, rest: seq<bool>, before: bool, middle: bool, after: bool)
    requires Alternates(first, before) && Consistent(first, before, middle)
    requires Alternates(rest, middle) && Consistent(rest, middle, after)
    ensures Alternates(first + rest, before) && Consistent(first + rest, before, after)
  {
  }

  /** A sender's events alternate, and the last one tells whether the sender talks. */
  lemma {:induction false} EventsAlternate(ch: Channel, config: Config, run: seq<Section>, sender: uint32)
    requires Owned(ch) && IsRun(ch, config, run) && Guarded(ch, config, run)
    ensures Alternates(Events(ch, config, run, sender), sender in ch.talkers)
    ensures Consistent(Events(ch, config, run, sender), sender in ch.talkers, sender in After(ch, config, run).talkers)
    decreases run
  {
    if run != [] {
      var o, next := Effect(ch, config, run[0]), Next(ch, config, run[0]);
      SectionExact(ch, config, run[0]);
      ToldOnce(ch, o, sender);
      EventsAlternate(next, config, run[1..], sender);
      AlternatesAppend(Told(o, sender), Events(next, config, run[1..], sender),
                       sender in ch.talkers, sender in next.talkers, sender in After(ch, config, run).talkers);
    }
  }

  lemma {:induction false} EventsAppend(ch: Channel, config: Config, a: seq<Section>, b: seq<Section>,
                                        sender: uint32)
    requires IsRun(ch, config, a) && IsRun(After(ch, config, a), config, b) && IsRun(ch, config, a + b)
    ensures Events(ch, config, a + b, sender)
         == Events(ch, config, a, sender) + Events(After(ch, config, a), config, b, sender)
    decreases a
  {
    if a == [] {
      assert a + b == b;
    } else {
      var next := Next(ch, config, a[0]);
      assert (a + b)[0] == a[0] && (a + b)[1..] == a[1..] + b;
      EventsAppend(next, config, a[1..], b, sender);
      Concat(Told(Effect(ch, config, a[0]), sender), Events(next, config, a[1..], sender),
             Events(After(next, config, a[1..]), config, b, sender));
    }
  }

  lemma Concat<T>(x: seq<T>, y: seq<T>, z: seq<T>)
    ensures x + (y + z) == x + y + z
  {
  }

  lemma {:induction false} RunAppend(ch: Channel, config: Config, a: seq<Section>, b: seq<Section>)
    requires IsRun(ch, config, a) && IsRun(After(ch, config, a), config, b)
    ensures IsRun(ch, config, a + b) && After(ch, config, a + b) == After(After(ch, config, a), config, b)
    decreases a
  {
    if a == [] {
      assert a + b == b;
    } else {
      assert (a + b)[0] == a[0] && (a + b)[1..] == a[1..] + b;
      RunAppend(Next(ch, config, a[0]), config, a[1..], b);
    }
  }

  lemma {:induction false} GuardedAppend(ch: Channel, config: Config, a: seq<Section>, b: seq<Section>)
    requires IsRun(ch, config, a) && IsRun(After(ch, config, a), config, b) && IsRun(ch, config, a + b)
    ensures Guarded(ch, config, a + b) <==> Guarded(ch, config, a) && Guarded(After(ch, config, a), config, b)
    decreases a
  {
    if a == [] {
      assert a + b == b;
    } else {
      assert (a + b)[0] == a[0] && (a + b)[1..] == a[1..] + b;
      GuardedAppend(Next(ch, config, a[0]), config, a[1..], b);
    }
  }
}
