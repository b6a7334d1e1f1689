/**
  Floor Interrupt (handlePttRequest and its priority helpers in main.go): whom a request
  preempts, and why preemptions cannot go on for ever.
 */
module FloorPriority {
  import opened Common
  import opened ServiceAdmission
  import opened Membership
  import opened Floor
  import opened FloorRun

  // The victim.

  lemma VictimUnique(prio: map<uint32, uint8>, v: uint32, w: uint32)
    requires IsVictim(prio, v) && IsVictim(prio, w)
    ensures v == w
  {
    assert v != w ==> Before(prio[v], v, prio[w], w);
  }

  lemma {:induction false} VictimExists(prio: map<uint32, uint8>) returns (v: uint32)
    requires prio != map[]
    ensures IsVictim(prio, v)
    decreases |prio.Keys|
  {
    v :| v in prio;
    var rest := prio - {v};
    assert forall s :: s in prio && s != v ==> s in rest;
    if rest != map[] {
      assert rest.Keys == prio.Keys - {v};
      var w := VictimExists(rest);
      forall s | s in prio && s != v && s != w ensures Before(prio[w], w, prio[s], s) {
        assert s in rest && Before(rest[w], w, rest[s], s);
      }
      if Before(prio[w], w, prio[v], v) {
        v := w;
      }
    }
  }

  /** A request the floor has no room for, from an authorized sender who is not talking. */
  ghost predicate Contested(ch: Channel, config: Config, sender: uint32, address: Address, now: Time) {
    Authorized(ch, config, sender, address, now) && sender !in ch.talkers && |ch.talkers| >= config.Limit()
  }

  /** Preemption happens exactly when some talker's priority is strictly lower; the least (priority, sender ID) goes. */
  lemma PreemptsExactly(ch: Channel, config: Config, sender: uint32, address: Address, now: Time,
                        prio: map<uint32, uint8>, grant: Grant)
    requires RequestGrant(ch, config, sender, address, now, prio, grant)
    requires Contested(ch, config, sender, address, now)
    ensures var own := CurrentPriority(ch.peers[address], now);
      own.Some? && (grant.Preempted? <==> exists s :: s in ch.talkers && prio[s] < own.value)
    ensures grant.Preempted? ==>
      && grant.victim in ch.talkers
      && (forall s :: s in ch.talkers && s != grant.victim ==>
            prio[grant.victim] < prio[s] || (prio[grant.victim] == prio[s] && grant.victim < s))
      && |GrantFloor(ch, sender, now, grant).channel.talkers| == |ch.talkers|
    ensures !grant.Preempted? ==> GrantFloor(ch, sender, now, grant).channel == ch
  {
    assert |prio| == |prio.Keys| == |ch.talkers.Keys| == |ch.talkers|;
    var v := VictimExists(prio);
    if grant.Preempted? {
      VictimUnique(prio, v, grant.victim);
      assert v in ch.talkers;
      ReplacedCount(ch.talkers, v, sender, now);
    }
  }

  // Iteration order.

  ghost predicate UniqueSenders(peers: Peers) {
    forall a, b :: a in peers && b in peers && peers[a].sender == peers[b].sender ==> a == b
  }

  lemma PriorityUnique(peers: Peers, sender: uint32, now: Time, n: uint8, k: uint8)
    requires UniqueSenders(peers) && PriorityOf(peers, sender, now, n) && PriorityOf(peers, sender, now, k)
    ensures n == k
  {
  }

  /** With unique senders the order in which the maps are visited decides nothing. */
  lemma OrderDecidesNothing(ch: Channel, config: Config, sender: uint32, address: Address, now: Time,
                            prio: map<uint32, uint8>, grant: Grant, prio': map<uint32, uint8>, grant': Grant)
    requires UniqueSenders(ch.peers)
    requires RequestGrant(ch, config, sender, address, now, prio, grant)
    requires RequestGrant(ch, config, sender, address, now, prio', grant')
    ensures grant == grant'
  {
    if Contested(ch, config, sender, address, now) {
      forall s | s in ch.talkers ensures prio[s] == prio'[s] {
        PriorityUnique(ch.peers, s, now, prio[s], prio'[s]);
      }
      assert prio == prio';
      PreemptsExactly(ch, config, sender, address, now, prio, grant);
      PreemptsExactly(ch, config, sender, address, now, prio', grant');
      if grant.Preempted? {
        VictimUnique(prio, grant.victim, grant'.victim);
      }
    }
  }

  // Chains of preemptions.

  /** The same admissions, held by the same senders. */
  ghost predicate Unchanged(before: Peers, t0: Time, peers: Peers, now: Time) {
    && before.Keys == peers.Keys
    && forall a :: a in peers ==>
      && peers[a].sender == before[a].sender && CurrentPriority(peers[a], now) == CurrentPriority(before[a], t0)
      && AllowsInterrupt(peers[a], now) == AllowsInterrupt(before[a], t0)
  }

  /** `n` is the priority with which an endpoint of `sender` may ask for the floor. */
  ghost predicate BidOf(peers: Peers, sender: uint32, now: Time, n: uint8) {
    exists a :: a in peers && peers[a].sender == sender
                && AllowsInterrupt(peers[a], now) && CurrentPriority(peers[a], now) == Some(n)
  }

  /** Some endpoint of `s` outbids a priority that `t` may be found at. */
  ghost predicate Outbids(peers: Peers, now: Time, s: uint32, t: uint32) {
    exists m, n :: BidOf(peers, s, now, m) && PriorityOf(peers, t, now, n) && n < m
  }

  /** No two senders can take the floor from each other. */
  ghost predicate NoRivals(peers: Peers, now: Time) {
    forall s, t :: s != t && Outbids(peers, now, s, t) ==> !Outbids(peers, now, t, s)
  }

  /** In particular with unique senders. */
  lemma UniqueNoRivals(peers: Peers, now: Time)
    requires UniqueSenders(peers)
    ensures NoRivals(peers, now)
  {
    forall s, t | s != t && Outbids(peers, now, s, t) ensures !Outbids(peers, now, t, s) {
      var m, n :| BidOf(peers, s, now, m) && PriorityOf(peers, t, now, n) && n < m;
      forall m', n' | BidOf(peers, t, now, m') && PriorityOf(peers, s, now, n') ensures m' <= n' {
        assert PriorityOf(peers, t, now, m') && PriorityOf(peers, s, now, m);
        PriorityUnique(peers, t, now, m', n);
        PriorityUnique(peers, s, now, n', m);
      }
    }
  }

  // The standing of a sender: the least priority it may be found at and its best bid.

  ghost predicate IsLeast(peers: Peers, sender: uint32, now: Time, least: uint8) {
    PriorityOf(peers, sender, now, least) && forall k: uint8 :: PriorityOf(peers, sender, now, k) ==> least <= k
  }

  /** 0 if the sender cannot bid. */
  ghost predicate IsBest(peers: Peers, sender: uint32, now: Time, best: uint8) {
    && (forall k: uint8 :: BidOf(peers, sender, now, k) ==> k <= best)
    && (best == 0 || BidOf(peers, sender, now, best))
  }

  lemma {:induction false} LeastFound(peers: Peers, sender: uint32, now: Time, n: uint8) returns (least: uint8)
    requires PriorityOf(peers, sender, now, n)
    ensures IsLeast(peers, sender, now, least)
    decreases n
  {
    if k: uint8 :| PriorityOf(peers, sender, now, k) && k < n {
      least := LeastFound(peers, sender, now, k);
    } else {
      least := n;
    }
  }

  lemma {:induction false} BestBid(peers: Peers, sender: uint32, now: Time, n: uint8) returns (best: uint8)
    requires BidOf(peers, sender, now, n)
    ensures IsBest(peers, sender, now, best)
    decreases 0x100 - n
  {
    if k: uint8 :| BidOf(peers, sender, now, k) && n < k {
      best := BestBid(peers, sender, now, k);
    } else {
      best := n;
    }
  }

  lemma SomeFound(peers: Peers, sender: uint32, now: Time) returns (n: uint8)
    ensures PriorityOf(peers, sender, now, n)
  {
    n := 0;
    if a :| a in peers && peers[a].sender == sender && CurrentPriority(peers[a], now).Some? {
      n := CurrentPriority(peers[a], now).value;
    }
  }

  lemma StandingExists(peers: Peers, sender: uint32, now: Time)
    ensures exists least :: IsLeast(peers, sender, now, least)
    ensures exists best :: IsBest(peers, sender, now, best)
  {
    var n := SomeFound(peers, sender, now);
    var least := LeastFound(peers, sender, now, n);
    if m: uint8 :| BidOf(peers, sender, now, m) {
      var best := BestBid(peers, sender, now, m);
    } else {
      assert IsBest(peers, sender, now, 0);
    }
  }

  ghost function Least(peers: Peers, sender: uint32, now: Time): (n: uint8)
    ensures IsLeast(peers, sender, now, n)
  {
    StandingExists(peers, sender, now);
    var least :| IsLeast(peers, sender, now, least);
    least
  }

  ghost function Best(peers: Peers, sender: uint32, now: Time): (n: uint8)
    ensures IsBest(peers, sender, now, n)
  {
    StandingExists(peers, sender, now);
    var best :| IsBest(peers, sender, now, best);
    best
  }

  ghost function Standing(peers: Peers, now: Time): uint32 -> nat {
    s => Least(peers, s, now) + Best(peers, s, now)
  }

  /** Whoever outbids a sender that is no rival stands higher. */
  lemma OutbidderStandsHigher(peers: Peers, now: Time, s: uint32, t: uint32, m: uint8, n: uint8)
    requires NoRivals(peers, now) && s != t && BidOf(peers, s, now, m) && PriorityOf(peers, t, now, n) && n < m
    ensures Standing(peers, now)(s) > Standing(peers, now)(t)
  {
    assert Outbids(peers, now, s, t);
    var best, least := Best(peers, t, now), Least(peers, s, now);
    assert !(BidOf(peers, t, now, best) && least < best);
  }

  // Weights of the talkers.

  ghost function Weight(talkers: set<uint32>, rank: uint32 -> nat): nat {
    if talkers == {} then 0 else
    var s :| s in talkers;
    rank(s) + Weight(talkers - {s}, rank)
  }

  lemma {:induction false} WeightOf(talkers: set<uint32>, rank: uint32 -> nat, s: uint32)
    requires s in talkers
    ensures Weight(talkers, rank) == rank(s) + Weight(talkers - {s}, rank)
    decreases |talkers|
  {
    var t :| t in talkers && Weight(talkers, rank) == rank(t) + Weight(talkers - {t}, rank);
    if t != s {
      WeightOf(talkers - {t}, rank, s);
      WeightOf(talkers - {s}, rank, t);
      assert talkers - {t} - {s} == talkers - {s} - {t};
    }
  }

  /** A least priority and a best bid together. */
  const TOP_STANDING := 0xff + 0xff

  lemma {:induction false} WeightBounded(talkers: set<uint32>, rank: uint32 -> nat)
    requires forall s :: s in talkers ==> rank(s) <= TOP_STANDING
    ensures Weight(talkers, rank) <= TOP_STANDING * |talkers|
  {
    if talkers != {} {
      var s :| s in talkers;
      WeightOf(talkers, rank, s);
      WeightBounded(talkers - {s}, rank);
    }
  }

  /** Replacing a talker by one of higher rank. */
  lemma Replace(talkers: set<uint32>, victim: uint32, sender: uint32, rank: uint32 -> nat)
    requires victim in talkers && sender !in talkers && rank(victim) < rank(sender)
    ensures Weight(talkers - {victim} + {sender}, rank) > Weight(talkers, rank)
  {
    WeightOf(talkers, rank, victim);
    WeightOf(talkers - {victim} + {sender}, rank, sender);
    assert talkers - {victim} + {sender} - {sender} == talkers - {victim};
  }

  lemma Join(talkers: set<uint32>, sender: uint32, rank: uint32 -> nat)
    requires sender !in talkers
    ensures Weight(talkers + {sender}, rank) >= Weight(talkers, rank)
  {
    WeightOf(talkers + {sender}, rank, sender);
    assert talkers + {sender} - {sender} == talkers;
  }

  // Contests.

  /** A floor request, under the admissions held at `t0`, or an ordinary PTT_ON or a refresh. */
  ghost predicate Contests(ch: Channel, config: Config, s: Section, before: Peers, t0: Time) {
    && Enabled(ch, config, s)
    && (s.RequestFloor? || s.TakeFloor? || s.RefreshLease?)
    && (s.RequestFloor? ==> Unchanged(before, t0, ch.peers, s.now))
  }

  /** Floor requests, ordinary PTT_ONs and refreshes only; and no admission changes. */
  ghost predicate IsContest(ch: Channel, config: Config, run: seq<Section>, before: Peers, t0: Time)
    decreases run
  {
    run == [] ||
    (Contests(ch, config, run[0], before, t0) && IsContest(Next(ch, config, run[0]), config, run[1..], before, t0))
  }

  predicate Preempts(s: Section) {
    s.RequestFloor? && s.grant.Preempted?
  }

  function Preemptions(run: seq<Section>): nat {
    if run == [] then 0 else (if Preempts(run[0]) then 1 else 0) + Preemptions(run[1..])
  }

  /** What is found and bid under unchanged admissions could have been found and bid before. */
  lemma UnchangedFinds(before: Peers, t0: Time, peers: Peers, now: Time, s: uint32, n: uint8)
    requires Unchanged(before, t0, peers, now)
    ensures PriorityOf(peers, s, now, n) ==> PriorityOf(before, s, t0, n)
    ensures BidOf(peers, s, now, n) ==> BidOf(before, s, t0, n)
  {
  }

  lemma GrantKeys(ch: Channel, sender: uint32, now: Time, grant: Grant)
    requires grant.Preempted? && grant.victim in ch.talkers && sender !in ch.talkers
    ensures GrantFloor(ch, sender, now, grant).channel.talkers.Keys == ch.talkers.Keys - {grant.victim} + {sender}
  {
  }

  /** A preemption raises the summed standing of the talkers. */
  lemma PreemptionRises(ch: Channel, config: Config, sender: uint32, address: Address, now: Time,
                        prio: map<uint32, uint8>, grant: Grant, before: Peers, t0: Time)
    requires RequestGrant(ch, config, sender, address, now, prio, grant) && grant.Preempted?
    requires NoRivals(before, t0) && Unchanged(before, t0, ch.peers, now)
    ensures var rank := Standing(before, t0);
      Weight(GrantFloor(ch, sender, now, grant).channel.talkers.Keys, rank) > Weight(ch.talkers.Keys, rank)
  {
    var victim, own := grant.victim, CurrentPriority(ch.peers[address], now).value;
    assert victim in ch.talkers && BidOf(ch.peers, sender, now, own);
    UnchangedFinds(before, t0, ch.peers, now, sender, own);
    UnchangedFinds(before, t0, ch.peers, now, victim, prio[victim]);
    OutbidderStandsHigher(before, t0, sender, victim, own, prio[victim]);
    Replace(ch.talkers.Keys, victim, sender, Standing(before, t0));
    GrantKeys(ch, sender, now, grant);
  }

  lemma GrantRises(ch: Channel, sender: uint32, now: Time, rank: uint32 -> nat)
    requires sender !in ch.talkers
    ensures Weight(GrantFloor(ch, sender, now, TalkGranted).channel.talkers.Keys, rank) >= Weight(ch.talkers.Keys, rank)
  {
    Join(ch.talkers.Keys, sender, rank);
    assert GrantFloor(ch, sender, now, TalkGranted).channel.talkers.Keys == ch.talkers.Keys + {sender};
  }

  lemma RequestRises(ch: Channel, config: Config, sender: uint32, address: Address, now: Time,
                     prio: map<uint32, uint8>, grant: Grant, before: Peers, t0: Time)
    requires RequestGrant(ch, config, sender, address, now, prio, grant)
    requires NoRivals(before, t0) && Unchanged(before, t0, ch.peers, now)
    ensures var rank := Standing(before, t0);
      Weight(GrantFloor(ch, sender, now, grant).channel.talkers.Keys, rank)
      >= Weight(ch.talkers.Keys, rank) + if grant.Preempted? then 1 else 0
  {
    if grant.Preempted? {
      PreemptionRises(ch, config, sender, address, now, prio, grant, before, t0);
    } else if grant.TalkGranted? {
      GrantRises(ch, sender, now, Standing(before, t0));
    }
  }

  lemma TakeRises(ch: Channel, config: Config, sender: uint32, now: Time, rank: uint32 -> nat)
    requires Bounded(ch, config) && sender != 0
    ensures Weight(Next(ch, config, TakeFloor(sender, now)).talkers.Keys, rank) >= Weight(ch.talkers.Keys, rank)
  {
    if PttOnGrant(ch, sender, config.Limit()).TalkGranted? {
      GrantRises(ch, sender, now, rank);
    }
  }

  /** A preemption raises the summed standing of the talkers; nothing in a contest lowers it. */
  lemma ContestStep(ch: Channel, config: Config, s: Section, before: Peers, t0: Time)
    requires NoRivals(before, t0) && Bounded(ch, config) && Contests(ch, config, s, before, t0)
    ensures var rank := Standing(before, t0);
      Weight(Next(ch, config, s).talkers.Keys, rank) >= Weight(ch.talkers.Keys, rank) + if Preempts(s) then 1 else 0
  {
    match s
    case RequestFloor(sender, address, now, prio, grant) =>
      RequestRises(ch, config, sender, address, now, prio, grant, before, t0);
      assert ch.peers == map[] ==> grant.Unauthorized?;
    case TakeFloor(sender, now) => TakeRises(ch, config, sender, now, Standing(before, t0));
    case RefreshLease(_, _, _) =>
  }

  lemma {:induction false} ContestRises(ch: Channel, config: Config, run: seq<Section>, before: Peers, t0: Time)
    requires NoRivals(before, t0) && Bounded(ch, config) && IsContest(ch, config, run, before, t0)
    ensures IsRun(ch, config, run)
    ensures var rank := Standing(before, t0);
      Weight(After(ch, config, run).talkers.Keys, rank) >= Weight(ch.talkers.Keys, rank) + Preemptions(run)
    decreases run
  {
    if run != [] {
      var next := Next(ch, config, run[0]);
      ContestStep(ch, config, run[0], before, t0);
      SectionBounded(ch, config, run[0]);
      ContestRises(next, config, run[1..], before, t0);
    }
  }

  /** Without rivals, and with unchanged admissions, at most 16 * 510 preemptions follow one another. */
  lemma PreemptionsEnd(ch: Channel, config: Config, run: seq<Section>, before: Peers, t0: Time)
    requires NoRivals(before, t0) && Bounded(ch, config) && IsContest(ch, config, run, before, t0)
    ensures Preemptions(run) <= TOP_STANDING * config.Limit() <= TOP_STANDING * MAX_ACTIVE_TALKERS
  {
    ContestRises(ch, config, run, before, t0);
    RunBounded(ch, config, run);
    var talkers := After(ch, config, run).talkers;
    WeightBounded(talkers.Keys, Standing(before, t0));
    assert |talkers.Keys| == |talkers|;
  }

  // Rivals.

  /** An endpoint that bids `bid`, for a sender that may be found at `found`. */
  datatype Rival = Rival(sender: uint32, address: Address, bid: uint8, found: uint8)

  ghost predicate IsRival(ch: Channel, config: Config, now: Time, r: Rival) {
    && r.sender != 0 && Authorized(ch, config, r.sender, r.address, now)
    && CurrentPriority(ch.peers[r.address], now) == Some(r.bid) && PriorityOf(ch.peers, r.sender, now, r.found)
  }

  /** One rival takes the only place from the other. */
  lemma DuelStep(ch: Channel, config: Config, s: Rival, t: Rival, now: Time) returns (request: Section)
    requires config.Limit() == 1 && ch.talkers.Keys == {s.sender} && s.sender != t.sender
    requires IsRival(ch, config, now, s) && IsRival(ch, config, now, t) && s.found < t.bid
    ensures Preempts(request) && Contests(ch, config, request, ch.peers, now)
    ensures var next := Next(ch, config, request); next.talkers.Keys == {t.sender} && next.peers == ch.peers
  {
    request := RequestFloor(t.sender, t.address, now, map[s.sender := s.found], Preempted(s.sender));
    assert |ch.talkers| == |ch.talkers.Keys| == 1;
    assert Next(ch, config, request).talkers.Keys == {t.sender};
  }

  /** So rivals preempt each other for as long as they please. */
  lemma {:induction false} Duel(ch: Channel, config: Config, s: Rival, t: Rival, now: Time, n: nat)
    returns (run: seq<Section>)
    requires config.Limit() == 1 && ch.talkers.Keys == {s.sender} && s.sender != t.sender
    requires IsRival(ch, config, now, s) && IsRival(ch, config, now, t) && s.found < t.bid && t.found < s.bid
    ensures IsContest(ch, config, run, ch.peers, now) && Preemptions(run) == n
    decreases n
  {
    if n == 0 {
      return [];
    }
    var request := DuelStep(ch, config, s, t, now);
    var rest := Duel(Next(ch, config, request), config, t, s, now, n - 1);
    run := [request] + rest;
    assert run[0] == request && run[1..] == rest;
  }

  /** Floor Interrupt is on, every membership is running, and nobody has sender ID 0. */
  ghost predicate Running(ch: Channel, config: Config, now: Time) {
    && config.floorInterrupt && config.identityRequired && config.authRequired
    && forall a :: a in ch.peers ==> ch.peers[a].deadline > now && ch.peers[a].sender != 0
  }

  lemma RivalsExist(ch: Channel, config: Config, now: Time) returns (s: Rival, t: Rival)
    requires Running(ch, config, now) && !NoRivals(ch.peers, now)
    ensures IsRival(ch, config, now, s) && IsRival(ch, config, now, t)
    ensures s.sender != t.sender && s.found < t.bid && t.found < s.bid
  {
    var x, y :| x != y && Outbids(ch.peers, now, x, y) && Outbids(ch.peers, now, y, x);
    var m, n :| BidOf(ch.peers, x, now, m) && PriorityOf(ch.peers, y, now, n) && n < m;
    var m', n' :| BidOf(ch.peers, y, now, m') && PriorityOf(ch.peers, x, now, n') && n' < m';
    var a :| a in ch.peers && ch.peers[a].sender == x && AllowsInterrupt(ch.peers[a], now)
             && CurrentPriority(ch.peers[a], now) == Some(m);
    var b :| b in ch.peers && ch.peers[b].sender == y && AllowsInterrupt(ch.peers[b], now)
             && CurrentPriority(ch.peers[b], now) == Some(m');
    s, t := Rival(x, a, m, n'), Rival(y, b, m', n);
  }

  lemma RivalsGoOn(ch: Channel, config: Config, now: Time, n: nat) returns (run: seq<Section>)
    requires config.Limit() == 1 && ch.talkers == map[] && Running(ch, config, now) && !NoRivals(ch.peers, now)
    ensures IsContest(ch, config, run, ch.peers, now) && Preemptions(run) == n
  {
    var s, t := RivalsExist(ch, config, now);
    var take := TakeFloor(s.sender, now);
    var next := Next(ch, config, take);
    assert next.peers == ch.peers && next.talkers.Keys == {s.sender};
    var rest := Duel(next, config, s, t, now, n);
    run := [take] + rest;
    assert run[0] == take && run[1..] == rest;
  }

  ghost predicate EndsWithin(ch: Channel, config: Config, now: Time, bound: nat) {
    forall run :: IsContest(ch, config, run, ch.peers, now) ==> Preemptions(run) <= bound
  }

  /** For one place, free at first: preemptions end if and only if there are no rivals. */
  lemma PreemptionsEndExactly(ch: Channel, config: Config, now: Time)
    requires config.Limit() == 1 && ch.talkers == map[] && Running(ch, config, now)
    ensures NoRivals(ch.peers, now) <==> exists bound :: EndsWithin(ch, config, now, bound)
  {
    if NoRivals(ch.peers, now) {
      forall run | IsContest(ch, config, run, ch.peers, now) ensures Preemptions(run) <= TOP_STANDING {
        PreemptionsEnd(ch, config, run, ch.peers, now);
      }
      assert EndsWithin(ch, config, now, TOP_STANDING);
    } else {
      forall bound: nat ensures !EndsWithin(ch, config, now, bound) {
        var run := RivalsGoOn(ch, config, now, bound + 1);
      }
    }
  }
}
