/**
  The control authentication handshake (control_auth.go): AUTH_HELLO issues a challenge and
  opens a provisional session with a replay window; pre-JOIN packets advance the window; a
  JOIN consumes the challenge and takes the window over. Two maps hold what is pending, and
  only the size of one of them is checked.
 */
module Handshake {
  import opened Common
  import opened ReplayWindow

  const MAX_PROVISIONAL := 1024
  const COOKIE_TTL: Time := 30 * SECOND

  type Cookie = string

  /** The cookie under the relay's secret: an uninterpreted function of what it covers. */
  type CookieOf = (Session, uint32) -> Cookie

  /** provisionalReplayKey. */
  datatype Session = Session(channel: uint32, sender: uint32, keyID: uint32, sessionID: uint32, address: string)

  /** authChallengeKey. */
  datatype Challenge = Challenge(session: Session, expiresAt: uint32, cookie: Cookie)

  datatype Provisional = Provisional(window: Window, expires: Time)

  datatype Pending = Pending(challenges: map<Challenge, Time>, provisional: map<Session, Provisional>)

  const NOTHING_PENDING := Pending(map[], map[])

  ghost function Cleanup(s: Pending, now: Time): Pending {
    Pending(map c | c in s.challenges && s.challenges[c] > now :: s.challenges[c],
            map k | k in s.provisional && s.provisional[k].expires > now :: s.provisional[k])
  }

  /** `uint32(t.Unix())`. */
  function Unix32(t: Time): uint32 {
    Unix(t) % TWO_32
  }

  // AUTH_HELLO.

  datatype HelloOutcome = BadNonce | UnknownKey | TooMany | AlreadyPending | Issued(challenge: Challenge)

  /** `start` is the clock the cookie's expiry is computed from, before the lock is taken. */
  ghost function HelloVerdict(s: Pending, cookieOf: CookieOf, session: Session, counter: nat, known: bool,
                              start: Time, now: Time): HelloOutcome {
    if counter != 0 || session.sessionID == 0 then BadNonce
    else if !known then UnknownKey
    else if |Cleanup(s, now).provisional| >= MAX_PROVISIONAL then TooMany
    else if session in Cleanup(s, now).provisional then AlreadyPending
    else
      var expiresAt := Unix32(start + COOKIE_TTL);
      Issued(Challenge(session, expiresAt, cookieOf(session, expiresAt)))
  }

  ghost function Hello(s: Pending, now: Time, outcome: HelloOutcome): Pending {
    match outcome
    case Issued(challenge) =>
      var c, expires := Cleanup(s, now), challenge.expiresAt * SECOND;
      Pending(c.challenges[challenge := expires], c.provisional[challenge.session := Provisional(Fresh(0), expires)])
    case TooMany => Cleanup(s, now)
    case AlreadyPending => Cleanup(s, now)
    case _ => s
  }

  // Packets before the JOIN.

  ghost function PreJoin(s: Pending, session: Session, counter: nat, now: Time): (Pending, bool) {
    if session.sessionID == 0 then (s, false) else
    var c := Cleanup(s, now);
    if session !in c.provisional then (c, false) else
    var v := Accept(c.provisional[session].window, counter);
    if !v.ok then (c, false)
    else (c.(provisional := c.provisional[session := c.provisional[session].(window := v.window)]), true)
  }

  // JOIN.

  /** The challenge a JOIN presents; `None` if its payload is not 20 bytes long. */
  datatype Presented = Presented(expiresAt: uint32, cookie: Cookie)

  /** The clock is read before the lock, for the cleanup, and once more for the deadline. */
  datatype JoinClock = JoinClock(start: Time, cleanup: Time, deadline: Time)

  predicate Presentable(cookieOf: CookieOf, session: Session, presented: Option<Presented>, start: Time) {
    && session.sessionID != 0 && presented.Some?
    && presented.value.expiresAt >= Unix32(start)
    && presented.value.cookie == cookieOf(session, presented.value.expiresAt)
  }

  ghost function Consume(s: Pending, cookieOf: CookieOf, session: Session, presented: Option<Presented>,
                         counter: nat, clock: JoinClock): (Pending, Option<Window>) {
    if !Presentable(cookieOf, session, presented, clock.start) then (s, None) else
    var c := Cleanup(s, clock.cleanup);
    var challenge := Challenge(session, presented.value.expiresAt, presented.value.cookie);
    if challenge !in c.challenges || c.challenges[challenge] <= clock.deadline then
      (c.(challenges := c.challenges - {challenge}), None)
    else if session !in c.provisional then (c, None)
    else
      var v := Accept(c.provisional[session].window, counter);
      if !v.ok then (c, None)
      else (Pending(c.challenges - {challenge}, c.provisional - {session}), Some(v.window))
  }

  class ControlAuth {
    const cookieOf: CookieOf
    var challenges: map<Challenge, Time>
    var provisional: map<Session, Provisional>

    constructor (cookieOf: CookieOf)
      ensures this.cookieOf == cookieOf && State() == NOTHING_PENDING
    {
      this.cookieOf := cookieOf;
      challenges, provisional := map[], map[];
    }

    function State(): Pending
      reads this
    {
      Pending(challenges, provisional)
    }

    method CleanupPendingLocked(now: Time)
      modifies this
      ensures State() == Cleanup(old(State()), now)
    {
      ghost var before := State();
      var late := (_: Challenge, deadline: Time) => deadline <= now;
      challenges := DeleteWhere(challenges, late);
      assert challenges == Cleanup(before, now).challenges;
      var ended := (_: Session, p: Provisional) => p.expires <= now;
      provisional := DeleteWhere(provisional, ended);
      assert provisional == Cleanup(before, now).provisional;
    }

    method CreateChallenge(session: Session, counter: nat, known: bool, start: Time, now: Time)
      returns (r: HelloOutcome)
      modifies this
      ensures r == HelloVerdict(old(State()), cookieOf, session, counter, known, start, now)
      ensures State() == Hello(old(State()), now, r)
    {
      if counter != 0 || session.sessionID == 0 {
        return BadNonce;
      }
      if !known {
        return UnknownKey;
      }
      var expiresAt := Unix32(start + COOKIE_TTL);
      var challenge := Challenge(session, expiresAt, cookieOf(session, expiresAt));
      CleanupPendingLocked(now);
      if |provisional| >= MAX_PROVISIONAL {
        return TooMany;
      }
      if session in provisional {
        return AlreadyPending;
      }
      var expires := expiresAt * SECOND;
      challenges := challenges[challenge := expires];
      provisional := provisional[session := Provisional(Fresh(0), expires)];
      r := Issued(challenge);
    }

    method AcceptPreJoinControl(session: Session, counter: nat, now: Time) returns (ok: bool)
      modifies this
      ensures (State(), ok) == PreJoin(old(State()), session, counter, now)
    {
      if session.sessionID == 0 {
        return false;
      }
      CleanupPendingLocked(now);
      if session !in provisional {
        return false;
      }
      var v := AcceptReplayCounter(provisional[session].window, counter);
      if !v.ok {
        return false;
      }
      provisional := provisional[session := provisional[session].(window := v.window)];
      ok := true;
    }

    method ConsumeJoinChallenge(session: Session, presented: Option<Presented>, counter: nat, clock: JoinClock)
      returns (replay: Option<Window>)
      modifies this
      ensures (State(), replay) == Consume(old(State()), cookieOf, session, presented, counter, clock)
    {
      if session.sessionID == 0 || presented.None? {
        return None;
      }
      var Presented(expiresAt, cookie) := presented.value;
      if expiresAt < Unix32(clock.start) || cookie != cookieOf(session, expiresAt) {
        return None;
      }
      var challenge := Challenge(session, expiresAt, cookie);
      CleanupPendingLocked(clock.cleanup);
      if challenge !in challenges || challenges[challenge] <= clock.deadline {
        challenges := challenges - {challenge};
        return None;
      }
      if session !in provisional {
        return None;
      }
      var v := AcceptReplayCounter(provisional[session].window, counter);
      if !v.ok {
        return None;
      }
      challenges := challenges - {challenge};
      provisional := provisional - {session};
      replay := Some(v.window);
    }
  }

  // What every reachable state of the two maps satisfies.

  datatype Step =
    | HelloStep(session: Session, counter: nat, known: bool, start: Time, now: Time)
    | PreJoinStep(session: Session, counter: nat, now: Time)
    | JoinStep(session: Session, presented: Option<Presented>, counter: nat, clock: JoinClock)

  ghost function Next(s: Pending, cookieOf: CookieOf, step: Step): Pending {
    match step
    case HelloStep(session, counter, known, start, now) =>
      Hello(s, now, HelloVerdict(s, cookieOf, session, counter, known, start, now))
    case PreJoinStep(session, counter, now) => PreJoin(s, session, counter, now).0
    case JoinStep(session, presented, counter, clock) => Consume(s, cookieOf, session, presented, counter, clock).0
  }

  ghost function After(s: Pending, cookieOf: CookieOf, steps: seq<Step>): Pending {
    if steps == [] then s else Next(After(s, cookieOf, steps[..|steps| - 1]), cookieOf, steps[|steps| - 1])
  }

  /** Every outstanding challenge belongs to a provisional session with the same deadline. */
  ghost predicate Paired(s: Pending, cookieOf: CookieOf) {
    forall c :: c in s.challenges ==>
      && c.session in s.provisional && c.cookie == cookieOf(c.session, c.expiresAt)
      && s.challenges[c] == s.provisional[c.session].expires == c.expiresAt * SECOND
  }

  lemma CleanupPaired(s: Pending, cookieOf: CookieOf, now: Time)
    requires Paired(s, cookieOf)
    ensures Paired(Cleanup(s, now), cookieOf) && |Cleanup(s, now).provisional| <= |s.provisional|
  {
    MapSize(Cleanup(s, now).provisional, s.provisional.Keys);
    assert |s.provisional| == |s.provisional.Keys|;
  }

  lemma IssuePaired(s: Pending, cookieOf: CookieOf, session: Session, expiresAt: uint32)
    requires Paired(s, cookieOf) && session !in s.provisional
    ensures var c, expires := Challenge(session, expiresAt, cookieOf(session, expiresAt)), expiresAt * SECOND;
      Paired(Pending(s.challenges[c := expires], s.provisional[session := Provisional(Fresh(0), expires)]), cookieOf)
  {
  }

  lemma ConsumePaired(s: Pending, cookieOf: CookieOf, c: Challenge)
    requires Paired(s, cookieOf) && c in s.challenges
    ensures Paired(Pending(s.challenges - {c}, s.provisional - {c.session}), cookieOf)
    ensures |s.provisional - {c.session}| <= |s.provisional|
  {
    forall d | d in s.challenges && d != c ensures d.session != c.session {
      assert d.session == c.session ==> d.expiresAt * SECOND == c.expiresAt * SECOND;
    }
    MapSize(s.provisional - {c.session}, s.provisional.Keys);
    assert |s.provisional| == |s.provisional.Keys|;
  }

  lemma HelloPaired(s: Pending, cookieOf: CookieOf, session: Session, counter: nat, known: bool, start: Time, now: Time)
    requires Paired(s, cookieOf) && |s.provisional| <= MAX_PROVISIONAL
    ensures var next := Hello(s, now, HelloVerdict(s, cookieOf, session, counter, known, start, now));
      Paired(next, cookieOf) && |next.provisional| <= MAX_PROVISIONAL
  {
    CleanupPaired(s, cookieOf, now);
    if HelloVerdict(s, cookieOf, session, counter, known, start, now).Issued? {
      IssuePaired(Cleanup(s, now), cookieOf, session, Unix32(start + COOKIE_TTL));
    }
  }

  lemma PreJoinPaired(s: Pending, cookieOf: CookieOf, session: Session, counter: nat, now: Time)
    requires Paired(s, cookieOf) && |s.provisional| <= MAX_PROVISIONAL
    ensures var next := PreJoin(s, session, counter, now).0;
      Paired(next, cookieOf) && |next.provisional| <= MAX_PROVISIONAL
  {
    CleanupPaired(s, cookieOf, now);
    var c, next := Cleanup(s, now), PreJoin(s, session, counter, now).0;
    if session in c.provisional {
      assert c.provisional.Keys == c.provisional.Keys + {session};
      assert |next.provisional| == |next.provisional.Keys| && |c.provisional| == |c.provisional.Keys|;
    }
  }

  lemma JoinPaired(
      s: Pending, cookieOf: CookieOf, session: Session, presented: Option<Presented>, counter: nat, clock: JoinClock)
    requires Paired(s, cookieOf) && |s.provisional| <= MAX_PROVISIONAL
    ensures var next := Consume(s, cookieOf, session, presented, counter, clock).0;
      Paired(next, cookieOf) && |next.provisional| <= MAX_PROVISIONAL
  {
    if Presentable(cookieOf, session, presented, clock.start) {
      var c := Cleanup(s, clock.cleanup);
      var challenge := Challenge(session, presented.value.expiresAt, presented.value.cookie);
      CleanupPaired(s, cookieOf, clock.cleanup);
      if challenge in c.challenges {
        ConsumePaired(c, cookieOf, challenge);
      }
      assert Paired(c.(challenges := c.challenges - {challenge}), cookieOf);
    }
  }

  lemma StepPaired(s: Pending, cookieOf: CookieOf, step: Step)
    requires Paired(s, cookieOf) && |s.provisional| <= MAX_PROVISIONAL
    ensures Paired(Next(s, cookieOf, step), cookieOf) && |Next(s, cookieOf, step).provisional| <= MAX_PROVISIONAL
  {
    match step
    case HelloStep(session, counter, known, start, now) =>
      HelloPaired(s, cookieOf, session, counter, known, start, now);
    case PreJoinStep(session, counter, now) => PreJoinPaired(s, cookieOf, session, counter, now);
    case JoinStep(session, presented, counter, clock) => JoinPaired(s, cookieOf, session, presented, counter, clock);
  }

  /** So challenges map injectively to sessions, and although only those are counted, both stay within 1024. */
  lemma PairedBounds(s: Pending, cookieOf: CookieOf)
    requires Paired(s, cookieOf)
    ensures forall c, d :: c in s.challenges && d in s.challenges && c.session == d.session ==> c == d
    ensures |s.challenges| <= |s.provisional|
  {
    forall c, d | c in s.challenges && d in s.challenges && c.session == d.session ensures c == d {
      assert c.expiresAt * SECOND == d.expiresAt * SECOND;
    }
    InjectionSize(s.challenges.Keys, (c: Challenge) => c.session, s.provisional.Keys);
    assert |s.challenges| == |s.challenges.Keys| && |s.provisional| == |s.provisional.Keys|;
  }

  lemma {:induction false} ReachableBounded(cookieOf: CookieOf, steps: seq<Step>)
    ensures var s := After(NOTHING_PENDING, cookieOf, steps);
      Paired(s, cookieOf) && |s.challenges| <= |s.provisional| <= MAX_PROVISIONAL
  {
    if steps != [] {
      ReachableBounded(cookieOf, steps[..|steps| - 1]);
      StepPaired(After(NOTHING_PENDING, cookieOf, steps[..|steps| - 1]), cookieOf, steps[|steps| - 1]);
    }
    PairedBounds(After(NOTHING_PENDING, cookieOf, steps), cookieOf);
  }

  // Each challenge is consumed at most once.

  ghost predicate Issues(s: Pending, cookieOf: CookieOf, step: Step, c: Challenge) {
    step.HelloStep? &&
    HelloVerdict(s, cookieOf, step.session, step.counter, step.known, step.start, step.now) == HelloOutcome.Issued(c)
  }

  ghost predicate Consumes(s: Pending, cookieOf: CookieOf, step: Step, c: Challenge) {
    && step.JoinStep? && step.presented.Some?
    && c == Challenge(step.session, step.presented.value.expiresAt, step.presented.value.cookie)
    && Consume(s, cookieOf, step.session, step.presented, step.counter, step.clock).1.Some?
  }

  ghost function IssuedTimes(s: Pending, cookieOf: CookieOf, steps: seq<Step>, c: Challenge): nat {
    if steps == [] then 0 else
    var front, last := steps[..|steps| - 1], steps[|steps| - 1];
    IssuedTimes(s, cookieOf, front, c) + if Issues(After(s, cookieOf, front), cookieOf, last, c) then 1 else 0
  }

  ghost function ConsumedTimes(s: Pending, cookieOf: CookieOf, steps: seq<Step>, c: Challenge): nat {
    if steps == [] then 0 else
    var front, last := steps[..|steps| - 1], steps[|steps| - 1];
    ConsumedTimes(s, cookieOf, front, c) + if Consumes(After(s, cookieOf, front), cookieOf, last, c) then 1 else 0
  }

  lemma ChallengeStep(s: Pending, cookieOf: CookieOf, step: Step, c: Challenge)
    ensures Consumes(s, cookieOf, step, c) ==> c in s.challenges && c !in Next(s, cookieOf, step).challenges
    ensures !Issues(s, cookieOf, step, c) && c in Next(s, cookieOf, step).challenges ==> c in s.challenges
  {
  }

  /** Never more often consumed than issued; a challenge still outstanding has one use left. */
  lemma {:induction false} ConsumedOnce(cookieOf: CookieOf, steps: seq<Step>, c: Challenge)
    ensures ConsumedTimes(NOTHING_PENDING, cookieOf, steps, c)
            + (if c in After(NOTHING_PENDING, cookieOf, steps).challenges then 1 else 0)
         <= IssuedTimes(NOTHING_PENDING, cookieOf, steps, c)
  {
    if steps != [] {
      var front, last := steps[..|steps| - 1], steps[|steps| - 1];
      ConsumedOnce(cookieOf, front, c);
      ChallengeStep(After(NOTHING_PENDING, cookieOf, front), cookieOf, last, c);
    }
  }

  // Who is answered, and whose JOIN succeeds.

  /** The sessions whose time has not passed. */
  ghost function Live(s: Pending, now: Time): set<Session> {
    set k | k in s.provisional && s.provisional[k].expires > now
  }

  /**
    A HELLO is answered exactly if its nonce has a session ID and the counter 0, its key is
    known, its session is not pending and fewer than 1024 are; the cookie then covers the
    session and an expiry 30 seconds ahead. Each of the failures has its own outcome.
   */
  lemma HelloExactly(s: Pending, cookieOf: CookieOf, session: Session, counter: nat, known: bool,
                     start: Time, now: Time)
    ensures var r := HelloVerdict(s, cookieOf, session, counter, known, start, now);
      && (r.BadNonce? <==> counter != 0 || session.sessionID == 0)
      && (r.UnknownKey? <==> !r.BadNonce? && !known)
      && (r.TooMany? <==> !r.BadNonce? && known && |Live(s, now)| >= 1024)
      && (r.AlreadyPending? <==> !r.BadNonce? && known && |Live(s, now)| < 1024 && session in Live(s, now))
    ensures var r := HelloVerdict(s, cookieOf, session, counter, known, start, now);
      r.Issued? ==>
        && r.challenge.session == session && r.challenge.cookie == cookieOf(session, r.challenge.expiresAt)
        && (start + 30 * SECOND < TWO_32 * SECOND ==>
              r.challenge.expiresAt * SECOND <= start + 30 * SECOND < (r.challenge.expiresAt + 1) * SECOND)
  {
    var c := Cleanup(s, now);
    assert c.provisional.Keys == Live(s, now) && |c.provisional| == |c.provisional.Keys|;
    if start + 30 * SECOND < TWO_32 * SECOND {
      WholeSeconds(start + 30 * SECOND);
    }
  }

  lemma WholeSeconds(t: Time)
    requires t < TWO_32 * SECOND
    ensures Unix32(t) * SECOND <= t < (Unix32(t) + 1) * SECOND
  {
    assert t == Unix(t) * SECOND + t % SECOND && Unix(t) < TWO_32;
  }

  /** Steps that do not consume the challenge of `c`'s session, with clocks before its deadline. */
  predicate Beside(step: Step, c: Challenge) {
    match step
    case HelloStep(_, _, _, _, now) => now < c.expiresAt * SECOND
    case PreJoinStep(_, _, now) => now < c.expiresAt * SECOND
    case JoinStep(session, _, _, clock) => session != c.session && clock.cleanup < c.expiresAt * SECOND
  }

  /** The challenge and its session are pending until the challenge's expiry. */
  ghost predicate Outstanding(s: Pending, c: Challenge) {
    && c in s.challenges && s.challenges[c] == c.expiresAt * SECOND
    && c.session in s.provisional && s.provisional[c.session].expires == c.expiresAt * SECOND
  }

  lemma OutstandingStep(s: Pending, cookieOf: CookieOf, step: Step, c: Challenge)
    requires Outstanding(s, c) && Beside(step, c)
    ensures Outstanding(Next(s, cookieOf, step), c)
  {
  }

  lemma {:induction false} OutstandingLasts(s: Pending, cookieOf: CookieOf, steps: seq<Step>, c: Challenge)
    requires Outstanding(s, c) && forall i :: 0 <= i < |steps| ==> Beside(steps[i], c)
    ensures Outstanding(After(s, cookieOf, steps), c)
  {
    if steps != [] {
      var front := steps[..|steps| - 1];
      OutstandingLasts(s, cookieOf, front, c);
      OutstandingStep(After(s, cookieOf, front), cookieOf, steps[|steps| - 1], c);
    }
  }

  /** What presenting an outstanding challenge in time does. */
  lemma PresentingConsumes(t: Pending, cookieOf: CookieOf, c: Challenge, counter: nat, clock: JoinClock)
    requires Outstanding(t, c) && c.session.sessionID != 0 && c.cookie == cookieOf(c.session, c.expiresAt)
    requires clock.cleanup < c.expiresAt * SECOND && clock.deadline < c.expiresAt * SECOND
    requires Unix32(clock.start) <= c.expiresAt
    ensures var presented := Some(Presented(c.expiresAt, c.cookie));
      var (after, window) := Consume(t, cookieOf, c.session, presented, counter, clock);
      var v := Accept(t.provisional[c.session].window, counter);
      && window == (if v.ok then Some(v.window) else None)
      && (v.ok ==> c.session !in after.provisional && c !in after.challenges)
      && (!v.ok ==> c.session in after.provisional && c in after.challenges)
  {
  }

  /**
    In any state: once a challenge is issued, whatever HELLOs, packets of any session and
    JOINs of other sessions come in between, a JOIN that presents it in time takes over the
    session's window exactly if that accepts its counter, and then uses both up.
   */
  lemma HandshakeCompletes(s: Pending, cookieOf: CookieOf, session: Session, start: Time, now: Time,
                           steps: seq<Step>, counter: nat, clock: JoinClock)
    requires HelloVerdict(s, cookieOf, session, 0, true, start, now).Issued?
    requires var c := HelloVerdict(s, cookieOf, session, 0, true, start, now).challenge;
      && (forall i :: 0 <= i < |steps| ==> Beside(steps[i], c))
      && clock.cleanup < c.expiresAt * SECOND && clock.deadline < c.expiresAt * SECOND
      && Unix32(clock.start) <= c.expiresAt
    ensures var outcome := HelloVerdict(s, cookieOf, session, 0, true, start, now);
      var t := After(Hello(s, now, outcome), cookieOf, steps);
      var presented := Some(Presented(outcome.challenge.expiresAt, outcome.challenge.cookie));
      var (after, window) := Consume(t, cookieOf, session, presented, counter, clock);
      && session in t.provisional
      && var v := Accept(t.provisional[session].window, counter);
      && window == (if v.ok then Some(v.window) else None)
      && (v.ok ==> session !in after.provisional && outcome.challenge !in after.challenges)
      && (!v.ok ==> session in after.provisional && outcome.challenge in after.challenges)
  {
    var outcome := HelloVerdict(s, cookieOf, session, 0, true, start, now);
    var issued := Hello(s, now, outcome);
    OutstandingLasts(issued, cookieOf, steps, outcome.challenge);
    PresentingConsumes(After(issued, cookieOf, steps), cookieOf, outcome.challenge, counter, clock);
  }

  /** Only such a JOIN succeeds: with a session ID, an unexpired cookie of the session, and both still pending. */
  lemma JoinNeedsChallenge(s: Pending, cookieOf: CookieOf, session: Session, presented: Option<Presented>,
                           counter: nat, clock: JoinClock)
    requires Consume(s, cookieOf, session, presented, counter, clock).1.Some?
    ensures session.sessionID != 0 && presented.Some? && session in s.provisional
    ensures var c := Challenge(session, presented.value.expiresAt, presented.value.cookie);
      && c.cookie == cookieOf(session, c.expiresAt) && Unix32(clock.start) <= c.expiresAt
      && c in s.challenges && s.challenges[c] > clock.deadline && s.challenges[c] > clock.cleanup
      && s.provisional[session].expires > clock.cleanup
      && Accept(s.provisional[session].window, counter).ok
  {
  }

  /** A packet before the JOIN advances the window of its own pending session, and of no other. */
  lemma PreJoinExactly(s: Pending, session: Session, counter: nat, now: Time, k: Session)
    ensures var (after, ok) := PreJoin(s, session, counter, now);
      && (ok <==> session.sessionID != 0 && session in Live(s, now)
                  && Accept(s.provisional[session].window, counter).ok)
      && (ok ==> after.provisional[session] ==
                   s.provisional[session].(window := Accept(s.provisional[session].window, counter).window))
      && (k != session && k in Live(s, now) ==>
            k in after.provisional && after.provisional[k] == s.provisional[k])
  {
  }
}
