/**
  The life of a replay window (control_auth.go): it begins with an AUTH_HELLO, is advanced
  by pre-JOIN packets, handed over by the JOIN that consumes the challenge, and advanced
  by the joined peer's packets. The packet handler is a single thread; `joining` is the
  window between the two sections of a JOIN. `lives`, `next` and `log` only record history:
  which window lives which life, and the counters each life has accepted.
 */
module SessionLife {
  import opened Common
  import opened ReplayWindow
  import opened Handshake

  datatype Place = Place(channel: uint32, address: string)
  datatype AuthPeer = AuthPeer(sender: uint32, keyID: uint32, sessionID: uint32, window: Window)
  datatype Joining = Joining(session: Session, window: Window)

  datatype Holder = InProvisional(session: Session) | InJoin | InPeer(place: Place)
  datatype Mark = Mark(life: nat, counter: nat)

  datatype World = World(
    pending: Pending, joining: Option<Joining>, peers: map<Place, AuthPeer>,
    lives: map<Holder, nat>, next: nat, log: seq<Mark>)

  const START := World(NOTHING_PENDING, None, map[], map[], 0, [])

  function PlaceOf(session: Session): Place {
    Place(session.channel, session.address)
  }

  /** acceptAuthenticatedPeerControl's comparison with the peer at the packet's endpoint. */
  predicate IsPeer(peers: map<Place, AuthPeer>, session: Session) {
    && PlaceOf(session) in peers
    && var p := peers[PlaceOf(session)];
    p.sender == session.sender && p.keyID == session.keyID && p.sessionID == session.sessionID
  }

  datatype Event =
    | HelloEvent(session: Session, counter: nat, known: bool, start: Time, now: Time)
    | PreJoinEvent(session: Session, counter: nat, now: Time)
    | JoinEvent(session: Session, presented: Option<Presented>, counter: nat, clock: JoinClock)
    | RefuseJoin
    | PromoteJoin
    | ControlEvent(session: Session, counter: nat)
    | RemovePeer(place: Place)

  ghost predicate Enabled(w: World, e: Event) {
    match e
    case RefuseJoin => w.joining.Some?
    case PromoteJoin => w.joining.Some?
    case RemovePeer(_) => true
    case _ => w.joining.None?
  }

  /** `life` is the one the accepted counter belongs to. */
  function Marked(log: seq<Mark>, life: nat, counter: nat): seq<Mark> {
    log + [Mark(life, counter)]
  }

  function LifeAt(w: World, h: Holder): nat {
    if h in w.lives then w.lives[h] else 0
  }

  ghost function Next(w: World, cookieOf: CookieOf, e: Event): World {
    match e
    case HelloEvent(session, counter, known, start, now) =>
      var outcome := HelloVerdict(w.pending, cookieOf, session, counter, known, start, now);
      var v := w.(pending := Hello(w.pending, now, outcome));
      if !outcome.Issued? then v else
      v.(lives := w.lives[InProvisional(session) := w.next], next := w.next + 1, log := Marked(w.log, w.next, 0))
    case PreJoinEvent(session, counter, now) =>
      var (pending, ok) := PreJoin(w.pending, session, counter, now);
      var v := w.(pending := pending);
      if !ok then v else v.(log := Marked(w.log, LifeAt(w, InProvisional(session)), counter))
    case JoinEvent(session, presented, counter, clock) =>
      var (pending, replay) := Consume(w.pending, cookieOf, session, presented, counter, clock);
      var v := w.(pending := pending);
      if replay.None? then v else
      var life := LifeAt(w, InProvisional(session));
      v.(joining := Some(Joining(session, replay.value)), lives := w.lives[InJoin := life],
         log := Marked(w.log, life, counter))
    case RefuseJoin => w.(joining := None)
    case PromoteJoin =>
      if w.joining.None? then w else
      var Joining(session, window) := w.joining.value;
      w.(joining := None,
         peers := w.peers[PlaceOf(session) := AuthPeer(session.sender, session.keyID, session.sessionID, window)],
         lives := w.lives[InPeer(PlaceOf(session)) := LifeAt(w, InJoin)])
    case ControlEvent(session, counter) =>
      if !IsPeer(w.peers, session) then w else
      var p := w.peers[PlaceOf(session)];
      var v := Accept(p.window, counter);
      if !v.ok then w else
      w.(peers := w.peers[PlaceOf(session) := p.(window := v.window)],
         log := Marked(w.log, LifeAt(w, InPeer(PlaceOf(session))), counter))
    case RemovePeer(place) => w.(peers := w.peers - {place})
  }

  // The invariant.

  function WindowAt(w: World, h: Holder): Option<Window> {
    match h
    case InProvisional(session) =>
      if session in w.pending.provisional then Some(w.pending.provisional[session].window) else None
    case InJoin => if w.joining.Some? then Some(w.joining.value.window) else None
    case InPeer(place) => if place in w.peers then Some(w.peers[place].window) else None
  }

  /** The counters a life has accepted. */
  ghost function Of(log: seq<Mark>, life: nat): set<nat> {
    set i | 0 <= i < |log| && log[i].life == life :: log[i].counter
  }

  ghost predicate Recorded(w: World, h: Holder) {
    WindowAt(w, h).Some? ==>
      h in w.lives && w.lives[h] < w.next && WindowAt(w, h).value.Tracks(Of(w.log, w.lives[h]))
  }

  ghost predicate Separate(w: World) {
    forall h, k :: h != k && WindowAt(w, h).Some? && WindowAt(w, k).Some? ==> LifeAt(w, h) != LifeAt(w, k)
  }

  /** No life has accepted a counter twice. */
  ghost predicate Once(log: seq<Mark>) {
    forall i, j :: 0 <= i < j < |log| ==> log[i] != log[j]
  }

  ghost predicate Inv(w: World) {
    && (forall h :: Recorded(w, h)) && Separate(w)
    && Once(w.log) && forall i :: 0 <= i < |w.log| ==> w.log[i].life < w.next
  }

  /** What `h` holds in `v` it held in `w` already. */
  ghost predicate Same(w: World, v: World, h: Holder) {
    WindowAt(v, h).Some? ==>
      WindowAt(w, h) == WindowAt(v, h) && LifeAt(w, h) == LifeAt(v, h) && (h in w.lives ==> h in v.lives)
  }

  lemma MarkedOf(log: seq<Mark>, life: nat, counter: nat, other: nat)
    ensures Of(Marked(log, life, counter), other) == Of(log, other) + if other == life then {counter} else {}
  {
    var marked := Marked(log, life, counter);
    forall c | c in Of(log, other) ensures c in Of(marked, other) {
      var i :| 0 <= i < |log| && log[i].life == other && log[i].counter == c;
      assert marked[i] == log[i];
    }
    assert marked[|log|] == Mark(life, counter);
  }

  /** Windows disappear, and nothing else happens. */
  lemma DropKeeps(w: World, v: World)
    requires Inv(w) && v.log == w.log && v.next == w.next && forall h :: Same(w, v, h)
    ensures Inv(v)
  {
    forall h ensures Recorded(v, h) {
      assert Same(w, v, h) && Recorded(w, h);
    }
    forall h, k | h != k && WindowAt(v, h).Some? && WindowAt(v, k).Some? ensures LifeAt(v, h) != LifeAt(v, k) {
      assert Same(w, v, h) && Same(w, v, k);
    }
  }

  /** A new life begins at `to`. */
  lemma BeginKeeps(w: World, v: World, to: Holder)
    requires Inv(w) && v.next == w.next + 1 && v.log == Marked(w.log, w.next, 0)
    requires WindowAt(v, to) == Some(Fresh(0)) && to in v.lives && v.lives[to] == w.next
    requires forall h :: h != to ==> Same(w, v, h)
    ensures Inv(v)
  {
    assert Of(w.log, w.next) == {};
    forall h ensures Recorded(v, h) {
      assert h != to ==> Same(w, v, h);
      assert Recorded(w, h);
      MarkedOf(w.log, w.next, 0, LifeAt(v, h));
      assert {} + {0} == {0};
    }
    forall h, k | h != k && WindowAt(v, h).Some? && WindowAt(v, k).Some? ensures LifeAt(v, h) != LifeAt(v, k) {
      assert (h != to ==> Same(w, v, h)) && (k != to ==> Same(w, v, k));
      assert Recorded(w, h) && Recorded(w, k);
    }
  }

  /** The life at `from` accepts a counter, and goes on at `to`. */
  lemma AcceptKeeps(w: World, v: World, from: Holder, to: Holder, counter: nat)
    requires Inv(w) && v.next == w.next && WindowAt(w, from).Some?
    requires Accept(WindowAt(w, from).value, counter).ok && v.log == Marked(w.log, LifeAt(w, from), counter)
    requires WindowAt(v, to) == Some(Accept(WindowAt(w, from).value, counter).window)
    requires to in v.lives && v.lives[to] == LifeAt(w, from)
    requires forall h :: h != to ==> Same(w, v, h) && (h == from ==> WindowAt(v, h).None?)
    ensures Inv(v)
  {
    var life := LifeAt(w, from);
    assert Recorded(w, from);
    AcceptTracks(WindowAt(w, from).value, counter, Of(w.log, life));
    assert forall i :: 0 <= i < |w.log| ==> w.log[i] != Mark(life, counter);
    forall h ensures Recorded(v, h) {
      assert h != to ==> Same(w, v, h);
      assert Recorded(w, h);
      MarkedOf(w.log, life, counter, LifeAt(v, h));
    }
    forall h, k | h != k && WindowAt(v, h).Some? && WindowAt(v, k).Some? ensures LifeAt(v, h) != LifeAt(v, k) {
      assert (h != to ==> Same(w, v, h)) && (k != to ==> Same(w, v, k));
    }
  }

  /** The life at `from` moves to `to`. */
  lemma MoveKeeps(w: World, v: World, from: Holder, to: Holder)
    requires Inv(w) && v.log == w.log && v.next == w.next && WindowAt(w, from).Some?
    requires WindowAt(v, to) == WindowAt(w, from) && to in v.lives && v.lives[to] == LifeAt(w, from)
    requires forall h :: h != to ==> Same(w, v, h) && (h == from ==> WindowAt(v, h).None?)
    ensures Inv(v)
  {
    assert Recorded(w, from);
    forall h ensures Recorded(v, h) {
      assert h != to ==> Same(w, v, h);
      assert Recorded(w, h);
    }
    forall h, k | h != k && WindowAt(v, h).Some? && WindowAt(v, k).Some? ensures LifeAt(v, h) != LifeAt(v, k) {
      assert (h != to ==> Same(w, v, h)) && (k != to ==> Same(w, v, k));
    }
  }

  // Every step keeps it.

  lemma HelloKeeps(w: World, cookieOf: CookieOf, e: Event)
    requires Inv(w) && e.HelloEvent?
    ensures Inv(Next(w, cookieOf, e))
  {
    var v := Next(w, cookieOf, e);
    if HelloVerdict(w.pending, cookieOf, e.session, e.counter, e.known, e.start, e.now).Issued? {
      BeginKeeps(w, v, InProvisional(e.session));
    } else {
      DropKeeps(w, v);
    }
  }

  lemma PreJoinKeeps(w: World, cookieOf: CookieOf, e: Event)
    requires Inv(w) && e.PreJoinEvent?
    ensures Inv(Next(w, cookieOf, e))
  {
    var v := Next(w, cookieOf, e);
    if PreJoin(w.pending, e.session, e.counter, e.now).1 {
      assert Recorded(w, InProvisional(e.session));
      AcceptKeeps(w, v, InProvisional(e.session), InProvisional(e.session), e.counter);
    } else {
      DropKeeps(w, v);
    }
  }

  lemma JoinKeeps(w: World, cookieOf: CookieOf, e: Event)
    requires Inv(w) && e.JoinEvent? && w.joining.None?
    ensures Inv(Next(w, cookieOf, e))
  {
    var v := Next(w, cookieOf, e);
    if Consume(w.pending, cookieOf, e.session, e.presented, e.counter, e.clock).1.Some? {
      AcceptKeeps(w, v, InProvisional(e.session), InJoin, e.counter);
    } else {
      DropKeeps(w, v);
    }
  }

  lemma PeerKeeps(w: World, cookieOf: CookieOf, e: Event)
    requires Inv(w) && Enabled(w, e) && (e.RefuseJoin? || e.PromoteJoin? || e.ControlEvent? || e.RemovePeer?)
    ensures Inv(Next(w, cookieOf, e))
  {
    var v := Next(w, cookieOf, e);
    if e.PromoteJoin? {
      MoveKeeps(w, v, InJoin, InPeer(PlaceOf(w.joining.value.session)));
    } else if && e.ControlEvent? && IsPeer(w.peers, e.session)
              && Accept(w.peers[PlaceOf(e.session)].window, e.counter).ok
    {
      assert Recorded(w, InPeer(PlaceOf(e.session)));
      AcceptKeeps(w, v, InPeer(PlaceOf(e.session)), InPeer(PlaceOf(e.session)), e.counter);
    } else {
      DropKeeps(w, v);
    }
  }

  lemma StepKeeps(w: World, cookieOf: CookieOf, e: Event)
    requires Inv(w) && Enabled(w, e)
    ensures Inv(Next(w, cookieOf, e))
  {
    match e
    case HelloEvent(_, _, _, _, _) => HelloKeeps(w, cookieOf, e);
    case PreJoinEvent(_, _, _) => PreJoinKeeps(w, cookieOf, e);
    case JoinEvent(_, _, _, _) => JoinKeeps(w, cookieOf, e);
    case _ => PeerKeeps(w, cookieOf, e);
  }

  ghost predicate IsRun(w: World, cookieOf: CookieOf, events: seq<Event>)
    decreases events
  {
    events == [] || (Enabled(w, events[0]) && IsRun(Next(w, cookieOf, events[0]), cookieOf, events[1..]))
  }

  ghost function After(w: World, cookieOf: CookieOf, events: seq<Event>): World
    decreases events
  {
    if events == [] then w else After(Next(w, cookieOf, events[0]), cookieOf, events[1..])
  }

  lemma {:induction false} RunKeeps(w: World, cookieOf: CookieOf, events: seq<Event>)
    requires Inv(w) && IsRun(w, cookieOf, events)
    ensures Inv(After(w, cookieOf, events))
    decreases events
  {
    if events != [] {
      StepKeeps(w, cookieOf, events[0]);
      RunKeeps(Next(w, cookieOf, events[0]), cookieOf, events[1..]);
    }
  }

  /**
    In every run: no life accepts a counter twice, from its HELLO (counter 0) through
    pre-JOIN packets and the JOIN to the joined peer's packets; and a peer accepts a
    counter exactly if it is less than 64 behind the highest and its life has not accepted it.
   */
  lemma LifeIsExact(cookieOf: CookieOf, events: seq<Event>, session: Session, counter: nat)
    requires IsRun(START, cookieOf, events)
    ensures var w := After(START, cookieOf, events);
      && Once(w.log)
      && (IsPeer(w.peers, session) ==>
            var window, life := w.peers[PlaceOf(session)].window, LifeAt(w, InPeer(PlaceOf(session)));
            && (Accept(window, counter).ok <==>
                  (counter > window.highest || window.Recent(counter)) && Mark(life, counter) !in w.log)
            && Mark(life, window.highest) in w.log
            && forall m :: m in w.log && m.life == life ==> m.counter <= window.highest)
  {
    RunKeeps(START, cookieOf, events);
    var w := After(START, cookieOf, events);
    if IsPeer(w.peers, session) {
      var h := InPeer(PlaceOf(session));
      var window, life := w.peers[PlaceOf(session)].window, LifeAt(w, h);
      assert Recorded(w, h);
      AcceptTracks(window, counter, Of(w.log, life));
      forall m | m in w.log && m.life == life ensures m.counter in Of(w.log, life) {
      }
      forall c | c in Of(w.log, life) ensures Mark(life, c) in w.log {
        var i :| 0 <= i < |w.log| && w.log[i].life == life && w.log[i].counter == c;
        assert w.log[i] == Mark(life, c);
      }
    }
  }

  /** Within the cookie's time, before the 32-bit clock overflows in 2106. */
  predicate InTime(start: Time, now: Time) {
    start <= now < start + COOKIE_TTL - SECOND && start + COOKIE_TTL < TWO_32 * SECOND
  }

  lemma ExpiryInTime(start: Time, now: Time)
    requires InTime(start, now)
    ensures var expiresAt := Unix32(start + COOKIE_TTL); expiresAt * SECOND > now && Unix32(now) <= expiresAt
  {
    var t := start + COOKIE_TTL;
    assert t == Unix(t) * SECOND + t % SECOND && now == Unix(now) * SECOND + now % SECOND;
    assert Unix(t) < TWO_32 && Unix(now) <= Unix(t);
  }

  /**
    The limit of this is the life of the window: whatever the joined peer of a session has
    accepted, a new HELLO of the same session, where none is pending, and a JOIN that
    presents its challenge in time accept any counter from 1 on.
   */
  lemma NewHelloRestarts(s: Pending, cookieOf: CookieOf, session: Session, start: Time, now: Time, counter: nat)
    requires session.sessionID != 0 && session !in s.provisional && |s.provisional| < MAX_PROVISIONAL
    requires s == Cleanup(s, now) && InTime(start, now) && counter >= 1
    ensures var outcome := HelloVerdict(s, cookieOf, session, 0, true, start, now);
      && outcome.Issued?
      && var presented := Some(Presented(outcome.challenge.expiresAt, outcome.challenge.cookie));
      Consume(Hello(s, now, outcome), cookieOf, session, presented, counter, JoinClock(now, now, now)).1.Some?
  {
    ExpiryInTime(start, now);
    var after := Hello(s, now, HelloVerdict(s, cookieOf, session, 0, true, start, now));
    CleanKept(s, after, now);
  }

  lemma CleanKept(s: Pending, after: Pending, now: Time)
    requires s == Cleanup(s, now)
    requires forall c :: c in after.challenges && c !in s.challenges ==> after.challenges[c] > now
    requires forall c :: c in after.challenges && c in s.challenges ==>
               after.challenges[c] == s.challenges[c] || after.challenges[c] > now
    requires forall k :: k in after.provisional && k !in s.provisional ==> after.provisional[k].expires > now
    requires forall k :: k in after.provisional && k in s.provisional ==> after.provisional[k] == s.provisional[k]
    ensures Cleanup(after, now) == after
  {
    assert forall c :: c in Cleanup(s, now).challenges ==> s.challenges[c] > now;
    assert forall k :: k in Cleanup(s, now).provisional ==> s.provisional[k].expires > now;
    assert Cleanup(after, now).challenges == after.challenges;
    assert Cleanup(after, now).provisional == after.provisional;
  }
}
