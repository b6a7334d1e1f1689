/**
  The packet handler section by section (handlePacket of main.go), with cleanup ticks and
  revocations between any two of its sections. The handler is one thread: its program
  counter says which packet it is at and what it has checked. Without a rebinding, the one
  guard that an interruption can break is that of the grant after a PTT_ON's check.
 */
module FloorInterleaved {
  import opened Common
  import opened ServiceAdmission
  import opened Membership
  import opened Floor
  import opened FloorRun
  import opened FloorPackets

  datatype Pc =
    | Idle
    | Entered(p: Packet)      // memberships expired
    | Joined(p: Packet)       // peer created
    | Bearing(p: Packet)      // admission attached, if the JOIN has one
    | Accepted(p: Packet)     // endpoint known, or membership started
    | Timed(p: Packet)        // late talks ended
    | Checked(p: Packet)      // peerAllowsTalk passed
    | Refreshed(p: Packet)    // lease extended, floor still to be taken or released
    | Requested(p: Packet)    // floor request decided, lease still to be extended
    | Released(p: Packet)     // LEAVE: talk ended, peer still to be removed

  datatype World = World(ch: Channel, pc: Pc)

  const START := World(EMPTY_CHANNEL, Idle)

  /** A section, if the step has one, and where the handler is afterwards. */
  datatype Step = Outside(section: Section) | Handler(move: Option<Section>, next: Pc)

  function Refresh(p: Packet): Section {
    RefreshLease(p.sender, p.address, p.clock.refresh)
  }

  predicate MayTalk(ch: Channel, config: Config, p: Packet) {
    Carries(ch.peers, p.sender, p.address) && AllowsTalk(ch.peers[p.address], config.identityRequired, p.clock.allow)
  }

  /** What the handler may do next. A check that fails ends the packet. */
  ghost predicate Advances(w: World, config: Config, s: Option<Section>, next: Pc) {
    match w.pc
    case Idle => next.Entered? && next.p.sender != 0 && s == Some(ExpireMembers(next.p.clock.expire))
    case Entered(p) => (s.None? && next.Idle?) || (p.accepted && Dispatches(w.ch, config, p, s, next))
    case Joined(p) =>
      if p.identity.None? && p.service.None? then s.None? && next == Bearing(p)
      else if p.attached then s == Some(AttachTo(p.sender, p.address, p.identity, p.service)) && next == Bearing(p)
      else s.None? && next.Idle?
    case Bearing(p) =>
      && s == Some(StartLease(p.sender, p.address, p.clock.start))
      && next == if Carries(w.ch.peers, p.sender, p.address) then Accepted(p) else Idle
    case Accepted(p) => s == Some(ExpireTalkers(p.clock.talk)) && next == if p.kind.JoinPacket? then Idle else Timed(p)
    case Timed(p) => Handles(w.ch, config, p, s, next)
    case Checked(p) => s == Some(Refresh(p)) && next == if p.kind.PttOnPacket? then Refreshed(p) else Idle
    case Refreshed(p) =>
      && next.Idle?
      && s == Some(if p.kind.PttOnPacket? then TakeFloor(p.sender, p.clock.floor) else ReleaseFloor(p.sender))
    case Requested(p) => s == Some(Refresh(p)) && next.Idle?
    case Released(p) =>
      && next.Idle?
      && if s.None? then !HasPeer(w.ch.peers, p.sender)
         else s.value.Depart? && s.value.sender == p.sender && s.value.address == p.address
  }

  ghost predicate Dispatches(ch: Channel, config: Config, p: Packet, s: Option<Section>, next: Pc) {
    match p.kind
    case JoinPacket => s == Some(JoinAs(p.sender, p.address)) && next == Joined(p)
    case MediaPacket => s.None? && next == Checked(p) && p.sender in ch.talkers && MayTalk(ch, config, p)
    case ProofPacket => p.attached && s == Some(AttachTo(p.sender, p.address, p.identity, p.service)) && next.Idle?
    case _ => s.None? && next == Accepted(p) && Carries(ch.peers, p.sender, p.address)
  }

  ghost predicate Handles(ch: Channel, config: Config, p: Packet, s: Option<Section>, next: Pc) {
    match p.kind
    case LeavePacket => s == Some(ReleaseFloor(p.sender)) && next == Released(p)
    case KeepalivePacket => s == Some(Refresh(p)) && next.Idle?
    case CodecPacket => s == Some(Refresh(p)) && next.Idle?
    case PttOnPacket => s.None? && next == if MayTalk(ch, config, p) then Checked(p) else Idle
    case PttOffPacket => s == Some(Refresh(p)) && next == Refreshed(p)
    case PttRequestPacket(prio, grant) =>
      && s == Some(RequestFloor(p.sender, p.address, p.clock.floor, prio, grant))
      && next == if grant.Unauthorized? then Idle else Requested(p)
    case _ => s.None? && next.Idle?
  }

  function SectionOf(step: Step): Option<Section> {
    match step
    case Outside(s) => Some(s)
    case Handler(s, _) => s
  }

  ghost predicate CanStep(w: World, config: Config, step: Step) {
    && (SectionOf(step).Some? ==> Enabled(w.ch, config, SectionOf(step).value))
    && match step
       case Outside(s) => s.SweepChannel? || s.Evict?
       case Handler(s, next) => Advances(w, config, s, next)
  }

  ghost function Then(w: World, config: Config, step: Step): World
    requires CanStep(w, config, step)
  {
    World(if SectionOf(step).Some? then Next(w.ch, config, SectionOf(step).value) else w.ch,
          if step.Handler? then step.next else w.pc)
  }

  // Guards.

  /** Between the check and the grant of a PTT_ON. */
  predicate InWindow(pc: Pc) {
    (pc.Checked? || pc.Refreshed?) && pc.p.kind.PttOnPacket?
  }

  /** The endpoint's peer, if it has one, is the JOIN's sender's. */
  predicate BindsOnce(w: World, step: Step) {
    step.Handler? && step.move.Some? && step.move.value.JoinAs? && step.move.value.address in w.ch.peers ==>
      w.ch.peers[step.move.value.address].sender == step.move.value.sender
  }

  /** A tick or revocation between a PTT_ON's check and its grant leaves the sender a peer. */
  ghost predicate Leaves(w: World, config: Config, step: Step)
    requires CanStep(w, config, step)
  {
    step.Outside? && InWindow(w.pc) ==> HasPeer(Then(w, config, step).ch.peers, w.pc.p.sender)
  }

  ghost predicate StepGuarded(w: World, config: Config, step: Step)
    requires CanStep(w, config, step)
  {
    SectionOf(step).Some? ==> Guard(w.ch, config, SectionOf(step).value)
  }

  /** What the handler may rely on although others run between its sections. */
  predicate Steady(w: World) {
    w.pc.Released? ==> w.pc.p.sender !in w.ch.talkers
  }

  ghost predicate Backed(w: World) {
    InWindow(w.pc) ==> HasPeer(w.ch.peers, w.pc.p.sender)
  }

  lemma OutsideEndsTalks(ch: Channel, config: Config, s: Section)
    requires Enabled(ch, config, s) && (s.SweepChannel? || s.Evict?)
    ensures Next(ch, config, s).talkers.Keys <= ch.talkers.Keys
  {
  }

  lemma SteadyStep(w: World, config: Config, step: Step)
    requires Steady(w) && CanStep(w, config, step)
    ensures Steady(Then(w, config, step))
  {
    if step.Outside? {
      OutsideEndsTalks(w.ch, config, step.section);
    } else if step.next.Released? {
      assert w.pc.Timed? && w.pc.p.kind.LeavePacket?;
    }
  }

  lemma RefreshKeepsPeer(ch: Channel, config: Config, p: Packet)
    requires HasPeer(ch.peers, p.sender)
    ensures HasPeer(Next(ch, config, Refresh(p)).peers, p.sender)
  {
    var a :| a in ch.peers && ch.peers[a].sender == p.sender;
    assert a in Next(ch, config, Refresh(p)).peers && Next(ch, config, Refresh(p)).peers[a].sender == p.sender;
  }

  lemma BackedStep(w: World, config: Config, step: Step)
    requires Backed(w) && CanStep(w, config, step) && Leaves(w, config, step)
    ensures Backed(Then(w, config, step))
  {
    if step.Handler? && InWindow(step.next) {
      if step.next.Refreshed? {
        RefreshKeepsPeer(w.ch, config, w.pc.p);
      }
    }
  }

  /**
    Whatever runs between the handler's sections: without a rebinding every section meets its
    guard, but for the grant of a PTT_ON, which meets it if it is no grant or finds a peer.
   */
  lemma OnlyGrantsFail(w: World, config: Config, step: Step)
    requires Steady(w) && CanStep(w, config, step) && BindsOnce(w, step)
    ensures StepGuarded(w, config, step) || (w.pc.Refreshed? && InWindow(w.pc) && step.Handler?)
    ensures Backed(w) ==> StepGuarded(w, config, step)
  {
    if SectionOf(step).Some? {
      var s := SectionOf(step).value;
      if s.Depart? {
        assert w.pc.Released?;
      }
    }
  }

  // Runs.

  ghost predicate IsInterleaving(w: World, config: Config, steps: seq<Step>)
    decreases steps
  {
    steps == [] || (CanStep(w, config, steps[0]) && IsInterleaving(Then(w, config, steps[0]), config, steps[1..]))
  }

  ghost function End(w: World, config: Config, steps: seq<Step>): World
    requires IsInterleaving(w, config, steps)
    decreases steps
  {
    if steps == [] then w else End(Then(w, config, steps[0]), config, steps[1..])
  }

  ghost predicate AllBindOnce(w: World, config: Config, steps: seq<Step>)
    requires IsInterleaving(w, config, steps)
    decreases steps
  {
    steps == [] || (BindsOnce(w, steps[0]) && AllBindOnce(Then(w, config, steps[0]), config, steps[1..]))
  }

  ghost predicate AllLeave(w: World, config: Config, steps: seq<Step>)
    requires IsInterleaving(w, config, steps)
    decreases steps
  {
    steps == [] || (Leaves(w, config, steps[0]) && AllLeave(Then(w, config, steps[0]), config, steps[1..]))
  }

  function SectionsOf(steps: seq<Step>): seq<Section> {
    if steps == [] then [] else
    (if SectionOf(steps[0]).Some? then [SectionOf(steps[0]).value] else []) + SectionsOf(steps[1..])
  }

  lemma {:induction false} InterleavingGuarded(w: World, config: Config, steps: seq<Step>)
    requires IsInterleaving(w, config, steps) && AllBindOnce(w, config, steps) && AllLeave(w, config, steps)
    requires Steady(w) && Backed(w)
    ensures var run := SectionsOf(steps);
      IsRun(w.ch, config, run) && Guarded(w.ch, config, run) && After(w.ch, config, run) == End(w, config, steps).ch
    decreases steps
  {
    if steps != [] {
      var t := Then(w, config, steps[0]);
      OnlyGrantsFail(w, config, steps[0]);
      SteadyStep(w, config, steps[0]);
      BackedStep(w, config, steps[0]);
      InterleavingGuarded(t, config, steps[1..]);
      if SectionOf(steps[0]).Some? {
        Cons(w.ch, config, SectionOf(steps[0]).value, SectionsOf(steps[1..]));
      } else {
        assert [] + SectionsOf(steps[1..]) == SectionsOf(steps[1..]);
      }
    }
  }

  /**
    From an empty channel, with ticks and revocations between any sections of the packets: if
    no endpoint rebinds, and what comes between a PTT_ON's check and its grant leaves the
    sender a peer, then every talker has a peer, the talkers stay within the limit, no talk
    is dropped with the channel, and talk_started and talk_ended strictly alternate.
   */
  lemma InterleavedFloorIsSafe(config: Config, steps: seq<Step>, sender: uint32)
    requires IsInterleaving(START, config, steps)
    requires AllBindOnce(START, config, steps) && AllLeave(START, config, steps)
    ensures var run, ch := SectionsOf(steps), End(START, config, steps).ch;
      && Owned(ch) && |ch.talkers| <= config.Limit() <= MAX_ACTIVE_TALKERS && 0 !in ch.talkers
      && IsRun(EMPTY_CHANNEL, config, run)
      && var told := Events(EMPTY_CHANNEL, config, run, sender);
      && Alternates(told, false) && (sender in ch.talkers <==> told != [] && told[|told| - 1])
  {
    InterleavingGuarded(START, config, steps);
    RunOwned(EMPTY_CHANNEL, config, SectionsOf(steps));
    RunBounded(EMPTY_CHANNEL, config, SectionsOf(steps));
    EventsAlternate(EMPTY_CHANNEL, config, SectionsOf(steps), sender);
  }
}
