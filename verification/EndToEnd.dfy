/**
  A revocation from the command to the members, across crashes. The command machine and the
  membership machine run side by side on one clock and one admission state: a step of the
  relay is a step of either or of both. A command publishes its acknowledgement only after
  its eviction section; a crash forgets the members and restores the rules from the file.
 */
module EndToEnd {
  import opened Common
  import opened ServiceAdmission
  import opened Membership
  import opened CommandCache
  import C = CommandMachine
  import D = Durability
  import P = Restart
  import R = Revocation

  datatype Relay = Relay(commands: C.World, members: R.World)

  datatype Step =
    | Runs(command: Option<C.Step>, member: Option<R.Step>)
    | Crashes(now: Time)

  function RevokeOf(body: Command): R.Revoke {
    R.Revoke(body.target, body.Deadline())
  }

  ghost function Commands(r: Relay, step: Step): C.World
    requires step.Runs? && step.command.Some? ==> C.Enabled(r.commands, step.command.value)
    requires step.Crashes? ==> C.Enabled(r.commands, C.Restart(step.now))
  {
    match step
    case Runs(command, _) => if command.Some? then C.Next(r.commands, command.value) else r.commands
    case Crashes(now) => C.Next(r.commands, C.Restart(now))
  }

  /** The revocations whose acknowledgement and rule the file gave back. */
  ghost function Restored(c: C.World): set<R.Revoke> {
    set k | k in c.link.cache && P.Live(c.link.cache[k], c.clock) && c.link.cache[k].ack.value.outcome.Applied?
            && RuleHolds(c.admission, c.link.cache[k].body.target, c.link.cache[k].body.Deadline()) ::
      RevokeOf(c.link.cache[k].body)
  }

  ghost function Members(r: Relay, step: Step): R.World
    requires step.Runs? && step.member.Some? ==> R.Enabled(r.members, step.member.value)
    requires step.Crashes? ==> C.Enabled(r.commands, C.Restart(step.now))
  {
    match step
    case Runs(_, member) => if member.Some? then R.Next(r.members, member.value) else r.members
    case Crashes(now) =>
      var c := C.Next(r.commands, C.Restart(now));
      r.members.(clock := c.clock, admission := c.admission, channels := map[], handler := R.Idle,
                 installed := Restored(c), evicted := Restored(c))
  }

  /** One clock, one admission state. */
  predicate Agree(c: C.World, v: R.World) {
    c.clock == v.clock && c.admission == v.admission
  }

  /** handleRevocation completes a command after revokeManagedServiceAdmission has returned. */
  ghost predicate EvictsFirst(r: Relay, step: C.Step) {
    step.PublishStep? && step.id in r.commands.execs && r.commands.execs[step.id].phase.Decided? ==>
      var x := r.commands.execs[step.id];
      x.phase.ack.outcome.Applied? ==> RevokeOf(x.body) in r.members.evicted
  }

  ghost predicate CanStep(r: Relay, step: Step) {
    match step
    case Runs(command, member) =>
      && (command.Some? ==>
            C.Enabled(r.commands, command.value) && !command.value.Restart? && EvictsFirst(r, command.value)
            && P.Safe(r.commands, command.value))
      && (member.Some? ==> R.Enabled(r.members, member.value))
      && Agree(Commands(r, step), Members(r, step))
    case Crashes(now) => C.Enabled(r.commands, C.Restart(now))
  }

  ghost function Next(r: Relay, step: Step): Relay
    requires CanStep(r, step)
  {
    Relay(Commands(r, step), Members(r, step))
  }

  /** An acknowledgement in the cache was published after its eviction. */
  ghost predicate Evicted(c: C.World, v: R.World) {
    forall k :: k in c.link.cache && c.link.cache[k].ack.Some? && c.link.cache[k].ack.value.outcome.Applied?
                && c.clock < c.link.cache[k].body.Deadline() ==>
      RevokeOf(c.link.cache[k].body) in v.evicted
  }

  ghost predicate Inv(r: Relay) {
    && Agree(r.commands, r.members) && Evicted(r.commands, r.members)
    && P.Sound(r.commands) && P.DiskOk(r.commands)
    && R.Guarded(r.members) && R.OneAdmission(r.members)
  }

  lemma EvictedGrows(v: R.World, step: R.Step)
    requires R.Enabled(v, step)
    ensures v.evicted <= R.Next(v, step).evicted
  {
  }

  lemma CommandKeeps(r: Relay, step: C.Step, v: R.World)
    requires Inv(r) && C.Enabled(r.commands, step) && !step.Restart? && EvictsFirst(r, step)
    requires r.members.evicted <= v.evicted
    ensures Evicted(C.Next(r.commands, step), v)
  {
    var c, t := r.commands, C.Next(r.commands, step);
    D.SectionRuns(c, step);
    forall k | k in t.link.cache && t.link.cache[k].ack.Some? && t.link.cache[k].ack.value.outcome.Applied?
               && t.clock < t.link.cache[k].body.Deadline()
      ensures RevokeOf(t.link.cache[k].body) in v.evicted
    {
      if D.Publishes(c, step, k) {
        assert C.Owns(c.link.cache, c.execs[step.id], step.id);
      } else {
        D.AckIsOld(c, step, k);
      }
    }
  }

  lemma RunsKeeps(r: Relay, step: Step)
    requires Inv(r) && CanStep(r, step) && step.Runs?
    ensures Inv(Next(r, step))
  {
    var v := Members(r, step);
    if step.member.Some? {
      EvictedGrows(r.members, step.member.value);
      R.GuardedStep(r.members, step.member.value);
      R.OneAdmissionStep(r.members, step.member.value);
    }
    if step.command.Some? {
      CommandKeeps(r, step.command.value, v);
      P.DurableStep(r.commands, step.command.value);
    }
  }

  lemma RestoredGuarded(r: Relay, now: Time)
    requires R.OneAdmission(r.members) && C.Enabled(r.commands, C.Restart(now))
    ensures var v := Members(r, Crashes(now)); R.Guarded(v) && R.OneAdmission(v)
  {
  }

  lemma CrashKeeps(r: Relay, now: Time)
    requires Inv(r) && CanStep(r, Crashes(now))
    ensures Inv(Next(r, Crashes(now)))
  {
    var crash := C.Restart(now);
    var c := C.Next(r.commands, crash);
    P.RestartDurable(r.commands, crash);
    RestoredGuarded(r, now);
    forall k | k in c.link.cache && c.link.cache[k].ack.Some? && c.link.cache[k].ack.value.outcome.Applied?
               && c.clock < c.link.cache[k].body.Deadline()
      ensures RevokeOf(c.link.cache[k].body) in Restored(c)
    {
      assert D.EntryEnforced(c.admission, c.clock, c.link.cache[k]);
      assert P.Live(c.link.cache[k], c.clock);
    }
  }

  ghost predicate Initial(r: Relay) {
    r.commands == C.INITIAL && R.Initial(r.members) && r.members.clock == 0
  }

  ghost predicate IsRun(r: Relay, steps: seq<Step>)
    decreases steps
  {
    steps == [] || (CanStep(r, steps[0]) && IsRun(Next(r, steps[0]), steps[1..]))
  }

  ghost function After(r: Relay, steps: seq<Step>): Relay
    requires IsRun(r, steps)
    decreases steps
  {
    if steps == [] then r else After(Next(r, steps[0]), steps[1..])
  }

  lemma {:induction false} RunKeeps(r: Relay, steps: seq<Step>)
    requires Inv(r) && IsRun(r, steps)
    ensures Inv(After(r, steps))
    decreases steps
  {
    if steps != [] {
      if steps[0].Crashes? {
        CrashKeeps(r, steps[0].now);
      } else {
        RunsKeeps(r, steps[0]);
      }
      RunKeeps(Next(r, steps[0]), steps[1..]);
    }
  }

  lemma AcknowledgedEvicted(r: Relay, receipt: C.Receipt)
    requires Inv(r) && receipt in r.commands.receipts && receipt.ack.outcome.Applied?
    requires r.commands.clock < receipt.body.Deadline()
    ensures RevokeOf(receipt.body) in r.members.evicted
  {
    assert receipt.until >= receipt.body.denyUntil > Unix(r.commands.clock);
    assert D.Kept(r.commands.link.cache, receipt);
  }

  /**
    Once a command has been acknowledged as applied, then until its deadline, in every
    interleaving of commands, packets, sweeps and safe renames, and across any number of
    crashes and restarts, no peer of its channel carries a service admission it revokes.
   */
  lemma AcknowledgedRevocationHolds(r: Relay, steps: seq<Step>, receipt: C.Receipt, address: Address)
    requires Initial(r) && IsRun(r, steps)
    ensures var end := After(r, steps);
      var peers := end.members.PeersOf(receipt.body.target.channelID);
      && receipt in end.commands.receipts && receipt.ack.outcome.Applied?
      && end.commands.clock < receipt.body.Deadline() && address in peers && peers[address].service.Some? ==>
        !receipt.body.target.Matches(receipt.body.target.channelID, peers[address].service.value)
  {
    RunKeeps(r, steps);
    var end := After(r, steps);
    if receipt in end.commands.receipts && receipt.ack.outcome.Applied?
       && end.commands.clock < receipt.body.Deadline() {
      AcknowledgedEvicted(end, receipt);
      assert R.Clear(end.members, RevokeOf(receipt.body));
    }
  }
}
