/**
  What a revocation command's acknowledgement is worth: while its entry lives, every
  duplicate gets the identical acknowledgement and its deny rule is installed. Without
  restarts this holds however commands interleave; across crashes and restarts it depends
  on what is renamed over the state file.
 */
module Durability {
  import opened Common
  import opened ServiceAdmission
  import opened CommandCache
  import opened CommandMachine

  /** What an acknowledgement says about the deny rules: before the deadline the rule is installed. */
  ghost predicate Enforces(s: AdmissionState, clock: Time, body: Command, ack: Ack) {
    && ack.denyUntil == body.denyUntil
    && (ack.outcome.Applied? && clock < body.Deadline() ==> RuleHolds(s, body.target, body.Deadline()))
  }

  ghost predicate EntryEnforced(s: AdmissionState, clock: Time, e: Entry) {
    e.ack.Some? ==>
      && e.body.Valid() && Enforces(s, clock, e.body, e.ack.value)
      && (e.ack.value.outcome.Applied? ==> e.expiresAt >= e.body.Deadline())
  }

  ghost predicate ExecEnforced(s: AdmissionState, clock: Time, x: Exec) {
    x.phase.Decided? ==> Enforces(s, clock, x.body, x.phase.ack)
  }

  /** Every published or decided acknowledgement is enforced. */
  ghost predicate Enforced(w: World) {
    && (forall k :: k in w.link.cache ==> EntryEnforced(w.admission, w.clock, w.link.cache[k]))
    && (forall id :: id in w.execs ==> ExecEnforced(w.admission, w.clock, w.execs[id]))
  }

  ghost predicate RulesOk(s: AdmissionState) {
    s.Bounded() && AllCanonical(s)
  }

  /** The receipt's entry is there, with its acknowledgement, at least as long as it said. */
  ghost predicate Kept(cache: Cache, r: Receipt) {
    && r.key in cache && cache[r.key].completed && cache[r.key].body == r.body
    && cache[r.key].ack == Some(r.ack) && Unix(cache[r.key].expiresAt) >= r.until
  }

  /** Without a restart it is there exactly as long. */
  ghost predicate Timed(w: World) {
    forall r :: r in w.receipts && r.until > Unix(w.clock) && r.key in w.link.cache ==>
      Unix(w.link.cache[r.key].expiresAt) == r.until
  }

  ghost predicate Honoured(w: World) {
    forall r :: r in w.receipts ==>
      && r.ack.denyUntil == r.body.denyUntil
      && (r.ack.outcome.Applied? ==> r.until >= r.body.denyUntil)
      && (r.until > Unix(w.clock) ==> Kept(w.link.cache, r))
  }

  ghost predicate Faithful(w: World) {
    Owned(w) && RulesOk(w.admission) && Enforced(w) && Honoured(w)
  }

  /** Later states of the rules still enforce what earlier ones did. */
  ghost predicate Carries(w: World, t: World) {
    && w.clock <= t.clock
    && (forall body: Command :: t.clock < body.Deadline() && RuleHolds(w.admission, body.target, body.Deadline()) ==>
          RuleHolds(t.admission, body.target, body.Deadline()))
  }

  /** The section of the admission state that a step runs, if any. */
  function SectionOf(w: World, step: Step): Option<(Op, Time)> {
    match step
    case AdmissionSection(op, now) => Some((op, now))
    case DecideStep(id, now, _, _, _) =>
      if id in w.execs then Some((DoInstall(w.execs[id].body.target, w.execs[id].body.Deadline()), now)) else None
    case ReadRulesStep(id) => if id in w.execs then Some((DoCheck, w.execs[id].now)) else None
    case _ => None
  }

  lemma SectionRuns(w: World, step: Step)
    requires Enabled(w, step) && Owned(w) && !step.Restart?
    ensures var section := SectionOf(w, step);
      && w.clock <= Next(w, step).clock
      && (section.None? ==> Next(w, step).admission == w.admission)
      && (section.Some? ==>
            && section.value.1 <= w.clock
            && Next(w, step).admission == ServiceAdmission.Step(w.admission, section.value.0, section.value.1))
  {
  }

  lemma CarriesStep(w: World, step: Step)
    requires Enabled(w, step) && Owned(w) && !step.Restart?
    ensures Carries(w, Next(w, step))
  {
    SectionRuns(w, step);
    var t, section := Next(w, step), SectionOf(w, step);
    forall body: Command | t.clock < body.Deadline() && RuleHolds(w.admission, body.target, body.Deadline())
      ensures RuleHolds(t.admission, body.target, body.Deadline())
    {
      if section.Some? {
        RulesSurvive(w.admission, section.value.0, section.value.1, body.target, body.Deadline());
      }
    }
  }

  lemma RulesOkStep(w: World, step: Step)
    requires Owned(w) && Enabled(w, step) && RulesOk(w.admission) && !step.Restart?
    ensures RulesOk(Next(w, step).admission)
  {
    SectionRuns(w, step);
    var section := SectionOf(w, step);
    if section.Some? {
      StepBounded(w.admission, section.value.0, section.value.1);
      CanonicalStep(w.admission, section.value.0, section.value.1);
    }
  }

  /** The entry at `k` was there before with the same acknowledgement. */
  ghost predicate OldAck(before: Cache, after: Cache, k: CommandKey) {
    k in before && k in after && after[k].(completed := false) == before[k].(completed := false)
  }

  predicate Publishes(w: World, step: Step, k: CommandKey) {
    step.PublishStep? && step.id in w.execs && w.execs[step.id].key == k
  }

  /** Only publishing puts an acknowledgement into the cache. */
  lemma AckIsOld(w: World, step: Step, k: CommandKey)
    requires Owned(w) && Enabled(w, step) && !step.Restart? && !Publishes(w, step, k)
    requires k in Next(w, step).link.cache && Next(w, step).link.cache[k].ack.Some?
    ensures OldAck(w.link.cache, Next(w, step).link.cache, k)
  {
    if step.BeginStep? {
      BeginShape(w.link, step.key, step.body, step.now);
    } else if Ends(step) {
      assert Owns(w.link.cache, w.execs[step.id], step.id);
    }
  }

  /** Only deciding puts an executor into the phase with a decided acknowledgement. */
  lemma DecidedIsOld(w: World, step: Step, id: nat)
    requires Owned(w) && Enabled(w, step) && !step.DecideStep?
    requires id in Next(w, step).execs && Next(w, step).execs[id].phase.Decided?
    ensures id in w.execs && Next(w, step).execs[id] == w.execs[id]
  {
    if step.BeginStep? && BeginVerdict(w.link, step.key, step.body, step.now).Execute? {
      assert id != w.link.next;
    } else if Moves(step) || Ends(step) {
      assert id != step.id;
    }
  }

  lemma EntriesEnforced(w: World, step: Step, k: CommandKey)
    requires Owned(w) && Enforced(w) && Enabled(w, step) && !step.Restart?
    requires k in Next(w, step).link.cache
    ensures EntryEnforced(Next(w, step).admission, Next(w, step).clock, Next(w, step).link.cache[k])
  {
    CarriesStep(w, step);
    if Publishes(w, step, k) {
      var x := w.execs[step.id];
      assert Owns(w.link.cache, x, step.id) && ExecEnforced(w.admission, w.clock, x);
    } else if Next(w, step).link.cache[k].ack.Some? {
      AckIsOld(w, step, k);
      assert EntryEnforced(w.admission, w.clock, w.link.cache[k]);
    }
  }

  lemma ExecsEnforced(w: World, step: Step, id: nat)
    requires Owned(w) && Enforced(w) && Enabled(w, step) && !step.Restart?
    requires id in Next(w, step).execs
    ensures ExecEnforced(Next(w, step).admission, Next(w, step).clock, Next(w, step).execs[id])
  {
    CarriesStep(w, step);
    if step.DecideStep? && id == step.id {
      var body := w.execs[id].body;
      assert body.Deadline() > step.now ==> RuleHolds(Next(w, step).admission, body.target, body.Deadline());
    } else if step.DecideStep? {
      assert ExecEnforced(w.admission, w.clock, w.execs[id]);
    } else {
      if Next(w, step).execs[id].phase.Decided? {
        DecidedIsOld(w, step, id);
        assert ExecEnforced(w.admission, w.clock, w.execs[id]);
      }
    }
  }

  lemma EnforcedStep(w: World, step: Step)
    requires Owned(w) && Enforced(w) && Enabled(w, step) && !step.Restart?
    ensures Enforced(Next(w, step))
  {
    var t := Next(w, step);
    forall k | k in t.link.cache
      ensures EntryEnforced(t.admission, t.clock, t.link.cache[k])
    {
      EntriesEnforced(w, step, k);
    }
    forall id | id in t.execs
      ensures ExecEnforced(t.admission, t.clock, t.execs[id])
    {
      ExecsEnforced(w, step, id);
    }
  }

  /** A completed entry that has not expired by the clock is left alone. */
  lemma CompletedStay(w: World, step: Step, k: CommandKey)
    requires Owned(w) && Enabled(w, step) && !step.Restart?
    requires k in w.link.cache && w.link.cache[k].completed && Unix(w.link.cache[k].expiresAt) > Unix(w.clock)
    ensures k in Next(w, step).link.cache && Next(w, step).link.cache[k] == w.link.cache[k]
  {
    if step.PublishStep? || Ends(step) {
      assert Owns(w.link.cache, w.execs[step.id], step.id);
    }
  }

  /** A receipt handed out by a step belongs to an entry that is completed then. */
  lemma NewReceipt(w: World, step: Step, r: Receipt)
    requires Owned(w) && Enabled(w, step) && r in Next(w, step).receipts && r !in w.receipts
    ensures Kept(Next(w, step).link.cache, r) && Unix(Next(w, step).link.cache[r.key].expiresAt) == r.until
  {
    if step.BeginStep? {
      BeginShape(w.link, step.key, step.body, step.now);
    } else if Ends(step) {
      assert Owns(w.link.cache, w.execs[step.id], step.id);
    }
  }

  lemma HonouredStep(w: World, step: Step)
    requires Owned(w) && Enforced(w) && Honoured(w) && Enabled(w, step) && !step.Restart?
    ensures Honoured(Next(w, step))
  {
    var t := Next(w, step);
    assert w.clock <= t.clock;
    EnforcedStep(w, step);
    forall r | r in t.receipts
      ensures r.ack.denyUntil == r.body.denyUntil
      ensures r.ack.outcome.Applied? ==> r.until >= r.body.denyUntil
      ensures r.until > Unix(t.clock) ==> Kept(t.link.cache, r)
    {
      if r in w.receipts {
        if r.until > Unix(t.clock) {
          CompletedStay(w, step, r.key);
        }
      } else {
        NewReceipt(w, step, r);
        assert EntryEnforced(t.admission, t.clock, t.link.cache[r.key]);
      }
    }
  }

  lemma TimedStep(w: World, step: Step)
    requires Owned(w) && Honoured(w) && Timed(w) && Enabled(w, step) && !step.Restart?
    ensures Timed(Next(w, step))
  {
    var t := Next(w, step);
    assert w.clock <= t.clock;
    forall r | r in t.receipts && r.until > Unix(t.clock) && r.key in t.link.cache
      ensures Unix(t.link.cache[r.key].expiresAt) == r.until
    {
      if r in w.receipts {
        assert Kept(w.link.cache, r);
        CompletedStay(w, step, r.key);
      } else {
        NewReceipt(w, step, r);
      }
    }
  }

  lemma FaithfulStep(w: World, step: Step)
    requires Faithful(w) && Enabled(w, step) && !step.Restart?
    ensures Faithful(Next(w, step))
  {
    OwnedStep(w, step);
    RulesOkStep(w, step);
    EnforcedStep(w, step);
    HonouredStep(w, step);
  }

  ghost predicate NoRestart(steps: seq<Step>) {
    forall s :: s in steps ==> !s.Restart?
  }

  lemma {:induction false} FaithfulRun(w: World, steps: seq<Step>)
    requires Faithful(w) && IsRun(w, steps) && NoRestart(steps)
    ensures Faithful(After(w, steps))
    decreases steps
  {
    if steps != [] {
      FaithfulStep(w, steps[0]);
      FaithfulRun(Next(w, steps[0]), steps[1..]);
    }
  }

  lemma {:induction false} TimedRun(w: World, steps: seq<Step>)
    requires Faithful(w) && Timed(w) && IsRun(w, steps) && NoRestart(steps)
    ensures Timed(After(w, steps))
    decreases steps
  {
    if steps != [] {
      FaithfulStep(w, steps[0]);
      TimedStep(w, steps[0]);
      TimedRun(Next(w, steps[0]), steps[1..]);
    }
  }

  /** A duplicate arriving now is answered with the receipt's acknowledgement, and the rule is in force. */
  ghost predicate Redeemable(w: World, r: Receipt) {
    && (r.until > Unix(w.clock) ==> BeginVerdict(w.link, r.key, r.body, w.clock) == Cached(r.ack))
    && (r.ack.outcome.Applied? && w.clock < r.body.Deadline() ==>
          RuleHolds(w.admission, r.body.target, r.body.Deadline()))
  }

  lemma FaithfulRedeems(w: World, r: Receipt)
    requires Faithful(w) && r in w.receipts
    ensures Redeemable(w, r)
  {
    if r.until > Unix(w.clock) {
      assert Kept(w.link.cache, r) && EntryEnforced(w.admission, w.clock, w.link.cache[r.key]);
    } else if r.ack.outcome.Applied? {
      assert w.clock >= r.until * SECOND;
    }
  }

  /**
    While the relay runs, in every interleaving: a duplicate of an acknowledged command is
    answered with the identical acknowledgement for as long as its entry lives, all
    receipts of a living entry agree, and an applied command's rule is in force until its
    deadline.
   */
  lemma AcknowledgementsHold(steps: seq<Step>, r: Receipt, q: Receipt)
    requires IsRun(INITIAL, steps) && NoRestart(steps)
    requires r in After(INITIAL, steps).receipts && q in After(INITIAL, steps).receipts
    ensures var w := After(INITIAL, steps);
      && Redeemable(w, r)
      && (r.key == q.key && r.until > Unix(w.clock) && q.until > Unix(w.clock) ==> r == q)
  {
    FaithfulRun(INITIAL, steps);
    TimedRun(INITIAL, steps);
    FaithfulRedeems(After(INITIAL, steps), r);
  }
}
