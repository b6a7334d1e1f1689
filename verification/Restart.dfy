/**
  The state file across crashes and restarts. persistState is not serialised: each command
  snapshots the rules, then the acknowledgements, and renames its file over the state file
  whenever it gets there. A rename is safe if every acknowledgement in the file has its rule
  there, and every other one that counts on the disk is in the file; then all receipts stay
  good. A rename that is not safe has a continuation that loses one.
 */
module Restart {
  import opened Common
  import opened ServiceAdmission
  import opened CommandCache
  import opened CommandMachine
  import opened Durability

  // The rules of every file fit, whatever happens.

  ghost predicate RulesFit(rules: map<DenyRule, nat>) {
    |rules| <= MAX_DENY_RULES && forall r :: r in rules ==> r.Canonical()
  }

  ghost predicate PhaseFits(phase: Phase) {
    match phase
    case RulesRead(_, rules) => RulesFit(rules)
    case Snapshot(_, file) => RulesFit(file.rules)
    case _ => true
  }

  ghost predicate Fit(w: World) {
    && RulesOk(w.admission) && RulesFit(w.disk.rules)
    && forall id :: id in w.execs ==> PhaseFits(w.execs[id].phase)
  }

  lemma ReadRulesFit(w: World, step: Step)
    requires Owned(w) && Fit(w) && step.ReadRulesStep? && Enabled(w, step)
    ensures PhaseFits(Next(w, step).execs[step.id].phase)
  {
    RulesOkStep(w, step);
    var denied := Next(w, step).admission.denied;
    MapSize(RuleSnapshot(denied), denied.Keys);
    assert |denied| == |denied.Keys|;
  }

  /** What a step does to the executors other than the one it moves, starts or ends. */
  lemma OtherExecs(w: World, step: Step, id: nat)
    requires Owned(w) && Enabled(w, step) && id in Next(w, step).execs
    ensures
      || (Moves(step) && id == step.id)
      || (id in w.execs && Next(w, step).execs[id] == w.execs[id])
      || Next(w, step).execs[id].phase.Running?
  {
  }

  lemma PhaseFitsStep(w: World, step: Step, id: nat)
    requires Owned(w) && Fit(w) && Enabled(w, step) && id in Next(w, step).execs
    ensures PhaseFits(Next(w, step).execs[id].phase)
  {
    OtherExecs(w, step, id);
    if Moves(step) && id == step.id {
      assert PhaseFits(w.execs[id].phase);
      if step.ReadRulesStep? {
        ReadRulesFit(w, step);
      }
    }
  }

  lemma DiskAfter(w: World, step: Step)
    requires Enabled(w, step)
    ensures Next(w, step).disk == if Renames(step) then w.execs[step.id].phase.file else w.disk
  {
  }

  lemma FitStep(w: World, step: Step)
    requires Owned(w) && Fit(w) && Enabled(w, step)
    ensures Fit(Next(w, step))
  {
    var t := Next(w, step);
    forall id | id in t.execs ensures PhaseFits(t.execs[id].phase) {
      PhaseFitsStep(w, step, id);
    }
    if !step.Restart? {
      RulesOkStep(w, step);
    }
    DiskAfter(w, step);
    if Renames(step) {
      assert PhaseFits(w.execs[step.id].phase);
    }
  }

  lemma {:induction false} FitRun(w: World, steps: seq<Step>)
    requires Owned(w) && Fit(w) && IsRun(w, steps)
    ensures Owned(After(w, steps)) && Fit(After(w, steps))
    decreases steps
  {
    if steps != [] {
      OwnedStep(w, steps[0]);
      FitStep(w, steps[0]);
      FitRun(Next(w, steps[0]), steps[1..]);
    }
  }

  lemma FitRestores(file: File, now: Time)
    requires RulesFit(file.rules)
    ensures Restorable(file, now) <==> forall k :: k in file.entries ==> file.entries[k].expiresAt > Unix(now)
  {
    MapSize(RestoredRules(file.rules, now), file.rules.Keys);
    assert |file.rules| == |file.rules.Keys|;
  }

  /** In every run, overlapping or not, a restart fails exactly when the file holds an expired acknowledgement. */
  lemma RestartsUnlessExpired(steps: seq<Step>, now: Time)
    requires IsRun(INITIAL, steps)
    ensures var w := After(INITIAL, steps);
      Restorable(w.disk, now) <==> forall k :: k in w.disk.entries ==> w.disk.entries[k].expiresAt > Unix(now)
  {
    FitRun(INITIAL, steps);
    FitRestores(After(INITIAL, steps).disk, now);
  }

  // What a file says of its own acknowledgements.

  ghost predicate PersistedSane(p: Persisted) {
    && p.body.Valid() && p.ack.denyUntil == p.body.denyUntil
    && (p.ack.outcome.Applied? ==> p.expiresAt >= p.body.denyUntil)
  }

  ghost predicate Sane(file: File) {
    forall k :: k in file.entries ==> PersistedSane(file.entries[k])
  }

  ghost predicate FilesSane(w: World) {
    && Sane(w.disk)
    && forall id :: id in w.execs && w.execs[id].phase.Snapshot? ==> Sane(w.execs[id].phase.file)
  }

  lemma ReadEntriesSane(w: World, step: Step)
    requires Owned(w) && Enforced(w) && step.ReadEntriesStep? && Enabled(w, step)
    ensures Sane(Next(w, step).execs[step.id].phase.file)
  {
    var file := Next(w, step).execs[step.id].phase.file;
    forall k | k in file.entries ensures PersistedSane(file.entries[k]) {
      assert EntryEnforced(w.admission, w.clock, w.link.cache[k]);
    }
  }

  lemma FileSaneStep(w: World, step: Step, id: nat)
    requires Owned(w) && Enforced(w) && FilesSane(w) && Enabled(w, step)
    requires id in Next(w, step).execs && Next(w, step).execs[id].phase.Snapshot?
    ensures Sane(Next(w, step).execs[id].phase.file)
  {
    OtherExecs(w, step, id);
    if step.ReadEntriesStep? && id == step.id {
      ReadEntriesSane(w, step);
    }
  }

  lemma FilesSaneStep(w: World, step: Step)
    requires Owned(w) && Enforced(w) && FilesSane(w) && Enabled(w, step)
    ensures FilesSane(Next(w, step))
  {
    var t := Next(w, step);
    forall id | id in t.execs && t.execs[id].phase.Snapshot? ensures Sane(t.execs[id].phase.file) {
      FileSaneStep(w, step, id);
    }
    DiskAfter(w, step);
    if Renames(step) {
      assert Sane(w.execs[step.id].phase.file);
    }
  }

  /** What every run keeps up to its first restart. */
  ghost predicate Sound(w: World) {
    Faithful(w) && Fit(w) && FilesSane(w)
  }

  lemma SoundStep(w: World, step: Step)
    requires Sound(w) && Enabled(w, step) && !step.Restart?
    ensures Sound(Next(w, step))
  {
    FaithfulStep(w, step);
    FitStep(w, step);
    FilesSaneStep(w, step);
  }

  lemma {:induction false} SoundRun(w: World, steps: seq<Step>)
    requires Sound(w) && IsRun(w, steps) && NoRestart(steps)
    ensures Sound(After(w, steps))
    decreases steps
  {
    if steps != [] {
      SoundStep(w, steps[0]);
      SoundRun(Next(w, steps[0]), steps[1..]);
    }
  }

  // What a file is worth in a world.

  ghost predicate RuleIn(rules: map<DenyRule, nat>, clock: Time, body: Command, ack: Ack) {
    ack.outcome.Applied? && clock < body.Deadline() ==>
      body.target.Rule() in rules && rules[body.target.Rule()] >= body.denyUntil
  }

  /** Every acknowledgement in the file comes with its deny rule. */
  ghost predicate RulesBack(file: File, clock: Time) {
    forall k :: k in file.entries ==> RuleIn(file.rules, clock, file.entries[k].body, file.entries[k].ack)
  }

  predicate Live(e: Entry, clock: Time) {
    e.ack.Some? && Unix(e.expiresAt) > Unix(clock)
  }

  /** The file has the entry's acknowledgement, for at least as long. */
  predicate Covered(file: File, k: CommandKey, e: Entry) {
    && e.ack.Some? && k in file.entries && file.entries[k].body == e.body
    && file.entries[k].ack == e.ack.value && file.entries[k].expiresAt >= Unix(e.expiresAt)
  }

  predicate Persisting(phase: Phase) {
    phase.Published? || phase.RulesRead? || phase.Snapshot?
  }

  /** The acknowledgement at `k` is published but its command has not yet written it. */
  ghost predicate Unwritten(w: World, k: CommandKey) {
    exists id :: id in w.execs && w.execs[id].key == k && StillUnwritten(w.execs[id].phase)
  }

  ghost predicate OnDisk(w: World, k: CommandKey, file: File) {
    k in w.link.cache && Live(w.link.cache[k], w.clock) && !Unwritten(w, k) ==> Covered(file, k, w.link.cache[k])
  }

  /** With this file on the disk a restart loses nothing. */
  ghost predicate Backs(file: File, w: World) {
    RulesBack(file, w.clock) && forall k :: k in w.link.cache ==> OnDisk(w, k, file)
  }

  ghost predicate DiskOk(w: World) {
    Restorable(w.disk, w.clock) ==> Backs(w.disk, w)
  }

  predicate Renames(step: Step) {
    step.WriteStep? || (step.WriteFailStep? && step.renamed)
  }

  /** A rename must not put a file on the disk that could be restored and would lose something. */
  ghost predicate Safe(w: World, step: Step)
    requires Enabled(w, step)
  {
    Renames(step) && Restorable(w.execs[step.id].phase.file, w.clock) ==>
      Backs(w.execs[step.id].phase.file, Next(w, step))
  }

  // The disk while nothing is renamed.

  predicate StillUnwritten(phase: Phase) {
    Persisting(phase) || phase.WriteFailed?
  }

  lemma UnwrittenMove(w: World, step: Step)
    requires Owned(w) && Enabled(w, step) && Moves(step) && !Renames(step) && StillUnwritten(w.execs[step.id].phase)
    ensures step.id in Next(w, step).execs && StillUnwritten(Next(w, step).execs[step.id].phase)
    ensures Next(w, step).execs[step.id].key == w.execs[step.id].key
  {
  }

  lemma UnwrittenEnd(w: World, step: Step, k: CommandKey)
    requires Owned(w) && Enabled(w, step) && Ends(step) && StillUnwritten(w.execs[step.id].phase)
    requires w.execs[step.id].key == k
    ensures k !in Next(w, step).link.cache
  {
    assert Owns(w.link.cache, w.execs[step.id], step.id);
  }

  lemma UnwrittenOther(w: World, step: Step, id: nat)
    requires Owned(w) && Enabled(w, step) && !step.Restart? && id in w.execs
    requires Moves(step) || Ends(step) ==> id != step.id
    ensures id in Next(w, step).execs && Next(w, step).execs[id] == w.execs[id]
  {
  }

  /** An acknowledgement that its command has still to write stays so, unless it goes. */
  lemma UnwrittenStep(w: World, step: Step, k: CommandKey)
    requires Owned(w) && Enabled(w, step) && !step.Restart? && !Renames(step)
    requires Unwritten(w, k) && k in Next(w, step).link.cache
    ensures Unwritten(Next(w, step), k)
  {
    var id :| id in w.execs && w.execs[id].key == k && StillUnwritten(w.execs[id].phase);
    if Moves(step) && id == step.id {
      UnwrittenMove(w, step);
    } else if Ends(step) && id == step.id {
      UnwrittenEnd(w, step, k);
    } else {
      UnwrittenOther(w, step, id);
    }
  }

  lemma PublishedPersists(w: World, step: Step)
    requires Owned(w) && Enabled(w, step) && step.PublishStep?
    ensures step.id in Next(w, step).execs && Persisting(Next(w, step).execs[step.id].phase)
  {
    assert Owns(w.link.cache, w.execs[step.id], step.id);
  }

  lemma PublishedUnwritten(w: World, step: Step, k: CommandKey)
    requires Owned(w) && Enabled(w, step) && Publishes(w, step, k)
    ensures Unwritten(Next(w, step), k)
  {
    PublishedPersists(w, step);
    assert Next(w, step).execs[step.id].key == k;
  }

  lemma RestorableBefore(file: File, clock: Time, later: Time)
    requires clock <= later && RulesFit(file.rules) && Restorable(file, later)
    ensures Restorable(file, clock)
  {
    FitRestores(file, clock);
  }

  lemma OnDiskStep(w: World, step: Step, k: CommandKey)
    requires Owned(w) && Enabled(w, step) && !step.Restart? && !Renames(step)
    requires k in w.link.cache ==> OnDisk(w, k, w.disk)
    ensures OnDisk(Next(w, step), k, w.disk)
  {
    var t := Next(w, step);
    assert w.clock <= t.clock;
    if k in t.link.cache && Live(t.link.cache[k], t.clock) && !Unwritten(t, k) {
      if Publishes(w, step, k) {
        PublishedUnwritten(w, step, k);
      } else {
        AckIsOld(w, step, k);
        if Unwritten(w, k) {
          UnwrittenStep(w, step, k);
        }
      }
    }
  }

  lemma DiskStep(w: World, step: Step)
    requires Sound(w) && DiskOk(w) && Enabled(w, step) && Safe(w, step) && !step.Restart?
    ensures DiskOk(Next(w, step))
  {
    var t := Next(w, step);
    DiskAfter(w, step);
    assert w.clock <= t.clock;
    if !Renames(step) && Restorable(t.disk, t.clock) {
      RestorableBefore(w.disk, w.clock, t.clock);
      forall k | k in t.link.cache ensures OnDisk(t, k, w.disk) {
        OnDiskStep(w, step, k);
      }
      assert RulesBack(w.disk, w.clock);
    }
  }

  // Restarting.

  /** A completed entry's command is over, so its acknowledgement is on the disk. */
  lemma CompletedOnDisk(w: World, r: Receipt)
    requires Owned(w) && Backs(w.disk, w) && Kept(w.link.cache, r) && r.until > Unix(w.clock)
    ensures Covered(w.disk, r.key, w.link.cache[r.key])
  {
    assert OnDisk(w, r.key, w.disk);
    forall id | id in w.execs ensures w.execs[id].key != r.key {
      assert Owns(w.link.cache, w.execs[id], id);
    }
  }

  lemma RestartEnforced(w: World, step: Step)
    requires Sane(w.disk) && RulesBack(w.disk, w.clock) && RulesFit(w.disk.rules) && Enabled(w, step) && step.Restart?
    ensures Enforced(Next(w, step)) && RulesOk(Next(w, step).admission)
  {
    var t := Next(w, step);
    forall k | k in t.link.cache ensures EntryEnforced(t.admission, t.clock, t.link.cache[k]) {
      assert PersistedSane(w.disk.entries[k]);
      assert RuleIn(w.disk.rules, w.clock, w.disk.entries[k].body, w.disk.entries[k].ack);
    }
  }

  lemma RestartHonoured(w: World, step: Step)
    requires Faithful(w) && Backs(w.disk, w) && Enabled(w, step) && step.Restart?
    ensures Honoured(Next(w, step))
  {
    var t := Next(w, step);
    forall r | r in t.receipts && r.until > Unix(t.clock) ensures Kept(t.link.cache, r) {
      CompletedOnDisk(w, r);
    }
  }

  lemma RestartBacked(w: World, step: Step)
    requires RulesBack(w.disk, w.clock) && Enabled(w, step) && step.Restart?
    ensures Backs(w.disk, Next(w, step))
  {
    assert forall k :: k in w.disk.entries ==>
        RuleIn(w.disk.rules, w.clock, w.disk.entries[k].body, w.disk.entries[k].ack);
  }

  /** Restarting from a file that backs the world gives back every receipt's entry and rule. */
  lemma RestartDurable(w: World, step: Step)
    requires Sound(w) && DiskOk(w) && Enabled(w, step) && step.Restart?
    ensures Sound(Next(w, step)) && DiskOk(Next(w, step))
  {
    RestorableBefore(w.disk, w.clock, step.now);
    RestartEnforced(w, step);
    RestartHonoured(w, step);
    RestartBacked(w, step);
    OwnedStep(w, step);
    FitStep(w, step);
    FilesSaneStep(w, step);
  }

  // Runs.

  ghost predicate SafeRun(w: World, steps: seq<Step>)
    requires IsRun(w, steps)
    decreases steps
  {
    steps == [] || (Safe(w, steps[0]) && SafeRun(Next(w, steps[0]), steps[1..]))
  }

  lemma DurableStep(w: World, step: Step)
    requires Sound(w) && DiskOk(w) && Enabled(w, step) && Safe(w, step)
    ensures Sound(Next(w, step)) && DiskOk(Next(w, step))
  {
    if step.Restart? {
      RestartDurable(w, step);
    } else {
      SoundStep(w, step);
      DiskStep(w, step);
    }
  }

  lemma {:induction false} DurableRun(w: World, steps: seq<Step>)
    requires Sound(w) && DiskOk(w) && IsRun(w, steps) && SafeRun(w, steps)
    ensures Sound(After(w, steps)) && DiskOk(After(w, steps))
    decreases steps
  {
    if steps != [] {
      DurableStep(w, steps[0]);
      DurableRun(Next(w, steps[0]), steps[1..]);
    }
  }

  /**
    If every rename of a run is safe then, across any number of crashes and restarts, every
    command ever acknowledged is still answered identically until its entry expires, and its
    deny rule is in force until its deadline.
   */
  lemma DurableAcknowledgements(steps: seq<Step>, r: Receipt)
    requires IsRun(INITIAL, steps) && SafeRun(INITIAL, steps)
    requires r in After(INITIAL, steps).receipts
    ensures Redeemable(After(INITIAL, steps), r)
    ensures r.ack.outcome.Applied? ==> r.until >= r.body.denyUntil
  {
    DurableRun(INITIAL, steps);
    FaithfulRedeems(After(INITIAL, steps), r);
  }

  // The condition is exact.

  ghost predicate AllRedeemable(w: World) {
    forall r :: r in w.receipts ==> Redeemable(w, r)
  }

  /** Steps that finish and ask for acknowledgements, crash and wait. */
  predicate Quiet(step: Step) {
    step.BeginStep? || step.FinishStep? || step.Restart? || step.Tick?
  }

  ghost predicate AllQuiet(steps: seq<Step>) {
    forall s :: s in steps ==> Quiet(s)
  }

  ghost predicate NoRename(steps: seq<Step>) {
    forall s :: s in steps ==> !Renames(s)
  }

  /** However the run goes on without another rename, nothing is lost. */
  ghost predicate EndsWell(w: World, rest: seq<Step>) {
    IsRun(w, rest) && NoRename(rest) ==> AllRedeemable(After(w, rest))
  }

  /** A restored acknowledgement whose rule is not in the file: ask for it. */
  lemma RuleLost(t: World, k: CommandKey) returns (rest: seq<Step>)
    requires Restorable(t.disk, t.clock) && k in t.disk.entries && PersistedSane(t.disk.entries[k])
    requires !RuleIn(t.disk.rules, t.clock, t.disk.entries[k].body, t.disk.entries[k].ack)
    ensures AllQuiet(rest) && IsRun(t, rest) && !AllRedeemable(After(t, rest))
  {
    var p, crash := t.disk.entries[k], Restart(t.clock);
    var u := Next(t, crash);
    var ask := BeginStep(k, p.body, t.clock);
    assert BeginVerdict(u.link, k, p.body, t.clock) == Cached(p.ack);
    var v := Next(u, ask);
    var r := ReceiptOf(BeginSection(u.link, k, p.body, t.clock), k);
    assert r in v.receipts && r.body == p.body && r.ack == p.ack;
    assert !RuleHolds(v.admission, p.body.target, p.body.Deadline());
    assert !Redeemable(v, r);
    RunTwo(t, crash, ask);
    rest := [crash, ask];
  }

  /** A receipt whose acknowledgement the file does not have, or not for long enough. */
  lemma ReceiptLost(t: World, r: Receipt) returns (rest: seq<Step>)
    requires Restorable(t.disk, t.clock) && r in t.receipts && r.until > Unix(t.clock)
    requires !(r.key in t.disk.entries && t.disk.entries[r.key].body == r.body && t.disk.entries[r.key].ack == r.ack
               && t.disk.entries[r.key].expiresAt >= r.until)
    ensures AllQuiet(rest) && IsRun(t, rest) && !AllRedeemable(After(t, rest))
  {
    var crash := Restart(t.clock);
    var u := Next(t, crash);
    if r.key in t.disk.entries && t.disk.entries[r.key].body == r.body && t.disk.entries[r.key].ack == r.ack {
      var until := t.disk.entries[r.key].expiresAt * SECOND;
      var wait := Tick(until);
      var v := Next(u, wait);
      assert r.key !in Clean(v.link, v.clock).cache;
      assert !Redeemable(v, r);
      RunTwo(t, crash, wait);
      rest := [crash, wait];
    } else {
      assert !Redeemable(u, r);
      RunOne(t, crash);
      rest := [crash];
    }
  }

  /** A living acknowledgement that is not still to be written can be had now. */
  lemma GetsReceipt(t: World, k: CommandKey) returns (s: Step)
    requires Owned(t) && Enforced(t) && k in t.link.cache && Live(t.link.cache[k], t.clock) && !Unwritten(t, k)
    ensures var e := t.link.cache[k];
      && Quiet(s) && Enabled(t, s)
      && Receipt(k, e.body, e.ack.value, Unix(e.expiresAt)) in Next(t, s).receipts
      && Next(t, s).disk == t.disk && Next(t, s).clock == t.clock
  {
    var e := t.link.cache[k];
    assert EntryEnforced(t.admission, t.clock, e);
    if e.completed {
      s := BeginStep(k, e.body, t.clock);
      assert k in Clean(t.link, t.clock).cache;
    } else {
      assert Owns(t.link.cache, t.execs[e.done], e.done);
      s := FinishStep(e.done);
    }
  }

  /** A rename that is not safe has a continuation of at most three quiet steps that loses a receipt. */
  lemma UnsafeLoses(w: World, step: Step) returns (rest: seq<Step>)
    requires Sound(w) && Enabled(w, step) && !Safe(w, step)
    ensures AllQuiet(rest) && IsRun(Next(w, step), rest) && !AllRedeemable(After(Next(w, step), rest))
  {
    var t := Next(w, step);
    SoundStep(w, step);
    if !RulesBack(t.disk, t.clock) {
      var k :| k in t.disk.entries && !RuleIn(t.disk.rules, t.clock, t.disk.entries[k].body, t.disk.entries[k].ack);
      rest := RuleLost(t, k);
    } else {
      var k :| k in t.link.cache && !OnDisk(t, k, t.disk);
      var e := t.link.cache[k];
      var get := GetsReceipt(t, k);
      var later := ReceiptLost(Next(t, get), Receipt(k, e.body, e.ack.value, Unix(e.expiresAt)));
      RunOne(t, get);
      RunAppend(t, [get], later);
      rest := [get] + later;
    }
  }

  lemma {:induction false} EndsWellAfter(w: World, rest: seq<Step>)
    requires Sound(w) && DiskOk(w) && IsRun(w, rest) && NoRename(rest)
    ensures AllRedeemable(After(w, rest))
    decreases rest
  {
    if rest == [] {
      forall r | r in w.receipts ensures Redeemable(w, r) {
        FaithfulRedeems(w, r);
      }
    } else {
      assert rest[0] in rest;
      DurableStep(w, rest[0]);
      EndsWellAfter(Next(w, rest[0]), rest[1..]);
    }
  }

  /** A rename is safe if and only if, however the run goes on without another one, nothing is lost. */
  lemma RenameExact(w: World, step: Step)
    requires Sound(w) && Enabled(w, step) && Renames(step)
    ensures Safe(w, step) <==> forall rest :: EndsWell(Next(w, step), rest)
  {
    var t := Next(w, step);
    if Safe(w, step) {
      SoundStep(w, step);
      assert DiskOk(t);
      forall rest ensures EndsWell(t, rest) {
        if IsRun(t, rest) && NoRename(rest) {
          EndsWellAfter(t, rest);
        }
      }
    } else {
      var rest := UnsafeLoses(w, step);
      assert !EndsWell(t, rest);
    }
  }

  /** At every point of the run, however it goes on from there without another rename, nothing is lost. */
  ghost predicate WellThroughout(w: World, steps: seq<Step>)
    requires IsRun(w, steps)
    decreases steps
  {
    (forall rest :: EndsWell(w, rest)) && (steps != [] ==> WellThroughout(Next(w, steps[0]), steps[1..]))
  }

  lemma WellWhileBacked(w: World)
    requires Sound(w) && DiskOk(w)
    ensures forall rest :: EndsWell(w, rest)
  {
    forall rest ensures EndsWell(w, rest) {
      if IsRun(w, rest) && NoRename(rest) {
        EndsWellAfter(w, rest);
      }
    }
  }

  lemma {:induction false} WellExactly(w: World, steps: seq<Step>)
    requires Sound(w) && DiskOk(w) && IsRun(w, steps)
    ensures SafeRun(w, steps) <==> WellThroughout(w, steps)
    decreases steps
  {
    WellWhileBacked(w);
    if steps != [] {
      if Safe(w, steps[0]) {
        DurableStep(w, steps[0]);
        WellExactly(Next(w, steps[0]), steps[1..]);
      } else {
        RenameExact(w, steps[0]);
      }
    }
  }

  /** All renames of a run are safe if and only if no continuation from any point of it loses an acknowledgement. */
  lemma DurableExactly(steps: seq<Step>)
    requires IsRun(INITIAL, steps)
    ensures SafeRun(INITIAL, steps) <==> WellThroughout(INITIAL, steps)
  {
    WellExactly(INITIAL, steps);
  }
}
