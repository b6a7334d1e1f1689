/**
  Which publications keep the renames safe. An acknowledgement that is published while
  another command holds a snapshot is not in that snapshot, and its rule is not in rules
  that were read before; if nothing else is published, these are the only ways to lose one.
 */
module Publishing {
  import opened Common
  import opened ServiceAdmission
  import opened CommandCache
  import opened CommandMachine
  import opened Durability
  import opened Restart

  /** The rules still cover every acknowledgement that may yet be snapshot with them. */
  ghost predicate RulesCover(rules: map<DenyRule, nat>, w: World) {
    forall k :: k in w.link.cache && w.link.cache[k].ack.Some? ==>
      RuleIn(rules, w.clock, w.link.cache[k].body, w.link.cache[k].ack.value)
  }

  ghost predicate Covers(file: File, w: World) {
    forall k :: k in w.link.cache && Live(w.link.cache[k], w.clock) ==> Covered(file, k, w.link.cache[k])
  }

  /** What the executor has read so far lacks nothing, unless it could not be restored anyway. */
  ghost predicate PhaseOk(w: World, x: Exec) {
    match x.phase
    case RulesRead(_, rules) => RulesCover(rules, w)
    case Snapshot(_, file) => Restorable(file, w.clock) ==> RulesBack(file, w.clock) && Covers(file, w)
    case _ => true
  }

  ghost predicate SnapshotsOk(w: World) {
    forall id :: id in w.execs ==> PhaseOk(w, w.execs[id])
  }

  /** The entry that publishing leaves. */
  ghost function PublishedEntry(w: World, step: Step): Entry
    requires step.PublishStep? && Enabled(w, step) && Owned(w)
  {
    var x := w.execs[step.id];
    assert Owns(w.link.cache, x, step.id);
    PublishSection(w.link, x.key, x.body, x.phase.ack, x.now).cache[x.key]
  }

  /** What another executor has read holds the acknowledgement about to be published, or its rule. */
  ghost predicate Spared(w: World, step: Step, phase: Phase)
    requires step.PublishStep? && Enabled(w, step) && Owned(w)
  {
    var x, e := w.execs[step.id], PublishedEntry(w, step);
    match phase
    case RulesRead(_, rules) => RuleIn(rules, w.clock, x.body, x.phase.ack)
    case Snapshot(_, file) => Restorable(file, w.clock) && Live(e, w.clock) ==> Covered(file, x.key, e)
    case _ => true
  }

  ghost predicate PublishGuard(w: World, step: Step)
    requires Enabled(w, step) && Owned(w)
  {
    step.PublishStep? ==> forall id :: id in w.execs && id != step.id ==> Spared(w, step, w.execs[id].phase)
  }

  // Guarded publications keep what was read complete.

  lemma ReadRulesOk(w: World, step: Step)
    requires Faithful(w) && step.ReadRulesStep? && Enabled(w, step)
    ensures PhaseOk(Next(w, step), Next(w, step).execs[step.id])
  {
    FaithfulStep(w, step);
    var t := Next(w, step);
    forall k | k in t.link.cache && t.link.cache[k].ack.Some?
      ensures RuleIn(RuleSnapshot(t.admission.denied), t.clock, t.link.cache[k].body, t.link.cache[k].ack.value)
    {
      assert EntryEnforced(t.admission, t.clock, t.link.cache[k]);
    }
  }

  lemma ReadEntriesOk(w: World, step: Step)
    requires Owned(w) && SnapshotsOk(w) && step.ReadEntriesStep? && Enabled(w, step)
    ensures PhaseOk(Next(w, step), Next(w, step).execs[step.id])
  {
    assert PhaseOk(w, w.execs[step.id]);
  }

  lemma PublishedIs(w: World, step: Step, k: CommandKey)
    requires Owned(w) && Enabled(w, step) && Publishes(w, step, k)
    ensures k in Next(w, step).link.cache && Next(w, step).link.cache[k] == PublishedEntry(w, step)
  {
    assert Owns(w.link.cache, w.execs[step.id], step.id);
  }

  lemma RulesReadKept(w: World, step: Step, rules: map<DenyRule, nat>)
    requires Owned(w) && Enabled(w, step) && !step.Restart? && RulesCover(rules, w)
    requires step.PublishStep? ==> RuleIn(rules, w.clock, w.execs[step.id].body, w.execs[step.id].phase.ack)
    ensures RulesCover(rules, Next(w, step))
  {
    var t := Next(w, step);
    assert w.clock <= t.clock;
    forall k | k in t.link.cache && t.link.cache[k].ack.Some?
      ensures RuleIn(rules, t.clock, t.link.cache[k].body, t.link.cache[k].ack.value)
    {
      if Publishes(w, step, k) {
        PublishedIs(w, step, k);
        assert Owns(w.link.cache, w.execs[step.id], step.id);
      } else {
        AckIsOld(w, step, k);
        assert RuleIn(rules, w.clock, w.link.cache[k].body, w.link.cache[k].ack.value);
      }
    }
  }

  lemma CoversKept(w: World, step: Step, file: File)
    requires Owned(w) && Enabled(w, step) && !step.Restart? && Covers(file, w)
    requires step.PublishStep? && Live(PublishedEntry(w, step), w.clock) ==>
      Covered(file, w.execs[step.id].key, PublishedEntry(w, step))
    ensures Covers(file, Next(w, step))
  {
    var t := Next(w, step);
    assert w.clock <= t.clock;
    forall k | k in t.link.cache && Live(t.link.cache[k], t.clock) ensures Covered(file, k, t.link.cache[k]) {
      if Publishes(w, step, k) {
        PublishedIs(w, step, k);
      } else {
        AckIsOld(w, step, k);
        assert Live(w.link.cache[k], w.clock);
      }
    }
  }

  lemma SnapshotKept(w: World, step: Step, x: Exec)
    requires Owned(w) && Fit(w) && Enabled(w, step) && !step.Restart? && x.phase.Snapshot? && PhaseOk(w, x)
    requires PhaseFits(x.phase) && (step.PublishStep? ==> Spared(w, step, x.phase))
    ensures PhaseOk(Next(w, step), x)
  {
    var t, file := Next(w, step), x.phase.file;
    assert w.clock <= t.clock;
    if Restorable(file, t.clock) {
      RestorableBefore(file, w.clock, t.clock);
      CoversKept(w, step, file);
      assert RulesBack(file, w.clock);
    }
  }

  lemma PhasesStep(w: World, step: Step, id: nat)
    requires Sound(w) && SnapshotsOk(w) && Enabled(w, step) && !step.Restart? && PublishGuard(w, step)
    requires id in Next(w, step).execs
    ensures PhaseOk(Next(w, step), Next(w, step).execs[id])
  {
    OtherExecs(w, step, id);
    if Moves(step) && id == step.id {
      if step.ReadEntriesStep? {
        ReadEntriesOk(w, step);
      } else if step.ReadRulesStep? {
        ReadRulesOk(w, step);
      }
    } else if id in w.execs && Next(w, step).execs[id] == w.execs[id] {
      var x := w.execs[id];
      assert PhaseOk(w, x) && PhaseFits(x.phase);
      assert step.PublishStep? ==> Spared(w, step, x.phase);
      match x.phase
      case RulesRead(_, rules) => RulesReadKept(w, step, rules);
      case Snapshot(_, _) => SnapshotKept(w, step, x);
      case _ =>
    }
  }

  lemma RenamesSafely(w: World, step: Step)
    requires SnapshotsOk(w) && Enabled(w, step)
    ensures Safe(w, step)
  {
    if Renames(step) {
      assert PhaseOk(w, w.execs[step.id]);
    }
  }

  lemma GuardedStep(w: World, step: Step)
    requires Sound(w) && DiskOk(w) && SnapshotsOk(w) && Enabled(w, step) && PublishGuard(w, step)
    ensures Safe(w, step) && Sound(Next(w, step)) && DiskOk(Next(w, step)) && SnapshotsOk(Next(w, step))
  {
    RenamesSafely(w, step);
    DurableStep(w, step);
    if !step.Restart? {
      forall id | id in Next(w, step).execs ensures PhaseOk(Next(w, step), Next(w, step).execs[id]) {
        PhasesStep(w, step, id);
      }
    }
  }

  ghost predicate GuardedRun(w: World, steps: seq<Step>)
    requires IsRun(w, steps)
    decreases steps
  {
    steps == [] || (Owned(w) && PublishGuard(w, steps[0]) && GuardedRun(Next(w, steps[0]), steps[1..]))
  }

  lemma {:induction false} GuardedSafe(w: World, steps: seq<Step>)
    requires Sound(w) && DiskOk(w) && SnapshotsOk(w) && IsRun(w, steps) && GuardedRun(w, steps)
    ensures SafeRun(w, steps) && Sound(After(w, steps)) && DiskOk(After(w, steps)) && SnapshotsOk(After(w, steps))
    decreases steps
  {
    if steps != [] {
      GuardedStep(w, steps[0]);
      GuardedSafe(Next(w, steps[0]), steps[1..]);
    }
  }

  /** If nothing is published under another command's snapshot, or without its rule in rules already read,
      every acknowledgement holds. */
  lemma GuardedAcknowledgements(steps: seq<Step>, r: Receipt)
    requires IsRun(INITIAL, steps) && GuardedRun(INITIAL, steps)
    requires r in After(INITIAL, steps).receipts
    ensures SafeRun(INITIAL, steps) && Redeemable(After(INITIAL, steps), r)
  {
    GuardedSafe(INITIAL, steps);
    DurableAcknowledgements(steps, r);
  }

  // Windows that do not overlap.

  /** At most one command is between publishing and renaming. */
  ghost predicate OnePersisting(w: World) {
    forall i, j ::
      i in w.execs && j in w.execs && Persisting(w.execs[i].phase) && Persisting(w.execs[j].phase) ==> i == j
  }

  ghost predicate NonOverlapping(w: World, steps: seq<Step>)
    requires IsRun(w, steps)
    decreases steps
  {
    OnePersisting(w) && (steps != [] ==> NonOverlapping(Next(w, steps[0]), steps[1..]))
  }

  lemma AloneSpares(w: World, step: Step)
    requires Owned(w) && Enabled(w, step) && OnePersisting(Next(w, step))
    ensures PublishGuard(w, step)
  {
    if step.PublishStep? {
      PublishedPersists(w, step);
      forall id | id in w.execs && id != step.id ensures Spared(w, step, w.execs[id].phase) {
        assert id in Next(w, step).execs && Next(w, step).execs[id] == w.execs[id];
      }
    }
  }

  /** Windows that do not overlap are one way to guard every publication. */
  lemma {:induction false} NonOverlappingGuarded(w: World, steps: seq<Step>)
    requires Owned(w) && IsRun(w, steps) && NonOverlapping(w, steps)
    ensures GuardedRun(w, steps)
    decreases steps
  {
    if steps != [] {
      assert OnePersisting(Next(w, steps[0]));
      AloneSpares(w, steps[0]);
      OwnedStep(w, steps[0]);
      NonOverlappingGuarded(Next(w, steps[0]), steps[1..]);
    }
  }

  // The guard is exact.

  predicate NoPublish(steps: seq<Step>) {
    forall s :: s in steps ==> !s.PublishStep?
  }

  /** However the run goes on without another publication, nothing is lost. */
  ghost predicate PublishesWell(w: World, rest: seq<Step>) {
    IsRun(w, rest) && NoPublish(rest) ==> AllRedeemable(After(w, rest))
  }

  /** No acknowledgement in the cache has outlived its entry's time. */
  ghost predicate Unexpired(w: World) {
    forall k :: k in w.link.cache && w.link.cache[k].ack.Some? ==> Live(w.link.cache[k], w.clock)
  }

  lemma {:induction false} GuardedUntilPublish(w: World, rest: seq<Step>)
    requires Sound(w) && DiskOk(w) && SnapshotsOk(w) && IsRun(w, rest) && NoPublish(rest)
    ensures AllRedeemable(After(w, rest))
    decreases rest
  {
    if rest == [] {
      WellWhileBacked(w);
      assert EndsWell(w, []);
    } else {
      assert rest[0] in rest;
      GuardedStep(w, rest[0]);
      GuardedUntilPublish(Next(w, rest[0]), rest[1..]);
    }
  }

  /** After an unsafe rename: the rename and what follows, without a publication. */
  lemma RenameLoses(w: World, step: Step) returns (rest: seq<Step>)
    requires Sound(w) && Enabled(w, step) && !Safe(w, step)
    ensures NoPublish(rest) && IsRun(w, rest) && !AllRedeemable(After(w, rest))
  {
    var later := UnsafeLoses(w, step);
    RunOne(w, step);
    RunAppend(w, [step], later);
    rest := [step] + later;
  }

  /** `id` is the executor of the entry `e` at `k`; `x` is another one. */
  ghost predicate Beside(w: World, id: nat, k: CommandKey, e: Entry, other: nat, x: Exec) {
    && Sound(w) && id in w.execs && w.execs[id].key == k && k in w.link.cache && w.link.cache[k] == e
    && other in w.execs && other != id && w.execs[other] == x
  }

  /** Without a publication, `steps` lead from `w` to `t`. */
  ghost predicate Reaches(w: World, steps: seq<Step>, t: World) {
    NoPublish(steps) && IsRun(w, steps) && After(w, steps) == t
  }

  lemma ReachesThen(w: World, first: seq<Step>, t: World, rest: seq<Step>, u: World)
    requires Reaches(w, first, t) && Reaches(t, rest, u)
    ensures Reaches(w, first + rest, u)
  {
    RunAppend(w, first, rest);
  }

  lemma ReaderAside(w: World, step: Step, k: CommandKey, other: nat)
    requires Enabled(w, step) && (step.ReadRulesStep? || step.ReadEntriesStep? || step.WriteStep?) && Owned(w)
    requires w.execs[step.id].key == k && other in w.execs && other != step.id
    ensures var t := Next(w, step);
      && t.clock == w.clock && step.id in t.execs && t.execs[step.id].key == k
      && other in t.execs && t.execs[other] == w.execs[other]
      && k in w.link.cache && k in t.link.cache && t.link.cache[k] == w.link.cache[k]
    ensures var phase := Next(w, step).execs[step.id].phase;
      if step.ReadRulesStep? then phase.RulesRead?
      else if step.ReadEntriesStep? then phase.Snapshot?
      else phase.Written?
  {
    assert Owns(w.link.cache, w.execs[step.id], step.id);
  }

  lemma StepBeside(w: World, step: Step, k: CommandKey, e: Entry, other: nat, x: Exec) returns (t: World)
    requires Enabled(w, step) && (step.ReadRulesStep? || step.ReadEntriesStep? || step.WriteStep?)
    requires Beside(w, step.id, k, e, other, x)
    ensures Reaches(w, [step], t) && Beside(t, step.id, k, e, other, x) && t.clock == w.clock
    ensures var phase := t.execs[step.id].phase;
      if step.ReadRulesStep? then phase.RulesRead?
      else if step.ReadEntriesStep? then phase.Snapshot?
      else phase.Written?
  {
    t := Next(w, step);
    SoundStep(w, step);
    ReaderAside(w, step, k, other);
    RunOne(w, step);
  }

  /** The publisher reads the rules and the entries and renames its file. */
  lemma PublisherWrites(w: World, id: nat, k: CommandKey, e: Entry, other: nat, x: Exec)
      returns (steps: seq<Step>, t: World)
    requires Beside(w, id, k, e, other, x) && w.execs[id].phase.Published?
    ensures Reaches(w, steps, t) && Beside(t, id, k, e, other, x) && t.clock == w.clock && t.execs[id].phase.Written?
  {
    var w1 := StepBeside(w, ReadRulesStep(id), k, e, other, x);
    var w2 := StepBeside(w1, ReadEntriesStep(id), k, e, other, x);
    t := StepBeside(w2, WriteStep(id), k, e, other, x);
    ReachesThen(w1, [ReadEntriesStep(id)], w2, [WriteStep(id)], t);
    steps := [ReadRulesStep(id)] + ([ReadEntriesStep(id)] + [WriteStep(id)]);
    ReachesThen(w, [ReadRulesStep(id)], w1, [ReadEntriesStep(id)] + [WriteStep(id)], t);
  }

  /** The older snapshot is renamed after it. */
  lemma StaleRename(w: World, id: nat, k: CommandKey, e: Entry, other: nat, x: Exec)
    requires Beside(w, id, k, e, other, x) && w.execs[id].phase.Written? && x.phase.Snapshot?
    requires Restorable(x.phase.file, w.clock) && Live(e, w.clock) && !Covered(x.phase.file, k, e)
    ensures Enabled(w, WriteStep(other)) && !Safe(w, WriteStep(other))
  {
    WrittenNow(w, id, WriteStep(other));
    assert !OnDisk(Next(w, WriteStep(other)), k, x.phase.file);
  }

  lemma SnapshotLoses(w: World, id: nat, k: CommandKey, e: Entry, other: nat, x: Exec) returns (rest: seq<Step>)
    requires Beside(w, id, k, e, other, x) && w.execs[id].phase.Published? && x.phase.Snapshot?
    requires Restorable(x.phase.file, w.clock) && Live(e, w.clock) && !Covered(x.phase.file, k, e)
    ensures NoPublish(rest) && IsRun(w, rest) && !AllRedeemable(After(w, rest))
  {
    var writes, t := PublisherWrites(w, id, k, e, other, x);
    StaleRename(t, id, k, e, other, x);
    var later := RenameLoses(t, WriteStep(other));
    ReachesThen(w, writes, t, later, After(t, later));
    rest := writes + later;
  }

  lemma WrittenNow(w: World, id: nat, step: Step)
    requires Owned(w) && id in w.execs && w.execs[id].phase.Written?
    requires Enabled(w, step) && step.WriteStep? && step.id != id
    ensures !Unwritten(Next(w, step), w.execs[id].key)
  {
    var t, k := Next(w, step), w.execs[id].key;
    OwnedStep(w, step);
    forall i | i in t.execs && t.execs[i].key == k ensures t.execs[i].phase.Written? {
      assert Owns(t.link.cache, t.execs[i], i) && Owns(t.link.cache, t.execs[id], id);
    }
  }

  /** The other command snapshots the acknowledgement with rules that lack its rule. */
  lemma EntriesWithoutRule(w: World, id: nat, other: nat)
    requires Sound(w) && Unexpired(w) && id in w.execs && w.execs[id].phase.Published? && other in w.execs
    requires w.execs[other].phase.RulesRead?
    requires !RuleIn(w.execs[other].phase.rules, w.clock, w.execs[id].body, w.execs[id].phase.ack)
    ensures var t := Next(w, ReadEntriesStep(other));
      Enabled(t, WriteStep(other)) && !Safe(t, WriteStep(other))
  {
    var k := w.execs[id].key;
    assert Owns(w.link.cache, w.execs[id], id);
    var t := Next(w, ReadEntriesStep(other));
    var file := t.execs[other].phase.file;
    assert k in file.entries;
    assert file.entries[k].body == w.execs[id].body && file.entries[k].ack == w.execs[id].phase.ack;
    FitRestores(file, w.clock);
    assert !RulesBack(file, w.clock);
  }

  lemma RulesLose(w: World, id: nat, other: nat) returns (rest: seq<Step>)
    requires Sound(w) && Unexpired(w) && id in w.execs && w.execs[id].phase.Published? && other in w.execs
    requires w.execs[other].phase.RulesRead?
    requires !RuleIn(w.execs[other].phase.rules, w.clock, w.execs[id].body, w.execs[id].phase.ack)
    ensures NoPublish(rest) && IsRun(w, rest) && !AllRedeemable(After(w, rest))
  {
    var entries := ReadEntriesStep(other);
    SoundStep(w, entries);
    EntriesWithoutRule(w, id, other);
    var later := RenameLoses(Next(w, entries), WriteStep(other));
    RunOne(w, entries);
    RunAppend(w, [entries], later);
    rest := [entries] + later;
  }

  /** What publishing leaves for the continuation. */
  lemma PublishedState(w: World, step: Step, other: nat)
    requires Sound(w) && Enabled(w, step) && step.PublishStep? && other in w.execs && other != step.id
    ensures var t, x := Next(w, step), w.execs[step.id];
      && Beside(t, step.id, x.key, PublishedEntry(w, step), other, w.execs[other]) && t.clock == w.clock
      && t.execs[step.id].phase == Published(x.phase.ack) && t.execs[step.id].body == x.body
  {
    SoundStep(w, step);
    PublishedIs(w, step, w.execs[step.id].key);
  }

  lemma StaysUnexpired(w: World, step: Step)
    requires Sound(w) && Unexpired(w) && Enabled(w, step) && step.PublishStep? && Live(PublishedEntry(w, step), w.clock)
    ensures Unexpired(Next(w, step))
  {
    var t := Next(w, step);
    forall k | k in t.link.cache && t.link.cache[k].ack.Some? ensures Live(t.link.cache[k], t.clock) {
      if Publishes(w, step, k) {
        PublishedIs(w, step, k);
      } else {
        AckIsOld(w, step, k);
      }
    }
  }

  /** Publishing while another command holds a snapshot without the acknowledgement. */
  lemma PublishLosesBySnapshot(w: World, step: Step, other: nat) returns (rest: seq<Step>)
    requires Sound(w) && Enabled(w, step) && step.PublishStep? && other in w.execs && other != step.id
    requires w.execs[other].phase.Snapshot? && !Spared(w, step, w.execs[other].phase)
    ensures NoPublish(rest) && IsRun(Next(w, step), rest) && !AllRedeemable(After(Next(w, step), rest))
  {
    PublishedState(w, step, other);
    rest := SnapshotLoses(Next(w, step), step.id, w.execs[step.id].key, PublishedEntry(w, step), other, w.execs[other]);
  }

  /** An acknowledgement whose rule matters still lives. */
  lemma UnruledLives(w: World, step: Step, rules: map<DenyRule, nat>)
    requires Owned(w) && Enforced(w) && Enabled(w, step) && step.PublishStep?
    requires !RuleIn(rules, w.clock, w.execs[step.id].body, w.execs[step.id].phase.ack)
    ensures Live(PublishedEntry(w, step), w.clock)
  {
    assert ExecEnforced(w.admission, w.clock, w.execs[step.id]);
  }

  lemma PublishedUnruled(w: World, step: Step, other: nat)
    requires Sound(w) && Unexpired(w) && Enabled(w, step) && step.PublishStep? && other in w.execs && other != step.id
    requires w.execs[other].phase.RulesRead? && !Spared(w, step, w.execs[other].phase)
    ensures var t := Next(w, step);
      && Sound(t) && Unexpired(t) && step.id in t.execs && t.execs[step.id].phase.Published? && other in t.execs
      && t.execs[other].phase.RulesRead?
      && !RuleIn(t.execs[other].phase.rules, t.clock, t.execs[step.id].body, t.execs[step.id].phase.ack)
  {
    UnruledLives(w, step, w.execs[other].phase.rules);
    StaysUnexpired(w, step);
    PublishedState(w, step, other);
  }

  lemma PublishLosesByRules(w: World, step: Step, other: nat) returns (rest: seq<Step>)
    requires Sound(w) && Unexpired(w) && Enabled(w, step) && step.PublishStep? && other in w.execs && other != step.id
    requires w.execs[other].phase.RulesRead? && !Spared(w, step, w.execs[other].phase)
    ensures NoPublish(rest) && IsRun(Next(w, step), rest) && !AllRedeemable(After(Next(w, step), rest))
  {
    PublishedUnruled(w, step, other);
    rest := RulesLose(Next(w, step), step.id, other);
  }

  /** An expired entry beside rules already read may keep the file from being restored. */
  ghost predicate Restores(w: World, step: Step)
    requires step.PublishStep?
  {
    Unexpired(w) || forall id :: id in w.execs && id != step.id ==> !w.execs[id].phase.RulesRead?
  }

  lemma PublishLoses(w: World, step: Step) returns (rest: seq<Step>)
    requires Sound(w) && Enabled(w, step) && step.PublishStep? && Restores(w, step) && !PublishGuard(w, step)
    ensures NoPublish(rest) && IsRun(Next(w, step), rest) && !AllRedeemable(After(Next(w, step), rest))
  {
    var other :| other in w.execs && other != step.id && !Spared(w, step, w.execs[other].phase);
    if w.execs[other].phase.Snapshot? {
      rest := PublishLosesBySnapshot(w, step, other);
    } else {
      rest := PublishLosesByRules(w, step, other);
    }
  }

  /**
    A publication meets the guard if and only if, however the run goes on without another
    one, no acknowledgement is lost.
   */
  lemma PublishExact(w: World, step: Step)
    requires Sound(w) && DiskOk(w) && SnapshotsOk(w) && Enabled(w, step) && step.PublishStep? && Restores(w, step)
    ensures PublishGuard(w, step) <==> forall rest :: PublishesWell(Next(w, step), rest)
  {
    var t := Next(w, step);
    if PublishGuard(w, step) {
      GuardedStep(w, step);
      forall rest ensures PublishesWell(t, rest) {
        if IsRun(t, rest) && NoPublish(rest) {
          GuardedUntilPublish(t, rest);
        }
      }
    } else {
      var rest := PublishLoses(w, step);
      assert !PublishesWell(t, rest);
    }
  }

  // Such a publication can be reached, at clock 0.

  /** A new command can be taken through its first sections in `w`. */
  ghost predicate CanOpen(w: World, key: CommandKey, body: Command) {
    && w.clock == 0 && key !in w.link.cache && |w.link.cache| < MAX_IDEMPOTENCY && w.link.next !in w.execs
    && (forall k :: k in w.link.cache ==> w.link.cache[k].expiresAt > 0)
    && w.admission == EMPTY.(denied := w.admission.denied) && |w.admission.denied| < MAX_DENY_RULES
    && (forall r :: r in w.admission.denied ==> w.admission.denied[r] > 0)
    && body.Valid() && body.target.Rule() !in w.admission.denied && body.Deadline() <= MAX_DENY_PERIOD
  }

  function AppliedAck(key: CommandKey, body: Command): Ack {
    Ack("ack", key.message, Applied, body.denyUntil, 0, 0)
  }

  function Expiry(key: CommandKey, body: Command): Time {
    IdempotencyExpiry(AppliedAck(key, body), IDEMPOTENCY_TTL)
  }

  function Opening(key: CommandKey, body: Command, id: nat): seq<Step> {
    [BeginStep(key, body, 0), DecideStep(id, 0, "ack", 0, 0)] + [PublishStep(id)]
  }

  ghost function Begun(w: World, key: CommandKey, body: Command): World {
    var id := w.link.next;
    w.(link := Link(w.link.cache[key := Entry(body, None, id, IDEMPOTENCY_TTL, false)], id + 1, w.link.closed),
       execs := w.execs[id := Exec(key, body, 0, Running)], started := w.started + {id})
  }

  ghost function Ruled(w: World, key: CommandKey, body: Command): World {
    Begun(w, key, body).(
      admission := EMPTY.(denied := w.admission.denied[body.target.Rule() := body.Deadline()]),
      execs := w.execs[w.link.next := Exec(key, body, 0, Decided(AppliedAck(key, body)))])
  }

  ghost function Opened(w: World, key: CommandKey, body: Command): World {
    var id, ack := w.link.next, AppliedAck(key, body);
    Ruled(w, key, body).(
      link := Link(w.link.cache[key := Entry(body, Some(ack), id, Expiry(key, body), false)], id + 1, w.link.closed),
      execs := w.execs[id := Exec(key, body, 0, Published(ack))])
  }

  lemma BeginRuns(w: World, key: CommandKey, body: Command)
    requires CanOpen(w, key, body)
    ensures var s := BeginStep(key, body, 0); Enabled(w, s) && Next(w, s) == Begun(w, key, body)
  {
    assert Clean(w.link, 0) == w.link;
  }

  lemma DecideRuns(w: World, key: CommandKey, body: Command)
    requires CanOpen(w, key, body)
    ensures var s := DecideStep(w.link.next, 0, "ack", 0, 0);
      Enabled(Begun(w, key, body), s) && Next(Begun(w, key, body), s) == Ruled(w, key, body)
  {
    assert Cleanup(w.admission, 0) == w.admission;
    var b := Begun(w, key, body);
    assert Install(b.admission, body.target, body.Deadline(), 0) == Ruled(w, key, body).admission;
    assert b.execs[w.link.next := Exec(key, body, 0, Decided(AppliedAck(key, body)))] == Ruled(w, key, body).execs;
  }

  lemma PublishRuns(w: World, key: CommandKey, body: Command)
    requires CanOpen(w, key, body)
    ensures var s := PublishStep(w.link.next);
      Enabled(Ruled(w, key, body), s) && Next(Ruled(w, key, body), s) == Opened(w, key, body)
  {
    var r, o := Ruled(w, key, body), Opened(w, key, body);
    assert r.link.cache[key := o.link.cache[key]] == o.link.cache;
    assert r.execs[w.link.next := o.execs[w.link.next]] == o.execs;
  }

  lemma OpeningRuns(w: World, key: CommandKey, body: Command)
    requires CanOpen(w, key, body)
    ensures IsRun(w, Opening(key, body, w.link.next))
    ensures After(w, Opening(key, body, w.link.next)) == Opened(w, key, body)
  {
    var id := w.link.next;
    BeginRuns(w, key, body);
    DecideRuns(w, key, body);
    PublishRuns(w, key, body);
    RunTwo(w, BeginStep(key, body, 0), DecideStep(id, 0, "ack", 0, 0));
    RunAppend(w, [BeginStep(key, body, 0), DecideStep(id, 0, "ack", 0, 0)], [PublishStep(id)]);
  }

  function Snapshotting(id: nat): seq<Step> {
    [ReadRulesStep(id), ReadEntriesStep(id)]
  }

  ghost function Snapped(w: World, id: nat): World
    requires id in w.execs && w.execs[id].phase.Published?
  {
    var file := File(RuleSnapshot(w.admission.denied), EntrySnapshot(w.link.cache, 0));
    SetPhase(w, id, Snapshot(w.execs[id].phase.ack, file))
  }

  lemma SnapshottingRuns(w: World, id: nat)
    requires w.clock == 0 && id in w.execs && w.execs[id].phase.Published? && w.execs[id].now == 0
    requires w.admission == EMPTY.(denied := w.admission.denied)
    requires forall r :: r in w.admission.denied ==> w.admission.denied[r] > 0
    requires forall k :: k in w.link.cache ==> w.link.cache[k].expiresAt > 0
    ensures IsRun(w, Snapshotting(id)) && After(w, Snapshotting(id)) == Snapped(w, id)
  {
    assert Cleanup(w.admission, 0) == w.admission;
    var w1 := Next(w, ReadRulesStep(id));
    assert w1.link == w.link && Clean(w.link, 0) == w.link;
    var w2 := Next(w1, ReadEntriesStep(id));
    assert w2.execs == Snapped(w, id).execs;
    RunTwo(w, ReadRulesStep(id), ReadEntriesStep(id));
  }

  lemma CommandToSnapshot(w: World, key: CommandKey, body: Command)
    requires CanOpen(w, key, body)
    ensures var steps := Opening(key, body, w.link.next) + Snapshotting(w.link.next);
      IsRun(w, steps) && After(w, steps) == Snapped(Opened(w, key, body), w.link.next)
  {
    OpeningRuns(w, key, body);
    SnapshottingRuns(Opened(w, key, body), w.link.next);
    RunAppend(w, Opening(key, body, w.link.next), Snapshotting(w.link.next));
  }

  lemma SecondCanOpen(a: CommandKey, revokeA: Command, b: CommandKey, revokeB: Command)
    requires a != b && Openable(revokeA) && Openable(revokeB) && revokeA.target.Rule() != revokeB.target.Rule()
    ensures CanOpen(Snapped(Opened(INITIAL, a, revokeA), 0), b, revokeB)
  {
  }

  predicate Openable(body: Command) {
    body.Valid() && body.Deadline() <= MAX_DENY_PERIOD
  }

  function Crossing(a: CommandKey, revokeA: Command, b: CommandKey, revokeB: Command): seq<Step> {
    (Opening(a, revokeA, 0) + Snapshotting(0)) + Opening(b, revokeB, 1)
  }

  lemma CrossingRuns(a: CommandKey, revokeA: Command, b: CommandKey, revokeB: Command)
    requires a != b && Openable(revokeA) && Openable(revokeB) && revokeA.target.Rule() != revokeB.target.Rule()
    ensures var run, w := Crossing(a, revokeA, b, revokeB), Snapped(Opened(INITIAL, a, revokeA), 0);
      IsRun(INITIAL, run) && After(INITIAL, run) == Opened(w, b, revokeB)
  {
    assert CanOpen(INITIAL, a, revokeA);
    CommandToSnapshot(INITIAL, a, revokeA);
    var w := Snapped(Opened(INITIAL, a, revokeA), 0);
    SecondCanOpen(a, revokeA, b, revokeB);
    OpeningRuns(w, b, revokeB);
    RunAppend(INITIAL, Opening(a, revokeA, 0) + Snapshotting(0), Opening(b, revokeB, 1));
  }

  lemma CrossingNoRestart(a: CommandKey, revokeA: Command, b: CommandKey, revokeB: Command)
    ensures NoRestart(Crossing(a, revokeA, b, revokeB))
  {
  }

  lemma SnapshotOfOne(a: CommandKey, revokeA: Command)
    requires Openable(revokeA)
    ensures var x := Snapped(Opened(INITIAL, a, revokeA), 0).execs[0];
      x.phase.Snapshot? && x.phase.file.entries.Keys == {a} && Restorable(x.phase.file, 0)
  {
    var rules := Snapped(Opened(INITIAL, a, revokeA), 0).execs[0].phase.file.rules;
    assert rules.Keys == {revokeA.target.Rule()};
    MapSize(RestoredRules(rules, 0), {revokeA.target.Rule()});
  }

  lemma OpenedBeside(w: World, b: CommandKey, revokeB: Command)
    requires CanOpen(w, b, revokeB) && w.link.next == 1 && 0 in w.execs
    ensures var both := Opened(w, b, revokeB);
      && both.clock == 0 && both.execs[0] == w.execs[0] && 0 in both.execs && 1 in both.execs && both.execs[1].key == b
      && both.execs[1].phase.Published? && b in both.link.cache && Live(both.link.cache[b], 0)
  {
  }

  /** The second command has published beside the first one's snapshot. */
  lemma CrossingState(a: CommandKey, revokeA: Command, b: CommandKey, revokeB: Command)
      returns (run: seq<Step>, both: World, e: Entry, x: Exec)
    requires a != b && Openable(revokeA) && Openable(revokeB) && revokeA.target.Rule() != revokeB.target.Rule()
    ensures IsRun(INITIAL, run) && NoRestart(run) && After(INITIAL, run) == both
    ensures both.clock == 0 && 0 in both.execs && both.execs[0] == x && 1 in both.execs && both.execs[1].key == b
    ensures both.execs[1].phase.Published? && b in both.link.cache && both.link.cache[b] == e && Live(e, 0)
    ensures x.phase.Snapshot? && Restorable(x.phase.file, 0) && b !in x.phase.file.entries
  {
    var w := Snapped(Opened(INITIAL, a, revokeA), 0);
    run := Crossing(a, revokeA, b, revokeB);
    CrossingRuns(a, revokeA, b, revokeB);
    CrossingNoRestart(a, revokeA, b, revokeB);
    SnapshotOfOne(a, revokeA);
    SecondCanOpen(a, revokeA, b, revokeB);
    OpenedBeside(w, b, revokeB);
    both := Opened(w, b, revokeB);
    e, x := both.link.cache[b], both.execs[0];
  }

  /**
    Any two commands with different rules have a run that loses an acknowledgement: the
    second publishes while the first holds its snapshot.
   */
  lemma CrossingLosesAcknowledgement(a: CommandKey, revokeA: Command, b: CommandKey, revokeB: Command)
      returns (steps: seq<Step>)
    requires a != b && Openable(revokeA) && Openable(revokeB) && revokeA.target.Rule() != revokeB.target.Rule()
    ensures IsRun(INITIAL, steps) && !AllRedeemable(After(INITIAL, steps))
  {
    var run, both, e, x := CrossingState(a, revokeA, b, revokeB);
    SoundInitial();
    SoundRun(INITIAL, run);
    var rest := SnapshotLoses(both, 1, b, e, 0, x);
    RunAppend(INITIAL, run, rest);
    steps := run + rest;
  }

  lemma SoundInitial()
    ensures Sound(INITIAL)
  {
  }
}
