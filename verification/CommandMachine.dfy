/**
  Revocation commands as a state machine at lock granularity, with a disk and restarts.
  An executor is a call of handleRevocation that was told to execute; it is named by the
  completion channel of the entry it created. Its critical sections, its two snapshot
  sections and its file write are separate steps, so any number of commands interleave.
 */
module CommandMachine {
  import opened Common
  import opened ServiceAdmission
  import opened CommandCache

  datatype Phase =
    | Running
    | Decided(ack: Ack)
    | Published(ack: Ack)
    | RulesRead(ack: Ack, rules: map<DenyRule, nat>)
    | Snapshot(ack: Ack, file: File)
    | Written(ack: Ack)
    | WriteFailed(ack: Ack)

  /** `now` is the clock reading the command uses from its decision to its last section. */
  datatype Exec = Exec(key: CommandKey, body: Command, now: Time, phase: Phase)

  /** An acknowledgement that left the relay, and the (persisted) expiry of its entry, in seconds. */
  datatype Receipt = Receipt(key: CommandKey, body: Command, ack: Ack, until: nat)

  datatype World = World(
    clock: Time, admission: AdmissionState, link: Link, execs: map<nat, Exec>, disk: File,
    receipts: set<Receipt>, started: set<nat>, finished: set<nat>, abandoned: set<nat>)

  const INITIAL := World(0, EMPTY, NEW_LINK, map[], NO_FILE, {}, {}, {}, {})

  datatype Step =
    | Tick(now: Time)
    | AdmissionSection(op: Op, now: Time)
    | BeginStep(key: CommandKey, body: Command, now: Time)
    | WaitStep(key: CommandKey, body: Command)
    | DecideStep(id: nat, now: Time, ackID: MessageID, memberships: uint32, releases: uint32)
    | PublishStep(id: nat)
    | ReadRulesStep(id: nat)
    | ReadEntriesStep(id: nat)
    | WriteStep(id: nat)
    | WriteFailStep(id: nat, renamed: bool)
    | FinishStep(id: nat)
    | AbandonStep(id: nat)
    | Restart(now: Time)

  ghost predicate Enabled(w: World, step: Step) {
    match step
    case Tick(now) => w.clock <= now
    case AdmissionSection(op, now) => now <= w.clock && !op.DoInstall?
    case BeginStep(_, body, now) => body.Valid() && now <= w.clock
    case WaitStep(_, _) => true
    case DecideStep(id, now, _, _, _) =>
      && id in w.execs && w.execs[id].phase.Running? && now <= w.clock
      && var body := w.execs[id].body;
         body.Deadline() <= now + MAX_DENY_PERIOD
         && (body.Deadline() > now ==> Installs(w.admission, body.target, body.Deadline(), now))
    case PublishStep(id) => id in w.execs && w.execs[id].phase.Decided?
    case ReadRulesStep(id) => id in w.execs && w.execs[id].phase.Published?
    case ReadEntriesStep(id) => id in w.execs && w.execs[id].phase.RulesRead?
    case WriteStep(id) => id in w.execs && w.execs[id].phase.Snapshot?
    case WriteFailStep(id, _) => id in w.execs && w.execs[id].phase.Snapshot?
    case FinishStep(id) => id in w.execs && w.execs[id].phase.Written?
    case AbandonStep(id) => id in w.execs && (w.execs[id].phase.Running? || w.execs[id].phase.WriteFailed?)
    case Restart(now) => w.clock <= now && Restorable(w.disk, now)
  }

  /** The acknowledgement handleRevocation builds. */
  function AckFor(x: Exec, ackID: MessageID, memberships: uint32, releases: uint32, now: Time): Ack {
    if x.body.Deadline() <= now then Ack(ackID, x.key.message, AlreadyExpired, x.body.denyUntil, 0, 0)
    else Ack(ackID, x.key.message, Applied, x.body.denyUntil, memberships, releases)
  }

  function ReceiptOf(l: Link, key: CommandKey): Receipt
    requires key in l.cache && l.cache[key].ack.Some?
  {
    Receipt(key, l.cache[key].body, l.cache[key].ack.value, Unix(l.cache[key].expiresAt))
  }

  function SetPhase(w: World, id: nat, phase: Phase): World
    requires id in w.execs
  {
    w.(execs := w.execs[id := w.execs[id].(phase := phase)])
  }

  ghost function Next(w: World, step: Step): World
    requires Enabled(w, step)
  {
    match step
    case Tick(now) => w.(clock := now)
    case AdmissionSection(op, now) => w.(admission := ServiceAdmission.Step(w.admission, op, now))
    case BeginStep(key, body, now) =>
      var l, verdict := BeginSection(w.link, key, body, now), BeginVerdict(w.link, key, body, now);
      if verdict.Execute? then
        w.(link := l, execs := w.execs[w.link.next := Exec(key, body, now, Running)],
           started := w.started + {w.link.next})
      else if verdict.Cached? then w.(link := l, receipts := w.receipts + {ReceiptOf(l, key)})
      else w.(link := l)
    case WaitStep(key, body) =>
      if CachedCompleted(w.link, key, body).Some? then w.(receipts := w.receipts + {ReceiptOf(w.link, key)}) else w
    case DecideStep(id, now, ackID, memberships, releases) =>
      var x := w.execs[id];
      w.(admission := Install(w.admission, x.body.target, x.body.Deadline(), now),
         execs := w.execs[id := x.(now := now, phase := Decided(AckFor(x, ackID, memberships, releases, now)))])
    case PublishStep(id) =>
      var x := w.execs[id];
      if !Open(w.link, x.key, x.body) then w.(execs := w.execs - {id}) else
      SetPhase(w, id, Published(x.phase.ack)).(link := PublishSection(w.link, x.key, x.body, x.phase.ack, x.now))
    case ReadRulesStep(id) =>
      var x, c := w.execs[id], Cleanup(w.admission, w.execs[id].now);
      SetPhase(w, id, RulesRead(x.phase.ack, RuleSnapshot(c.denied))).(admission := c)
    case ReadEntriesStep(id) =>
      var x, l := w.execs[id], Clean(w.link, w.execs[id].now);
      SetPhase(w, id, Snapshot(x.phase.ack, File(x.phase.rules, EntrySnapshot(l.cache, x.now)))).(link := l)
    case WriteStep(id) =>
      SetPhase(w, id, Written(w.execs[id].phase.ack)).(disk := w.execs[id].phase.file)
    case WriteFailStep(id, renamed) =>
      SetPhase(w, id, WriteFailed(w.execs[id].phase.ack)).(disk := if renamed then w.execs[id].phase.file else w.disk)
    case FinishStep(id) =>
      var x := w.execs[id];
      if !Open(w.link, x.key, x.body) || w.link.cache[x.key].ack.None? then w.(execs := w.execs - {id}) else
      var l := FinishSection(w.link, x.key, x.body);
      w.(link := l, execs := w.execs - {id}, finished := w.finished + {id},
         receipts := w.receipts + {ReceiptOf(l, x.key)})
    case AbandonStep(id) =>
      w.(link := AbandonSection(w.link, w.execs[id].key, w.execs[id].body),
         execs := w.execs - {id}, abandoned := w.abandoned + {id})
    case Restart(now) =>
      World(now, EMPTY.(denied := RestoredRules(w.disk.rules, now)), RestoredLink(w.disk.entries),
            map[], w.disk, w.receipts, {}, {}, {})
  }

  ghost predicate IsRun(w: World, steps: seq<Step>)
    decreases steps
  {
    steps == [] || (Enabled(w, steps[0]) && IsRun(Next(w, steps[0]), steps[1..]))
  }

  ghost function After(w: World, steps: seq<Step>): World
    requires IsRun(w, steps)
    decreases steps
  {
    if steps == [] then w else After(Next(w, steps[0]), steps[1..])
  }

  lemma {:induction false} RunAppend(w: World, first: seq<Step>, rest: seq<Step>)
    requires IsRun(w, first) && IsRun(After(w, first), rest)
    ensures IsRun(w, first + rest) && After(w, first + rest) == After(After(w, first), rest)
    decreases first
  {
    if first == [] {
      assert first + rest == rest;
    } else {
      assert (first + rest)[1..] == first[1..] + rest;
      RunAppend(Next(w, first[0]), first[1..], rest);
    }
  }

  lemma RunOne(w: World, a: Step)
    requires Enabled(w, a)
    ensures IsRun(w, [a]) && After(w, [a]) == Next(w, a)
  {
    var run := [a];
    assert run[0] == a && run[1..] == [];
  }

  lemma RunTwo(w: World, a: Step, b: Step)
    requires Enabled(w, a) && Enabled(Next(w, a), b)
    ensures IsRun(w, [a, b]) && After(w, [a, b]) == Next(Next(w, a), b)
  {
    RunOne(w, a);
    RunOne(Next(w, a), b);
    RunAppend(w, [a], [b]);
    assert [a] + [b] == [a, b];
  }

  // One executor per command.

  function AckOf(phase: Phase): Option<Ack> {
    if phase.Running? || phase.Decided? then None else Some(phase.ack)
  }

  ghost predicate Owns(cache: Cache, x: Exec, id: nat) {
    && x.key in cache
    && cache[x.key].body == x.body && x.body.Valid()
    && !cache[x.key].completed
    && cache[x.key].done == id
    && cache[x.key].ack == AckOf(x.phase)
  }

  /** Open entries and executors correspond one to one. */
  ghost predicate Matched(cache: Cache, execs: map<nat, Exec>) {
    && (forall id :: id in execs ==> Owns(cache, execs[id], id))
    && (forall k :: k in cache && !cache[k].completed ==> cache[k].done in execs && execs[cache[k].done].key == k)
    && (forall k :: k in cache && cache[k].completed ==> cache[k].ack.Some?)
  }

  /** Every command started has finished, been abandoned, or is executing; only the first two closed a channel. */
  ghost predicate Accounted(w: World) {
    && (forall id :: id in w.link.closed ==> id < w.link.next)
    && (forall id :: id in w.execs ==> id < w.link.next && id !in w.link.closed && w.execs[id].now <= w.clock)
    && (forall id :: id in w.finished ==> id in w.link.closed && id !in w.abandoned)
    && (forall id :: id in w.abandoned ==> id in w.link.closed)
    && (forall id :: id in w.started <==> id in w.execs || id in w.finished || id in w.abandoned)
  }

  ghost predicate Owned(w: World) {
    Matched(w.link.cache, w.execs) && Accounted(w)
  }

  /** `after` differs from `before` at `key` and by dropping completed entries. */
  ghost predicate OthersKept(before: Cache, after: Cache, key: CommandKey) {
    && (forall k :: k in after && k != key ==> k in before && after[k] == before[k])
    && (forall k :: k in before && k != key && !before[k].completed ==> k in after)
  }

  lemma MatchedMove(before: Cache, after: Cache, execs: map<nat, Exec>, id: nat, x: Exec)
    requires Matched(before, execs) && id in execs && OthersKept(before, after, x.key)
    requires x.key == execs[id].key && Owns(after, x, id)
    ensures Matched(after, execs[id := x])
  {
    forall i | i in execs && i != id
      ensures Owns(after, execs[i], i)
    {
      assert Owns(before, execs[i], i) && Owns(before, execs[id], id);
    }
  }

  lemma MatchedEnd(before: Cache, after: Cache, execs: map<nat, Exec>, id: nat)
    requires Matched(before, execs) && id in execs && OthersKept(before, after, execs[id].key)
    requires execs[id].key in after ==> after[execs[id].key].completed && after[execs[id].key].ack.Some?
    ensures Matched(after, execs - {id})
  {
    forall i | i in execs && i != id
      ensures Owns(after, execs[i], i)
    {
      assert Owns(before, execs[i], i) && Owns(before, execs[id], id);
    }
  }

  lemma MatchedStart(before: Cache, after: Cache, execs: map<nat, Exec>, id: nat, x: Exec)
    requires Matched(before, execs) && id !in execs && OthersKept(before, after, x.key)
    requires (x.key in before ==> before[x.key].completed) && Owns(after, x, id)
    ensures Matched(after, execs[id := x])
  {
    forall i | i in execs
      ensures Owns(after, execs[i], i)
    {
      assert Owns(before, execs[i], i);
    }
  }

  /** Sections that move an executor on without ending it. */
  predicate Moves(step: Step) {
    || step.DecideStep? || step.PublishStep? || step.ReadRulesStep?
    || step.ReadEntriesStep? || step.WriteStep? || step.WriteFailStep?
  }

  predicate Ends(step: Step) {
    step.FinishStep? || step.AbandonStep?
  }

  lemma AccountedMove(w: World, step: Step)
    requires Owned(w) && Moves(step) && Enabled(w, step)
    ensures Accounted(Next(w, step))
  {
    assert Owns(w.link.cache, w.execs[step.id], step.id);
  }

  lemma OwnedMove(w: World, step: Step)
    requires Owned(w) && Moves(step) && Enabled(w, step)
    ensures Owned(Next(w, step))
  {
    AccountedMove(w, step);
    var t, x := Next(w, step), w.execs[step.id];
    assert Owns(w.link.cache, x, step.id);
    assert t.execs == w.execs[step.id := t.execs[step.id]];
    assert OthersKept(w.link.cache, t.link.cache, x.key);
    MatchedMove(w.link.cache, t.link.cache, w.execs, step.id, t.execs[step.id]);
  }

  lemma OwnedEnd(w: World, step: Step)
    requires Owned(w) && Ends(step) && Enabled(w, step)
    ensures Owned(Next(w, step))
  {
    var t, x := Next(w, step), w.execs[step.id];
    assert Owns(w.link.cache, x, step.id);
    MatchedEnd(w.link.cache, t.link.cache, w.execs, step.id);
    assert Accounted(t);
  }

  /** What a begin section does to the link. */
  lemma BeginShape(l: Link, key: CommandKey, body: Command, now: Time)
    ensures var t, verdict := BeginSection(l, key, body, now), BeginVerdict(l, key, body, now);
      && OthersKept(l.cache, t.cache, key) && t.closed == l.closed
      && (verdict.Execute? ==>
            && (key in l.cache ==> l.cache[key].completed) && t.next == l.next + 1 && key in t.cache
            && t.cache[key] == Entry(body, None, l.next, now + IDEMPOTENCY_TTL, false))
      && (!verdict.Execute? ==>
            && t.next == l.next && (key in t.cache ==> key in l.cache && t.cache[key] == l.cache[key])
            && (key in l.cache && !l.cache[key].completed ==> key in t.cache))
  {
  }

  lemma OwnedBegin(w: World, step: Step)
    requires Owned(w) && step.BeginStep? && Enabled(w, step)
    ensures Owned(Next(w, step))
  {
    BeginShape(w.link, step.key, step.body, step.now);
    var l := BeginSection(w.link, step.key, step.body, step.now);
    if BeginVerdict(w.link, step.key, step.body, step.now).Execute? {
      MatchedStart(w.link.cache, l.cache, w.execs, w.link.next, Exec(step.key, step.body, step.now, Running));
    } else {
      MatchedKept(w.link.cache, l.cache, w.execs, step.key);
    }
  }

  lemma MatchedKept(before: Cache, after: Cache, execs: map<nat, Exec>, key: CommandKey)
    requires Matched(before, execs) && OthersKept(before, after, key)
    requires key in after ==> key in before && after[key] == before[key]
    requires key in before && !before[key].completed ==> key in after
    ensures Matched(after, execs)
  {
    forall i | i in execs
      ensures Owns(after, execs[i], i)
    {
      assert Owns(before, execs[i], i);
    }
  }

  lemma OwnedQuiet(w: World, step: Step)
    requires Owned(w) && Enabled(w, step) && !Moves(step) && !Ends(step) && !step.BeginStep?
    ensures Owned(Next(w, step))
  {
  }

  lemma OwnedStep(w: World, step: Step)
    requires Owned(w) && Enabled(w, step)
    ensures Owned(Next(w, step))
  {
    if Moves(step) {
      OwnedMove(w, step);
    } else if Ends(step) {
      OwnedEnd(w, step);
    } else if step.BeginStep? {
      OwnedBegin(w, step);
    } else {
      OwnedQuiet(w, step);
    }
  }

  lemma {:induction false} OwnedRun(w: World, steps: seq<Step>)
    requires Owned(w) && IsRun(w, steps)
    ensures Owned(After(w, steps))
    decreases steps
  {
    if steps != [] {
      OwnedStep(w, steps[0]);
      OwnedRun(Next(w, steps[0]), steps[1..]);
    }
  }

  /**
    However commands, duplicates and restarts interleave: a command has at most one
    executor; whatever was started is executing, finished or abandoned, and only one of
    these; and the refusing branches of both sections of completeRevocation are dead.
   */
  lemma OneExecutor(steps: seq<Step>)
    requires IsRun(INITIAL, steps)
    ensures var w := After(INITIAL, steps);
      && (forall i, j :: i in w.execs && j in w.execs && w.execs[i].key == w.execs[j].key ==> i == j)
      && w.started == w.execs.Keys + w.finished + w.abandoned && w.execs.Keys !! w.finished !! w.abandoned
      && (forall id :: id in w.execs ==> Open(w.link, w.execs[id].key, w.execs[id].body))
      && (forall id :: id in w.execs && w.execs[id].phase.Written? ==>
            w.link.cache[w.execs[id].key].ack == Some(w.execs[id].phase.ack))
  {
    OwnedRun(INITIAL, steps);
    var w := After(INITIAL, steps);
    forall id | id in w.execs
      ensures Owns(w.link.cache, w.execs[id], id)
    {
    }
  }

  /** An executor's last section closes its own channel, which nothing has closed before. */
  lemma ClosesOnce(steps: seq<Step>, step: Step)
    requires IsRun(INITIAL, steps) && Enabled(After(INITIAL, steps), step) && Ends(step)
    ensures var w := After(INITIAL, steps); var t := Next(w, step);
      && step.id !in w.link.closed && t.link.closed == w.link.closed + {step.id}
      && (if step.FinishStep? then t.finished == w.finished + {step.id} else t.abandoned == w.abandoned + {step.id})
  {
    OwnedRun(INITIAL, steps);
    var w := After(INITIAL, steps);
    assert Owns(w.link.cache, w.execs[step.id], step.id);
  }
}
