/**
  What a service is answered when it sends a revocation command, over all runs of the
  command machine: while the command executes its duplicates wait for that execution and
  get its acknowledgement, another body under the same message conflicts, and a new command
  is executed unless 1024 entries are held.
 */
module CommandVerdicts {
  import opened Common
  import opened ServiceAdmission
  import opened CommandCache
  import opened CommandMachine
  import opened Durability

  /** While `id` executes a command, a duplicate waits for it and another body conflicts; nothing is cached yet. */
  lemma ExecutingVerdict(w: World, id: nat, body: Command, now: Time)
    requires Owned(w) && id in w.execs
    ensures BeginVerdict(w.link, w.execs[id].key, body, now) ==
      if body == w.execs[id].body then Wait(id) else Conflict
    ensures CachedCompleted(w.link, w.execs[id].key, body).None? && id !in w.link.closed
  {
    assert Owns(w.link.cache, w.execs[id], id);
  }

  /** In every reachable world, restarts included. */
  lemma DuplicatesWait(steps: seq<Step>, id: nat, body: Command, now: Time)
    requires IsRun(INITIAL, steps) && id in After(INITIAL, steps).execs
    ensures var w := After(INITIAL, steps);
      && BeginVerdict(w.link, w.execs[id].key, body, now) ==
           (if body == w.execs[id].body then Wait(id) else Conflict)
      && CachedCompleted(w.link, w.execs[id].key, body).None?
  {
    OwnedRun(INITIAL, steps);
    ExecutingVerdict(After(INITIAL, steps), id, body, now);
  }

  // What a waiter gets.

  /** The receipt that finishing gives out. */
  function Final(w: World, id: nat): Receipt
    requires id in w.execs && w.execs[id].phase.Written? && w.execs[id].key in w.link.cache
  {
    var x := w.execs[id];
    Receipt(x.key, x.body, x.phase.ack, Unix(w.link.cache[x.key].expiresAt))
  }

  /** The entry is complete and gives the receipt's acknowledgement, for exactly that long. */
  ghost predicate Answers(l: Link, r: Receipt) {
    && r.key in l.cache && l.cache[r.key].completed && l.cache[r.key].body == r.body
    && l.cache[r.key].ack == Some(r.ack) && Unix(l.cache[r.key].expiresAt) == r.until
  }

  lemma FinishingAnswers(w: World, id: nat)
    requires Owned(w) && Enabled(w, FinishStep(id))
    ensures w.execs[id].key in w.link.cache
    ensures var t, r := Next(w, FinishStep(id)), Final(w, id);
      id in t.link.closed && Answers(t.link, r) && t.receipts == w.receipts + {r}
  {
    assert Owns(w.link.cache, w.execs[id], id);
  }

  lemma {:induction false} AnswersLast(w: World, steps: seq<Step>, r: Receipt)
    requires Owned(w) && IsRun(w, steps) && NoRestart(steps) && Answers(w.link, r)
    requires r.until > Unix(After(w, steps).clock)
    ensures Owned(After(w, steps)) && Answers(After(w, steps).link, r) && w.clock <= After(w, steps).clock
    decreases steps
  {
    if steps != [] {
      var t := Next(w, steps[0]);
      OwnedStep(w, steps[0]);
      assert w.clock <= t.clock;
      ClockRises(t, steps[1..]);
      CompletedStay(w, steps[0], r.key);
      AnswersLast(t, steps[1..], r);
    }
  }

  lemma {:induction false} ClockRises(w: World, steps: seq<Step>)
    requires IsRun(w, steps)
    ensures w.clock <= After(w, steps).clock
    decreases steps
  {
    if steps != [] {
      ClockRises(Next(w, steps[0]), steps[1..]);
    }
  }

  /** Whatever the clock of the request, as long as it is not ahead of the relay's. */
  lemma AnsweredVerdict(w: World, r: Receipt, body: Command, now: Time)
    requires Answers(w.link, r) && r.until > Unix(w.clock) && now <= w.clock
    ensures BeginVerdict(w.link, r.key, body, now) == if body == r.body then Cached(r.ack) else Conflict
    ensures CachedCompleted(w.link, r.key, body) == if body == r.body then Some(r.ack) else None
    ensures Next(w, WaitStep(r.key, r.body)) == w.(receipts := w.receipts + {r})
  {
    assert w.link.cache[r.key].expiresAt > now;
  }

  /**
    In every run: when an execution finishes, it closes the channel that the duplicates of
    its command wait on; and from then on until the entry expires, whatever else happens,
    every one of them gets the very acknowledgement of that execution, a new duplicate gets
    it from the cache, and another body conflicts.
   */
  lemma WaitersAreAnswered(steps: seq<Step>, id: nat, rest: seq<Step>, body: Command, now: Time)
    requires IsRun(INITIAL, steps) && Enabled(After(INITIAL, steps), FinishStep(id))
    requires var t := Next(After(INITIAL, steps), FinishStep(id));
      IsRun(t, rest) && NoRestart(rest) && now <= After(t, rest).clock
    ensures var w := After(INITIAL, steps);
      var x, t := w.execs[id], Next(w, FinishStep(id));
      var end := After(t, rest);
      && x.key in w.link.cache && id in t.link.closed && id !in w.link.closed
      && var r := Final(w, id);
      && r.ack == x.phase.ack && r.body == x.body && r in t.receipts
      && (r.until > Unix(end.clock) ==>
            && BeginVerdict(end.link, x.key, body, now) == (if body == x.body then Cached(r.ack) else Conflict)
            && CachedCompleted(end.link, x.key, x.body) == Some(r.ack)
            && Next(end, WaitStep(x.key, x.body)).receipts == end.receipts + {r})
  {
    OwnedRun(INITIAL, steps);
    var w := After(INITIAL, steps);
    var t := Next(w, FinishStep(id));
    FinishingAnswers(w, id);
    ExecutingVerdict(w, id, body, now);
    OwnedStep(w, FinishStep(id));
    var r := Final(w, id);
    if r.until > Unix(After(t, rest).clock) {
      AnswersLast(t, rest, r);
      AnsweredVerdict(After(t, rest), r, body, now);
    }
  }

  /** An abandoned command is forgotten: who waited for it gets nothing, and the next one executes it. */
  lemma AbandonedIsForgotten(w: World, id: nat, body: Command, now: Time)
    requires Owned(w) && Enabled(w, AbandonStep(id))
    ensures var t, key := Next(w, AbandonStep(id)), w.execs[id].key;
      && id in t.link.closed && key !in t.link.cache && CachedCompleted(t.link, key, body).None?
      && (|t.link.cache| < MAX_IDEMPOTENCY ==> BeginVerdict(t.link, key, body, now).Execute?)
  {
    assert Owns(w.link.cache, w.execs[id], id);
    var t := Next(w, AbandonStep(id));
    CleanSmaller(t.link, now);
  }

  /**
    What an execution decides: if the deadline is ahead it is applied, with the rule in force
    and the counts of the eviction; otherwise it has already expired, and no rule is installed.
    The acknowledgement answers the command's own message.
   */
  lemma DecisionIsApt(w: World, step: Step)
    requires step.DecideStep? && Enabled(w, step)
    ensures var t, x := Next(w, step), w.execs[step.id];
      && t.execs[step.id].phase.Decided?
      && var ack := t.execs[step.id].phase.ack;
      && ack.id == step.ackID && ack.inReplyTo == x.key.message && ack.denyUntil == x.body.denyUntil
      && (ack.outcome == if x.body.denyUntil * SECOND > step.now then Applied else AlreadyExpired)
      && (ack.outcome.Applied? ==>
            && ack.memberships == step.memberships && ack.releases == step.releases
            && RuleHolds(t.admission, x.body.target, x.body.denyUntil * SECOND))
      && (ack.outcome.AlreadyExpired? ==> ack.memberships == ack.releases == 0 && t.admission == w.admission)
  {
  }

  /** A published acknowledgement is kept for twenty minutes, and an applied one until its deadline if that is later. */
  lemma PublishedUntil(w: World, id: nat)
    requires Owned(w) && Enabled(w, PublishStep(id))
    ensures var t, x := Next(w, PublishStep(id)), w.execs[id];
      var until, deadline := x.now + 1200 * SECOND, x.phase.ack.denyUntil * SECOND;
      && x.key in t.link.cache && t.link.cache[x.key].ack == Some(x.phase.ack) && !t.link.cache[x.key].completed
      && t.link.cache[x.key].expiresAt ==
           if x.phase.ack.outcome.Applied? && deadline > until then deadline else until
  {
    assert Owns(w.link.cache, w.execs[id], id);
  }

  // Room.

  /** The entries that are kept: all but completed, acknowledged ones whose time has passed. */
  ghost function Held(cache: Cache, now: Time): set<CommandKey> {
    set k | k in cache && !(cache[k].completed && cache[k].ack.Some? && cache[k].expiresAt <= now)
  }

  lemma CleanSmaller(l: Link, now: Time)
    ensures Clean(l, now).cache.Keys == Held(l.cache, now)
    ensures |Clean(l, now).cache| == |Held(l.cache, now)| <= |l.cache|
  {
    var c := Clean(l, now).cache;
    assert c.Keys == Held(l.cache, now);
    assert |c| == |c.Keys|;
    MapSize(c, l.cache.Keys);
    assert |l.cache| == |l.cache.Keys|;
  }

  /** A command that is not held is refused as overloaded exactly if 1024 others are, and executed otherwise. */
  lemma OverloadedExactly(l: Link, key: CommandKey, body: Command, now: Time)
    ensures key in Held(l.cache, now) ==>
      BeginVerdict(l, key, body, now).Conflict? == (l.cache[key].body != body)
    ensures key !in Held(l.cache, now) ==>
      BeginVerdict(l, key, body, now) == if |Held(l.cache, now)| < 1024 then Execute else Overloaded
    ensures Held(BeginSection(l, key, body, now).cache, now) ==
      Held(l.cache, now) + if BeginVerdict(l, key, body, now).Execute? then {key} else {}
  {
    CleanSmaller(l, now);
    assert key in Clean(l, now).cache <==> key in Held(l.cache, now);
  }

  ghost predicate Small(file: File) {
    |file.entries| <= MAX_IDEMPOTENCY
  }

  /** Neither the cache nor a file has more than 1024 entries. */
  ghost predicate AllSmall(w: World) {
    && |w.link.cache| <= MAX_IDEMPOTENCY && Small(w.disk)
    && forall id :: id in w.execs && w.execs[id].phase.Snapshot? ==> Small(w.execs[id].phase.file)
  }

  lemma FewerEntries(before: Cache, keys: set<CommandKey>)
    requires |before| <= MAX_IDEMPOTENCY && keys <= before.Keys
    ensures |keys| <= MAX_IDEMPOTENCY
  {
    SubsetSize(keys, before.Keys);
    assert |before| == |before.Keys|;
  }

  lemma SameKeysOrFewer(w: World, step: Step)
    requires Owned(w) && Enabled(w, step) && !step.BeginStep? && !step.Restart?
    ensures Next(w, step).link.cache.Keys <= w.link.cache.Keys
  {
    if Moves(step) || Ends(step) {
      assert Owns(w.link.cache, w.execs[step.id], step.id);
    }
  }

  lemma CacheSmall(w: World, step: Step)
    requires Owned(w) && AllSmall(w) && Enabled(w, step)
    ensures |Next(w, step).link.cache| <= MAX_IDEMPOTENCY
  {
    var after := Next(w, step).link.cache;
    assert |after| == |after.Keys|;
    if step.BeginStep? {
      CleanSmaller(w.link, step.now);
      BeginSmall(w.link, step.key, step.body, step.now);
    } else if step.Restart? {
      assert after.Keys == w.disk.entries.Keys && |w.disk.entries| == |w.disk.entries.Keys|;
    } else {
      SameKeysOrFewer(w, step);
      FewerEntries(w.link.cache, after.Keys);
    }
  }

  lemma BeginSmall(l: Link, key: CommandKey, body: Command, now: Time)
    requires |Clean(l, now).cache| <= MAX_IDEMPOTENCY
    ensures |BeginSection(l, key, body, now).cache| <= MAX_IDEMPOTENCY
  {
  }

  lemma FileSmall(w: World, step: Step, id: nat)
    requires Owned(w) && AllSmall(w) && Enabled(w, step)
    requires id in Next(w, step).execs && Next(w, step).execs[id].phase.Snapshot?
    ensures Small(Next(w, step).execs[id].phase.file)
  {
    if step.ReadEntriesStep? && step.id == id {
      var entries := Next(w, step).execs[id].phase.file.entries;
      FewerEntries(w.link.cache, entries.Keys);
      assert |entries| == |entries.Keys|;
    } else {
      assert id in w.execs && Next(w, step).execs[id] == w.execs[id];
    }
  }

  lemma SmallStep(w: World, step: Step)
    requires Owned(w) && AllSmall(w) && Enabled(w, step)
    ensures AllSmall(Next(w, step))
  {
    CacheSmall(w, step);
    var t := Next(w, step);
    forall id | id in t.execs && t.execs[id].phase.Snapshot? ensures Small(t.execs[id].phase.file) {
      FileSmall(w, step, id);
    }
  }

  lemma {:induction false} SmallRun(w: World, steps: seq<Step>)
    requires Owned(w) && AllSmall(w) && IsRun(w, steps)
    ensures AllSmall(After(w, steps))
    decreases steps
  {
    if steps != [] {
      OwnedStep(w, steps[0]);
      SmallStep(w, steps[0]);
      SmallRun(Next(w, steps[0]), steps[1..]);
    }
  }

  /** In every run, across restarts, the cache holds at most 1024 entries, and so does the file. */
  lemma CacheBounded(steps: seq<Step>)
    requires IsRun(INITIAL, steps)
    ensures |After(INITIAL, steps).link.cache| <= 1024 && |After(INITIAL, steps).disk.entries| <= 1024
  {
    SmallRun(INITIAL, steps);
  }

  // The file.

  /** A file holds the acknowledgements whose time had not passed when they were read, and the rules read before. */
  lemma FileHolds(w: World, id: nat, k: CommandKey)
    requires Owned(w) && Enabled(w, ReadEntriesStep(id))
    ensures var file, now := Next(w, ReadEntriesStep(id)).execs[id].phase.file, w.execs[id].now;
      && file.rules == w.execs[id].phase.rules
      && (k in file.entries <==> k in w.link.cache && w.link.cache[k].ack.Some? && w.link.cache[k].expiresAt > now)
      && (k in file.entries ==>
            var e, p := w.link.cache[k], file.entries[k];
            && p.body == e.body && Some(p.ack) == e.ack
            && p.expiresAt * SECOND <= e.expiresAt < (p.expiresAt + 1) * SECOND)
  {
    if k in w.link.cache {
      var t := w.link.cache[k].expiresAt;
      assert t == Unix(t) * SECOND + t % SECOND;
    }
  }

  /** The rules read are those in force, each with its deadline in whole seconds. */
  lemma FileRules(w: World, id: nat, r: DenyRule)
    requires Owned(w) && Enabled(w, ReadRulesStep(id))
    ensures var rules, now := Next(w, ReadRulesStep(id)).execs[id].phase.rules, w.execs[id].now;
      && (r in rules <==> r in w.admission.denied && w.admission.denied[r] > now)
      && (r in rules ==> rules[r] * SECOND <= w.admission.denied[r] < (rules[r] + 1) * SECOND)
  {
    if r in w.admission.denied {
      var t := w.admission.denied[r];
      assert t == Unix(t) * SECOND + t % SECOND;
    }
  }

  /** A restart gives back the rules whose time has not passed, and all entries of the file, complete. */
  lemma RestartGivesBack(w: World, now: Time, r: DenyRule, k: CommandKey)
    requires Enabled(w, Restart(now))
    ensures var t := Next(w, Restart(now));
      && (r in t.admission.denied <==> r in w.disk.rules && w.disk.rules[r] * SECOND > now)
      && (r in t.admission.denied ==> t.admission.denied[r] == w.disk.rules[r] * SECOND)
      && t.admission.pending == map[] && t.admission.verified == map[] && t.execs == map[]
      && (k in t.link.cache <==> k in w.disk.entries)
      && (k in t.link.cache ==>
            && CachedCompleted(t.link, k, w.disk.entries[k].body) == Some(w.disk.entries[k].ack)
            && t.link.cache[k].expiresAt == w.disk.entries[k].expiresAt * SECOND > now)
  {
    assert now == Unix(now) * SECOND + now % SECOND;
  }
}
