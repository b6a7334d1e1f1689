/**
  private_control.go and private_control_state.go: the cache that makes revocation
  commands idempotent, and the file that makes it and the deny rules durable. A `Link` is
  the value of the cache together with which completion channels exist and are closed;
  each function on it is one critical section under the link's mutex.
 */
module CommandCache {
  import opened Common
  import opened ServiceAdmission

  const IDEMPOTENCY_TTL: Time := 600 * SECOND
  const MAX_DENY_PERIOD: Time := 5400 * SECOND
  const MAX_IDEMPOTENCY := 1024

  /** A service's and a message's identifier; both are validated before they reach the cache. */
  type ServiceID = string
  type MessageID = string

  /** A valid revoke_service_admission body; `denyUntil` is in seconds. The SHA-256 body hash stands for it. */
  datatype Command = Command(target: Target, denyUntil: nat, reason: string) {
    predicate Valid() {
      target.Specific() && denyUntil >= 1
    }

    function Deadline(): Time {
      denyUntil * SECOND
    }
  }

  datatype Outcome = Applied | AlreadyExpired

  datatype Ack = Ack(
    id: MessageID, inReplyTo: MessageID, outcome: Outcome, denyUntil: nat, memberships: uint32, releases: uint32)

  datatype CommandKey = CommandKey(service: ServiceID, message: MessageID)

  /** `done` names the entry's completion channel. */
  datatype Entry = Entry(body: Command, ack: Option<Ack>, done: nat, expiresAt: Time, completed: bool)

  type Cache = map<CommandKey, Entry>

  datatype Link = Link(cache: Cache, next: nat, closed: set<nat>)

  const NEW_LINK := Link(map[], 0, {})

  /** privateControlIdempotencyExpiry: an applied acknowledgement outlives its deny rule. */
  function IdempotencyExpiry(ack: Ack, now: Time): (t: Time)
    ensures t >= now + IDEMPOTENCY_TTL
    ensures ack.outcome.Applied? ==> t >= ack.denyUntil * SECOND
    ensures t == now + IDEMPOTENCY_TTL || (ack.outcome.Applied? && t == ack.denyUntil * SECOND)
  {
    var expiresAt := now + IDEMPOTENCY_TTL;
    if ack.outcome.Applied? && ack.denyUntil * SECOND > expiresAt then ack.denyUntil * SECOND else expiresAt
  }

  predicate Droppable(e: Entry, now: Time) {
    e.completed && e.ack.Some? && e.expiresAt <= now
  }

  ghost function Clean(l: Link, now: Time): Link {
    l.(cache := Without(l.cache, (k: CommandKey, e: Entry) => Droppable(e, now)))
  }

  datatype BeginResult = Cached(ack: Ack) | Wait(done: nat) | Execute | Conflict | Overloaded

  ghost function BeginVerdict(l: Link, key: CommandKey, body: Command, now: Time): BeginResult {
    var c := Clean(l, now).cache;
    if key in c then
      if c[key].body != body then Conflict
      else if c[key].completed && c[key].ack.Some? then Cached(c[key].ack.value)
      else Wait(c[key].done)
    else if |c| >= MAX_IDEMPOTENCY then Overloaded
    else Execute
  }

  ghost function BeginSection(l: Link, key: CommandKey, body: Command, now: Time): Link {
    var c := Clean(l, now);
    if BeginVerdict(l, key, body, now).Execute? then
      Link(c.cache[key := Entry(body, None, l.next, now + IDEMPOTENCY_TTL, false)], l.next + 1, l.closed)
    else c
  }

  /** The entry a running executor's sections act on. */
  predicate Open(l: Link, key: CommandKey, body: Command) {
    key in l.cache && l.cache[key].body == body && !l.cache[key].completed
  }

  /** First section of completeRevocation; refused unless the entry is open. */
  function PublishSection(l: Link, key: CommandKey, body: Command, ack: Ack, now: Time): Link
    requires Open(l, key, body)
  {
    var e := l.cache[key].(ack := Some(ack), expiresAt := IdempotencyExpiry(ack, now + IDEMPOTENCY_TTL));
    l.(cache := l.cache[key := e])
  }

  /** Last section of completeRevocation; refused unless the entry is open and has its acknowledgement. */
  function FinishSection(l: Link, key: CommandKey, body: Command): Link
    requires Open(l, key, body) && l.cache[key].ack.Some?
  {
    l.(cache := l.cache[key := l.cache[key].(completed := true)], closed := l.closed + {l.cache[key].done})
  }

  function AbandonSection(l: Link, key: CommandKey, body: Command): Link {
    if !Open(l, key, body) then l else
    l.(cache := l.cache - {key}, closed := l.closed + {l.cache[key].done})
  }

  function CachedCompleted(l: Link, key: CommandKey, body: Command): Option<Ack> {
    if key in l.cache && l.cache[key].body == body && l.cache[key].completed then l.cache[key].ack else None
  }

  // The state file.

  datatype Persisted = Persisted(body: Command, ack: Ack, expiresAt: nat)

  datatype File = File(rules: map<DenyRule, nat>, entries: map<CommandKey, Persisted>)

  const NO_FILE := File(map[], map[])

  ghost function RuleSnapshot(denied: map<DenyRule, Time>): map<DenyRule, nat> {
    map r | r in denied :: Unix(denied[r])
  }

  ghost function EntrySnapshot(cache: Cache, now: Time): map<CommandKey, Persisted> {
    map k | k in cache && cache[k].ack.Some? && cache[k].expiresAt > now ::
      Persisted(cache[k].body, cache[k].ack.value, Unix(cache[k].expiresAt))
  }

  /** Restoring fails on an entry that has expired, and when the rules do not fit. */
  ghost predicate Restorable(file: File, now: Time) {
    && (forall k :: k in file.entries ==> file.entries[k].expiresAt > Unix(now))
    && |RestoredRules(file.rules, now)| <= MAX_DENY_RULES
  }

  ghost function RestoredRules(rules: map<DenyRule, nat>, now: Time): map<DenyRule, Time> {
    map r | r in rules && rules[r] * SECOND > now :: rules[r] * SECOND
  }

  /** Restored entries are complete; one already closed channel stands for all of theirs. */
  ghost function RestoredLink(entries: map<CommandKey, Persisted>): Link {
    var cache := map k | k in entries ::
      Entry(entries[k].body, Some(entries[k].ack), 0, entries[k].expiresAt * SECOND, true);
    Link(cache, 1, {0})
  }

  /** The link's mutable state. Closing a closed channel panics in Go, so each close is shown to be the first. */
  class PrivateControlLink {
    var idempotency: Cache
    var next: nat
    var closed: set<nat>

    function State(): Link
      reads this
    {
      Link(idempotency, next, closed)
    }

    ghost predicate Valid()
      reads this
    {
      && (forall c :: c in closed ==> c < next)
      && (forall k :: k in idempotency ==> idempotency[k].done < next)
      && (forall k :: k in idempotency ==> (idempotency[k].completed <==> idempotency[k].done in closed))
      && (forall j, k :: j in idempotency && k in idempotency && j != k && !idempotency[j].completed ==>
            idempotency[j].done != idempotency[k].done)
    }

    constructor ()
      ensures Valid() && State() == NEW_LINK
    {
      idempotency, next, closed := map[], 0, {};
    }

    method CleanupIdempotencyLocked(now: Time)
      requires Valid()
      modifies this
      ensures Valid() && State() == Clean(old(State()), now)
    {
      idempotency := DeleteWhere(idempotency, (k: CommandKey, e: Entry) => Droppable(e, now));
    }

    method BeginRevocation(key: CommandKey, body: Command, now: Time) returns (r: BeginResult)
      requires Valid()
      modifies this
      ensures Valid()
      ensures r == BeginVerdict(old(State()), key, body, now)
      ensures State() == BeginSection(old(State()), key, body, now)
    {
      CleanupIdempotencyLocked(now);
      if key in idempotency {
        var entry := idempotency[key];
        if entry.body != body {
          return Conflict;
        }
        if entry.completed && entry.ack.Some? {
          return Cached(entry.ack.value);
        }
        return Wait(entry.done);
      }
      if |idempotency| >= MAX_IDEMPOTENCY {
        return Overloaded;
      }
      idempotency := idempotency[key := Entry(body, None, next, now + IDEMPOTENCY_TTL, false)];
      next := next + 1;
      return Execute;
    }

    method PublishRevocation(key: CommandKey, body: Command, ack: Ack, now: Time) returns (ok: bool)
      requires Valid()
      modifies this
      ensures Valid()
      ensures ok <==> Open(old(State()), key, body)
      ensures State() == if ok then PublishSection(old(State()), key, body, ack, now) else old(State())
    {
      if key !in idempotency || idempotency[key].body != body || idempotency[key].completed {
        return false;
      }
      var entry := idempotency[key];
      var expiresAt := IdempotencyExpiry(ack, now + IDEMPOTENCY_TTL);
      idempotency := idempotency[key := entry.(ack := Some(ack), expiresAt := expiresAt)];
      return true;
    }

    method FinishRevocation(key: CommandKey, body: Command) returns (ok: bool)
      requires Valid()
      modifies this
      ensures Valid()
      ensures ok <==> Open(old(State()), key, body) && old(idempotency)[key].ack.Some?
      ensures State() == if ok then FinishSection(old(State()), key, body) else old(State())
      ensures ok ==> old(idempotency)[key].done !in old(closed)
    {
      if key !in idempotency || idempotency[key].body != body || idempotency[key].completed
         || idempotency[key].ack.None?
      {
        return false;
      }
      var entry := idempotency[key];
      idempotency := idempotency[key := entry.(completed := true)];
      closed := closed + {entry.done};
      return true;
    }

    method AbandonRevocation(key: CommandKey, body: Command)
      requires Valid()
      modifies this
      ensures Valid()
      ensures State() == AbandonSection(old(State()), key, body)
      ensures Open(old(State()), key, body) ==> old(idempotency)[key].done !in old(closed)
    {
      if key !in idempotency || idempotency[key].body != body || idempotency[key].completed {
        return;
      }
      var done := idempotency[key].done;
      idempotency := idempotency - {key};
      closed := closed + {done};
    }

    method CachedCompletedRevocation(key: CommandKey, body: Command) returns (r: Option<Ack>)
      ensures r == CachedCompleted(State(), key, body)
    {
      if key !in idempotency || idempotency[key].body != body || !idempotency[key].completed
         || idempotency[key].ack.None?
      {
        return None;
      }
      return idempotency[key].ack;
    }

    /** The two halves of persistentStateSnapshot: rules under one mutex, then entries under the other. */
    method SnapshotRules(admission: ServiceAdmissionState, now: Time) returns (rules: map<DenyRule, nat>)
      modifies admission
      ensures admission.State() == Cleanup(old(admission.State()), now)
      ensures rules == RuleSnapshot(admission.denied)
    {
      admission.CleanupLocked(now);
      rules := map[];
      var todo := admission.denied.Keys;
      while todo != {}
        invariant todo <= admission.denied.Keys
        invariant rules == map r | r in admission.denied && r !in todo :: Unix(admission.denied[r])
      {
        var rule :| rule in todo;
        todo := todo - {rule};
        rules := rules[rule := Unix(admission.denied[rule])];
      }
    }

    method SnapshotEntries(now: Time) returns (entries: map<CommandKey, Persisted>)
      requires Valid()
      modifies this
      ensures Valid() && State() == Clean(old(State()), now)
      ensures entries == EntrySnapshot(idempotency, now)
    {
      CleanupIdempotencyLocked(now);
      entries := map[];
      var todo := idempotency.Keys;
      while todo != {}
        invariant todo <= idempotency.Keys
        invariant forall k :: k in entries <==>
          k in idempotency && k !in todo && idempotency[k].ack.Some? && idempotency[k].expiresAt > now
        invariant forall k :: k in entries ==>
          entries[k] == Persisted(idempotency[k].body, idempotency[k].ack.value, Unix(idempotency[k].expiresAt))
      {
        var key :| key in todo;
        todo := todo - {key};
        var entry := idempotency[key];
        if entry.ack.Some? && entry.expiresAt > now {
          entries := entries[key := Persisted(entry.body, entry.ack.value, Unix(entry.expiresAt))];
        }
      }
    }
  }

  /** The rule loop of restorePersistentState, into a new admission state. */
  method RestoreRules(rules: map<DenyRule, nat>, now: Time) returns (admission: ServiceAdmissionState, ok: bool)
    requires forall r :: r in rules ==> r.Canonical()
    ensures fresh(admission)
    ensures ok <==> |RestoredRules(rules, now)| <= MAX_DENY_RULES
    ensures ok ==> admission.State() == EMPTY.(denied := RestoredRules(rules, now))
  {
    admission := new ServiceAdmissionState();
    var todo := rules.Keys;
    ghost var done: map<DenyRule, nat> := map[];
    ok := true;
    while todo != {}
      invariant done == rules - todo && todo <= rules.Keys
      invariant fresh(admission) && ok
      invariant admission.State() == EMPTY.(denied := RestoredRules(done, now))
      invariant |RestoredRules(done, now)| <= MAX_DENY_RULES
    {
      var rule :| rule in todo;
      todo := todo - {rule};
      ghost var more := rules - todo;
      RestoreOne(done, more, rule, rules[rule], now);
      done := more;
      if rules[rule] * SECOND > now {
        ok := admission.InstallRevocation(rule.ToTarget(), rules[rule] * SECOND, now);
        if !ok {
          assert RestoredRules(more, now).Keys <= RestoredRules(rules, now).Keys;
          MapSize(RestoredRules(more, now), RestoredRules(rules, now).Keys);
          assert |RestoredRules(rules, now)| == |RestoredRules(rules, now).Keys|;
          return;
        }
      }
    }
    assert rules - {} == rules;
  }

  lemma RestoreOne(done: map<DenyRule, nat>, more: map<DenyRule, nat>, rule: DenyRule, until: nat, now: Time)
    requires rule !in done && rule.Canonical() && more == done[rule := until]
    ensures until * SECOND <= now ==> RestoredRules(more, now) == RestoredRules(done, now)
    ensures until * SECOND > now ==>
      && RestoredRules(more, now) == RestoredRules(done, now)[rule := until * SECOND]
      && |RestoredRules(more, now)| == |RestoredRules(done, now)| + 1
      && InstallsInto(RestoredRules(done, now), rule, until * SECOND, now)
  {
    var before := RestoredRules(done, now);
    assert until * SECOND > now ==> RestoredRules(more, now) == before[rule := until * SECOND];
    assert until * SECOND <= now ==> RestoredRules(more, now) == before;
    if until * SECOND > now {
      InstallUnexpired(before, rule, until * SECOND, now);
    }
  }

  /** Installing a new rule among unexpired ones adds just that rule, if it fits. */
  ghost predicate InstallsInto(denied: map<DenyRule, Time>, rule: DenyRule, deadline: Time, now: Time) {
    var s := EMPTY.(denied := denied);
    && (Installs(s, rule.ToTarget(), deadline, now) <==> |denied| < MAX_DENY_RULES)
    && (|denied| < MAX_DENY_RULES ==>
          Install(s, rule.ToTarget(), deadline, now) == EMPTY.(denied := denied[rule := deadline]))
  }

  lemma InstallUnexpired(denied: map<DenyRule, Time>, rule: DenyRule, deadline: Time, now: Time)
    requires rule !in denied && rule.Canonical() && deadline > now
    requires forall r :: r in denied ==> denied[r] > now
    ensures InstallsInto(denied, rule, deadline, now)
  {
    RuleRoundTrip(rule, rule.ToTarget());
    assert Cleanup(EMPTY.(denied := denied), now) == EMPTY.(denied := denied);
  }
}
