/**
  The Directory's replay records (directory_v3.go): one window per channel and epoch, kept
  until the latest expiry of the datagrams it admitted. Workers open datagrams concurrently
  and commit them under the lock, each with a clock reading taken before it; purges happen
  on every commit and elsewhere.
 */
module DirectoryReplay {
  import opened Common
  import opened ReplayWindow

  const MAX_REPLAY_DOMAINS := 1024

  datatype Domain = Domain(channel: uint32, epoch: string)
  datatype Record = Record(window: Window, expires: Time)
  type Records = map<Domain, Record>

  /** What a commit looks at of an opened datagram; `expiresAt` is in seconds. */
  datatype Datagram = Datagram(domain: Domain, sequence: nat, expiresAt: nat) {
    function Expiry(): Time {
      expiresAt * SECOND
    }

    /** openDirectoryDatagram's test, on whole seconds. */
    predicate OpensAt(now: Time) {
      expiresAt > Unix(now)
    }
  }

  /** A datagram opens exactly before its expiry, although the test truncates the clock. */
  lemma OpensBeforeExpiry(d: Datagram, now: Time)
    ensures d.OpensAt(now) <==> now < d.Expiry()
  {
    assert now == Unix(now) * SECOND + now % SECOND;
  }

  ghost function Purged(replay: Records, now: Time): Records {
    map k | k in replay && replay[k].expires > now :: replay[k]
  }

  datatype Verdict = DomainLimit | Replayed | Admitted

  /** The verdict on `d`, once the expired records are gone. */
  function Check(replay: Records, d: Datagram): Verdict {
    if d.domain !in replay then if |replay| >= MAX_REPLAY_DOMAINS then DomainLimit else Admitted
    else if Accept(replay[d.domain].window, d.sequence).ok then Admitted
    else Replayed
  }

  function Admit(replay: Records, d: Datagram): Records {
    var record := if d.domain in replay
      then Record(Accept(replay[d.domain].window, d.sequence).window, replay[d.domain].expires)
      else Record(Fresh(d.sequence), 0);
    replay[d.domain := if record.expires < d.Expiry() then record.(expires := d.Expiry()) else record]
  }

  ghost function Committed(replay: Records, d: Datagram, now: Time): Records {
    var kept := Purged(replay, now);
    if Check(kept, d).Admitted? then Admit(kept, d) else kept
  }

  class Directory {
    var replay: Records

    constructor ()
      ensures replay == map[]
    {
      replay := map[];
    }

    /** The replay loop of purgeLocked. */
    method PurgeLocked(now: Time)
      modifies this
      ensures replay == Purged(old(replay), now)
    {
      var all := replay;
      var expired := (_: Domain, r: Record) => r.expires <= now;
      replay := DeleteWhere(replay, expired);
      assert replay == Purged(all, now);
    }

    /** The replay part of commitInbound. */
    method CommitInbound(d: Datagram, now: Time) returns (v: Verdict)
      modifies this
      ensures v == Check(Purged(old(replay), now), d)
      ensures replay == Committed(old(replay), d, now)
    {
      PurgeLocked(now);
      var found := d.domain in replay;
      if !found && |replay| >= MAX_REPLAY_DOMAINS {
        return DomainLimit;
      }
      var record := Record(Fresh(d.sequence), 0);
      if found {
        var verdict := AcceptReplayCounter(replay[d.domain].window, d.sequence);
        if !verdict.ok {
          return Replayed;
        }
        record := Record(verdict.window, replay[d.domain].expires);
      }
      if record.expires < d.Expiry() {
        record := record.(expires := d.Expiry());
      }
      replay := replay[d.domain := record];
      v := Admitted;
    }
  }

  // Schedules.

  datatype Step = Commit(d: Datagram, now: Time) | Purge(now: Time)

  ghost function Next(replay: Records, step: Step): Records {
    match step
    case Commit(d, now) => Committed(replay, d, now)
    case Purge(now) => Purged(replay, now)
  }

  ghost predicate Admits(replay: Records, step: Step) {
    step.Commit? && Check(Purged(replay, step.now), step.d).Admitted?
  }

  /** The records before the step number `i` of a schedule. */
  ghost function At(replay: Records, steps: seq<Step>, i: nat): Records
    requires i <= |steps|
  {
    if i == 0 then replay else Next(At(replay, steps, i - 1), steps[i - 1])
  }

  /** There are never more than 1024 replay domains. */
  lemma {:induction false} DomainsBounded(replay: Records, steps: seq<Step>, i: nat)
    requires |replay| <= MAX_REPLAY_DOMAINS && i <= |steps|
    ensures |At(replay, steps, i)| <= MAX_REPLAY_DOMAINS
  {
    if i > 0 {
      DomainsBounded(replay, steps, i - 1);
      var before, step := At(replay, steps, i - 1), steps[i - 1];
      var kept := Purged(before, step.now);
      MapSize(kept, before.Keys);
      assert |before| == |before.Keys|;
      if step.Commit? && Check(kept, step.d).Admitted? && step.d.domain in kept {
        assert Admit(kept, step.d).Keys == kept.Keys;
        assert |Admit(kept, step.d)| == |Admit(kept, step.d).Keys| == |kept.Keys| == |kept|;
      }
    }
  }

  /** `d`'s sequence number was admitted, or is too old for the window, and `d` has not expired from the records. */
  ghost predicate Barred(replay: Records, d: Datagram) {
    && d.domain in replay && replay[d.domain].expires >= d.Expiry()
    && WindowBars(replay[d.domain].window, d.sequence)
  }

  ghost predicate WindowBars(w: Window, c: nat) {
    c <= w.highest && (w.Recent(c) ==> w.Remembers(c))
  }

  lemma BarredStays(w: Window, c: nat, x: nat)
    requires WindowBars(w, c)
    ensures !Accept(w, c).ok && WindowBars(Accept(w, x).window, c)
  {
  }

  lemma AdmissionBars(replay: Records, d: Datagram, now: Time)
    requires Admits(replay, Commit(d, now))
    ensures Barred(Committed(replay, d, now), d)
  {
  }

  lemma StepKeepsBarred(replay: Records, step: Step, d: Datagram)
    requires Barred(replay, d) && step.now < d.Expiry()
    ensures Barred(Next(replay, step), d)
    ensures step.Commit? && step.d.domain == d.domain && step.d.sequence == d.sequence ==> !Admits(replay, step)
  {
    var kept := Purged(replay, step.now);
    assert d.domain in kept;
    BarredStays(kept[d.domain].window, d.sequence, d.sequence);
    if step.Commit? {
      BarredStays(kept[d.domain].window, d.sequence, step.d.sequence);
    }
  }

  lemma {:induction false} StaysBarred(replay: Records, steps: seq<Step>, i: nat, j: nat, d: Datagram)
    requires i < j <= |steps| && steps[i].Commit? && steps[i].d == d && Admits(At(replay, steps, i), steps[i])
    requires forall k :: i < k < j ==> steps[k].now < d.Expiry()
    ensures Barred(At(replay, steps, j), d)
    decreases j
  {
    if j == i + 1 {
      AdmissionBars(At(replay, steps, i), d, steps[i].now);
    } else {
      StaysBarred(replay, steps, i, j - 1, d);
      StepKeepsBarred(At(replay, steps, j - 1), steps[j - 1], d);
    }
  }

  /**
    For every schedule of commits and purges: as long as no clock read since the admission
    of a datagram has reached its expiry, no datagram of the same channel, epoch and
    sequence number is admitted again, itself included.
   */
  lemma AdmittedOnce(replay: Records, steps: seq<Step>, i: nat, j: nat)
    requires i < j < |steps| && steps[i].Commit? && steps[j].Commit?
    requires steps[i].d.domain == steps[j].d.domain && steps[i].d.sequence == steps[j].d.sequence
    requires forall k :: i < k <= j ==> steps[k].now < steps[i].d.Expiry()
    ensures !(Admits(At(replay, steps, i), steps[i]) && Admits(At(replay, steps, j), steps[j]))
  {
    if Admits(At(replay, steps, i), steps[i]) {
      StaysBarred(replay, steps, i, j, steps[i].d);
      StepKeepsBarred(At(replay, steps, j), steps[j], steps[i].d);
    }
  }

  /** Under a monotone clock it is enough that the second commit comes before the expiry. */
  lemma OnceBeforeExpiry(replay: Records, steps: seq<Step>, i: nat, j: nat)
    requires forall a, b :: 0 <= a < b < |steps| ==> steps[a].now <= steps[b].now
    requires i < j < |steps| && steps[i].Commit? && steps[j].Commit? && steps[i].d == steps[j].d
    requires steps[j].now < steps[j].d.Expiry()
    ensures !(Admits(At(replay, steps, i), steps[i]) && Admits(At(replay, steps, j), steps[j]))
  {
    AdmittedOnce(replay, steps, i, j);
  }

  /**
    The clock is read again between opening and committing. Exactly when the clock of the
    second commit has passed the record's expiry is a repeated datagram admitted again; for
    a domain not known before, that is the datagram's own expiry.
   */
  lemma RepeatVerdict(replay: Records, d: Datagram, first: Time, second: Time)
    requires |replay| <= MAX_REPLAY_DOMAINS && first <= second && Admits(replay, Commit(d, first))
    ensures var after := Committed(replay, d, first);
      && (Admits(after, Commit(d, second)) <==> second >= after[d.domain].expires)
      && (d.domain !in Purged(replay, first) ==> after[d.domain].expires == d.Expiry())
  {
    var after := Committed(replay, d, first);
    AdmissionBars(replay, d, first);
    if second < after[d.domain].expires {
      BarredStays(after[d.domain].window, d.sequence, d.sequence);
    } else {
      var kept := Purged(after, second);
      DomainsBounded(replay, [Commit(d, first)], 1);
      assert At(replay, [Commit(d, first)], 1) == after by {
        assert At(replay, [Commit(d, first)], 0) == replay;
      }
      assert d.domain in after && d.domain !in kept;
      SubsetSize(kept.Keys, after.Keys - {d.domain});
      assert |kept.Keys| == |kept| && |after.Keys| == |after|;
    }
  }

  // The exact verdict after any schedule.

  /** Purging an expired record forgets what it admitted; a commit may admit one more. */
  ghost function SinceStep(before: Records, step: Step, domain: Domain, since: set<nat>): set<nat> {
    (if domain in before && before[domain].expires > step.now then since else {})
    + (if Admits(before, step) && step.d.domain == domain then {step.d.sequence} else {})
  }

  /** The sequence numbers admitted in `domain` since its record was made, before the step number `i`. */
  ghost function Since(steps: seq<Step>, i: nat, domain: Domain): set<nat>
    requires i <= |steps|
  {
    if i == 0 then {} else SinceStep(At(map[], steps, i - 1), steps[i - 1], domain, Since(steps, i - 1, domain))
  }

  /** A record's window remembers exactly what was admitted since it was made. */
  ghost predicate RecordTracks(replay: Records, domain: Domain, since: set<nat>) {
    if domain in replay then replay[domain].window.Tracks(since) else since == {}
  }

  lemma CommitTracks(kept: Records, d: Datagram, domain: Domain, since: set<nat>)
    requires RecordTracks(kept, domain, since) && Check(kept, d).Admitted?
    ensures RecordTracks(Admit(kept, d), domain, since + if d.domain == domain then {d.sequence} else {})
  {
    if d.domain == domain {
      if domain in kept {
        AcceptTracks(kept[domain].window, d.sequence, since);
      } else {
        assert since + {d.sequence} == {d.sequence};
      }
    } else {
      assert since + {} == since;
    }
  }

  lemma StepTracks(before: Records, step: Step, after: Records, domain: Domain, since: set<nat>, next: set<nat>)
    requires RecordTracks(before, domain, since)
    requires after == Next(before, step) && next == SinceStep(before, step, domain, since)
    ensures RecordTracks(after, domain, next)
  {
    var kept := Purged(before, step.now);
    var left := if domain in kept then since else {};
    assert RecordTracks(kept, domain, left);
    if Admits(before, step) {
      CommitTracks(kept, step.d, domain, left);
    } else {
      assert left + {} == left;
    }
  }

  lemma OneStep(steps: seq<Step>, i: nat, domain: Domain)
    requires 0 < i <= |steps|
    ensures At(map[], steps, i) == Next(At(map[], steps, i - 1), steps[i - 1])
    ensures Since(steps, i, domain)
         == SinceStep(At(map[], steps, i - 1), steps[i - 1], domain, Since(steps, i - 1, domain))
  {
  }

  lemma {:induction false} RecordsTrack(steps: seq<Step>, i: nat, domain: Domain)
    requires i <= |steps|
    ensures RecordTracks(At(map[], steps, i), domain, Since(steps, i, domain))
  {
    if i > 0 {
      RecordsTrack(steps, i - 1, domain);
      OneStep(steps, i, domain);
      StepTracks(At(map[], steps, i - 1), steps[i - 1], At(map[], steps, i), domain,
                 Since(steps, i - 1, domain), Since(steps, i, domain));
    }
  }

  /**
    After any schedule from the start: a datagram of a domain whose record is alive is admitted
    exactly if its sequence number is less than 64 behind the highest admitted since the
    record was made and was not admitted itself since then; one of another domain exactly if
    fewer than 1024 records are alive.
   */
  lemma VerdictExactly(steps: seq<Step>, d: Datagram, now: Time, highest: nat)
    requires var since := Since(steps, |steps|, d.domain);
      highest in since && forall c :: c in since ==> c <= highest
    ensures var replay, since := At(map[], steps, |steps|), Since(steps, |steps|, d.domain);
      d.domain in replay &&
      (replay[d.domain].expires > now ==>
         Check(Purged(replay, now), d) ==
           if d.sequence + 64 > highest && d.sequence !in since then Admitted else Replayed)
  {
    RecordsTrack(steps, |steps|, d.domain);
    var replay, since := At(map[], steps, |steps|), Since(steps, |steps|, d.domain);
    AcceptTracks(replay[d.domain].window, d.sequence, since);
  }

  lemma NewDomainExactly(replay: Records, d: Datagram, now: Time)
    requires d.domain in replay ==> replay[d.domain].expires <= now
    ensures Check(Purged(replay, now), d) ==
      if |set k | k in replay && replay[k].expires > now| < 1024 then Admitted else DomainLimit
  {
    var kept := Purged(replay, now);
    assert kept.Keys == set k | k in replay && replay[k].expires > now;
    assert |kept| == |kept.Keys|;
  }

  /** A commit lengthens its own record to the datagram's expiry if that is later, and leaves every other one. */
  lemma CommitKeeps(replay: Records, d: Datagram, now: Time, k: Domain)
    ensures var after, admitted := Committed(replay, d, now), Admits(replay, Commit(d, now));
      && (k != d.domain || !admitted ==>
            && (k in after <==> k in replay && replay[k].expires > now)
            && (k in after ==> after[k] == replay[k]))
      && (admitted ==>
            && d.domain in after && after[d.domain].expires >= d.Expiry()
            && (d.domain in replay && replay[d.domain].expires > now ==>
                  after[d.domain].expires == if replay[d.domain].expires > d.Expiry()
                                             then replay[d.domain].expires else d.Expiry()))
  {
  }
}
