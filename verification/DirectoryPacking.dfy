/**
  Packing Directory responses into datagrams (directory_v3.go). A fragment carries its own
  index and the final fragment count, so whether a group of rows fits depends on a count
  that is only known once everything is packed. packDirectoryRows guesses it and repacks
  until the guess is right; packDirectorySnapshotRows packs for the largest count at once.
 */
module DirectoryPacking {
  import opened Common
  import opened Encoding

  const MAX_FRAGMENTS := 32
  const MAX_SPEAKERS := 4096
  const DATAGRAM_LIMIT := 1200
  const ATTEMPTS := 6

  /** Whether a group of rows fits the fragment of an index and a total count. */
  type Fits<!Row> = (nat, nat, seq<Row>) -> bool

  datatype Outcome<Row> = Packed(groups: seq<seq<Row>>) | RowTooLarge | ChannelTooLarge | TooManyFragments | Unstable

  // What the packers may rely on.

  /** The count matters through its decimal width only, and a wider one leaves less room. */
  ghost predicate WidthMonotone<Row(!new)>(fits: Fits<Row>) {
    forall i: nat, c: nat, c': nat, g: seq<Row> :: Digits(c) <= Digits(c') && fits(i, c', g) ==> fits(i, c, g)
  }

  ghost predicate RowMonotone<Row(!new)>(fits: Fits<Row>) {
    forall i: nat, c: nat, g: seq<Row>, lo: nat, hi: nat :: lo <= hi <= |g| && fits(i, c, g) ==> fits(i, c, g[lo..hi])
  }

  /** From `first` on, a larger index leaves less room. */
  ghost predicate IndexMonotone<Row(!new)>(fits: Fits<Row>, first: nat) {
    forall i: nat, j: nat, c: nat, g: seq<Row> :: first <= i <= j && fits(j, c, g) ==> fits(i, c, g)
  }

  /** Non-empty groups, in order, that make up `rows`, each fitting from `index` on. */
  ghost predicate Partition<Row>(groups: seq<seq<Row>>, rows: seq<Row>, index: nat, count: nat, fits: Fits<Row>) {
    && Flatten(groups) == rows
    && forall k :: 0 <= k < |groups| ==> groups[k] != [] && fits(index + k, count, groups[k])
  }

  // One greedy pass.

  /** The most rows, counted one by one from `k`, that still fit. */
  function Longest<Row>(rows: seq<Row>, k: nat, index: nat, count: nat, fits: Fits<Row>): (n: nat)
    requires k <= |rows|
    ensures k <= n <= |rows|
    ensures n > k ==> fits(index, count, rows[..n])
    ensures n < |rows| ==> !fits(index, count, rows[..n + 1])
    decreases |rows| - k
  {
    if k < |rows| && fits(index, count, rows[..k + 1]) then Longest(rows, k + 1, index, count, fits) else k
  }

  lemma {:induction false} LongestReaches<Row>(rows: seq<Row>, k: nat, n: nat, index: nat, count: nat, fits: Fits<Row>)
    requires k <= n <= |rows| && forall m :: k < m <= n ==> fits(index, count, rows[..m])
    ensures Longest(rows, k, index, count, fits) >= n
    decreases n - k
  {
    if k < n {
      LongestReaches(rows, k + 1, n, index, count, fits);
    }
  }

  function Greedy<Row>(rows: seq<Row>, index: nat, count: nat, fits: Fits<Row>): Option<seq<seq<Row>>>
    decreases |rows|
  {
    if rows == [] then Some([]) else
    var n := Longest(rows, 0, index, count, fits);
    if n == 0 then None else
    Prepend([rows[..n]], Greedy(rows[n..], index + 1, count, fits))
  }

  function Prepend<Row>(groups: seq<seq<Row>>, rest: Option<seq<seq<Row>>>): Option<seq<seq<Row>>> {
    if rest.None? then None else Some(groups + rest.value)
  }

  lemma {:induction false} GreedyPartitions<Row>(rows: seq<Row>, index: nat, count: nat, fits: Fits<Row>)
    requires Greedy(rows, index, count, fits).Some?
    ensures var groups := Greedy(rows, index, count, fits).value;
      Partition(groups, rows, index, count, fits) && |groups| <= |rows|
    decreases |rows|
  {
    if rows != [] {
      var n := Longest(rows, 0, index, count, fits);
      GreedyPartitions(rows[n..], index + 1, count, fits);
      var rest := Greedy(rows[n..], index + 1, count, fits).value;
      var groups := [rows[..n]] + rest;
      assert groups[1..] == rest && rows == rows[..n] + rows[n..];
      forall k | 0 <= k < |groups| ensures groups[k] != [] && fits(index + k, count, groups[k]) {
        if k > 0 {
          assert groups[k] == rest[k - 1];
        }
      }
    }
  }

  lemma PartitionTail<Row>(groups: seq<seq<Row>>, rows: seq<Row>, index: nat, count: nat, fits: Fits<Row>)
    requires Partition(groups, rows, index, count, fits) && rows != []
    ensures groups != [] && groups[0] != [] && |groups[0]| <= |rows| && groups[0] == rows[..|groups[0]|]
    ensures fits(index, count, groups[0])
    ensures Partition(groups[1..], rows[|groups[0]|..], index + 1, count, fits)
  {
    assert rows == groups[0] + Flatten(groups[1..]);
    assert fits(index + 0, count, groups[0]);
    forall k | 0 <= k < |groups[1..]| ensures fits(index + 1 + k, count, groups[1..][k]) {
      assert fits(index + (k + 1), count, groups[k + 1]);
    }
  }

  /** A row of a partition fits alone at any earlier index and narrower count. */
  lemma {:induction false} RowFits<Row(!new)>(
      groups: seq<seq<Row>>, rows: seq<Row>, i: nat, first: nat, index: nat, count: nat, wide: nat, fits: Fits<Row>)
    requires WidthMonotone(fits) && RowMonotone(fits) && IndexMonotone(fits, first) && Digits(count) <= Digits(wide)
    requires first <= index && Partition(groups, rows, index, wide, fits) && i < |rows|
    ensures fits(index, count, [rows[i]])
  {
    var g := groups[0];
    PartitionTail(groups, rows, index, wide, fits);
    if i < |g| {
      assert g[i..i + 1] == [rows[i]];
    } else {
      RowFits(groups[1..], rows[|g|..], i - |g|, first, index + 1, count, wide, fits);
    }
  }

  /**
    Greedy stays ahead: having packed at least as much as any partition for an equal or
    wider count, it needs no more groups for what is left.
   */
  lemma {:induction false} StaysAhead<Row(!new)>(
      groups: seq<seq<Row>>, all: seq<Row>, rows: seq<Row>, first: nat, index: nat, count: nat, wide: nat,
      fits: Fits<Row>)
    requires WidthMonotone(fits) && RowMonotone(fits) && Digits(count) <= Digits(wide)
    requires Partition(groups, all, index, wide, fits)
    requires |rows| <= |all| && rows == all[|all| - |rows|..]
    requires Greedy(rows, index, count, fits).Some? || (first <= index && IndexMonotone(fits, first))
    ensures Greedy(rows, index, count, fits).Some? && |Greedy(rows, index, count, fits).value| <= |groups|
    decreases groups
  {
    if rows != [] {
      var g, behind, later := groups[0], |all| - |rows|, groups[1..];
      var n := Longest(rows, 0, index, count, fits);
      PartitionTail(groups, all, index, wide, fits);
      ReachesEnd(g, all, rows, index, count, fits);
      if first <= index && IndexMonotone(fits, first) {
        RowFits(groups, all, behind, first, index, count, wide, fits);
        assert [all[behind]] == rows[..1];
      }
      var rest := all[|g|..];
      assert rows[n..] == rest[|rest| - |rows[n..]|..];
      StaysAhead(later, rest, rows[n..], first, index + 1, count, wide, fits);
    }
  }

  /** The greedy group, starting no earlier than `g`, ends no earlier. */
  lemma ReachesEnd<Row(!new)>(g: seq<Row>, all: seq<Row>, rows: seq<Row>, index: nat, count: nat, fits: Fits<Row>)
    requires RowMonotone(fits) && fits(index, count, g) && |g| <= |all| && g == all[..|g|]
    requires |rows| <= |all| && rows == all[|all| - |rows|..]
    ensures Longest(rows, 0, index, count, fits) + |all| - |rows| >= |g|
  {
    var behind := |all| - |rows|;
    forall m | 0 < m <= |g| - behind ensures fits(index, count, rows[..m]) {
      assert rows[..m] == g[behind..behind + m];
    }
    if |g| > behind {
      LongestReaches(rows, 0, |g| - behind, index, count, fits);
    }
  }

  /** Counts of one width give one packing. */
  lemma {:induction false} SameWidth<Row(!new)>(rows: seq<Row>, index: nat, count: nat, other: nat, fits: Fits<Row>)
    requires WidthMonotone(fits) && Digits(count) == Digits(other)
    ensures Greedy(rows, index, count, fits) == Greedy(rows, index, other, fits)
    decreases |rows|
  {
    if rows != [] {
      SameLongest(rows, 0, index, count, other, fits);
      var n := Longest(rows, 0, index, count, fits);
      if n > 0 {
        SameWidth(rows[n..], index + 1, count, other, fits);
      }
    }
  }

  lemma {:induction false} SameLongest<Row(!new)>(
      rows: seq<Row>, k: nat, index: nat, count: nat, other: nat, fits: Fits<Row>)
    requires WidthMonotone(fits) && Digits(count) == Digits(other) && k <= |rows|
    ensures Longest(rows, k, index, count, fits) == Longest(rows, k, index, other, fits)
    decreases |rows| - k
  {
    if k < |rows| && fits(index, count, rows[..k + 1]) {
      SameLongest(rows, k + 1, index, count, other, fits);
    }
  }

  // packDirectoryRows.

  function Settle<Row>(rows: seq<Row>, fits: Fits<Row>, guess: nat, attempts: nat): Outcome<Row>
    decreases attempts
  {
    if attempts == 0 then Unstable else
    match Greedy(rows, 0, guess, fits)
    case None => RowTooLarge
    case Some(groups) =>
      if |groups| > MAX_FRAGMENTS then TooManyFragments
      else if |groups| == guess then Packed(groups)
      else Settle(rows, fits, |groups|, attempts - 1)
  }

  function PackRows<Row>(rows: seq<Row>, fits: Fits<Row>): Outcome<Row> {
    if rows == [] then Packed([[]]) else Settle(rows, fits, 1, ATTEMPTS)
  }

  /** The innermost loop of both packers. */
  method FillGroup<Row>(rows: seq<Row>, start: nat, index: nat, count: nat, fits: Fits<Row>) returns (group: seq<Row>)
    requires start <= |rows|
    ensures group == rows[start..][..Longest(rows[start..], 0, index, count, fits)]
  {
    group := [];
    ghost var rest := rows[start..];
    for next := start to |rows|
      invariant group == rows[start..next] == rest[..next - start]
      invariant Longest(rest, next - start, index, count, fits) == Longest(rest, 0, index, count, fits)
    {
      var candidate := group + [rows[next]];
      assert candidate == rest[..next - start + 1];
      if !fits(index, count, candidate) {
        return;
      }
      group := candidate;
    }
  }

  /** One attempt with a guessed count. */
  method PackOnce<Row(==)>(rows: seq<Row>, guess: nat, fits: Fits<Row>) returns (r: Option<seq<seq<Row>>>)
    ensures r == Greedy(rows, 0, guess, fits)
  {
    var groups: seq<seq<Row>> := [];
    var start := 0;
    assert rows[start..] == rows;
    PrependNone(Greedy(rows, 0, guess, fits));
    while start < |rows|
      invariant start <= |rows|
      invariant Greedy(rows, 0, guess, fits) == Prepend(groups, Greedy(rows[start..], |groups|, guess, fits))
    {
      var group := FillGroup(rows, start, |groups|, guess, fits);
      GreedyStep(groups, rows[start..], guess, fits, group);
      if group == [] {
        return None;
      }
      groups := groups + [group];
      assert rows[start..][|group|..] == rows[start + |group|..];
      start := start + |group|;
    }
    assert rows[start..] == [] && groups + [] == groups;
    r := Some(groups);
  }

  lemma PrependNone<Row>(rest: Option<seq<seq<Row>>>)
    ensures Prepend([], rest) == rest
  {
    if rest.Some? {
      assert [] + rest.value == rest.value;
    }
  }

  method PackDirectoryRows<Row(==)>(rows: seq<Row>, fits: Fits<Row>) returns (r: Outcome<Row>)
    ensures r == PackRows(rows, fits)
  {
    if rows == [] {
      return Packed([[]]);
    }
    var guess: nat := 1;
    for attempt := 0 to ATTEMPTS
      invariant PackRows(rows, fits) == Settle(rows, fits, guess, ATTEMPTS - attempt)
    {
      var pass := PackOnce(rows, guess, fits);
      if pass.None? {
        return RowTooLarge;
      }
      var groups := pass.value;
      if |groups| > MAX_FRAGMENTS {
        return TooManyFragments;
      }
      if |groups| == guess {
        return Packed(groups);
      }
      guess := |groups|;
    }
    r := Unstable;
  }

  lemma GreedyStep<Row>(groups: seq<seq<Row>>, rest: seq<Row>, count: nat, fits: Fits<Row>, group: seq<Row>)
    requires rest != [] && group == rest[..Longest(rest, 0, |groups|, count, fits)]
    ensures group == [] ==> Greedy(rest, |groups|, count, fits).None?
    ensures group != [] ==>
      Prepend(groups, Greedy(rest, |groups|, count, fits))
      == Prepend(groups + [group], Greedy(rest[|group|..], |groups| + 1, count, fits))
  {
    if group != [] {
      var later := Greedy(rest[|group|..], |groups| + 1, count, fits);
      if later.Some? {
        assert groups + ([group] + later.value) == groups + [group] + later.value;
      }
    }
  }

  // Convergence.

  lemma SettlesFrom<Row(!new)>(rows: seq<Row>, fits: Fits<Row>, guess: nat)
    requires WidthMonotone(fits) && Greedy(rows, 0, guess, fits).Some?
    requires var n := |Greedy(rows, 0, guess, fits).value|; n <= MAX_FRAGMENTS ==> Digits(n) == Digits(guess)
    ensures forall more: nat :: more >= 2 ==> Settle(rows, fits, guess, more) == Settle(rows, fits, guess, 2)
    ensures !Settle(rows, fits, guess, 2).Unstable?
  {
    var n := |Greedy(rows, 0, guess, fits).value|;
    if n <= MAX_FRAGMENTS {
      SameWidth(rows, 0, guess, n, fits);
    }
  }

  /** Three attempts decide, so the "unable to stabilize" error cannot occur. */
  lemma Settles<Row(!new)>(rows: seq<Row>, fits: Fits<Row>)
    requires WidthMonotone(fits) && RowMonotone(fits)
    ensures PackRows(rows, fits) == (if rows == [] then Packed([[]]) else Settle(rows, fits, 1, 3))
    ensures !PackRows(rows, fits).Unstable?
  {
    if rows != [] && Greedy(rows, 0, 1, fits).Some? {
      var n := |Greedy(rows, 0, 1, fits).value|;
      assert n != 1 && n <= MAX_FRAGMENTS ==> Settle(rows, fits, 1, ATTEMPTS) == Settle(rows, fits, n, ATTEMPTS - 1);
      if 10 <= n <= MAX_FRAGMENTS && Greedy(rows, 0, n, fits).Some? {
        var wider := Greedy(rows, 0, n, fits).value;
        GreedyPartitions(rows, 0, n, fits);
        DigitsMonotone(1, n);
        assert rows == rows[|rows| - |rows|..];
        StaysAhead(wider, rows, rows, 0, 0, 1, n, fits);
        SettlesFrom(rows, fits, n);
      } else if n < 10 {
        SettlesFrom(rows, fits, 1);
      }
    }
  }

  /**
    What is packed is a partition of the rows into 1 to 32 non-empty groups, in order, each
    fitting at its own index with the final count, and no partition for that count is smaller.
   */
  lemma {:induction false} SettledIsPartition<Row(!new)>(rows: seq<Row>, fits: Fits<Row>, guess: nat, attempts: nat)
    requires rows != [] && WidthMonotone(fits) && RowMonotone(fits) && Settle(rows, fits, guess, attempts).Packed?
    ensures var groups := Settle(rows, fits, guess, attempts).groups;
      && Partition(groups, rows, 0, |groups|, fits) && 1 <= |groups| <= MAX_FRAGMENTS
      && forall p :: Partition(p, rows, 0, |groups|, fits) ==> |groups| <= |p|
    decreases attempts
  {
    var groups := Greedy(rows, 0, guess, fits).value;
    GreedyPartitions(rows, 0, guess, fits);
    if |groups| == guess {
      forall p | Partition(p, rows, 0, guess, fits) ensures |groups| <= |p| {
        assert rows == rows[|rows| - |rows|..];
        StaysAhead(p, rows, rows, 0, 0, guess, guess, fits);
      }
    } else {
      SettledIsPartition(rows, fits, |groups|, attempts - 1);
    }
  }

  lemma PackedIsPartition<Row(!new)>(rows: seq<Row>, fits: Fits<Row>)
    requires rows != [] && WidthMonotone(fits) && RowMonotone(fits) && PackRows(rows, fits).Packed?
    ensures var groups := PackRows(rows, fits).groups;
      && Partition(groups, rows, 0, |groups|, fits) && 1 <= |groups| <= MAX_FRAGMENTS
      && forall p :: Partition(p, rows, 0, |groups|, fits) ==> |groups| <= |p|
  {
    SettledIsPartition(rows, fits, 1, ATTEMPTS);
  }

  /** The rows fit the fragments of a count of their own. */
  ghost predicate Consistent<Row>(p: seq<seq<Row>>, rows: seq<Row>, fits: Fits<Row>) {
    |p| <= MAX_FRAGMENTS && Partition(p, rows, 0, |p|, fits)
  }

  lemma {:induction false} SettlesWithin<Row(!new)>(
      rows: seq<Row>, fits: Fits<Row>, p: seq<seq<Row>>, guess: nat, attempts: nat)
    requires rows != [] && WidthMonotone(fits) && RowMonotone(fits) && IndexMonotone(fits, 0)
    requires Consistent(p, rows, fits) && guess <= |p|
    ensures var r := Settle(rows, fits, guess, attempts); r.Unstable? || (r.Packed? && |r.groups| <= |p|)
    decreases attempts
  {
    if attempts > 0 {
      DigitsMonotone(guess, |p|);
      assert rows == rows[|rows| - |rows|..];
      StaysAhead(p, rows, rows, 0, 0, guess, |p|, fits);
      SettlesWithin(rows, fits, p, |Greedy(rows, 0, guess, fits).value|, attempts - 1);
    }
  }

  /**
    With monotone indices packing is complete: it succeeds exactly if the rows can be packed
    at all in a way that fits its own count, and then with the fewest fragments possible.
   */
  lemma PacksIfPossible<Row(!new)>(rows: seq<Row>, fits: Fits<Row>)
    requires rows != [] && WidthMonotone(fits) && RowMonotone(fits) && IndexMonotone(fits, 0)
    ensures PackRows(rows, fits).Packed? <==> exists p :: Consistent(p, rows, fits)
    ensures PackRows(rows, fits).Packed? ==>
      forall p :: Consistent(p, rows, fits) ==> |PackRows(rows, fits).groups| <= |p|
  {
    Settles(rows, fits);
    if PackRows(rows, fits).Packed? {
      PackedIsPartition(rows, fits);
      assert Consistent(PackRows(rows, fits).groups, rows, fits);
    }
    forall p | Consistent(p, rows, fits)
      ensures PackRows(rows, fits).Packed? && |PackRows(rows, fits).groups| <= |p|
    {
      assert |p| >= 1;
      SettlesWithin(rows, fits, p, 1, ATTEMPTS);
    }
  }

  // Which error a failure gives.

  lemma {:induction false} SettleErrors<Row(!new)>(rows: seq<Row>, fits: Fits<Row>, guess: nat, attempts: nat)
    requires rows != [] && WidthMonotone(fits) && RowMonotone(fits) && IndexMonotone(fits, 0)
    requires 1 <= guess <= MAX_FRAGMENTS
    ensures var r := Settle(rows, fits, guess, attempts);
      && !r.ChannelTooLarge?
      && (r.RowTooLarge? ==> !exists p :: Partition(p, rows, 0, 10, fits))
      && (r.TooManyFragments? ==> exists p :: Partition(p, rows, 0, 1, fits) && |p| > MAX_FRAGMENTS)
    decreases attempts
  {
    if attempts > 0 {
      var pass := Greedy(rows, 0, guess, fits);
      DigitsMonotone(guess, MAX_FRAGMENTS);
      DigitsMonotone(1, guess);
      if pass.None? {
        forall p ensures !Partition(p, rows, 0, 10, fits) {
          if Partition(p, rows, 0, 10, fits) {
            assert rows == rows[|rows| - |rows|..];
            StaysAhead(p, rows, rows, 0, 0, guess, 10, fits);
          }
        }
      } else {
        GreedyPartitions(rows, 0, guess, fits);
        assert Partition(pass.value, rows, 0, 1, fits);
        if |pass.value| <= MAX_FRAGMENTS {
          SettleErrors(rows, fits, |pass.value|, attempts - 1);
        }
      }
    }
  }

  /**
    "Row too large" means that the rows cannot be divided at all under a two-digit count, and
    is what is answered if they cannot under a one-digit count; "too many fragments" means
    that more than 32 would do.
   */
  lemma ErrorsAreApt<Row(!new)>(rows: seq<Row>, fits: Fits<Row>)
    requires rows != [] && WidthMonotone(fits) && RowMonotone(fits) && IndexMonotone(fits, 0)
    ensures var r := PackRows(rows, fits);
      && (r.Packed? || r.RowTooLarge? || r.TooManyFragments?)
      && (r.RowTooLarge? ==> !exists p :: Partition(p, rows, 0, 10, fits))
      && (r.TooManyFragments? ==> exists p :: Partition(p, rows, 0, 1, fits) && |p| > MAX_FRAGMENTS)
      && ((!exists p :: Partition(p, rows, 0, 1, fits)) ==> r.RowTooLarge?)
  {
    Settles(rows, fits);
    SettleErrors(rows, fits, 1, ATTEMPTS);
    if Greedy(rows, 0, 1, fits).Some? {
      GreedyPartitions(rows, 0, 1, fits);
    }
  }

  /** Greedy gets stuck only on a row that does not even fit alone. */
  lemma {:induction false} StuckRow<Row>(rows: seq<Row>, index: nat, count: nat, fits: Fits<Row>)
      returns (i: nat, k: nat)
    requires Greedy(rows, index, count, fits).None?
    ensures i < |rows| && index <= k <= index + i && !fits(k, count, [rows[i]])
    decreases |rows|
  {
    var n := Longest(rows, 0, index, count, fits);
    if n == 0 {
      assert rows[..1] == [rows[0]];
      i, k := 0, index;
    } else {
      i, k := StuckRow(rows[n..], index + 1, count, fits);
      i := i + n;
    }
  }

  // The datagrams of participant responses.

  /** `payload` and `envelope`: the bytes of the fixed members; `carrier`: 5 on the media port, otherwise 0. */
  datatype Shape = Shape(payload: nat, envelope: nat, carrier: nat) {

    /** sealDirectoryEnvelope: GCM adds 16 bytes; the envelope's sequence is the index plus one. */
    predicate Seals(index: nat, count: nat, variable: nat) {
      var plaintext := payload + Digits(index) + Digits(count) + variable;
      carrier + envelope + Digits(index + 1) + Base64Length(plaintext + 16) <= DATAGRAM_LIMIT
    }

    function ParticipantsFit<Row>(size: Row -> nat): Fits<Row> {
      (index: nat, count: nat, rows: seq<Row>) => Seals(index, count, ArraySize(rows, size))
    }
  }

  lemma SealsMonotone(shape: Shape, i: nat, j: nat, c: nat, c': nat, less: nat, more: nat)
    requires i <= j && Digits(c) <= Digits(c') && less <= more && shape.Seals(j, c', more)
    ensures shape.Seals(i, c, less)
  {
    DigitsMonotone(i, j);
    DigitsMonotone(i + 1, j + 1);
  }

  /** The real size test has all that packing relies on. */
  lemma ParticipantsMonotone<Row(!new)>(shape: Shape, size: Row -> nat)
    ensures var fits := shape.ParticipantsFit(size);
      WidthMonotone(fits) && RowMonotone(fits) && IndexMonotone(fits, 0)
  {
    var fits := shape.ParticipantsFit(size);
    forall i: nat, c: nat, c': nat, g: seq<Row> | Digits(c) <= Digits(c') && fits(i, c', g) ensures fits(i, c, g) {
      SealsMonotone(shape, i, i, c, c', ArraySize(g, size), ArraySize(g, size));
    }
    forall i: nat, c: nat, g: seq<Row>, lo: nat, hi: nat | lo <= hi <= |g| && fits(i, c, g)
      ensures fits(i, c, g[lo..hi])
    {
      SliceSize(g, lo, hi, size);
      SealsMonotone(shape, i, i, c, c, ArraySize(g[lo..hi], size), ArraySize(g, size));
    }
    forall i: nat, j: nat, c: nat, g: seq<Row> | i <= j && fits(j, c, g) ensures fits(i, c, g) {
      SealsMonotone(shape, i, j, c, c, ArraySize(g, size), ArraySize(g, size));
    }
  }

  /** So participant responses always settle, and are sent exactly if some packing is possible. */
  lemma ParticipantsPack<Row(!new)>(shape: Shape, size: Row -> nat, rows: seq<Row>)
    requires rows != []
    ensures var fits := shape.ParticipantsFit(size);
      && !PackRows(rows, fits).Unstable?
      && (PackRows(rows, fits).Packed? <==> exists p :: Consistent(p, rows, fits))
  {
    ParticipantsMonotone(shape, size);
    Settles(rows, shape.ParticipantsFit(size));
    PacksIfPossible(rows, shape.ParticipantsFit(size));
  }
}
