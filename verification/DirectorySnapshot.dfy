/**
  Directory snapshots (directory_v3.go): the speakers are split into pages of at most 31
  rows, and each page is packed into at most 32 fragments. Fragment 0 also carries the
  channel row, and carries nothing else if no speaker fits beside it.
 */
module DirectorySnapshot {
  import opened Common
  import opened DirectoryPacking
  import opened Encoding

  const PAGE_ROWS := MAX_FRAGMENTS - 1

  /** `None` is Go's nil slice, which is encoded as null. */
  type PageFits<!Row> = (nat, nat, Option<seq<Row>>) -> bool

  function Present<Row>(fits: PageFits<Row>): Fits<Row> {
    (index: nat, count: nat, rows: seq<Row>) => fits(index, count, Some(rows))
  }

  // Pages.

  function Pages<Row>(rows: seq<Row>): seq<seq<Row>> {
    if |rows| <= PAGE_ROWS then [rows] else [rows[..PAGE_ROWS]] + Pages(rows[PAGE_ROWS..])
  }

  method SplitPages<Row(==)>(rows: seq<Row>) returns (pages: seq<seq<Row>>)
    ensures pages == Pages(rows)
  {
    if rows == [] {
      return [[]];
    }
    pages := [];
    var start := 0;
    assert rows[start..] == rows && [] + Pages(rows) == Pages(rows);
    while start < |rows|
      invariant start < |rows| ==> Pages(rows) == pages + Pages(rows[start..])
      invariant start >= |rows| ==> pages == Pages(rows)
    {
      var end := start + PAGE_ROWS;
      if end > |rows| {
        end := |rows|;
      }
      ghost var rest := rows[start..];
      assert rest[..end - start] == rows[start..end] && rest[end - start..] == rows[end..];
      assert |rest| <= PAGE_ROWS ==> rest == rows[start..end];
      assert |rest| > PAGE_ROWS ==> pages + Pages(rest) == pages + [rows[start..end]] + Pages(rows[end..]);
      pages := pages + [rows[start..end]];
      start := start + PAGE_ROWS;
    }
  }

  /** Pages hold all rows in order, none too many; and 133 pages are enough for every list there can be. */
  lemma {:induction false} PagesCover<Row>(rows: seq<Row>)
    ensures Flatten(Pages(rows)) == rows
    ensures forall p :: 0 <= p < |Pages(rows)| ==>
              |Pages(rows)[p]| <= PAGE_ROWS && (rows != [] ==> Pages(rows)[p] != [])
    ensures |Pages(rows)| == if rows == [] then 1 else (|rows| + PAGE_ROWS - 1) / PAGE_ROWS
    ensures |rows| <= MAX_SPEAKERS ==> |Pages(rows)| <= 133
  {
    if |rows| <= PAGE_ROWS {
      assert Pages(rows) == [rows] && Flatten([rows]) == rows + Flatten([rows][1..]);
    } else {
      PagesCover(rows[PAGE_ROWS..]);
      var rest := Pages(rows[PAGE_ROWS..]);
      FlattenAppend([rows[..PAGE_ROWS]], rest);
      assert Flatten([rows[..PAGE_ROWS]]) == rows[..PAGE_ROWS] + Flatten([rows[..PAGE_ROWS]][1..]);
      assert rows == rows[..PAGE_ROWS] + rows[PAGE_ROWS..];
      forall p | 0 <= p < |Pages(rows)| ensures |Pages(rows)[p]| <= PAGE_ROWS && Pages(rows)[p] != [] {
        if p > 0 {
          assert Pages(rows)[p] == rest[p - 1];
        }
      }
    }
  }

  // Fragments of one page.

  function Before<Row>(group: seq<Row>, rest: Outcome<Row>): Outcome<Row> {
    if rest.Packed? then Packed([group] + rest.groups) else rest
  }

  function Fragments<Row>(rows: seq<Row>, index: nat, fits: PageFits<Row>): Outcome<Row>
    decreases |rows|, if index == 0 then 1 else 0
  {
    if rows == [] then Packed([]) else
    var n := Longest(rows, 0, index, MAX_FRAGMENTS, Present(fits));
    if n > 0 then
      if index + 1 > MAX_FRAGMENTS then TooManyFragments
      else Before(rows[..n], Fragments(rows[n..], index + 1, fits))
    else if index != 0 then RowTooLarge
    else if !fits(0, MAX_FRAGMENTS, None) then ChannelTooLarge
    else Before([], Fragments(rows, 1, fits))
  }

  function PackPage<Row>(rows: seq<Row>, fits: PageFits<Row>): Outcome<Row> {
    if rows == [] then Packed([[]]) else Fragments(rows, 0, fits)
  }

  function After<Row>(groups: seq<seq<Row>>, rest: Outcome<Row>): Outcome<Row> {
    if rest.Packed? then Packed(groups + rest.groups) else rest
  }

  lemma AfterBefore<Row>(groups: seq<seq<Row>>, group: seq<Row>, rest: Outcome<Row>)
    ensures After(groups, Before(group, rest)) == After(groups + [group], rest)
  {
    if rest.Packed? {
      assert groups + ([group] + rest.groups) == groups + [group] + rest.groups;
    }
  }

  method PackDirectorySnapshotRows<Row(==)>(rows: seq<Row>, fits: PageFits<Row>) returns (r: Outcome<Row>)
    ensures r == PackPage(rows, fits)
  {
    if rows == [] {
      return Packed([[]]);
    }
    var groups: seq<seq<Row>> := [];
    var start := 0;
    ghost var whole := Fragments(rows, 0, fits);
    assert rows[start..] == rows;
    assert whole.Packed? ==> groups + whole.groups == whole.groups;
    assert After(groups, whole) == whole;
    while start < |rows|
      invariant start <= |rows|
      invariant PackPage(rows, fits) == After(groups, Fragments(rows[start..], |groups|, fits))
      decreases |rows| - start, if groups == [] then 1 else 0
    {
      var index := |groups|;
      var group := FillGroup(rows, start, index, MAX_FRAGMENTS, Present(fits));
      if group == [] {
        if index != 0 {
          return RowTooLarge;
        }
        if !fits(0, MAX_FRAGMENTS, None) {
          return ChannelTooLarge;
        }
        AfterBefore(groups, [], Fragments(rows[start..], 1, fits));
        groups := groups + [[]];
        continue;
      }
      AfterBefore(groups, group, Fragments(rows[start..][|group|..], index + 1, fits));
      groups := groups + [group];
      assert rows[start..][|group|..] == rows[start + |group|..];
      start := start + |group|;
      if |groups| > MAX_FRAGMENTS {
        return TooManyFragments;
      }
    }
    assert rows[start..] == [] && groups + [] == groups;
    r := Packed(groups);
  }

  /** What the packer relies on; from fragment 1 on there is no channel row. */
  ghost predicate Monotone<Row(!new)>(fits: PageFits<Row>) {
    var present := Present(fits);
    && WidthMonotone(present) && RowMonotone(present) && IndexMonotone(present, 1)
    && forall c: nat :: fits(0, c, None) ==> fits(0, c, Some([]))
  }

  /** After fragment 0 the packer is the greedy one; on a page it never runs out of fragments. */
  lemma {:induction false} LaterFragments<Row>(rows: seq<Row>, index: nat, fits: PageFits<Row>)
    requires index >= 1 && |rows| + index <= MAX_FRAGMENTS
    ensures var pass := Greedy(rows, index, MAX_FRAGMENTS, Present(fits));
      Fragments(rows, index, fits) == if pass.Some? then Packed(pass.value) else RowTooLarge
    decreases |rows|
  {
    if rows != [] {
      var n := Longest(rows, 0, index, MAX_FRAGMENTS, Present(fits));
      if n > 0 {
        LaterFragments(rows[n..], index + 1, fits);
      }
    }
  }

  /** Rows in order over the fragments of a page; only fragment 0 may go without. */
  ghost predicate Arranged<Row>(groups: seq<seq<Row>>, rows: seq<Row>, count: nat, fits: PageFits<Row>) {
    && Flatten(groups) == rows && 1 <= |groups| <= MAX_FRAGMENTS
    && (forall k :: 0 <= k < |groups| ==> Present(fits)(k, count, groups[k]))
    && (forall k :: 0 < k < |groups| ==> groups[k] != [])
  }

  lemma ArrangedTail<Row>(groups: seq<seq<Row>>, rows: seq<Row>, count: nat, fits: PageFits<Row>)
    requires Arranged(groups, rows, count, fits)
    ensures |groups[0]| <= |rows| && groups[0] == rows[..|groups[0]|]
    ensures Partition(groups[1..], rows[|groups[0]|..], 1, count, Present(fits))
  {
    assert rows == groups[0] + Flatten(groups[1..]);
    forall k | 0 <= k < |groups[1..]| ensures Present(fits)(1 + k, count, groups[1..][k]) {
      assert Present(fits)(k + 1, count, groups[k + 1]);
    }
  }

  lemma ArrangedCons<Row>(first: seq<Row>, rest: seq<seq<Row>>, rows: seq<Row>, count: nat, fits: PageFits<Row>)
    requires Present(fits)(0, count, first) && |rest| < MAX_FRAGMENTS
    requires Partition(rest, rows, 1, count, Present(fits))
    ensures Arranged([first] + rest, first + rows, count, fits)
  {
    var groups := [first] + rest;
    assert groups[1..] == rest;
    forall k | 0 < k < |groups| ensures Present(fits)(k, count, groups[k]) && groups[k] != [] {
      assert groups[k] == rest[k - 1] && Present(fits)(1 + (k - 1), count, rest[k - 1]);
    }
  }

  lemma Recounted<Row(!new)>(groups: seq<seq<Row>>, rows: seq<Row>, fits: PageFits<Row>)
    requires Monotone(fits) && Arranged(groups, rows, MAX_FRAGMENTS, fits)
    ensures Arranged(groups, rows, |groups|, fits)
  {
    DigitsMonotone(|groups|, MAX_FRAGMENTS);
  }

  /**
    A packed page holds its rows in order in at most 32 fragments, of which only fragment 0
    may be empty, and each still fits when encoded again with the true count. The fragment
    count error cannot occur.
   */
  lemma PageIsArranged<Row(!new)>(rows: seq<Row>, fits: PageFits<Row>)
    requires Monotone(fits) && 1 <= |rows| <= PAGE_ROWS
    ensures !PackPage(rows, fits).TooManyFragments?
    ensures PackPage(rows, fits).Packed? ==>
      Arranged(PackPage(rows, fits).groups, rows, |PackPage(rows, fits).groups|, fits)
  {
    var n := Longest(rows, 0, 0, MAX_FRAGMENTS, Present(fits));
    var first, left := rows[..n], rows[n..];
    LaterFragments(left, 1, fits);
    assert rows == first + left;
    if PackPage(rows, fits).Packed? {
      assert n == 0 ==> left == rows && first == [];
      var rest := Fragments(left, 1, fits).groups;
      GreedyPartitions(left, 1, MAX_FRAGMENTS, Present(fits));
      ArrangedCons(first, rest, left, MAX_FRAGMENTS, fits);
      Recounted([first] + rest, rows, fits);
    }
  }

  /** Rows arranged for the largest count; a fragment 0 without speakers must fit with null in their place. */
  ghost predicate Packable<Row>(p: seq<seq<Row>>, rows: seq<Row>, fits: PageFits<Row>) {
    Arranged(p, rows, MAX_FRAGMENTS, fits) && (p[0] == [] ==> fits(0, MAX_FRAGMENTS, None))
  }

  lemma PagePacksWithin<Row(!new)>(p: seq<seq<Row>>, rows: seq<Row>, fits: PageFits<Row>)
    requires Monotone(fits) && 1 <= |rows| <= PAGE_ROWS && Packable(p, rows, fits)
    ensures PackPage(rows, fits).Packed? && |PackPage(rows, fits).groups| <= |p|
  {
    var present := Present(fits);
    var n := Longest(rows, 0, 0, MAX_FRAGMENTS, present);
    var left := rows[n..];
    ArrangedTail(p, rows, MAX_FRAGMENTS, fits);
    assert rows == rows[|rows| - |rows|..];
    ReachesEnd(p[0], rows, rows, 0, MAX_FRAGMENTS, present);
    var all := rows[|p[0]|..];
    assert left == all[|all| - |left|..];
    StaysAhead(p[1..], all, left, 1, 1, MAX_FRAGMENTS, MAX_FRAGMENTS, present);
    LaterFragments(left, 1, fits);
    assert n == 0 ==> left == rows;
  }

  lemma PackedIsPackable<Row(!new)>(rows: seq<Row>, fits: PageFits<Row>) returns (p: seq<seq<Row>>)
    requires Monotone(fits) && 1 <= |rows| <= PAGE_ROWS && PackPage(rows, fits).Packed?
    ensures Packable(p, rows, fits)
  {
    var n := Longest(rows, 0, 0, MAX_FRAGMENTS, Present(fits));
    var first, left := rows[..n], rows[n..];
    LaterFragments(left, 1, fits);
    assert rows == first + left && (n == 0 ==> left == rows && first == []);
    var rest := Fragments(left, 1, fits).groups;
    GreedyPartitions(left, 1, MAX_FRAGMENTS, Present(fits));
    ArrangedCons(first, rest, left, MAX_FRAGMENTS, fits);
    p := [first] + rest;
  }

  /** A page is packed exactly if that is possible, and no possible way takes fewer fragments. */
  lemma PagePacksIfPossible<Row(!new)>(rows: seq<Row>, fits: PageFits<Row>)
    requires Monotone(fits) && 1 <= |rows| <= PAGE_ROWS
    ensures PackPage(rows, fits).Packed? <==> exists p :: Packable(p, rows, fits)
    ensures PackPage(rows, fits).Packed? ==>
              forall p :: Packable(p, rows, fits) ==> |PackPage(rows, fits).groups| <= |p|
  {
    var packed := PackPage(rows, fits);
    if packed.Packed? {
      var p := PackedIsPackable(rows, fits);
    }
    forall p | Packable(p, rows, fits) ensures packed.Packed? && |packed.groups| <= |p| {
      PagePacksWithin(p, rows, fits);
    }
  }

  /**
    A page is refused for its channel row exactly if neither a speaker nor null fits beside
    it in fragment 0; otherwise a refusal names a row that does not fit a later fragment alone.
   */
  lemma PageErrorsAreApt<Row(!new)>(rows: seq<Row>, fits: PageFits<Row>)
    requires Monotone(fits) && 1 <= |rows| <= PAGE_ROWS
    ensures var r, present := PackPage(rows, fits), Present(fits);
      && (r.Packed? || r.ChannelTooLarge? || r.RowTooLarge?)
      && (r.ChannelTooLarge? <==> !present(0, MAX_FRAGMENTS, [rows[0]]) && !fits(0, MAX_FRAGMENTS, None))
      && (r.RowTooLarge? ==>
            exists i, k :: 0 <= i < |rows| && 1 <= k < MAX_FRAGMENTS && !present(k, MAX_FRAGMENTS, [rows[i]]))
  {
    PageIsArranged(rows, fits);
    LaterFragmentsSettle(rows, fits);
    var present := Present(fits);
    var n := Longest(rows, 0, 0, MAX_FRAGMENTS, present);
    var left := rows[n..];
    assert rows[..1] == [rows[0]] && (n == 0 ==> left == rows);
    if n > 0 {
      assert rows[..n][0..1] == [rows[0]];
    }
    LaterFragments(left, 1, fits);
    if PackPage(rows, fits).RowTooLarge? {
      var i, k := StuckRow(left, 1, MAX_FRAGMENTS, present);
      assert left[i] == rows[n + i] && !present(k, MAX_FRAGMENTS, [rows[n + i]]);
    }
  }

  /**
    A whole snapshot: whatever each page's own size test, at most 133 pages, and the pages
    that are packed give back the speakers in order when put together. An empty list is one
    page of one fragment without rows, which is not tested for size before it is sealed.
   */
  lemma SnapshotIsWhole<Row(!new)>(speakers: seq<Row>, fits: seq<PageFits<Row>>, packed: seq<Outcome<Row>>)
    requires |speakers| <= MAX_SPEAKERS
    requires |packed| == |fits| == |Pages(speakers)|
    requires forall p :: 0 <= p < |fits| ==> Monotone(fits[p]) && packed[p] == PackPage(Pages(speakers)[p], fits[p])
    ensures |packed| <= 133
    ensures forall p :: 0 <= p < |packed| ==> !packed[p].TooManyFragments? && !packed[p].Unstable?
    ensures (forall p :: 0 <= p < |packed| ==> packed[p].Packed?) ==>
      && Flatten(seq(|packed|, p requires 0 <= p < |packed| => Flatten(packed[p].groups))) == speakers
      && (speakers != [] ==> forall p :: 0 <= p < |packed| ==>
            Arranged(packed[p].groups, Pages(speakers)[p], |packed[p].groups|, fits[p]))
    ensures speakers == [] ==> packed == [Packed([[]])]
  {
    PagesCover(speakers);
    forall p | 0 <= p < |packed|
      ensures !packed[p].TooManyFragments? && !packed[p].Unstable?
      ensures packed[p].Packed? ==> Flatten(packed[p].groups) == Pages(speakers)[p]
      ensures packed[p].Packed? && speakers != [] ==>
        Arranged(packed[p].groups, Pages(speakers)[p], |packed[p].groups|, fits[p])
    {
      if speakers != [] {
        PageIsArranged(Pages(speakers)[p], fits[p]);
        LaterFragmentsSettle(Pages(speakers)[p], fits[p]);
      } else {
        assert Flatten([Pages(speakers)[p]]) == Pages(speakers)[p] + Flatten([Pages(speakers)[p]][1..]);
      }
    }
    if forall p :: 0 <= p < |packed| ==> packed[p].Packed? {
      assert seq(|packed|, p requires 0 <= p < |packed| => Flatten(packed[p].groups)) == Pages(speakers);
    }
  }

  lemma LaterFragmentsSettle<Row>(rows: seq<Row>, fits: PageFits<Row>)
    requires |rows| <= PAGE_ROWS
    ensures !PackPage(rows, fits).Unstable?
  {
    var n := Longest(rows, 0, 0, MAX_FRAGMENTS, Present(fits));
    LaterFragments(rows[n..], 1, fits);
    assert n == 0 ==> rows[n..] == rows;
  }

  // The datagrams of a snapshot.

  /**
    What a fragment's two arrays take: the channel row, of `channel` bytes, is in fragment 0;
    null takes 4 bytes, an empty array 2.
   */
  function ArraysSize<Row>(index: nat, rows: Option<seq<Row>>, channel: nat, size: Row -> nat): nat {
    2 + (if index == 0 then channel else 0) + (if rows.None? then 4 else ArraySize(rows.value, size))
  }

  function SnapshotFits<Row>(shape: Shape, channel: nat, size: Row -> nat): PageFits<Row> {
    (index: nat, count: nat, rows: Option<seq<Row>>) =>
      shape.Seals(index, count, ArraysSize(index, rows, channel, size))
  }

  predicate FragmentSeals<Row>(shape: Shape, channel: nat, size: Row -> nat, index: nat, count: nat, rows: seq<Row>) {
    shape.Seals(index, count, ArraysSize(index, Some(rows), channel, size))
  }

  lemma PresentSeals<Row>(shape: Shape, channel: nat, size: Row -> nat, index: nat, count: nat, rows: seq<Row>)
    ensures Present(SnapshotFits(shape, channel, size))(index, count, rows)
       <==> FragmentSeals(shape, channel, size, index, count, rows)
  {
  }

  lemma FragmentMonotone<Row>(
      shape: Shape, channel: nat, size: Row -> nat, i: nat, j: nat, c: nat, c': nat, rows: seq<Row>)
    requires i == j || 1 <= i <= j
    requires Digits(c) <= Digits(c') && FragmentSeals(shape, channel, size, j, c', rows)
    ensures FragmentSeals(shape, channel, size, i, c, rows)
  {
    SealsMonotone(shape, i, j, c, c',
                  ArraysSize(i, Some(rows), channel, size), ArraysSize(j, Some(rows), channel, size));
  }

  lemma SliceSeals<Row>(shape: Shape, channel: nat, size: Row -> nat, i: nat, c: nat, rows: seq<Row>, lo: nat, hi: nat)
    requires lo <= hi <= |rows| && FragmentSeals(shape, channel, size, i, c, rows)
    ensures FragmentSeals(shape, channel, size, i, c, rows[lo..hi])
  {
    SliceSize(rows, lo, hi, size);
    SealsMonotone(shape, i, i, c, c,
                  ArraysSize(i, Some(rows[lo..hi]), channel, size), ArraysSize(i, Some(rows), channel, size));
  }

  lemma SnapshotWidths<Row(!new)>(shape: Shape, channel: nat, size: Row -> nat)
    ensures WidthMonotone(Present(SnapshotFits(shape, channel, size)))
  {
    var present := Present(SnapshotFits(shape, channel, size));
    forall i: nat, c: nat, c': nat, g: seq<Row> | Digits(c) <= Digits(c') && present(i, c', g)
      ensures present(i, c, g)
    {
      PresentSeals(shape, channel, size, i, c', g);
      FragmentMonotone(shape, channel, size, i, i, c, c', g);
      PresentSeals(shape, channel, size, i, c, g);
    }
  }

  lemma SnapshotRows<Row(!new)>(shape: Shape, channel: nat, size: Row -> nat)
    ensures RowMonotone(Present(SnapshotFits(shape, channel, size)))
  {
    var present := Present(SnapshotFits(shape, channel, size));
    forall i: nat, c: nat, g: seq<Row>, lo: nat, hi: nat | lo <= hi <= |g| && present(i, c, g)
      ensures present(i, c, g[lo..hi])
    {
      PresentSeals(shape, channel, size, i, c, g);
      SliceSeals(shape, channel, size, i, c, g, lo, hi);
      PresentSeals(shape, channel, size, i, c, g[lo..hi]);
    }
  }

  lemma SnapshotIndices<Row(!new)>(shape: Shape, channel: nat, size: Row -> nat)
    ensures IndexMonotone(Present(SnapshotFits(shape, channel, size)), 1)
  {
    var present := Present(SnapshotFits(shape, channel, size));
    forall i: nat, j: nat, c: nat, g: seq<Row> | 1 <= i <= j && present(j, c, g) ensures present(i, c, g) {
      PresentSeals(shape, channel, size, j, c, g);
      FragmentMonotone(shape, channel, size, i, j, c, c, g);
      PresentSeals(shape, channel, size, i, c, g);
    }
  }

  /** Null takes more than an empty array. */
  lemma NullTakesMore<Row>(shape: Shape, channel: nat, size: Row -> nat, count: nat)
    requires shape.Seals(0, count, 2 + channel + 4)
    ensures FragmentSeals(shape, channel, size, 0, count, [])
  {
    var none: seq<Row> := [];
    assert ArraysSize(0, Some(none), channel, size) == 2 + channel + 2;
    SealsMonotone(shape, 0, 0, count, count, 2 + channel + 2, 2 + channel + 4);
  }

  lemma NullVerdict<Row>(shape: Shape, channel: nat, size: Row -> nat, count: nat)
    ensures SnapshotFits(shape, channel, size)(0, count, None) <==> shape.Seals(0, count, 2 + channel + 4)
  {
    var nil: Option<seq<Row>> := None;
    assert ArraysSize(0, nil, channel, size) == 2 + channel + 4;
  }

  lemma SnapshotNulls<Row>(shape: Shape, channel: nat, size: Row -> nat, count: nat)
    requires SnapshotFits(shape, channel, size)(0, count, None)
    ensures SnapshotFits(shape, channel, size)(0, count, Some([]))
  {
    NullVerdict(shape, channel, size, count);
    NullTakesMore(shape, channel, size, count);
    PresentSeals(shape, channel, size, 0, count, []);
  }

  /** The real size test has all that the page packer relies on. */
  lemma SnapshotMonotone<Row(!new)>(shape: Shape, channel: nat, size: Row -> nat)
    ensures Monotone(SnapshotFits(shape, channel, size))
  {
    SnapshotWidths(shape, channel, size);
    SnapshotRows(shape, channel, size);
    SnapshotIndices(shape, channel, size);
    var fits := SnapshotFits(shape, channel, size);
    forall c: nat | fits(0, c, None) ensures fits(0, c, Some([])) {
      SnapshotNulls(shape, channel, size, c);
    }
  }

  lemma OneRow<Row>(shape: Shape, channel: nat, size: Row -> nat, row: Row, index: nat, count: nat)
    ensures FragmentSeals(shape, channel, size, index, count, [row])
       <==> shape.Seals(index, count, 2 + (if index == 0 then channel else 0) + 2 + size(row))
  {
    assert [row][1..] == [];
    assert RowsSize([row], size) == size(row) + RowsSize([row][1..], size);
  }

  lemma SealsLess(shape: Shape, less: nat, more: nat)
    requires less <= more
    ensures shape.Seals(0, MAX_FRAGMENTS, more) ==> shape.Seals(0, MAX_FRAGMENTS, less)
  {
  }

  lemma RowTakesMore<Row>(shape: Shape, channel: nat, size: Row -> nat, row: Row)
    requires !shape.Seals(0, MAX_FRAGMENTS, 2 + channel + 4) && size(row) >= 2
    ensures !FragmentSeals(shape, channel, size, 0, MAX_FRAGMENTS, [row])
  {
    OneRow(shape, channel, size, row, 0, MAX_FRAGMENTS);
    SealsLess(shape, 2 + channel + 4, 2 + channel + 2 + size(row));
  }

  lemma TwoFragments<Row>(row: Row, fits: PageFits<Row>)
    requires Present(fits)(0, MAX_FRAGMENTS, []) && Present(fits)(1, MAX_FRAGMENTS, [row])
    requires !Present(fits)(0, MAX_FRAGMENTS, [row]) && !fits(0, MAX_FRAGMENTS, None)
    ensures PackPage([row], fits) == ChannelTooLarge && Arranged([[], [row]], [row], MAX_FRAGMENTS, fits)
  {
    var rows := [row];
    assert rows[..1] == rows;
    assert Longest(rows, 0, 0, MAX_FRAGMENTS, Present(fits)) == 0;
    var groups := [[], rows];
    assert groups[1..] == [rows] && groups[1..][1..] == [];
    assert Flatten(groups) == [] + (rows + Flatten(groups[1..][1..]));
  }

  /** A page whose channel row only fits beside an empty array is refused: its probe encodes null. */
  lemma NullProbeRefuses<Row(!new)>(shape: Shape, channel: nat, size: Row -> nat, row: Row)
    requires !shape.Seals(0, MAX_FRAGMENTS, 2 + channel + 4)
    requires FragmentSeals(shape, channel, size, 0, MAX_FRAGMENTS, [])
    requires size(row) >= 2 && FragmentSeals(shape, channel, size, 1, MAX_FRAGMENTS, [row])
    ensures var fits := SnapshotFits(shape, channel, size);
      && PackPage([row], fits) == ChannelTooLarge
      && Arranged([[], [row]], [row], MAX_FRAGMENTS, fits)
  {
    var fits := SnapshotFits(shape, channel, size);
    RowTakesMore(shape, channel, size, row);
    NullVerdict(shape, channel, size, MAX_FRAGMENTS);
    PresentSeals(shape, channel, size, 0, MAX_FRAGMENTS, []);
    PresentSeals(shape, channel, size, 0, MAX_FRAGMENTS, [row]);
    PresentSeals(shape, channel, size, 1, MAX_FRAGMENTS, [row]);
    TwoFragments(row, fits);
  }

  /**
    For instance the first and only page of channel 1 over a dedicated socket, with a channel
    name that takes 445 bytes and one speaker of 60 bytes.
   */
  lemma NullProbeInstance()
    ensures var shape, channel, size := Shape(313, 123, 0), 25 + 445, (_: nat) => 60;
      && !shape.Seals(0, MAX_FRAGMENTS, 2 + channel + 4) && FragmentSeals(shape, channel, size, 0, MAX_FRAGMENTS, [])
      && PackPage([7], SnapshotFits(shape, channel, size)) == ChannelTooLarge
  {
    var shape, channel, size := Shape(313, 123, 0), 25 + 445, (_: nat) => 60;
    assert Digits(0) == Digits(1) == Digits(2) == 1 && Digits(MAX_FRAGMENTS) == 2;
    OneRow(shape, channel, size, 7, 1, MAX_FRAGMENTS);
    NullProbeRefuses(shape, channel, size, 7);
  }
}
