/**
  Chunking a relay state snapshot for the Private Control Link (private_control_snapshot.go):
  channels with their participants, in ascending order of channel ID, are distributed over
  at most 64 frames. A channel too large for one frame is cut into pieces.
 */
module SnapshotChunking {
  import opened Common
  import opened Encoding
  import P = DirectoryPacking

  const MAX_CHUNKS := 64
  const MAX_JSON_BYTES := 65536 - 1024

  datatype Participant = Participant(sender: uint32, talking: bool)
  datatype Entry = Entry(channel: uint32, participants: seq<Participant>)

  // Encoded sizes: the fixed text of each JSON object and its variable parts.

  function ParticipantSize(p: Participant): nat {
    25 + Digits(p.sender) + if p.talking then 7 else 4
  }

  function EntrySize(e: Entry): nat {
    31 + Digits(e.channel) + ArraySize(e.participants, ParticipantSize)
  }

  /** A frame: 166 bytes of text and three 22-character IDs. */
  function FrameSize(index: nat, count: nat, channels: seq<Entry>): nat {
    232 + Digits(index) + Digits(count) + ArraySize(channels, EntrySize)
  }

  /** privateControlSnapshotChannelsFit probes with the largest index and count. */
  predicate ChannelsFit(channels: seq<Entry>) {
    FrameSize(MAX_CHUNKS - 1, MAX_CHUNKS, channels) <= MAX_JSON_BYTES
  }

  // The specification: first the pieces of each channel, then the chunks of the pieces.

  function Split(channel: uint32, batch: seq<Participant>, rest: seq<Participant>): seq<Entry>
    decreases |rest|
  {
    if rest == [] then [Entry(channel, batch)]
    else if ChannelsFit([Entry(channel, batch + [rest[0]])]) then Split(channel, batch + [rest[0]], rest[1..])
    else [Entry(channel, batch)] + Split(channel, [rest[0]], rest[1..])
  }

  function Pieces(entries: seq<Entry>): seq<Entry> {
    if entries == [] then [] else Split(entries[0].channel, [], entries[0].participants) + Pieces(entries[1..])
  }

  function NextFit(current: seq<Entry>, pieces: seq<Entry>): seq<seq<Entry>>
    decreases |pieces|
  {
    if pieces == [] then if current == [] then [] else [current]
    else if ChannelsFit(current + [pieces[0]]) then NextFit(current + [pieces[0]], pieces[1..])
    else [current] + NextFit([pieces[0]], pieces[1..])
  }

  /** All the chunks it takes, were there no limit on their number. */
  function Chunks(entries: seq<Entry>): seq<seq<Entry>> {
    if entries == [] then [[]] else NextFit([], Pieces(entries))
  }

  // Sizes.

  lemma OneEntry(e: Entry)
    ensures ArraySize([e], EntrySize) == 2 + EntrySize(e)
  {
    assert [e][1..] == [];
    assert RowsSize([e], EntrySize) == EntrySize(e) + RowsSize([e][1..], EntrySize);
  }

  lemma TwoEntries(a: Entry, b: Entry)
    ensures ArraySize([a, b], EntrySize) == 3 + EntrySize(a) + EntrySize(b)
  {
    OneEntry(b);
    assert [a, b][1..] == [b];
    assert RowsSize([a, b], EntrySize) == EntrySize(a) + RowsSize([a, b][1..], EntrySize);
  }

  lemma OneParticipant(p: Participant)
    ensures ArraySize([p], ParticipantSize) == 2 + ParticipantSize(p)
  {
    assert [p][1..] == [];
    assert RowsSize([p], ParticipantSize) == ParticipantSize(p) + RowsSize([p][1..], ParticipantSize);
  }

  lemma Narrow(n: uint32)
    ensures Digits(n) <= 10
  {
    DigitsMonotone(n, 9_999_999_999);
  }

  /** A channel with at most one participant always fits a frame. */
  lemma SmallFits(channel: uint32, participants: seq<Participant>)
    requires |participants| <= 1
    ensures ChannelsFit([Entry(channel, participants)])
  {
    OneEntry(Entry(channel, participants));
    Narrow(channel);
    if participants != [] {
      assert participants == [participants[0]];
      OneParticipant(participants[0]);
      Narrow(participants[0].sender);
    }
  }

  lemma SliceFits(channels: seq<Entry>, lo: nat, hi: nat)
    requires lo <= hi <= |channels| && ChannelsFit(channels)
    ensures ChannelsFit(channels[lo..hi])
  {
    SliceSize(channels, lo, hi, EntrySize);
  }

  // Pieces.

  /** `p` is full: the first participant of the next piece does not fit in it any more. */
  ghost predicate Continues(p: Entry, q: Entry) {
    && p.channel == q.channel && q.participants != []
    && !ChannelsFit([Entry(p.channel, p.participants + [q.participants[0]])])
  }

  /** Two such pieces do not fit one chunk together. */
  lemma ContinuationClashes(p: Entry, q: Entry)
    requires Continues(p, q)
    ensures !ChannelsFit([p, q])
  {
    var first, tail := q.participants[0], q.participants[1..];
    var wider := Entry(p.channel, p.participants + [first]);
    TwoEntries(p, q);
    OneEntry(wider);
    OneParticipant(first);
    assert q.participants == [first] + tail;
    RowsSizeAppend([first], tail, ParticipantSize);
    RowsSizeAppend(p.participants, [first], ParticipantSize);
  }

  /** Channel IDs ascend; where one repeats, the earlier piece was full. */
  ghost predicate Ascends(pieces: seq<Entry>) {
    forall i :: 0 < i < |pieces| ==>
      pieces[i - 1].channel < pieces[i].channel || Continues(pieces[i - 1], pieces[i])
  }

  ghost predicate AllFit(pieces: seq<Entry>) {
    forall i :: 0 <= i < |pieces| ==> ChannelsFit([pieces[i]])
  }

  ghost predicate Sorted(entries: seq<Entry>) {
    forall i :: 0 < i < |entries| ==> entries[i - 1].channel < entries[i].channel
  }

  /** Puts consecutive pieces of a channel together again. */
  function Merge(pieces: seq<Entry>): seq<Entry> {
    if pieces == [] then [] else
    var rest := Merge(pieces[1..]);
    if rest != [] && rest[0].channel == pieces[0].channel
    then [Entry(pieces[0].channel, pieces[0].participants + rest[0].participants)] + rest[1..]
    else [pieces[0]] + rest
  }

  /** A piece in front of the merged rest of its channel joins it. */
  lemma MergeJoins(p: Entry, pieces: seq<Entry>, participants: seq<Participant>, later: seq<Entry>)
    requires Merge(pieces + later) == [Entry(p.channel, participants)] + Merge(later)
    ensures Merge([p] + pieces + later) == [Entry(p.channel, p.participants + participants)] + Merge(later)
  {
    assert ([p] + pieces + later)[1..] == pieces + later;
    assert Merge(pieces + later)[1..] == Merge(later);
  }

  lemma MergeStarts(p: Entry, later: seq<Entry>)
    requires Merge(later) == [] || Merge(later)[0].channel != p.channel
    ensures Merge([p] + later) == [p] + Merge(later)
  {
    assert ([p] + later)[1..] == later;
  }

  lemma {:induction false} SplitMerges(
      channel: uint32, batch: seq<Participant>, rest: seq<Participant>, later: seq<Entry>)
    requires Merge(later) == [] || Merge(later)[0].channel != channel
    ensures Merge(Split(channel, batch, rest) + later) == [Entry(channel, batch + rest)] + Merge(later)
    decreases |rest|
  {
    if rest == [] {
      assert batch + rest == batch;
      MergeStarts(Entry(channel, batch), later);
    } else {
      assert batch + [rest[0]] + rest[1..] == batch + rest && [rest[0]] + rest[1..] == rest;
      if ChannelsFit([Entry(channel, batch + [rest[0]])]) {
        SplitMerges(channel, batch + [rest[0]], rest[1..], later);
      } else {
        SplitMerges(channel, [rest[0]], rest[1..], later);
        MergeJoins(Entry(channel, batch), Split(channel, [rest[0]], rest[1..]), rest, later);
      }
    }
  }

  lemma {:induction false} PiecesMerge(entries: seq<Entry>)
    requires Sorted(entries)
    ensures Merge(Pieces(entries)) == entries
  {
    if entries != [] {
      PiecesMerge(entries[1..]);
      SplitMerges(entries[0].channel, [], entries[0].participants, Pieces(entries[1..]));
      assert [] + entries[0].participants == entries[0].participants;
      assert entries == [entries[0]] + entries[1..];
    }
  }

  lemma {:induction false} SplitStarts(channel: uint32, batch: seq<Participant>, rest: seq<Participant>)
    ensures var pieces := Split(channel, batch, rest);
      && pieces != [] && |batch| <= |pieces[0].participants| && pieces[0].participants[..|batch|] == batch
      && forall i :: 0 <= i < |pieces| ==> pieces[i].channel == channel
    decreases |rest|
  {
    if rest != [] {
      if ChannelsFit([Entry(channel, batch + [rest[0]])]) {
        SplitStarts(channel, batch + [rest[0]], rest[1..]);
        assert (batch + [rest[0]])[..|batch|] == batch;
      } else {
        SplitStarts(channel, [rest[0]], rest[1..]);
      }
    }
  }

  lemma {:induction false} SplitAscends(channel: uint32, batch: seq<Participant>, rest: seq<Participant>)
    requires ChannelsFit([Entry(channel, batch)])
    ensures Ascends(Split(channel, batch, rest)) && AllFit(Split(channel, batch, rest))
    decreases |rest|
  {
    if rest != [] {
      if ChannelsFit([Entry(channel, batch + [rest[0]])]) {
        SplitAscends(channel, batch + [rest[0]], rest[1..]);
      } else {
        SmallFits(channel, [rest[0]]);
        SplitAscends(channel, [rest[0]], rest[1..]);
        SplitStarts(channel, [rest[0]], rest[1..]);
        var later := Split(channel, [rest[0]], rest[1..]);
        assert later[0].participants[..1][0] == rest[0];
        AscendsCons(Entry(channel, batch), later);
      }
    }
  }

  lemma AscendsCons(p: Entry, later: seq<Entry>)
    requires Ascends(later) && AllFit(later) && ChannelsFit([p])
    requires later != [] ==> p.channel < later[0].channel || Continues(p, later[0])
    ensures Ascends([p] + later) && AllFit([p] + later)
  {
    var pieces := [p] + later;
    forall i | 0 < i < |pieces|
      ensures pieces[i - 1].channel < pieces[i].channel || Continues(pieces[i - 1], pieces[i])
    {
      if i > 1 {
        assert pieces[i] == later[i - 1] && pieces[i - 1] == later[i - 2];
      }
    }
  }

  lemma {:induction false} PiecesAscend(entries: seq<Entry>)
    requires Sorted(entries)
    ensures Ascends(Pieces(entries)) && AllFit(Pieces(entries))
    ensures entries != [] ==> Pieces(entries) != [] && Pieces(entries)[0].channel == entries[0].channel
  {
    if entries != [] {
      var first, later := Split(entries[0].channel, [], entries[0].participants), Pieces(entries[1..]);
      SmallFits(entries[0].channel, []);
      SplitAscends(entries[0].channel, [], entries[0].participants);
      SplitStarts(entries[0].channel, [], entries[0].participants);
      PiecesAscend(entries[1..]);
      assert first[|first| - 1].channel == entries[0].channel;
    }
  }

  // Chunks.

  /** Strictly ascending: no channel is listed twice. */
  ghost predicate Distinct(chunk: seq<Entry>) {
    forall i, j :: 0 <= i < j < |chunk| ==> chunk[i].channel < chunk[j].channel
  }

  lemma {:induction false} FittingAscends(chunk: seq<Entry>, i: nat, j: nat)
    requires Ascends(chunk) && ChannelsFit(chunk) && i < j < |chunk|
    ensures chunk[i].channel < chunk[j].channel
    decreases j
  {
    SliceFits(chunk, j - 1, j + 1);
    assert chunk[j - 1..j + 1] == [chunk[j - 1], chunk[j]];
    if Continues(chunk[j - 1], chunk[j]) {
      ContinuationClashes(chunk[j - 1], chunk[j]);
    }
    if i < j - 1 {
      FittingAscends(chunk, i, j - 1);
    }
  }

  lemma {:induction false} NextFitFlattens(current: seq<Entry>, pieces: seq<Entry>)
    ensures Flatten(NextFit(current, pieces)) == current + pieces
    decreases |pieces|
  {
    if pieces == [] {
      assert Flatten([current]) == current + Flatten([current][1..]);
    } else if ChannelsFit(current + [pieces[0]]) {
      assert current + [pieces[0]] + pieces[1..] == current + pieces;
      NextFitFlattens(current + [pieces[0]], pieces[1..]);
    } else {
      NextFitFlattens([pieces[0]], pieces[1..]);
      assert [pieces[0]] + pieces[1..] == pieces;
      assert ([current] + NextFit([pieces[0]], pieces[1..]))[1..] == NextFit([pieces[0]], pieces[1..]);
    }
  }

  ghost predicate Good(chunk: seq<Entry>) {
    chunk != [] && ChannelsFit(chunk) && Distinct(chunk)
  }

  lemma FittingGood(chunk: seq<Entry>)
    requires chunk != [] && Ascends(chunk) && ChannelsFit(chunk)
    ensures Good(chunk)
  {
    forall i, j | 0 <= i < j < |chunk| ensures chunk[i].channel < chunk[j].channel {
      FittingAscends(chunk, i, j);
    }
  }

  lemma AscendsSlice(a: seq<Entry>, b: seq<Entry>)
    requires Ascends(a + b)
    ensures Ascends(a) && Ascends(b)
  {
    var all := a + b;
    forall i | 0 < i < |a| ensures a[i - 1].channel < a[i].channel || Continues(a[i - 1], a[i]) {
      assert all[i] == a[i] && all[i - 1] == a[i - 1];
    }
    forall i | 0 < i < |b| ensures b[i - 1].channel < b[i].channel || Continues(b[i - 1], b[i]) {
      assert all[|a| + i] == b[i] && all[|a| + i - 1] == b[i - 1];
    }
  }

  lemma {:induction false} NextFitGood(current: seq<Entry>, pieces: seq<Entry>)
    requires ChannelsFit(current) && Ascends(current + pieces) && AllFit(pieces)
    ensures forall chunk :: chunk in NextFit(current, pieces) ==> Good(chunk)
    decreases |pieces|
  {
    AscendsSlice(current, pieces);
    if current != [] {
      FittingGood(current);
    }
    if pieces != [] {
      if ChannelsFit(current + [pieces[0]]) {
        assert current + [pieces[0]] + pieces[1..] == current + pieces;
        NextFitGood(current + [pieces[0]], pieces[1..]);
      } else {
        assert [] + [pieces[0]] == [pieces[0]];
        assert [pieces[0]] + pieces[1..] == pieces;
        NextFitGood([pieces[0]], pieces[1..]);
      }
    }
  }

  lemma FitsEmpty()
    ensures ChannelsFit([])
  {
  }

  lemma EmptySnapshot()
    ensures Flatten(Chunks([])) == [] && Distinct([])
  {
    assert Flatten([[]]) == [] + Flatten<Entry>([[]][1..]);
  }

  lemma ChunksMerge(entries: seq<Entry>)
    requires Sorted(entries)
    ensures Merge(Flatten(Chunks(entries))) == entries
  {
    if entries == [] {
      EmptySnapshot();
    } else {
      PiecesMerge(entries);
      NextFitFlattens([], Pieces(entries));
      assert [] + Pieces(entries) == Pieces(entries);
    }
  }

  lemma ChunkIsGood(entries: seq<Entry>, chunk: seq<Entry>)
    requires Sorted(entries) && chunk in Chunks(entries)
    ensures ChannelsFit(chunk) && Distinct(chunk)
  {
    FitsEmpty();
    if entries != [] {
      PiecesAscend(entries);
      assert [] + Pieces(entries) == Pieces(entries);
      NextFitGood([], Pieces(entries));
      assert Good(chunk);
    }
  }

  /**
    Nothing is lost, duplicated or reordered: merging the pieces across all chunks gives
    back the snapshot, empty channels included. Every chunk fits, and none lists a channel
    twice.
   */
  lemma ChunksAreWhole(entries: seq<Entry>)
    requires Sorted(entries)
    ensures Merge(Flatten(Chunks(entries))) == entries
    ensures forall chunk :: chunk in Chunks(entries) ==> ChannelsFit(chunk) && Distinct(chunk)
  {
    ChunksMerge(entries);
    forall chunk | chunk in Chunks(entries) ensures ChannelsFit(chunk) && Distinct(chunk) {
      ChunkIsGood(entries, chunk);
    }
  }

  /** Each frame sent stays below the limit with its own index and count. */
  lemma FramesFit(entries: seq<Entry>, k: nat)
    requires Sorted(entries) && k < |Chunks(entries)| <= MAX_CHUNKS
    ensures FrameSize(k, |Chunks(entries)|, Chunks(entries)[k]) <= MAX_JSON_BYTES
  {
    ChunksAreWhole(entries);
    DigitsMonotone(k, MAX_CHUNKS - 1);
    DigitsMonotone(|Chunks(entries)|, MAX_CHUNKS);
    assert Chunks(entries)[k] in Chunks(entries);
  }

  // No fewer chunks are possible.

  /** The pieces of the snapshot, in order, over non-empty chunks that fit. */
  ghost predicate Division(p: seq<seq<Entry>>, entries: seq<Entry>) {
    Flatten(p) == Pieces(entries) && forall k :: 0 <= k < |p| ==> p[k] != [] && ChannelsFit(p[k])
  }

  /** A chunk's size test, whatever its index and count. */
  function InChunk(): P.Fits<Entry> {
    (index: nat, count: nat, channels: seq<Entry>) => ChannelsFit(channels)
  }

  lemma ChunkMonotone()
    ensures P.WidthMonotone(InChunk()) && P.RowMonotone(InChunk()) && P.IndexMonotone(InChunk(), 0)
  {
    forall i: nat, c: nat, g: seq<Entry>, lo: nat, hi: nat | lo <= hi <= |g| && InChunk()(i, c, g)
      ensures InChunk()(i, c, g[lo..hi])
    {
      SliceFits(g, lo, hi);
    }
  }

  /** Filling a chunk until the next piece does not fit takes the longest run of pieces that fits. */
  lemma CurrentIsLongest(current: seq<Entry>, pieces: seq<Entry>, index: nat)
    requires ChannelsFit(current) && (pieces != [] ==> !ChannelsFit(current + [pieces[0]]))
    ensures P.Longest(current + pieces, 0, index, 0, InChunk()) == |current|
  {
    var rows := current + pieces;
    forall m | 0 < m <= |current| ensures InChunk()(index, 0, rows[..m]) {
      PrefixFits(current, m);
      assert rows[..m] == current[..m];
    }
    P.LongestReaches(rows, 0, |current|, index, 0, InChunk());
    assert pieces != [] ==> rows[..|current| + 1] == current + [pieces[0]];
    var n := P.Longest(rows, 0, index, 0, InChunk());
    if n > |current| {
      PrefixFits(rows[..n], |current| + 1);
      assert false;
    }
  }

  lemma PrefixFits(channels: seq<Entry>, n: nat)
    requires n <= |channels| && ChannelsFit(channels)
    ensures forall all :: channels <= all ==> ChannelsFit(all[..n])
  {
    SliceFits(channels, 0, n);
    assert channels[0..n] == channels[..n];
    assert forall all :: channels <= all ==> all[..n] == channels[..n];
  }

  lemma {:induction false} NextFitIsGreedy(current: seq<Entry>, pieces: seq<Entry>, index: nat)
    requires ChannelsFit(current) && AllFit(pieces)
    ensures P.Greedy(current + pieces, index, 0, InChunk()) == Some(NextFit(current, pieces))
    decreases |pieces|
  {
    var rows := current + pieces;
    if pieces != [] && ChannelsFit(current + [pieces[0]]) {
      assert current + [pieces[0]] + pieces[1..] == rows;
      NextFitIsGreedy(current + [pieces[0]], pieces[1..], index);
    } else if rows != [] {
      CurrentIsLongest(current, pieces, index);
      assert rows[..|current|] == current && rows[|current|..] == pieces;
      assert pieces == [] ==> [current] + [] == NextFit(current, pieces);
      if pieces != [] {
        assert [] + [pieces[0]] == [pieces[0]] && [pieces[0]] + pieces[1..] == pieces;
        NextFitIsGreedy([pieces[0]], pieces[1..], index + 1);
      }
    }
  }

  lemma ChunksDivide(entries: seq<Entry>)
    requires Sorted(entries) && entries != []
    ensures Division(Chunks(entries), entries)
  {
    PiecesAscend(entries);
    FitsEmpty();
    NextFitFlattens([], Pieces(entries));
    assert [] + Pieces(entries) == Pieces(entries);
    NextFitGood([], Pieces(entries));
    forall k | 0 <= k < |Chunks(entries)| ensures Good(Chunks(entries)[k]) {
      assert Chunks(entries)[k] in NextFit([], Pieces(entries));
    }
  }

  /** Every in-order division of the pieces into chunks that fit has at least as many. */
  lemma ChunksAreFewest(entries: seq<Entry>, p: seq<seq<Entry>>)
    requires Sorted(entries) && entries != [] && Division(p, entries)
    ensures |Chunks(entries)| <= |p|
  {
    var pieces := Pieces(entries);
    PiecesAscend(entries);
    FitsEmpty();
    ChunkMonotone();
    NextFitIsGreedy([], pieces, 0);
    assert [] + pieces == pieces && pieces == pieces[|pieces| - |pieces|..];
    P.StaysAhead(p, pieces, pieces, 0, 0, 0, 0, InChunk());
  }

  /** No chunk had room for the first piece of the next one. */
  lemma {:induction false} NoRoom(current: seq<Entry>, pieces: seq<Entry>, k: nat)
    requires current != [] || (pieces != [] && ChannelsFit([pieces[0]]))
    requires k + 1 < |NextFit(current, pieces)|
    ensures var chunks := NextFit(current, pieces); chunks[k + 1] != [] && !ChannelsFit(chunks[k] + [chunks[k + 1][0]])
    decreases |pieces|
  {
    if pieces != [] {
      assert [] + [pieces[0]] == [pieces[0]];
      if ChannelsFit(current + [pieces[0]]) {
        NoRoom(current + [pieces[0]], pieces[1..], k);
      } else {
        NextFitStarts([pieces[0]], pieces[1..]);
        if k > 0 {
          NoRoom([pieces[0]], pieces[1..], k - 1);
        }
      }
    }
  }

  lemma {:induction false} NextFitStarts(current: seq<Entry>, pieces: seq<Entry>)
    requires current != []
    ensures var chunks := NextFit(current, pieces); chunks != [] && chunks[0] != [] && chunks[0][0] == current[0]
    decreases |pieces|
  {
    if pieces != [] && ChannelsFit(current + [pieces[0]]) {
      NextFitStarts(current + [pieces[0]], pieces[1..]);
    }
  }

  /** In particular channels without participants share a chunk as long as they fit together. */
  lemma ChunksAreFull(entries: seq<Entry>, k: nat)
    requires Sorted(entries) && k + 1 < |Chunks(entries)|
    ensures var chunks := Chunks(entries); chunks[k + 1] != [] && !ChannelsFit(chunks[k] + [chunks[k + 1][0]])
  {
    PiecesAscend(entries);
    NoRoom([], Pieces(entries), k);
  }

  // The nested loops and the appendChunk closure of privateControlChunkSnapshotEntries.

  /** Chunks closed so far, and the one being filled. */
  class Chunker {
    var chunks: seq<seq<Entry>>
    var current: seq<Entry>

    constructor ()
      ensures chunks == [] && current == []
    {
      chunks, current := [], [];
    }

    /** The appendChunk closure; `later` stands for the pieces still to come. */
    method AppendChunk(entry: Entry, ghost later: seq<Entry>) returns (ok: bool)
      modifies this
      ensures ok <==> ChannelsFit([entry]) || ChannelsFit(old(current) + [entry])
      ensures ok ==> chunks + NextFit(current, later) == old(chunks) + NextFit(old(current), [entry] + later)
    {
      assert ([entry] + later)[1..] == later;
      var candidate := current + [entry];
      if ChannelsFit(candidate) {
        current := candidate;
        return true;
      }
      if current == [] {
        assert candidate == [entry];
        return false;
      }
      assert chunks + [current] + NextFit([entry], later) == chunks + ([current] + NextFit([entry], later));
      chunks := chunks + [current];
      current := [entry];
      ok := ChannelsFit(current);
    }

    /** One turn of the loop over a channel's participants. */
    method AppendParticipant(channel: uint32, batch: seq<Participant>, rest: seq<Participant>, ghost later: seq<Entry>)
      returns (next: seq<Participant>)
      requires rest != [] && ChannelsFit([Entry(channel, batch)])
      modifies this
      ensures ChannelsFit([Entry(channel, next)])
      ensures chunks + NextFit(current, Split(channel, next, rest[1..]) + later)
           == old(chunks) + NextFit(old(current), Split(channel, batch, rest) + later)
    {
      if ChannelsFit([Entry(channel, batch + [rest[0]])]) {
        next := batch + [rest[0]];
      } else {
        SmallFits(channel, [rest[0]]);
        ghost var pieces := Split(channel, [rest[0]], rest[1..]) + later;
        assert Split(channel, batch, rest) + later == [Entry(channel, batch)] + pieces;
        var ok := AppendChunk(Entry(channel, batch), pieces);
        assert ok;
        next := [rest[0]];
      }
    }

    /** The pieces of one channel. None is ever too large for a chunk of its own. */
    method AppendEntry(entry: Entry, ghost later: seq<Entry>)
      modifies this
      ensures chunks + NextFit(current, later)
           == old(chunks) + NextFit(old(current), Split(entry.channel, [], entry.participants) + later)
    {
      SmallFits(entry.channel, []);
      var batch: seq<Participant> := [];
      assert entry.participants[0..] == entry.participants;
      for j := 0 to |entry.participants|
        invariant ChannelsFit([Entry(entry.channel, batch)])
        invariant chunks + NextFit(current, Split(entry.channel, batch, entry.participants[j..]) + later)
               == old(chunks) + NextFit(old(current), Split(entry.channel, [], entry.participants) + later)
      {
        assert entry.participants[j..][1..] == entry.participants[j + 1..];
        batch := AppendParticipant(entry.channel, batch, entry.participants[j..], later);
      }
      assert entry.participants[|entry.participants|..] == [];
      var ok := AppendChunk(Entry(entry.channel, batch), later);
      assert ok;
    }
  }

  /** The only failure is a snapshot that takes more than 64 chunks. */
  method ChunkSnapshotEntries(entries: seq<Entry>) returns (r: Option<seq<seq<Entry>>>)
    requires Sorted(entries)
    ensures r == if |Chunks(entries)| <= MAX_CHUNKS then Some(Chunks(entries)) else None
    ensures r.None? <==> entries != [] && forall p :: Division(p, entries) ==> |p| > MAX_CHUNKS
    ensures r.Some? ==> forall p :: Division(p, entries) && entries != [] ==> |r.value| <= |p|
  {
    var chunker := new Chunker();
    ghost var all := NextFit([], Pieces(entries));
    assert entries[0..] == entries && [] + all == all;
    for i := 0 to |entries|
      invariant fresh(chunker)
      invariant all == chunker.chunks + NextFit(chunker.current, Pieces(entries[i..]))
    {
      assert entries[i..][0] == entries[i] && entries[i..][1..] == entries[i + 1..];
      chunker.AppendEntry(entries[i], Pieces(entries[i + 1..]));
    }
    var chunks := chunker.chunks;
    if chunker.current != [] {
      chunks := chunks + [chunker.current];
    }
    assert entries[|entries|..] == [] && chunks == all;
    if chunks == [] {
      chunks := [[]];
    }
    ChunkCount(entries);
    Fewest(entries);
    if |chunks| > MAX_CHUNKS {
      return None;
    }
    r := Some(chunks);
  }

  lemma Fewest(entries: seq<Entry>)
    requires Sorted(entries)
    ensures entries != [] ==> Division(Chunks(entries), entries)
    ensures forall p :: Division(p, entries) && entries != [] ==> |Chunks(entries)| <= |p|
  {
    if entries != [] {
      ChunksDivide(entries);
      forall p | Division(p, entries) ensures |Chunks(entries)| <= |p| {
        ChunksAreFewest(entries, p);
      }
    }
  }

  lemma ChunkCount(entries: seq<Entry>)
    requires Sorted(entries)
    ensures NextFit([], Pieces(entries)) == [] <==> entries == []
    ensures Chunks(entries) == if entries == [] then [[]] else NextFit([], Pieces(entries))
  {
    PiecesAscend(entries);
    NextFitFlattens([], Pieces(entries));
    assert [] + Pieces(entries) == Pieces(entries);
  }
}
