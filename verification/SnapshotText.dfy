/**
  The JSON text of a snapshot frame (privateControlRelayStateSnapshot of private_control.go,
  as json.Marshal writes it), and that the chunker's sizes are the lengths of these texts.
 */
module SnapshotText {
  import opened Common
  import opened Encoding
  import opened SnapshotChunking

  const SCHEMA := "private-control-link-v1"

  /** base64.RawURLEncoding of 16 random bytes. */
  type ID = s: string | |s| == 22 witness "AAAAAAAAAAAAAAAAAAAAAA"

  function Digit(n: nat): char
    requires n < 10
  {
    '0' + n as char
  }

  function Decimal(n: nat): (s: string)
    ensures |s| == Digits(n)
  {
    if n < 10 then [Digit(n)] else Decimal(n / 10) + [Digit(n % 10)]
  }

  /** The value of a decimal text. */
  function Value(s: string): nat {
    if s == "" then 0 else
    10 * Value(s[..|s| - 1]) + if '0' <= s[|s| - 1] <= '9' then (s[|s| - 1] - '0') as nat else 0
  }

  lemma {:induction false} DecimalValue(n: nat)
    ensures Value(Decimal(n)) == n
  {
    if n < 10 {
      assert Decimal(n)[..0] == "";
    } else {
      DecimalValue(n / 10);
      assert Decimal(n)[..|Decimal(n)| - 1] == Decimal(n / 10);
    }
  }

  /** Elements separated by commas. */
  function Joined<Row>(rows: seq<Row>, text: Row -> string): string {
    if rows == [] then "" else
    text(rows[0]) + if |rows| == 1 then "" else "," + Joined(rows[1..], text)
  }

  function ArrayText<Row>(rows: seq<Row>, text: Row -> string): string {
    "[" + Joined(rows, text) + "]"
  }

  lemma {:induction false} ArrayMeasured<Row>(rows: seq<Row>, text: Row -> string, size: Row -> nat)
    requires forall r :: r in rows ==> |text(r)| == size(r)
    ensures |ArrayText(rows, text)| == ArraySize(rows, size)
  {
    if rows != [] {
      ArrayMeasured(rows[1..], text, size);
    }
  }

  function ParticipantText(p: Participant): string {
    "{\"sender_id\":" + Decimal(p.sender) + ",\"state\":\"" + (if p.talking then "talking" else "idle") + "\"}"
  }

  function EntryText(e: Entry): string {
    "{\"channel_id\":" + Decimal(e.channel)
    + ",\"participants\":" + ArrayText(e.participants, ParticipantText) + "}"
  }

  function FrameText(message: ID, request: ID, snapshot: ID, index: nat, count: nat, channels: seq<Entry>): string {
    "{\"schema_version\":\"" + SCHEMA + "\",\"type\":\"relay_state_snapshot\""
    + ",\"message_id\":\"" + message + "\",\"in_reply_to\":\"" + request + "\",\"snapshot_id\":\"" + snapshot
    + "\",\"chunk_index\":" + Decimal(index) + ",\"chunk_count\":" + Decimal(count)
    + ",\"channels\":" + ArrayText(channels, EntryText) + "}"
  }

  lemma EntryMeasured(e: Entry)
    ensures |EntryText(e)| == EntrySize(e)
  {
    ArrayMeasured(e.participants, ParticipantText, ParticipantSize);
  }

  /** The size the chunker tests is the length of the frame's text. */
  lemma FrameMeasured(message: ID, request: ID, snapshot: ID, index: nat, count: nat, channels: seq<Entry>)
    ensures |FrameText(message, request, snapshot, index, count, channels)| == FrameSize(index, count, channels)
  {
    forall e | e in channels ensures |EntryText(e)| == EntrySize(e) {
      EntryMeasured(e);
    }
    ArrayMeasured(channels, EntryText, EntrySize);
  }

  /** Every frame that is sent for a snapshot has a text of at most 64512 bytes. */
  lemma FrameTextsFit(entries: seq<Entry>, k: nat, message: ID, request: ID, snapshot: ID)
    requires Sorted(entries) && k < |Chunks(entries)| <= MAX_CHUNKS
    ensures |FrameText(message, request, snapshot, k, |Chunks(entries)|, Chunks(entries)[k])| <= 65536 - 1024
  {
    FramesFit(entries, k);
    FrameMeasured(message, request, snapshot, k, |Chunks(entries)|, Chunks(entries)[k]);
  }
}
