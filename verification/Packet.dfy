/**
  The binary packet format (main.go, control_auth.go): parsing a datagram, building relay
  control packets and authenticated control packets, and verifying the latter. HMAC-SHA-256
  is an uninterpreted function of key and message giving 16 bytes.
 */
module Packet {
  import opened Common

  type Bytes = seq<uint8>
  type Tag = t: Bytes | |t| == TAG_SIZE witness seq(TAG_SIZE, _ => 0)
  type TagOf = (Bytes, Bytes) -> Tag

  const VERSION: uint8 := 1
  const FIXED_HEADER_SIZE := 16
  const CONTROL_EXTENSION_SIZE := 12
  const CONTROL_HEADER_SIZE := FIXED_HEADER_SIZE + CONTROL_EXTENSION_SIZE
  const MEDIA_HEADER_SIZE := 36
  const TAG_SIZE := 16
  const KEY_SIZE := 32
  const PKT_AUDIO: uint8 := 0x01
  const PKT_FEC: uint8 := 0x0C
  const FLAG_CONTROL_AUTH: uint16 := 2
  const TWO_64: nat := TWO_32 * TWO_32

  type uint64 = n: nat | n < TWO_64

  datatype Header = Header(
    version: uint8, kind: uint8, headerLen: uint16, channel: uint32, sender: uint32, seq_: uint16, flags: uint16)

  datatype Security =
    | NoSecurity
    | Control(nonce: uint64, keyID: uint32)
    | Media(nonceBase: Bytes, counter: uint32, keyID: uint32)

  datatype Parsed = Parsed(header: Header, security: Security, payload: Bytes, tag: Bytes, raw: Bytes)

  // Big-endian numbers.

  function Pow(width: nat): (p: nat)
    ensures p >= 1
  {
    if width == 0 then 1 else 0x100 * Pow(width - 1)
  }

  function Put(n: nat, width: nat): (b: Bytes)
    ensures |b| == width
  {
    if width == 0 then [] else Put(n / 0x100, width - 1) + [n % 0x100]
  }

  function Get(b: Bytes): (n: nat)
    ensures n < Pow(|b|)
  {
    if b == [] then 0 else 0x100 * Get(b[..|b| - 1]) + b[|b| - 1]
  }

  lemma {:induction false} GetPut(n: nat, width: nat)
    requires n < Pow(width)
    ensures Get(Put(n, width)) == n
  {
    if width > 0 {
      GetPut(n / 0x100, width - 1);
      assert Put(n, width)[..width - 1] == Put(n / 0x100, width - 1);
    }
  }

  lemma {:induction false} PutGet(b: Bytes)
    ensures Put(Get(b), |b|) == b
  {
    if b != [] {
      PutGet(b[..|b| - 1]);
      assert Get(b) / 0x100 == Get(b[..|b| - 1]) && Get(b) % 0x100 == b[|b| - 1];
      assert b == b[..|b| - 1] + [b[|b| - 1]];
    }
  }

  lemma Widths()
    ensures Pow(1) == 0x100 && Pow(2) == 0x1_0000 && Pow(4) == TWO_32 && Pow(8) == TWO_64
  {
    assert Pow(3) == 0x100_0000;
    assert Pow(5) == 0x100 * TWO_32 && Pow(6) == 0x1_0000 * TWO_32 && Pow(7) == 0x100_0000 * TWO_32;
  }

  function Uint16(b: Bytes): uint16
    requires |b| == 2
  {
    Widths();
    Get(b)
  }

  function Uint32(b: Bytes): uint32
    requires |b| == 4
  {
    Widths();
    Get(b)
  }

  function Uint64(b: Bytes): uint64
    requires |b| == 8
  {
    Widths();
    Get(b)
  }

  // Parsing.

  function ParseHeader(data: Bytes): Header
    requires |data| >= FIXED_HEADER_SIZE
  {
    Header(data[0], data[1], Uint16(data[2..4]), Uint32(data[4..8]), Uint32(data[8..12]),
           Uint16(data[12..14]), Uint16(data[14..16]))
  }

  /** The AES-GCM v2 media header: an audio or FEC packet with flag bit 0. */
  predicate IsMedia(h: Header) {
    (h.kind == PKT_AUDIO || h.kind == PKT_FEC) && h.flags % 2 == 1
  }

  function ParsePayload(data: Bytes, header: Header, security: Security, offset: nat): Option<Parsed>
    requires offset + TAG_SIZE <= |data|
  {
    Some(Parsed(header, security, data[offset..|data| - TAG_SIZE], data[|data| - TAG_SIZE..], data))
  }

  function Parse(data: Bytes, noCrypto: bool): Option<Parsed> {
    if |data| < FIXED_HEADER_SIZE then None else
    var header := ParseHeader(data);
    if IsMedia(header) then
      if header.headerLen != MEDIA_HEADER_SIZE || |data| < MEDIA_HEADER_SIZE + TAG_SIZE then None
      else
        var media := Media(data[16..28], Uint32(data[28..32]), Uint32(data[32..36]));
        ParsePayload(data, header, media, MEDIA_HEADER_SIZE)
    else if header.headerLen == CONTROL_HEADER_SIZE then
      if |data| < CONTROL_HEADER_SIZE + TAG_SIZE then None
      else ParsePayload(data, header, Control(Uint64(data[16..24]), Uint32(data[24..28])), CONTROL_HEADER_SIZE)
    else if header.headerLen != FIXED_HEADER_SIZE || !noCrypto then None
    else Some(Parsed(header, NoSecurity, data[FIXED_HEADER_SIZE..], [], data))
  }

  function HeaderBytes(h: Header): (b: Bytes)
    ensures |b| == FIXED_HEADER_SIZE
  {
    [h.version, h.kind] + Put(h.headerLen, 2) + Put(h.channel, 4) + Put(h.sender, 4) + Put(h.seq_, 2) + Put(h.flags, 2)
  }

  function ExtensionBytes(s: Security): Bytes {
    match s
    case NoSecurity => []
    case Control(nonce, keyID) => Put(nonce, 8) + Put(keyID, 4)
    case Media(nonceBase, counter, keyID) => nonceBase + Put(counter, 4) + Put(keyID, 4)
  }

  lemma HeaderRoundTrip(data: Bytes)
    requires |data| >= FIXED_HEADER_SIZE
    ensures HeaderBytes(ParseHeader(data)) == data[..FIXED_HEADER_SIZE]
  {
    PutGet(data[2..4]);
    PutGet(data[4..8]);
    PutGet(data[8..12]);
    PutGet(data[12..14]);
    PutGet(data[14..16]);
    assert data[..16] == [data[0], data[1]] + data[2..4] + data[4..8] + data[8..12] + data[12..14] + data[14..16];
  }

  lemma ControlExtension(data: Bytes)
    requires |data| >= CONTROL_HEADER_SIZE
    ensures ExtensionBytes(Control(Uint64(data[16..24]), Uint32(data[24..28]))) == data[16..28]
  {
    PutGet(data[16..24]);
    PutGet(data[24..28]);
    assert data[16..28] == data[16..24] + data[24..28];
  }

  lemma MediaExtension(data: Bytes)
    requires |data| >= MEDIA_HEADER_SIZE
    ensures ExtensionBytes(Media(data[16..28], Uint32(data[28..32]), Uint32(data[32..36]))) == data[16..36]
  {
    PutGet(data[28..32]);
    PutGet(data[32..36]);
    assert data[16..36] == data[16..28] + data[28..32] + data[32..36];
  }

  /**
    Every accepted datagram splits exactly into header, extension, payload and tag; its
    header length is the length of the first two, and everything it was read from is kept.
   */
  lemma AcceptedSplits(data: Bytes, noCrypto: bool)
    requires Parse(data, noCrypto).Some?
    ensures var p := Parse(data, noCrypto).value;
      && data == HeaderBytes(p.header) + ExtensionBytes(p.security) + p.payload + p.tag && p.raw == data
      && |HeaderBytes(p.header) + ExtensionBytes(p.security)| == p.header.headerLen
      && |p.tag| == (if p.security.NoSecurity? then 0 else TAG_SIZE)
      && (p.security.Media? <==> IsMedia(p.header)) && (p.security.NoSecurity? ==> noCrypto)
  {
    var p := Parse(data, noCrypto).value;
    HeaderRoundTrip(data);
    match p.security
    case NoSecurity =>
      Cut(data, 16, 16, |data|);
      assert data[16..16] == [] && data[16..|data|] == data[16..] && data[|data|..] == [];
    case Control(_, _) =>
      ControlExtension(data);
      Cut(data, 16, 28, |data| - TAG_SIZE);
    case Media(_, _, _) =>
      MediaExtension(data);
      Cut(data, 16, 36, |data| - TAG_SIZE);
  }

  lemma Cut(data: Bytes, i: nat, j: nat, k: nat)
    requires i <= j <= k <= |data|
    ensures data == data[..i] + data[i..j] + data[j..k] + data[k..]
  {
  }

  lemma HeaderBack(h: Header, rest: Bytes)
    ensures ParseHeader(HeaderBytes(h) + rest) == h
  {
    Widths();
    GetPut(h.headerLen, 2);
    GetPut(h.channel, 4);
    GetPut(h.sender, 4);
    GetPut(h.seq_, 2);
    GetPut(h.flags, 2);
    var data := HeaderBytes(h) + rest;
    var p2 := [h.version, h.kind];
    var p4 := p2 + Put(h.headerLen, 2);
    var p8 := p4 + Put(h.channel, 4);
    var p12 := p8 + Put(h.sender, 4);
    var p14 := p12 + Put(h.seq_, 2);
    assert data == p14 + Put(h.flags, 2) + rest && data[14..16] == Put(h.flags, 2);
    assert data == p12 + Put(h.seq_, 2) + data[14..] && data[12..14] == Put(h.seq_, 2);
    assert data == p8 + Put(h.sender, 4) + data[12..] && data[8..12] == Put(h.sender, 4);
    assert data == p4 + Put(h.channel, 4) + data[8..] && data[4..8] == Put(h.channel, 4);
    assert data == p2 + Put(h.headerLen, 2) + data[4..] && data[2..4] == Put(h.headerLen, 2);
  }

  lemma ControlBack(h: Header, nonce: uint64, keyID: uint32, payload: Bytes, tag: Tag, noCrypto: bool)
    requires h.headerLen == CONTROL_HEADER_SIZE && !IsMedia(h)
    ensures var data := HeaderBytes(h) + ExtensionBytes(Control(nonce, keyID)) + payload + tag;
      Parse(data, noCrypto) == Some(Parsed(h, Control(nonce, keyID), payload, tag, data))
  {
    var ext := ExtensionBytes(Control(nonce, keyID));
    var data := HeaderBytes(h) + ext + payload + tag;
    assert data == HeaderBytes(h) + (ext + payload + tag);
    HeaderBack(h, ext + payload + tag);
    Widths();
    GetPut(nonce, 8);
    GetPut(keyID, 4);
    assert data[16..24] == Put(nonce, 8);
    assert data[24..28] == Put(keyID, 4);
    assert data[CONTROL_HEADER_SIZE..|data| - TAG_SIZE] == payload;
    assert data[|data| - TAG_SIZE..] == tag;
  }

  // Building. Packets are filled in place.

  /** binary.BigEndian.PutUint16, PutUint32 and PutUint64. */
  method PutUint(packet: array<uint8>, at: nat, width: nat, n: nat)
    requires at + width <= packet.Length
    modifies packet
    ensures packet[..at + width] == old(packet[..at]) + Put(n, width)
  {
    var rest: nat := n;
    ghost var low: Bytes := [];
    var i: nat := width;
    while i > 0
      invariant i <= width && |low| == width - i
      invariant packet[..at] == old(packet[..at])
      invariant packet[at + i..at + width] == low
      invariant Put(n, width) == Put(rest, i) + low
    {
      i := i - 1;
      packet[at + i] := rest % 0x100;
      low := [rest % 0x100] + low;
      rest := rest / 0x100;
    }
    assert packet[..at + width] == packet[..at] + packet[at..at + width];
  }

  method Copy(packet: array<uint8>, at: nat, bytes: Bytes)
    requires at + |bytes| <= packet.Length
    modifies packet
    ensures packet[..at + |bytes|] == old(packet[..at]) + bytes
  {
    for i := 0 to |bytes|
      invariant packet[..at + i] == old(packet[..at]) + bytes[..i]
    {
      packet[at + i] := bytes[i];
      assert packet[..at + i + 1] == packet[..at + i] + [bytes[i]];
    }
  }

  method FillHeader(packet: array<uint8>, h: Header)
    requires FIXED_HEADER_SIZE <= packet.Length
    modifies packet
    ensures packet[..FIXED_HEADER_SIZE] == HeaderBytes(h)
  {
    packet[0] := h.version;
    packet[1] := h.kind;
    assert packet[..2] == [h.version, h.kind];
    PutUint(packet, 2, 2, h.headerLen);
    PutUint(packet, 4, 4, h.channel);
    PutUint(packet, 8, 4, h.sender);
    PutUint(packet, 12, 2, h.seq_);
    PutUint(packet, 14, 2, h.flags);
  }

  function RelayHeader(kind: uint8, channel: uint32, sender: uint32, noCrypto: bool, sequence: uint16): Header {
    Header(VERSION, kind, if noCrypto then FIXED_HEADER_SIZE else CONTROL_HEADER_SIZE, channel, sender, sequence, 0)
  }

  function NoTag(): Tag {
    seq(TAG_SIZE, _ => 0)
  }

  /** A relay control packet carries a zero extension and a zero tag unless crypto is off. */
  method BuildRelayControlPacket(
      kind: uint8, channel: uint32, sender: uint32, payload: Bytes, noCrypto: bool, sequence: uint16)
    returns (packet: Bytes)
    ensures packet == RelayPacket(kind, channel, sender, payload, noCrypto, sequence)
  {
    var header := new uint8[FIXED_HEADER_SIZE];
    FillHeader(header, RelayHeader(kind, channel, sender, noCrypto, sequence));
    assert header[..] == header[..FIXED_HEADER_SIZE];
    if noCrypto {
      return header[..] + payload;
    }
    var sec := new uint8[CONTROL_EXTENSION_SIZE](_ => 0);
    assert sec[..] == Put(0, 8) + Put(0, 4) by {
      Zeros(8);
      Zeros(4);
    }
    packet := header[..] + sec[..] + payload + NoTag();
  }

  lemma {:induction false} Zeros(width: nat)
    ensures Put(0, width) == seq(width, _ => 0)
  {
    if width > 0 {
      Zeros(width - 1);
    }
  }

  function RelayPacket(
      kind: uint8, channel: uint32, sender: uint32, payload: Bytes, noCrypto: bool, sequence: uint16): Bytes
  {
    var header := HeaderBytes(RelayHeader(kind, channel, sender, noCrypto, sequence));
    if noCrypto then header + payload else header + ExtensionBytes(Control(0, 0)) + payload + NoTag()
  }

  /** Parsing a relay control packet gives back every field and the payload;
      without crypto only a relay without crypto accepts it. */
  lemma RelayRoundTrip(
      kind: uint8, channel: uint32, sender: uint32, payload: Bytes, noCrypto: bool, sequence: uint16, receiver: bool)
    ensures var data := RelayPacket(kind, channel, sender, payload, noCrypto, sequence);
      var header := RelayHeader(kind, channel, sender, noCrypto, sequence);
      Parse(data, receiver) ==
        if !noCrypto then Some(Parsed(header, Control(0, 0), payload, NoTag(), data))
        else if receiver then Some(Parsed(header, NoSecurity, payload, [], data))
        else None
  {
    var header := RelayHeader(kind, channel, sender, noCrypto, sequence);
    if noCrypto {
      HeaderBack(header, payload);
      assert (HeaderBytes(header) + payload)[FIXED_HEADER_SIZE..] == payload;
    } else {
      ControlBack(header, 0, 0, payload, NoTag(), receiver);
    }
  }

  function AuthenticatedHeader(kind: uint8, channel: uint32, sender: uint32, sequence: uint16): Header {
    Header(VERSION, kind, CONTROL_HEADER_SIZE, channel, sender, sequence, FLAG_CONTROL_AUTH)
  }

  function AuthenticatedPrefix(kind: uint8, channel: uint32, sender: uint32, payload: Bytes, keyID: uint32,
                               nonce: uint64, sequence: uint16): Bytes {
    HeaderBytes(AuthenticatedHeader(kind, channel, sender, sequence)) + ExtensionBytes(Control(nonce, keyID)) + payload
  }

  method BuildAuthenticatedControlPacket(kind: uint8, channel: uint32, sender: uint32, payload: Bytes, keyID: uint32,
                                         key: Bytes, nonce: uint64, sequence: uint16, tagOf: TagOf) returns (r: Bytes)
    ensures var prefix := AuthenticatedPrefix(kind, channel, sender, payload, keyID, nonce, sequence);
      r == prefix + tagOf(key, prefix)
  {
    var packet := new uint8[CONTROL_HEADER_SIZE + |payload| + TAG_SIZE];
    FillHeader(packet, AuthenticatedHeader(kind, channel, sender, sequence));
    PutUint(packet, 16, 8, nonce);
    PutUint(packet, 24, 4, keyID);
    ghost var header := HeaderBytes(AuthenticatedHeader(kind, channel, sender, sequence));
    assert packet[..CONTROL_HEADER_SIZE] == header + (Put(nonce, 8) + Put(keyID, 4));
    Copy(packet, CONTROL_HEADER_SIZE, payload);
    var body := packet.Length - TAG_SIZE;
    ghost var prefix := AuthenticatedPrefix(kind, channel, sender, payload, keyID, nonce, sequence);
    assert packet[..body] == prefix;
    Copy(packet, body, tagOf(key, packet[..body]));
    r := packet[..];
    assert packet[..] == packet[..packet.Length];
  }

  predicate Verifies(p: Parsed, key: Bytes, tagOf: TagOf) {
    && |key| == KEY_SIZE && p.header.headerLen == CONTROL_HEADER_SIZE
    && p.header.flags / FLAG_CONTROL_AUTH % 2 == 1 && p.header.flags % 2 == 0
    && p.security.Control? && p.security.nonce != 0 && p.security.keyID != 0
    && |p.tag| == TAG_SIZE && |p.raw| >= CONTROL_HEADER_SIZE + TAG_SIZE
    && p.tag == tagOf(key, p.raw[..|p.raw| - TAG_SIZE])
  }

  /**
    Parsing an authenticated packet gives back every field, the payload and the tag, and it
    verifies under its key exactly if the key has 32 bytes and nonce and key ID are not zero.
   */
  lemma AuthenticatedRoundTrip(kind: uint8, channel: uint32, sender: uint32, payload: Bytes, keyID: uint32,
                               key: Bytes, nonce: uint64, sequence: uint16, tagOf: TagOf, receiver: bool)
    ensures var prefix := AuthenticatedPrefix(kind, channel, sender, payload, keyID, nonce, sequence);
      var tag := tagOf(key, prefix);
      var header := AuthenticatedHeader(kind, channel, sender, sequence);
      var p := Parsed(header, Control(nonce, keyID), payload, tag, prefix + tag);
      && Parse(prefix + tag, receiver) == Some(p)
      && (Verifies(p, key, tagOf) <==> |key| == KEY_SIZE && nonce != 0 && keyID != 0)
  {
    var prefix := AuthenticatedPrefix(kind, channel, sender, payload, keyID, nonce, sequence);
    var tag := tagOf(key, prefix);
    var header := AuthenticatedHeader(kind, channel, sender, sequence);
    ControlBack(header, nonce, keyID, payload, tag, receiver);
    TagVerifies(header, nonce, keyID, payload, prefix, key, tagOf);
  }

  lemma TagVerifies(
      header: Header, nonce: uint64, keyID: uint32, payload: Bytes, prefix: Bytes, key: Bytes, tagOf: TagOf)
    requires header.flags == FLAG_CONTROL_AUTH && header.headerLen == CONTROL_HEADER_SIZE
    requires |prefix| >= CONTROL_HEADER_SIZE
    ensures var tag := tagOf(key, prefix);
      Verifies(Parsed(header, Control(nonce, keyID), payload, tag, prefix + tag), key, tagOf)
      <==> |key| == KEY_SIZE && nonce != 0 && keyID != 0
  {
    var raw := prefix + tagOf(key, prefix);
    assert raw[..|raw| - TAG_SIZE] == prefix;
  }

  // Where the fields are, byte by byte.

  function Two(high: nat, low: nat): nat {
    0x100 * high + low
  }

  function Four(a: nat, b: nat, c: nat, d: nat): nat {
    0x100_0000 * a + 0x1_0000 * b + 0x100 * c + d
  }

  lemma TwoBytes(b: Bytes)
    requires |b| == 2
    ensures Get(b) == Two(b[0], b[1])
  {
    assert b[..1] == [b[0]] && b[..1][..0] == [];
  }

  lemma FourBytes(b: Bytes)
    requires |b| == 4
    ensures Get(b) == Four(b[0], b[1], b[2], b[3])
  {
    TwoBytes(b[..2]);
    assert b[..3][..2] == b[..2] && b[..3] == b[..4][..3] && b[..4] == b;
  }

  lemma EightBytes(b: Bytes)
    requires |b| == 8
    ensures Get(b) == Get(b[..4]) * TWO_32 + Get(b[4..])
  {
    FourBytes(b[4..]);
    assert b[..7][..6] == b[..6] && b[..6][..5] == b[..5] && b[..5][..4] == b[..4];
    assert Get(b[..6]) == 0x1_0000 * Get(b[..4]) + Two(b[4], b[5]);
    assert Get(b) == 0x1_0000 * Get(b[..6]) + Two(b[6], b[7]);
  }

  lemma {:induction false} ZeroBytes(b: Bytes)
    ensures Get(b) == 0 <==> forall i :: 0 <= i < |b| ==> b[i] == 0
  {
    if b != [] {
      ZeroBytes(b[..|b| - 1]);
    }
  }

  /** The fixed header: version, kind, header length, channel, sender, sequence number and flags. */
  lemma HeaderFields(data: Bytes)
    requires |data| >= 16
    ensures var h := ParseHeader(data);
      && h.version == data[0] && h.kind == data[1] && h.headerLen == Two(data[2], data[3])
      && h.channel == Four(data[4], data[5], data[6], data[7])
      && h.sender == Four(data[8], data[9], data[10], data[11])
      && h.seq_ == Two(data[12], data[13]) && h.flags == Two(data[14], data[15])
  {
    TwoBytes(data[2..4]);
    FourBytes(data[4..8]);
    FourBytes(data[8..12]);
    TwoBytes(data[12..14]);
    TwoBytes(data[14..16]);
  }

  /** An audio or FEC packet with the lowest flag. */
  predicate MediaBytes(data: Bytes)
    requires |data| >= 16
  {
    (data[1] == 0x01 || data[1] == 0x0c) && data[15] % 2 == 1
  }

  lemma KindAndLength(data: Bytes)
    requires |data| >= 16
    ensures var h, length := ParseHeader(data), Two(data[2], data[3]);
      h.headerLen == length && (IsMedia(h) <==> MediaBytes(data))
  {
    HeaderFields(data);
  }

  /** Exactly these datagrams are accepted, as media, as control, or without security. */
  lemma ParsesExactly(data: Bytes, noCrypto: bool)
    ensures Parse(data, noCrypto).Some? <==>
      |data| >= 16 &&
      var length := Two(data[2], data[3]);
      if MediaBytes(data) then length == 36 && |data| >= 52
      else (length == 28 && |data| >= 44) || (length == 16 && noCrypto)
  {
    if |data| >= 16 {
      KindAndLength(data);
    }
  }

  /** What is accepted keeps the datagram, and the payload lies between header and tag. */
  lemma ParsedParts(data: Bytes, noCrypto: bool)
    requires Parse(data, noCrypto).Some?
    ensures var p, length := Parse(data, noCrypto).value, Two(data[2], data[3]);
      && p.header == ParseHeader(data) && p.raw == data
      && (p.security.Media? <==> MediaBytes(data)) && (p.security.Control? <==> !MediaBytes(data) && length == 28)
      && p.payload == data[p.header.headerLen..if p.security.NoSecurity? then |data| else |data| - 16]
  {
    KindAndLength(data);
  }

  /** The extensions of the header: nonce and key ID, or nonce base, counter and key ID. */
  lemma ExtensionFields(data: Bytes, noCrypto: bool)
    requires Parse(data, noCrypto).Some?
    ensures match Parse(data, noCrypto).value.security
      case NoSecurity => true
      case Control(nonce, keyID) =>
        && nonce == Get(data[16..20]) * TWO_32 + Get(data[20..24])
        && keyID == Four(data[24], data[25], data[26], data[27])
      case Media(nonceBase, counter, keyID) =>
        && nonceBase == data[16..28]
        && counter == Four(data[28], data[29], data[30], data[31])
        && keyID == Four(data[32], data[33], data[34], data[35])
  {
    match Parse(data, noCrypto).value.security
    case NoSecurity =>
    case Control(_, _) =>
      EightBytes(data[16..24]);
      assert data[16..24][..4] == data[16..20] && data[16..24][4..] == data[20..24];
      FourBytes(data[24..28]);
    case Media(_, _, _) =>
      FourBytes(data[28..32]);
      FourBytes(data[32..36]);
  }

  /**
    A received packet verifies under a key exactly if the key has 32 bytes, it is a control
    packet with the authentication flag and without the lowest one, neither its nonce nor its
    key ID is all zero, and its last 16 bytes are the tag of everything before them.
   */
  lemma VerifiesExactly(data: Bytes, noCrypto: bool, key: Bytes, tagOf: TagOf)
    requires Parse(data, noCrypto).Some?
    ensures Verifies(Parse(data, noCrypto).value, key, tagOf) <==>
      && |key| == 32 && |data| >= 44 && data[2] == 0 && data[3] == 28 && data[15] % 4 == 2
      && (exists i :: 16 <= i < 24 && data[i] != 0) && (exists i :: 24 <= i < 28 && data[i] != 0)
      && data[|data| - 16..] == tagOf(key, data[..|data| - 16])
  {
    ParsesExactly(data, noCrypto);
    ParsedParts(data, noCrypto);
    HeaderFields(data);
    AuthenticationFlags(ParseHeader(data).flags, data[14], data[15]);
    if Parse(data, noCrypto).value.security.Control? {
      NonZero(data, 16, 24);
      NonZero(data, 24, 28);
    }
  }

  lemma AuthenticationFlags(flags: uint16, high: uint8, low: uint8)
    requires flags == Two(high, low)
    ensures flags / FLAG_CONTROL_AUTH % 2 == 1 && flags % 2 == 0 <==> low % 4 == 2
  {
  }

  lemma NonZero(data: Bytes, lo: nat, hi: nat)
    requires lo <= hi <= |data|
    ensures Get(data[lo..hi]) != 0 <==> exists i :: lo <= i < hi && data[i] != 0
  {
    var b := data[lo..hi];
    ZeroBytes(b);
    if i :| lo <= i < hi && data[i] != 0 {
      assert b[i - lo] != 0;
    }
  }
}
