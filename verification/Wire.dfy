/** The 512-byte packets between the compositor plugin and the daemon. */
module Wire {
  import opened LittleEndian

  const PACKET: nat := 512

  type Packet = p: seq<byte> | |p| == PACKET witness seq(PACKET, _ => 0)

  const MAGIC: seq<byte> := [83, 72, 80, 49]

  function Get(p: Packet, offset: nat, count: nat): nat
    requires offset + count <= PACKET
  {
    FromLe(p[offset..offset + count])
  }

  function Put(p: Packet, offset: nat, count: nat, value: nat): (r: Packet)
    requires offset + count <= PACKET
  {
    p[..offset] + ToLe(value, count) + p[offset + count..]
  }

  /** Reading a field back gives what was written, modulo its width. */
  lemma GetAfterPut(p: Packet, offset: nat, count: nat, value: nat)
    requires offset + count <= PACKET
    ensures Get(Put(p, offset, count, value), offset, count) == value % Pow(count)
  {
    assert Put(p, offset, count, value)[offset..offset + count] == ToLe(value, count);
    DecodeEncoded(value, count);
  }

  /** Writing a field leaves every field that does not overlap it as it was. */
  lemma PutLeavesOthers(p: Packet, offset: nat, count: nat, value: nat, at: nat, size: nat)
    requires offset + count <= PACKET && at + size <= PACKET
    requires at + size <= offset || offset + count <= at
    ensures Put(p, offset, count, value)[at..at + size] == p[at..at + size]
    ensures Get(Put(p, offset, count, value), at, size) == Get(p, at, size)
  {
    hide ToLe;
    var q := Put(p, offset, count, value);
    forall i | at <= i < at + size ensures q[i] == p[i] {
      PutByte(p, offset, count, value, i);
    }
    SameSlice(p, q, at, at + size);
  }

  lemma PutByte(p: Packet, offset: nat, count: nat, value: nat, i: nat)
    requires offset + count <= PACKET && i < PACKET && (i < offset || offset + count <= i)
    ensures Put(p, offset, count, value)[i] == p[i]
  {
    hide ToLe;
  }

  // ---- the same on a buffer ------------------------------------------------------------

  method GetBytes(p: array<byte>, offset: nat, count: nat) returns (value: nat)
    requires p.Length == PACKET && offset + count <= PACKET
    ensures value == FromLe(p[offset..offset + count])
  {
    value := 0;
    var i := 0;
    assert p[offset..offset] == [];
    while i < count
      invariant 0 <= i <= count && value == FromLe(p[offset..offset + i])
    {
      assert p[offset..offset + i + 1] == p[offset..offset + i] + [p[offset + i]];
      FromLeAppend(p[offset..offset + i], p[offset + i]);
      value := value + p[offset + i] * Pow(i);
      i := i + 1;
    }
  }

  method PutBytes(p: array<byte>, offset: nat, count: nat, value: nat)
    requires p.Length == PACKET && offset + count <= PACKET
    modifies p
    ensures p[..] == Put(old(p[..]), offset, count, value)
  {
    var i := 0;
    while i < count
      invariant 0 <= i <= count
      invariant forall j :: 0 <= j < PACKET && !(offset <= j < offset + i) ==> p[j] == old(p[j])
      invariant forall j :: 0 <= j < i ==> p[offset + j] == ToLe(value, count)[j]
    {
      ToLeByte(value, count, i);
      p[offset + i] := (value / Pow(i)) % 256;
      i := i + 1;
    }
    hide ToLe;
    assert p[..] == Put(old(p[..]), offset, count, value);
  }

  // ---- headers -------------------------------------------------------------------------

  ghost predicate Zero(p: Packet, begin: nat, end: nat) {
    forall i :: begin <= i < end && i < PACKET ==> p[i] == 0
  }

  ghost predicate Header(p: Packet, opcode: nat, body: nat)
    requires 64 + body <= PACKET
  {
    && p[..4] == MAGIC && Get(p, 4, 2) == 1 && Get(p, 6, 2) == opcode && Get(p, 8, 4) == body
    && Zero(p, 12, 16) && Zero(p, 56, 64) && Zero(p, 64 + body, PACKET)
  }

  /** Same device generation, epoch, sequence, deadline and connection nonce. */
  ghost predicate Correlated(request: Packet, reply: Packet) {
    request[16..56] == reply[16..56]
  }

  predicate Printable(text: seq<byte>) {
    forall i :: 0 <= i < |text| ==> 32 <= text[i] <= 126
  }

  function Blank(): Packet {
    seq(PACKET, _ => 0)
  }

  function Place(p: Packet, at: nat, text: seq<byte>): (r: Packet)
    requires at + |text| <= PACKET
  {
    p[..at] + text + p[at + |text|..]
  }

  predicate Advertisable(nonce: nat, hash: seq<byte>, artifact: seq<byte>) {
    nonce != 0 && 1 <= |hash| <= 192 && 1 <= |artifact| <= 192 && Printable(hash) && Printable(artifact)
  }

  /** The passive advertisement of an immutable artifact, or nothing when it cannot be built. */
  function Hello(nonce: nat, hash: seq<byte>, artifact: seq<byte>): Packet
    requires Advertisable(nonce, hash, artifact)
  {
    var p := Place(Blank(), 0, MAGIC);
    var p := Put(Put(Put(Put(p, 4, 2, 1), 6, 2, 1), 8, 4, 400), 48, 8, nonce);
    var p := Put(Put(p, 72, 2, |hash|), 74, 2, |artifact|);
    Place(Place(p, 80, hash), 272, artifact)
  }

  method IsPrintable(text: seq<byte>) returns (ok: bool)
    ensures ok == Printable(text)
  {
    for i := 0 to |text|
      invariant Printable(text[..i])
    {
      if text[i] < 32 || text[i] > 126 { return false; }
      assert text[..i + 1] == text[..i] + [text[i]];
    }
    assert text[..|text|] == text;
    ok := true;
  }

  method PlaceBytes(p: array<byte>, at: nat, text: seq<byte>)
    requires p.Length == PACKET && at + |text| <= PACKET
    modifies p
    ensures p[..] == Place(old(p[..]), at, text)
  {
    for i := 0 to |text|
      invariant forall j :: 0 <= j < PACKET && !(at <= j < at + i) ==> p[j] == old(p[j])
      invariant forall j :: at <= j < at + i ==> p[j] == text[j - at]
    {
      p[at + i] := text[i];
    }
    assert p[..] == Place(old(p[..]), at, text);
  }

  /** Builds the advertisement in place; a refusal leaves the buffer alone. */
  method WriteHello(p: array<byte>, nonce: nat, hash: seq<byte>, artifact: seq<byte>) returns (ok: bool)
    requires p.Length == PACKET
    modifies p
    ensures ok == Advertisable(nonce, hash, artifact)
    ensures p[..] == if ok then Hello(nonce, hash, artifact) else old(p[..])
  {
    hide ToLe, Put, Place, Printable;
    if nonce == 0 || hash == [] || artifact == [] || |hash| > 192 || |artifact| > 192 { return false; }
    var plain := IsPrintable(hash);
    if !plain { return false; }
    plain := IsPrintable(artifact);
    if !plain { return false; }
    forall i | 0 <= i < p.Length { p[i] := 0; }
    assert p[..] == Blank();
    PlaceBytes(p, 0, MAGIC);
    PutBytes(p, 4, 2, 1);
    PutBytes(p, 6, 2, 1);
    PutBytes(p, 8, 4, 400);
    PutBytes(p, 48, 8, nonce);
    PutBytes(p, 72, 2, |hash|);
    PutBytes(p, 74, 2, |artifact|);
    PlaceBytes(p, 80, hash);
    PlaceBytes(p, 272, artifact);
    ok := true;
  }

  /** Everything advertised can be read back. */
  lemma HelloReads(nonce: nat, hash: seq<byte>, artifact: seq<byte>)
    requires Advertisable(nonce, hash, artifact)
    ensures var h := Hello(nonce, hash, artifact);
            && Get(h, 48, 8) == nonce % Pow(8) && Get(h, 72, 2) == |hash| && Get(h, 74, 2) == |artifact|
            && h[80..80 + |hash|] == hash && h[272..272 + |artifact|] == artifact
  {
    hide ToLe, FromLe, Put, Place, Blank, Pow, Advertisable;
    LengthsFit(nonce, hash, artifact);
    var p3 := Put(Put(Put(Place(Blank(), 0, MAGIC), 4, 2, 1), 6, 2, 1), 8, 4, 400);
    var p4 := Put(p3, 48, 8, nonce);
    var p5 := Put(p4, 72, 2, |hash|);
    var p6 := Put(p5, 74, 2, |artifact|);
    var p7 := Place(p6, 80, hash);
    var h := Place(p7, 272, artifact);
    GetAfterPut(p3, 48, 8, nonce);
    PutLeavesOthers(p4, 72, 2, |hash|, 48, 8);
    PutLeavesOthers(p5, 74, 2, |artifact|, 48, 8);
    GetAfterPut(p4, 72, 2, |hash|);
    PutLeavesOthers(p5, 74, 2, |artifact|, 72, 2);
    GetAfterPut(p5, 74, 2, |artifact|);
    PlaceReads(p6, 80, hash);
    PlaceReads(p7, 272, artifact);
    PlaceLeaves(p6, 80, hash, 48, 56);
    PlaceLeaves(p6, 80, hash, 72, 74);
    PlaceLeaves(p6, 80, hash, 74, 76);
    PlaceLeaves(p7, 272, artifact, 48, 56);
    PlaceLeaves(p7, 272, artifact, 72, 74);
    PlaceLeaves(p7, 272, artifact, 74, 76);
    PlaceLeaves(p7, 272, artifact, 80, 80 + |hash|);
  }

  lemma LengthsFit(nonce: nat, hash: seq<byte>, artifact: seq<byte>)
    requires Advertisable(nonce, hash, artifact)
    ensures |hash| <= 192 && |artifact| <= 192 && |hash| % Pow(2) == |hash| && |artifact| % Pow(2) == |artifact|
  {
    assert Pow(0) == 1 && Pow(1) == 256;
  }

  lemma PlaceReads(p: Packet, at: nat, text: seq<byte>)
    requires at + |text| <= PACKET
    ensures Place(p, at, text)[at..at + |text|] == text
  {
  }

  lemma PlaceLeaves(p: Packet, at: nat, text: seq<byte>, from: nat, to: nat)
    requires at + |text| <= PACKET && from <= to <= PACKET && (to <= at || at + |text| <= from)
    ensures Place(p, at, text)[from..to] == p[from..to]
  {
    var q := Place(p, at, text);
    forall i | from <= i < to ensures q[i] == p[i] {
      PlaceByte(p, at, text, i);
    }
    SameSlice(p, q, from, to);
  }

  lemma PlaceByte(p: Packet, at: nat, text: seq<byte>, i: nat)
    requires at + |text| <= PACKET && i < PACKET && (i < at || at + |text| <= i)
    ensures Place(p, at, text)[i] == p[i]
  {
  }

  lemma SameSlice(p: Packet, q: Packet, from: nat, to: nat)
    requires from <= to <= PACKET && forall i :: from <= i < to ==> q[i] == p[i]
    ensures q[from..to] == p[from..to]
  {
  }

  /** Only the exact identity echo is accepted. */
  ghost predicate HelloAck(hello: Packet, ack: Packet) {
    Header(ack, 2, 400) && Correlated(hello, ack) && hello[64..464] == ack[64..464]
  }

  method IsZero(p: array<byte>, begin: nat, end: nat) returns (ok: bool)
    requires p.Length == PACKET && begin <= end <= PACKET
    ensures ok == Zero(p[..], begin, end)
  {
    for i := begin to end
      invariant Zero(p[..], begin, i)
    {
      if p[i] != 0 { return false; }
    }
    ok := true;
  }

  method Matches(p: array<byte>, q: array<byte>, begin: nat, end: nat) returns (ok: bool)
    requires p.Length == PACKET && q.Length == PACKET && begin <= end <= PACKET
    ensures ok == (p[begin..end] == q[begin..end])
  {
    for i := begin to end
      invariant forall j :: begin <= j < i ==> p[j] == q[j]
    {
      if p[i] != q[i] {
        assert p[begin..end][i - begin] != q[begin..end][i - begin];
        return false;
      }
    }
    ok := true;
  }

  method IsHeader(p: array<byte>, opcode: nat, body: nat) returns (ok: bool)
    requires p.Length == PACKET && 64 + body <= PACKET
    ensures ok == Header(p[..], opcode, body)
  {
    hide FromLe, Zero;
    var version := GetBytes(p, 4, 2);
    var code := GetBytes(p, 6, 2);
    var size := GetBytes(p, 8, 4);
    assert p[..][4..6] == p[4..6] && p[..][6..8] == p[6..8] && p[..][8..12] == p[8..12];
    assert p[..][..4] == p[..4] == [p[0], p[1], p[2], p[3]];
    var reserved := IsZero(p, 12, 16);
    var gap := IsZero(p, 56, 64);
    var tail := IsZero(p, 64 + body, PACKET);
    ok := p[0] == 83 && p[1] == 72 && p[2] == 80 && p[3] == 49 && version == 1 && code == opcode && size == body
          && reserved && gap && tail;
  }

  method IsHelloAck(hello: array<byte>, ack: array<byte>) returns (ok: bool)
    requires hello.Length == PACKET && ack.Length == PACKET
    ensures ok == HelloAck(hello[..], ack[..])
  {
    hide Header;
    ok := IsHeader(ack, 2, 400);
    if !ok { return; }
    ok := Matches(hello, ack, 16, 56);
    assert hello[..][16..56] == hello[16..56] && ack[..][16..56] == ack[16..56];
    if !ok { return; }
    ok := Matches(hello, ack, 64, 464);
    assert hello[..][64..464] == hello[64..464] && ack[..][64..464] == ack[64..464];
  }

  /** A well-formed header fixes every byte outside the correlation fields and the body. */
  lemma HeaderFixes(p: Packet, q: Packet, opcode: nat, body: nat)
    requires 64 + body <= PACKET && Header(p, opcode, body) && Header(q, opcode, body)
    ensures p[..16] == q[..16] && p[56..64] == q[56..64] && p[64 + body..] == q[64 + body..]
  {
    hide Zero, Get;
    SameField(p, q, 4, 2);
    SameField(p, q, 6, 2);
    SameField(p, q, 8, 4);
    BlankField(p, q, 12, 16);
    BlankField(p, q, 56, 64);
    BlankField(p, q, 64 + body, PACKET);
    FirstSixteen(p);
    FirstSixteen(q);
    assert p[64 + body..] == p[64 + body..PACKET] && q[64 + body..] == q[64 + body..PACKET];
  }

  lemma FirstSixteen(p: Packet)
    ensures p[..16] == p[..4] + p[4..6] + p[6..8] + p[8..12] + p[12..16]
  {
  }

  lemma SameEverywhere(p: Packet, q: Packet, body: nat)
    requires 64 + body <= PACKET
    requires p[..16] == q[..16] && p[16..56] == q[16..56] && p[56..64] == q[56..64]
    requires p[64..64 + body] == q[64..64 + body] && p[64 + body..] == q[64 + body..]
    ensures p == q
  {
    assert p == p[..16] + p[16..56] + p[56..64] + p[64..64 + body] + p[64 + body..];
    assert q == q[..16] + q[16..56] + q[56..64] + q[64..64 + body] + q[64 + body..];
  }

  /** What every later field of the advertisement leaves alone: the header and the blank parts. */
  ghost predicate HelloFrame(p: Packet) {
    && p[..4] == MAGIC && p[4..6] == ToLe(1, 2) && p[6..8] == ToLe(1, 2) && p[8..12] == ToLe(400, 4)
    && Zero(p, 12, 16) && Zero(p, 56, 64) && Zero(p, 464, PACKET)
  }

  lemma FramedHeader() returns (p: Packet)
    ensures p == Put(Put(Put(Place(Blank(), 0, MAGIC), 4, 2, 1), 6, 2, 1), 8, 4, 400) && HelloFrame(p)
  {
    hide ToLe;
    var p0 := Place(Blank(), 0, MAGIC);
    var p1 := Put(p0, 4, 2, 1);
    var p2 := Put(p1, 6, 2, 1);
    p := Put(p2, 8, 4, 400);
    assert p1[..4] == p0[..4] == MAGIC && p1[4..6] == ToLe(1, 2);
    assert p2[..4] == p1[..4] && p2[4..6] == p1[4..6] && p2[6..8] == ToLe(1, 2);
    assert p[..4] == p2[..4] && p[4..6] == p2[4..6] && p[6..8] == p2[6..8] && p[8..12] == ToLe(400, 4);
    assert forall i :: 4 <= i < PACKET ==> p0[i] == 0;
    assert forall i :: 6 <= i < PACKET ==> p1[i] == p0[i];
    assert forall i :: 8 <= i < PACKET ==> p2[i] == p1[i];
    assert forall i :: 12 <= i < PACKET ==> p[i] == p2[i];
  }

  lemma PutKeepsFrame(p: Packet, offset: nat, count: nat, value: nat)
    requires HelloFrame(p) && offset + count <= 464
    requires (16 <= offset && offset + count <= 56) || 64 <= offset
    ensures HelloFrame(Put(p, offset, count, value))
  {
    hide ToLe;
    var q := Put(p, offset, count, value);
    assert q[..12] == p[..12];
    assert q[..4] == q[..12][..4] && q[4..6] == q[..12][4..6] && q[6..8] == q[..12][6..8] && q[8..12] == q[..12][8..12];
    assert p[..4] == p[..12][..4] && p[4..6] == p[..12][4..6] && p[6..8] == p[..12][6..8] && p[8..12] == p[..12][8..12];
  }

  lemma PlaceKeepsFrame(p: Packet, at: nat, text: seq<byte>)
    requires HelloFrame(p) && 64 <= at && at + |text| <= 464
    ensures HelloFrame(Place(p, at, text))
  {
    hide ToLe;
    var q := Place(p, at, text);
    assert q[..12] == p[..12];
    assert q[..4] == q[..12][..4] && q[4..6] == q[..12][4..6] && q[6..8] == q[..12][6..8] && q[8..12] == q[..12][8..12];
    assert p[..4] == p[..12][..4] && p[4..6] == p[..12][4..6] && p[6..8] == p[..12][6..8] && p[8..12] == p[..12][8..12];
  }

  /** A built advertisement carries opcode one and is blank outside its fields. */
  lemma HelloHeader(nonce: nat, hash: seq<byte>, artifact: seq<byte>)
    requires Advertisable(nonce, hash, artifact)
    ensures Header(Hello(nonce, hash, artifact), 1, 400)
  {
    hide ToLe, FromLe, Put, Place, HelloFrame;
    var p3 := FramedHeader();
    PutKeepsFrame(p3, 48, 8, nonce);
    var p4 := Put(p3, 48, 8, nonce);
    PutKeepsFrame(p4, 72, 2, |hash|);
    var p5 := Put(p4, 72, 2, |hash|);
    PutKeepsFrame(p5, 74, 2, |artifact|);
    var p6 := Put(p5, 74, 2, |artifact|);
    PlaceKeepsFrame(p6, 80, hash);
    var p7 := Place(p6, 80, hash);
    PlaceKeepsFrame(p7, 272, artifact);
    FrameHeader(Place(p7, 272, artifact));
  }

  lemma FrameHeader(p: Packet)
    requires HelloFrame(p)
    ensures Header(p, 1, 400)
  {
    hide ToLe, FromLe;
    Small(1, 2);
    Small(400, 4);
  }

  lemma Small(x: nat, n: nat)
    requires x < 0x1_0000 && (n == 2 || n == 4)
    ensures FromLe(ToLe(x, n)) == x
  {
    DecodeEncoded(x, n);
    assert Pow(0) == 1 && Pow(1) == 256 && Pow(2) == 0x1_0000 && Pow(3) == 0x100_0000 && Pow(4) == 0x1_0000_0000;
  }

  /** Relabelling a packet's opcode touches nothing else of its header or body. */
  lemma Relabelled(p: Packet, opcode: nat, body: nat, other: nat)
    requires 64 + body <= PACKET && Header(p, opcode, body) && other < 0x1_0000
    ensures var q := Put(p, 6, 2, other);
            Header(q, other, body) && q[16..56] == p[16..56] && q[64..64 + body] == p[64..64 + body]
  {
    var q := Put(p, 6, 2, other);
    Small(other, 2);
    hide ToLe, FromLe;
    assert q[6..8] == ToLe(other, 2);
    assert q[..4] == p[..4] && q[4..6] == p[4..6] && q[8..12] == p[8..12];
    assert forall i :: 8 <= i < PACKET ==> q[i] == p[i];
  }

  /** For a built advertisement the only accepted acknowledgement is that packet with opcode two. */
  lemma OnlyTheEchoIsAccepted(nonce: nat, hash: seq<byte>, artifact: seq<byte>, ack: Packet)
    requires Advertisable(nonce, hash, artifact)
    ensures var hello := Hello(nonce, hash, artifact);
            HelloAck(hello, ack) <==> ack == Put(hello, 6, 2, 2)
  {
    var hello := Hello(nonce, hash, artifact);
    HelloHeader(nonce, hash, artifact);
    hide Hello, ToLe, FromLe, Put, Zero;
    var echo := Put(hello, 6, 2, 2);
    Relabelled(hello, 1, 400, 2);
    if HelloAck(hello, ack) {
      HeaderFixes(ack, echo, 2, 400);
      SameEverywhere(ack, echo, 400);
    }
  }

  // ---- decisions -----------------------------------------------------------------------

  predicate ModifierKey(key: nat) {
    key in {42, 54, 29, 97, 56, 100, 125, 126}
  }

  /** A decision packet the plugin accepts for an event. Anything but a pass needs a press, or a
      modifier release while release actions are enabled. */
  ghost predicate Decision(event: Packet, reply: Packet, releaseAction: bool) {
    && Header(reply, 4, 16) && Correlated(event, reply) && Zero(reply, 76, 80)
    && var verdict, state, key := Get(reply, 64, 4), Get(event, 68, 4), Get(event, 64, 4);
       && verdict <= 2 && state <= 2
       && (state == 1 || verdict == 0 || (releaseAction && state == 0 && ModifierKey(key) && verdict == 2))
       && (if verdict != 2 then Zero(reply, 68, 76) else Get(reply, 68, 4) < 768 && Get(reply, 72, 4) < 256)
  }

  /** Accepted decisions are canonical: for one event, the verdict, key and modifiers determine every
      byte of the packet. */
  lemma DecisionsAreCanonical(event: Packet, a: Packet, b: Packet, releaseAction: bool)
    requires Decision(event, a, releaseAction) && Decision(event, b, releaseAction)
    requires Get(a, 64, 4) == Get(b, 64, 4) && Get(a, 68, 4) == Get(b, 68, 4) && Get(a, 72, 4) == Get(b, 72, 4)
    ensures a == b
  {
    hide FromLe, ToLe, Header, Zero;
    HeaderFixes(a, b, 4, 16);
    BlankField(a, b, 76, 80);
    SameField(a, b, 64, 4);
    SameField(a, b, 68, 4);
    SameField(a, b, 72, 4);
    assert a[64..80] == a[64..68] + a[68..72] + a[72..76] + a[76..80];
    assert b[64..80] == b[64..68] + b[68..72] + b[72..76] + b[76..80];
    SameEverywhere(a, b, 16);
  }

  lemma SameField(p: Packet, q: Packet, offset: nat, count: nat)
    requires offset + count <= PACKET && Get(p, offset, count) == Get(q, offset, count)
    ensures p[offset..offset + count] == q[offset..offset + count]
  {
    EncodeDecoded(p[offset..offset + count]);
    EncodeDecoded(q[offset..offset + count]);
  }

  lemma BlankField(p: Packet, q: Packet, from: nat, to: nat)
    requires from <= to <= PACKET && Zero(p, from, to) && Zero(q, from, to)
    ensures p[from..to] == q[from..to]
  {
  }
}
