/** Focus identities: bounded UTF-8 text carried inside an event packet. */
module FocusIdentity {
  import opened LittleEndian
  import opened Wire

  // ---- section 3 of RFC 3629 -----------------------------------------------------------

  predicate Scalar(c: nat) {
    c <= 0x10FFFF && !(0xD800 <= c <= 0xDFFF)
  }

  /** The encoding of one Unicode scalar value. */
  function EncodeScalar(c: nat): seq<byte>
    requires Scalar(c)
  {
    if c < 0x80 then [c]
    else if c < 0x800 then [0xC0 + c / 64, 0x80 + c % 64]
    else if c < 0x10000 then [0xE0 + c / 4096, 0x80 + c / 64 % 64, 0x80 + c % 64]
    else [0xF0 + c / 262144, 0x80 + c / 4096 % 64, 0x80 + c / 64 % 64, 0x80 + c % 64]
  }

  ghost predicate Text(cs: seq<nat>) {
    forall i :: 0 <= i < |cs| ==> cs[i] != 0 && Scalar(cs[i])
  }

  ghost function Encode(cs: seq<nat>): seq<byte>
    requires Text(cs)
  {
    if cs == [] then [] else EncodeScalar(cs[0]) + Encode(cs[1..])
  }

  /** The text is the encoding of some sequence of scalar values other than NUL. */
  ghost predicate WellFormed(text: seq<byte>) {
    exists cs: seq<nat> :: Text(cs) && Encode(cs) == text
  }

  // ---- the scanner ---------------------------------------------------------------------

  datatype Lead = Lead(remaining: nat, value: nat, minimum: nat) | NoLead

  /** What a first byte of 128 or more announces. The masks keep the low 5, 4 and 3 bits. */
  function LeadOf(first: byte): Lead {
    if 0xC2 <= first <= 0xDF then Lead(1, first % 32, 128)
    else if 0xE0 <= first <= 0xEF then Lead(2, first % 16, 2048)
    else if 0xF0 <= first <= 0xF4 then Lead(3, first % 8, 65536)
    else NoLead
  }

  datatype Gathered = Got(value: nat) | Broken

  /** Folds the next bytes into a value, six bits each, while each is a continuation byte. */
  function Gather(text: seq<byte>, value: nat, remaining: nat): Gathered
    requires remaining <= |text|
    decreases remaining
  {
    if remaining == 0 then Got(value)
    else if text[0] / 64 != 2 then Broken
    else Gather(text[1..], value * 64 + text[0] % 64, remaining - 1)
  }

  predicate InRange(value: nat, minimum: nat) {
    minimum <= value <= 0x10FFFF && !(0xD800 <= value <= 0xDFFF)
  }

  /** How many bytes the first character takes; zero when it is refused. */
  function Accept(text: seq<byte>): (n: nat)
    requires text != []
    ensures n <= |text|
  {
    if text[0] == 0 then 0
    else if text[0] < 128 then 1
    else match LeadOf(text[0])
      case NoLead => 0
      case Lead(remaining, value, minimum) =>
        if 1 + remaining > |text| then 0
        else match Gather(text[1..], value, remaining)
          case Broken => 0
          case Got(c) => if InRange(c, minimum) then 1 + remaining else 0
  }

  ghost predicate Scan(text: seq<byte>)
    decreases |text|
  {
    text == [] || (Accept(text) != 0 && Scan(text[Accept(text)..]))
  }

  lemma ScanStep(text: seq<byte>)
    requires text != []
    ensures Accept(text) == 0 ==> !Scan(text)
    ensures Accept(text) != 0 ==> Scan(text) == Scan(text[Accept(text)..])
  {
  }

  /** One character of the scan: how many bytes it took, zero when it is refused. */
  method Character(text: seq<byte>, start: nat) returns (i: nat)
    requires start < |text|
    ensures i == if Accept(text[start..]) == 0 then 0 else start + Accept(text[start..])
  {
    ghost var rest := text[start..];
    var first := text[start];
    i := start + 1;
    if first == 0 { return 0; }
    if first < 128 { return; }
    var lead := LeadOf(first);
    if lead.NoLead? { return 0; }
    var remaining: nat, value: nat := lead.remaining, lead.value;
    if i + remaining > |text| { return 0; }
    assert text[i..] == rest[1..];
    ghost var whole := Gather(rest[1..], lead.value, lead.remaining);
    while remaining > 0
      invariant i + remaining == start + 1 + lead.remaining <= |text|
      invariant Gather(text[i..], value, remaining) == whole
    {
      var next := text[i];
      assert text[i..][0] == next && text[i + 1..] == text[i..][1..];
      i := i + 1;
      if next / 64 != 2 { return 0; }
      value := value * 64 + next % 64;
      remaining := remaining - 1;
    }
    if !InRange(value, lead.minimum) { return 0; }
  }

  /** Accepts a text if and only if it is 1 to 256 bytes of well-formed UTF-8 without NUL. */
  method ValidFocusIdentity(text: seq<byte>) returns (ok: bool)
    ensures ok == (1 <= |text| <= 256 && WellFormed(text))
  {
    hide Accept, Scan, WellFormed;
    ScanIsUtf8(text);
    if text == [] || |text| > 256 { return false; }
    var i := 0;
    assert text[0..] == text;
    while i < |text|
      invariant 0 <= i <= |text| && Scan(text) == Scan(text[i..])
      decreases |text| - i
    {
      ScanStep(text[i..]);
      var next := Character(text, i);
      if next == 0 { return false; }
      assert text[i..][next - i..] == text[next..];
      i := next;
    }
    ScanEmpty(text[i..]);
    ok := true;
  }

  lemma ScanEmpty(text: seq<byte>)
    requires text == []
    ensures Scan(text)
  {
  }

  // ---- the scanner accepts exactly UTF-8 -----------------------------------------------

  /** The scalar value an accepted first character stands for. */
  ghost function Decoded(text: seq<byte>): (c: nat)
    requires text != [] && Accept(text) != 0
  {
    if text[0] < 128 then text[0] else Gather(text[1..], LeadOf(text[0]).value, LeadOf(text[0]).remaining).value
  }

  lemma GatherOne(text: seq<byte>, value: nat)
    requires |text| >= 1
    ensures Gather(text, value, 1) == if text[0] / 64 != 2 then Broken else Got(value * 64 + (text[0] - 128))
  {
    Continuation(text[0]);
  }

  lemma GatherTwo(text: seq<byte>, value: nat)
    requires |text| >= 2
    ensures Gather(text, value, 2) ==
      if text[0] / 64 != 2 || text[1] / 64 != 2 then Broken
      else Got((value * 64 + (text[0] - 128)) * 64 + (text[1] - 128))
  {
    Continuation(text[0]);
    GatherOne(text[1..], value * 64 + text[0] % 64);
  }

  lemma GatherThree(text: seq<byte>, value: nat)
    requires |text| >= 3
    ensures Gather(text, value, 3) ==
      if text[0] / 64 != 2 || text[1] / 64 != 2 || text[2] / 64 != 2 then Broken
      else Got(((value * 64 + (text[0] - 128)) * 64 + (text[1] - 128)) * 64 + (text[2] - 128))
  {
    Continuation(text[0]);
    GatherTwo(text[1..], value * 64 + text[0] % 64);
  }

  lemma Continuation(b: byte)
    ensures b / 64 == 2 <==> 128 <= b < 192
    ensures b / 64 == 2 ==> b % 64 == b - 128
  {
  }

  predicate Continues(b: byte) {
    b / 64 == 2
  }

  function Two(a: int, b: int): int { a * 64 + b }
  function Three(a: int, b: int, c: int): int { Two(Two(a, b), c) }
  function Four(a: int, b: int, c: int, d: int): int { Two(Three(a, b, c), d) }

  lemma TwoBytes(text: seq<byte>)
    requires text != [] && 0xC2 <= text[0] <= 0xDF
    ensures Accept(text) != 0 <==>
      |text| >= 2 && Continues(text[1]) && InRange(Two(text[0] - 0xC0, text[1] - 128), 128)
    ensures Accept(text) != 0 ==> Accept(text) == 2 && Decoded(text) == Two(text[0] - 0xC0, text[1] - 128)
  {
    hide Gather, InRange;
    if |text| >= 2 {
      GatherOne(text[1..], text[0] % 32);
    }
  }

  lemma ThreeBytes(text: seq<byte>)
    requires text != [] && 0xE0 <= text[0] <= 0xEF
    ensures Accept(text) != 0 <==>
      && |text| >= 3 && Continues(text[1]) && Continues(text[2])
      && InRange(Three(text[0] - 0xE0, text[1] - 128, text[2] - 128), 2048)
    ensures Accept(text) != 0 ==>
      Accept(text) == 3 && Decoded(text) == Three(text[0] - 0xE0, text[1] - 128, text[2] - 128)
  {
    hide Gather, InRange;
    if |text| >= 3 {
      GatherTwo(text[1..], text[0] % 16);
    }
  }

  lemma FourBytes(text: seq<byte>)
    requires text != [] && 0xF0 <= text[0] <= 0xF4
    ensures Accept(text) != 0 <==>
      && |text| >= 4 && Continues(text[1]) && Continues(text[2]) && Continues(text[3])
      && InRange(Four(text[0] - 0xF0, text[1] - 128, text[2] - 128, text[3] - 128), 65536)
    ensures Accept(text) != 0 ==>
      Accept(text) == 4 && Decoded(text) == Four(text[0] - 0xF0, text[1] - 128, text[2] - 128, text[3] - 128)
  {
    hide Gather, InRange;
    if |text| >= 4 {
      GatherThree(text[1..], text[0] % 8);
    }
  }

  lemma OneByte(text: seq<byte>)
    requires text != []
    ensures text[0] < 128 && Accept(text) != 0 ==> text[0] != 0 && Accept(text) == 1 && Decoded(text) == text[0]
    ensures 0 < text[0] < 128 ==> Accept(text) == 1
    ensures 128 <= text[0] && Accept(text) != 0 ==> 0xC2 <= text[0] <= 0xF4
  {
    hide Gather;
  }

  lemma SplitTwo(a: int, b: int)
    requires 0 <= b < 64
    ensures Two(a, b) / 64 == a && Two(a, b) % 64 == b
  {
  }

  lemma SplitThree(a: int, b: int, c: int)
    requires 0 <= a && 0 <= b < 64 && 0 <= c < 64
    ensures var v := Three(a, b, c); v / 4096 == a && v / 64 % 64 == b && v % 64 == c && v / 64 == Two(a, b)
  {
    SplitTwo(Two(a, b), c);
    SplitTwo(a, b);
    DivTwice(Three(a, b, c));
  }

  lemma SplitFour(a: int, b: int, c: int, d: int)
    requires 0 <= a && 0 <= b < 64 && 0 <= c < 64 && 0 <= d < 64
    ensures var v := Four(a, b, c, d); v / 262144 == a && v / 4096 % 64 == b && v / 64 % 64 == c && v % 64 == d
  {
    SplitTwo(Three(a, b, c), d);
    SplitThree(a, b, c);
    DivTwice(Four(a, b, c, d));
    DivTwice(Three(a, b, c));
  }

  lemma DivTwice(c: nat)
    ensures c / 4096 == c / 64 / 64 && c / 262144 == c / 64 / 64 / 64 == c / 64 / 4096
  {
  }

  ghost predicate EncodesItself(text: seq<byte>)
    requires text != [] && Accept(text) != 0
  {
    var c := Decoded(text);
    c != 0 && Scalar(c) && EncodeScalar(c) == text[..Accept(text)]
  }

  lemma SoundTwo(text: seq<byte>)
    requires text != [] && Accept(text) != 0 && 0xC2 <= text[0] <= 0xDF
    ensures EncodesItself(text)
  {
    hide Accept, Decoded, Gather;
    TwoBytes(text);
    SplitTwo(text[0] - 0xC0, text[1] - 128);
    hide Two;
    assert text[..2] == [text[0], text[1]];
  }

  lemma SoundThree(text: seq<byte>)
    requires text != [] && Accept(text) != 0 && 0xE0 <= text[0] <= 0xEF
    ensures EncodesItself(text)
  {
    hide Accept, Decoded, Gather, Three;
    ThreeBytes(text);
    SplitThree(text[0] - 0xE0, text[1] - 128, text[2] - 128);
    assert text[..3] == [text[0], text[1], text[2]];
  }

  lemma SoundFour(text: seq<byte>)
    requires text != [] && Accept(text) != 0 && 0xF0 <= text[0] <= 0xF4
    ensures EncodesItself(text)
  {
    hide Accept, Decoded, Gather, Four;
    FourBytes(text);
    SplitFour(text[0] - 0xF0, text[1] - 128, text[2] - 128, text[3] - 128);
    assert text[..4] == [text[0], text[1], text[2], text[3]];
  }

  lemma SoundOne(text: seq<byte>)
    requires text != [] && Accept(text) != 0 && text[0] < 128
    ensures EncodesItself(text)
  {
    hide Accept, Decoded, Gather;
    OneByte(text);
    assert text[..1] == [text[0]];
  }

  lemma LeadIs(text: seq<byte>)
    requires text != [] && Accept(text) != 0
    ensures text[0] < 128 || 0xC2 <= text[0] <= 0xDF || 0xE0 <= text[0] <= 0xEF || 0xF0 <= text[0] <= 0xF4
  {
    hide Gather;
  }

  /** An accepted character is the encoding of the scalar it decodes to. */
  lemma AcceptSound(text: seq<byte>)
    requires text != [] && Accept(text) != 0
    ensures Decoded(text) != 0 && Scalar(Decoded(text))
    ensures EncodeScalar(Decoded(text)) == text[..Accept(text)]
  {
    hide Accept, Decoded, Gather, Scalar, EncodeScalar;
    LeadIs(text);
    if text[0] < 128 {
      SoundOne(text);
    } else if text[0] <= 0xDF {
      SoundTwo(text);
    } else if text[0] <= 0xEF {
      SoundThree(text);
    } else {
      SoundFour(text);
    }
  }

  lemma ComposeTwo(c: nat)
    ensures Two(c / 64, c % 64) == c
  {
  }

  lemma ComposeThree(c: nat)
    ensures Three(c / 4096, c / 64 % 64, c % 64) == c
  {
    DivTwice(c);
    ComposeTwo(c);
    ComposeTwo(c / 64);
  }

  lemma ComposeFour(c: nat)
    ensures Four(c / 262144, c / 4096 % 64, c / 64 % 64, c % 64) == c
  {
    DivTwice(c);
    DivTwice(c / 64);
    ComposeTwo(c);
    ComposeThree(c / 64);
  }

  lemma CompleteTwo(c: nat, text: seq<byte>)
    requires 0x80 <= c < 0x800 && |text| >= 2 && text[0] == 0xC0 + c / 64 && text[1] == 0x80 + c % 64
    ensures Accept(text) == 2
  {
    hide Accept, Decoded, Gather;
    ComposeTwo(c);
    TwoBytes(text);
    hide Two;
  }

  lemma CompleteThree(c: nat, text: seq<byte>)
    requires 0x800 <= c < 0x10000 && Scalar(c) && |text| >= 3
    requires text[0] == 0xE0 + c / 4096 && text[1] == 0x80 + c / 64 % 64 && text[2] == 0x80 + c % 64
    ensures Accept(text) == 3
  {
    hide Accept, Decoded, Gather, Three;
    ComposeThree(c);
    ThreeBytes(text);
  }

  lemma CompleteFour(c: nat, text: seq<byte>)
    requires 0x10000 <= c <= 0x10FFFF && |text| >= 4 && text[0] == 0xF0 + c / 262144
    requires text[1] == 0x80 + c / 4096 % 64 && text[2] == 0x80 + c / 64 % 64 && text[3] == 0x80 + c % 64
    ensures Accept(text) == 4
  {
    hide Accept, Decoded, Gather, Four;
    ComposeFour(c);
    FourBytes(text);
  }

  /** The encoding of a scalar, whatever follows, is accepted whole. */
  lemma AcceptComplete(c: nat, rest: seq<byte>)
    requires c != 0 && Scalar(c)
    ensures Accept(EncodeScalar(c) + rest) == |EncodeScalar(c)|
  {
    hide Accept, Decoded, Gather;
    var text := EncodeScalar(c) + rest;
    if c < 0x80 {
      OneByte(text);
    } else if c < 0x800 {
      CompleteTwo(c, text);
    } else if c < 0x10000 {
      CompleteThree(c, text);
    } else {
      CompleteFour(c, text);
    }
  }

  lemma {:induction false} ScanSound(text: seq<byte>) returns (cs: seq<nat>)
    requires Scan(text)
    ensures Text(cs) && Encode(cs) == text
    decreases |text|
  {
    hide Accept, Decoded, EncodeScalar, Scalar;
    if text == [] {
      cs := [];
    } else {
      AcceptSound(text);
      var tail := ScanSound(text[Accept(text)..]);
      cs := [Decoded(text)] + tail;
      assert cs[1..] == tail;
      assert text == text[..Accept(text)] + text[Accept(text)..];
    }
  }

  lemma {:induction false} ScanComplete(cs: seq<nat>)
    requires Text(cs)
    ensures Scan(Encode(cs))
    decreases |cs|
  {
    hide Accept, EncodeScalar, Scalar;
    if cs != [] {
      var head, tail := EncodeScalar(cs[0]), Encode(cs[1..]);
      AcceptComplete(cs[0], tail);
      ScanComplete(cs[1..]);
      Nonempty(cs[0]);
      assert (head + tail)[|head|..] == tail;
    }
  }

  lemma Nonempty(c: nat)
    requires Scalar(c)
    ensures EncodeScalar(c) != []
  {
  }

  /** The scanner accepts a text if and only if it is well-formed UTF-8 without NUL. */
  lemma ScanIsUtf8(text: seq<byte>)
    ensures Scan(text) <==> WellFormed(text)
  {
    if Scan(text) {
      var cs := ScanSound(text);
    }
    if WellFormed(text) {
      var cs: seq<nat> :| Text(cs) && Encode(cs) == text;
      ScanComplete(cs);
    }
  }

  // ---- in the packet -------------------------------------------------------------------

  ghost predicate Encodable(kind: nat, identity: seq<byte>) {
    (kind == 1 || kind == 2) && 1 <= |identity| <= 256 && WellFormed(identity)
  }

  function WithFocus(p: Packet, kind: nat, identity: seq<byte>): Packet
    requires |identity| <= 256
  {
    Place(Put(Put(Put(p, 8, 4, 32 + |identity|), 88, 2, kind), 90, 2, |identity|), 96, identity)
  }

  /** Writes the focus into an event packet in place; a refusal leaves the packet alone. */
  method EncodeFocus(p: array<byte>, kind: nat, identity: seq<byte>) returns (ok: bool)
    requires p.Length == PACKET
    modifies p
    ensures ok == Encodable(kind, identity)
    ensures p[..] == if ok then WithFocus(old(p[..]), kind, identity) else old(p[..])
  {
    hide ToLe, Put, Place, WellFormed;
    if kind != 1 && kind != 2 { return false; }
    ok := ValidFocusIdentity(identity);
    if !ok { return; }
    PutBytes(p, 8, 4, 32 + |identity|);
    PutBytes(p, 88, 2, kind);
    PutBytes(p, 90, 2, |identity|);
    PlaceBytes(p, 96, identity);
  }

  lemma Widths(kind: nat, size: nat)
    requires kind <= 2 && size <= 256
    ensures (32 + size) % Pow(4) == 32 + size && kind % Pow(2) == kind && size % Pow(2) == size
  {
    assert Pow(0) == 1 && Pow(1) == 256 && Pow(2) == 0x1_0000 && Pow(3) == 0x100_0000 && Pow(4) == 0x1_0000_0000;
  }

  /** The body length, kind, identity length and identity all read back. */
  lemma FocusReads(p: Packet, kind: nat, identity: seq<byte>)
    requires kind <= 2 && |identity| <= 256
    ensures var q := WithFocus(p, kind, identity);
            && Get(q, 8, 4) == 32 + |identity| && Get(q, 88, 2) == kind && Get(q, 90, 2) == |identity|
            && q[96..96 + |identity|] == identity
  {
    hide ToLe, FromLe, Put, Place, Pow;
    var n := |identity|;
    Widths(kind, n);
    var p1 := Put(p, 8, 4, 32 + n);
    var p2 := Put(p1, 88, 2, kind);
    var p3 := Put(p2, 90, 2, n);
    GetAfterPut(p, 8, 4, 32 + n);
    PutLeavesOthers(p1, 88, 2, kind, 8, 4);
    PutLeavesOthers(p2, 90, 2, n, 8, 4);
    GetAfterPut(p1, 88, 2, kind);
    PutLeavesOthers(p2, 90, 2, n, 88, 2);
    GetAfterPut(p2, 90, 2, n);
    PlaceReads(p3, 96, identity);
    PlaceLeaves(p3, 96, identity, 8, 12);
    PlaceLeaves(p3, 96, identity, 88, 90);
    PlaceLeaves(p3, 96, identity, 90, 92);
  }

  /** Different identities never share a packet. */
  lemma NoAlias(p: Packet, kind: nat, identity: seq<byte>, q: Packet, other: nat, alias: seq<byte>)
    requires kind <= 2 && other <= 2 && |identity| <= 256 && |alias| <= 256
    requires WithFocus(p, kind, identity) == WithFocus(q, other, alias)
    ensures kind == other && identity == alias
  {
    hide WithFocus;
    FocusReads(p, kind, identity);
    FocusReads(q, other, alias);
  }

  /** An event packet with a 32-byte body stays well formed, its body grown to end with the identity. */
  lemma FocusKeepsHeader(p: Packet, kind: nat, identity: seq<byte>)
    requires Header(p, 3, 32) && kind <= 2 && |identity| <= 256
    ensures Header(WithFocus(p, kind, identity), 3, 32 + |identity|)
  {
    hide ToLe, FromLe, WithFocus, Pow;
    FocusReads(p, kind, identity);
    FocusLeaves(p, kind, identity);
    var q := WithFocus(p, kind, identity);
    assert q[..4] == q[..8][..4] && q[4..6] == q[..8][4..6] && q[6..8] == q[..8][6..8];
    assert p[..4] == p[..8][..4] && p[4..6] == p[..8][4..6] && p[6..8] == p[..8][6..8];
  }

  lemma FocusLeaves(p: Packet, kind: nat, identity: seq<byte>)
    requires |identity| <= 256
    ensures var q := WithFocus(p, kind, identity);
            && q[..8] == p[..8]
            && (forall i :: 12 <= i < 64 ==> q[i] == p[i])
            && (forall i :: 96 + |identity| <= i < PACKET ==> q[i] == p[i])
  {
    hide ToLe;
    var p1 := Put(p, 8, 4, 32 + |identity|);
    var p2 := Put(p1, 88, 2, kind);
    var p3 := Put(p2, 90, 2, |identity|);
    assert p1[..8] == p[..8] && forall i :: 12 <= i < PACKET ==> p1[i] == p[i];
    assert p2[..88] == p1[..88] && forall i :: 90 <= i < PACKET ==> p2[i] == p1[i];
    assert p3[..90] == p2[..90] && forall i :: 92 <= i < PACKET ==> p3[i] == p2[i];
    var q := Place(p3, 96, identity);
    assert q[..90] == p3[..90];
    assert q[..8] == q[..90][..8] && p2[..8] == p2[..88][..8];
    assert forall i :: 12 <= i < 64 ==> q[i] == q[..90][i] == p2[..90][i] == p2[..88][i] == p1[..88][i];
  }
}
