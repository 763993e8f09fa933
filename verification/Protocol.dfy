/** The forty-byte frames between the privileged broker and the daemon. */
module Protocol {
  import opened Wrappers
  import opened LittleEndian

  const SIZE: nat := 40
  const MAGIC: seq<byte> := [83, 76, 71, 49]

  datatype Operation = Event | Pass | Swallow | Replace | DeviceReset | SnapshotKey | DeviceRetire

  datatype RawEvent = RawEvent(eventType: nat, code: nat, value: int)
  {
    predicate Valid() {
      eventType < 0x1_0000 && code < 0x1_0000 && -0x8000_0000 <= value < 0x8000_0000
    }
  }

  datatype Message = Message(operation: Operation, generation: nat, epoch: nat, sequence: nat, event: RawEvent)
  {
    /** The fields fit their machine types. */
    predicate Valid() {
      && generation < 0x1_0000_0000_0000_0000 && epoch < 0x1_0000_0000_0000_0000 && sequence < 0x1_0000_0000_0000_0000
      && event.Valid()
    }

    /** A reply belongs to the request whose generation, epoch and sequence it echoes. */
    predicate Answers(request: Message) {
      && (operation == Pass || operation == Swallow || operation == Replace)
      && generation == request.generation && epoch == request.epoch && sequence == request.sequence
    }
  }

  function Opcode(op: Operation): (b: byte)
    ensures 1 <= b <= 7
  {
    match op
    case Event => 1 case Pass => 2 case Swallow => 3 case Replace => 4
    case DeviceReset => 5 case SnapshotKey => 6 case DeviceRetire => 7
  }

  function OperationOf(b: byte): Option<Operation> {
    if b == 1 then Some(Event) else if b == 2 then Some(Pass) else if b == 3 then Some(Swallow)
    else if b == 4 then Some(Replace) else if b == 5 then Some(DeviceReset) else if b == 6 then Some(SnapshotKey)
    else if b == 7 then Some(DeviceRetire) else None
  }

  /** Two's complement in 32 bits. */
  function Unsigned(value: int): (u: nat)
    requires -0x8000_0000 <= value < 0x8000_0000
    ensures u < 0x1_0000_0000
  {
    if value < 0 then value + 0x1_0000_0000 else value
  }

  function Signed(u: nat): (value: int)
    requires u < 0x1_0000_0000
    ensures -0x8000_0000 <= value < 0x8000_0000 && Unsigned(value) == u
  {
    if u >= 0x8000_0000 then u - 0x1_0000_0000 else u
  }

  /** The frame, field by field. */
  function Frame(m: Message): (b: seq<byte>)
    requires m.Valid()
    ensures |b| == SIZE
  {
    MAGIC + [Opcode(m.operation), 0, 0, 0] + ToLe(m.generation, 8) + ToLe(m.epoch, 8) + ToLe(m.sequence, 8)
    + ToLe(m.event.eventType, 2) + ToLe(m.event.code, 2) + ToLe(Unsigned(m.event.value), 4)
  }

  lemma Widths()
    ensures Pow(2) == 0x1_0000 && Pow(4) == 0x1_0000_0000 && Pow(8) == 0x1_0000_0000_0000_0000
  {
    assert Pow(0) == 1 && Pow(1) == 256 && Pow(2) == 0x1_0000 && Pow(3) == 0x100_0000 && Pow(4) == 0x1_0000_0000;
    assert Pow(5) == 0x100_0000_0000 && Pow(6) == 0x1_0000_0000_0000 && Pow(7) == 0x100_0000_0000_0000;
  }

  /** Reads one frame from the front of a stream; a short, foreign or malformed frame is refused. */
  function Read(stream: seq<byte>): (r: Option<Message>) {
    if |stream| < SIZE then None
    else
      var b := stream[..SIZE];
      if b[..4] != MAGIC || b[5..8] != [0, 0, 0] || OperationOf(b[4]).None? then None
      else Some(Decode(OperationOf(b[4]).value, b[8..16], b[16..24], b[24..32], b[32..34], b[34..36], b[36..40]))
  }

  function Decode(op: Operation, generation: seq<byte>, epoch: seq<byte>, sequence: seq<byte>,
                  eventType: seq<byte>, code: seq<byte>, value: seq<byte>): (m: Message)
    requires |generation| == 8 && |epoch| == 8 && |sequence| == 8 && |eventType| == 2 && |code| == 2 && |value| == 4
    ensures m.Valid()
  {
    Bounded(generation); Bounded(epoch); Bounded(sequence); Bounded(eventType); Bounded(code); Bounded(value);
    Message(op, FromLe(generation), FromLe(epoch), FromLe(sequence),
            RawEvent(FromLe(eventType), FromLe(code), Signed(FromLe(value))))
  }

  lemma Bounded(b: seq<byte>)
    ensures |b| == 2 ==> FromLe(b) < 0x1_0000
    ensures |b| == 4 ==> FromLe(b) < 0x1_0000_0000
    ensures |b| == 8 ==> FromLe(b) < 0x1_0000_0000_0000_0000
  {
    FromLeBound(b);
    Widths();
  }

  lemma Field(x: nat, n: nat)
    requires x < Pow(n)
    ensures FromLe(ToLe(x, n)) == x
  {
    DecodeEncoded(x, n);
  }

  /** Everything after the part already written is still zero. */
  ghost predicate Filled(b: seq<byte>, prefix: seq<byte>) {
    && |b| == SIZE && |prefix| <= SIZE && b[..|prefix|] == prefix
    && forall i :: |prefix| <= i < SIZE ==> b[i] == 0
  }

  /** Writing fills a zeroed frame in place, field after field. */
  method Write(m: Message, buffer: array<byte>)
    requires m.Valid() && buffer.Length == SIZE
    modifies buffer
    ensures buffer[..] == Frame(m)
  {
    hide ToLe;
    var i := 0;
    while i < SIZE
      invariant 0 <= i <= SIZE && forall j :: 0 <= j < i ==> buffer[j] == 0
    {
      buffer[i] := 0;
      i := i + 1;
    }
    Put(buffer, 0, [], MAGIC);
    Put(buffer, 4, [] + MAGIC, [Opcode(m.operation), 0, 0, 0]);
    ghost var head := [] + MAGIC + [Opcode(m.operation), 0, 0, 0];
    Put(buffer, 8, head, ToLe(m.generation, 8));
    Put(buffer, 16, head + ToLe(m.generation, 8), ToLe(m.epoch, 8));
    ghost var ids := head + ToLe(m.generation, 8) + ToLe(m.epoch, 8);
    Put(buffer, 24, ids, ToLe(m.sequence, 8));
    Put(buffer, 32, ids + ToLe(m.sequence, 8), ToLe(m.event.eventType, 2));
    ghost var typed := ids + ToLe(m.sequence, 8) + ToLe(m.event.eventType, 2);
    Put(buffer, 34, typed, ToLe(m.event.code, 2));
    Put(buffer, 36, typed + ToLe(m.event.code, 2), ToLe(Unsigned(m.event.value), 4));
    assert [] + MAGIC == MAGIC;
  }

  method Put(buffer: array<byte>, at: nat, ghost prefix: seq<byte>, source: seq<byte>)
    requires at == |prefix| && buffer.Length == SIZE && Filled(buffer[..], prefix) && |prefix| + |source| <= SIZE
    modifies buffer
    ensures Filled(buffer[..], prefix + source)
  {
    forall i | 0 <= i < |source| { buffer[at + i] := source[i]; }
  }

  lemma FrameFields(m: Message)
    requires m.Valid()
    ensures var b := Frame(m);
            && b[..4] == MAGIC && b[4] == Opcode(m.operation) && b[5..8] == [0, 0, 0]
            && b[8..16] == ToLe(m.generation, 8) && b[16..24] == ToLe(m.epoch, 8) && b[24..32] == ToLe(m.sequence, 8)
            && b[32..34] == ToLe(m.event.eventType, 2) && b[34..36] == ToLe(m.event.code, 2)
            && b[36..40] == ToLe(Unsigned(m.event.value), 4)
  {
    hide ToLe;
  }

  /** Every message survives the wire, whatever follows it on the stream. */
  lemma RoundTrip(m: Message, rest: seq<byte>)
    requires m.Valid()
    ensures Read(Frame(m) + rest) == Some(m)
  {
    assert (Frame(m) + rest)[..SIZE] == Frame(m);
    FrameFields(m);
    hide Frame, ToLe, FromLe;
    DecodeFields(m);
  }

  lemma DecodeFields(m: Message)
    requires m.Valid()
    ensures Decode(m.operation, ToLe(m.generation, 8), ToLe(m.epoch, 8), ToLe(m.sequence, 8),
                   ToLe(m.event.eventType, 2), ToLe(m.event.code, 2), ToLe(Unsigned(m.event.value), 4)) == m
  {
    Widths();
    hide ToLe, FromLe, Pow;
    Field(m.generation, 8);
    Field(m.epoch, 8);
    Field(m.sequence, 8);
    Field(m.event.eventType, 2);
    Field(m.event.code, 2);
    Field(Unsigned(m.event.value), 4);
  }

  /** Only frames are accepted: a decoded message re-encodes to exactly the bytes it came from. */
  lemma OnlyFramesAreRead(stream: seq<byte>)
    requires Read(stream).Some?
    ensures |stream| >= SIZE && Read(stream).value.Valid() && Frame(Read(stream).value) == stream[..SIZE]
  {
    hide ToLe, FromLe;
    var b := stream[..SIZE];
    EncodeFields(OperationOf(b[4]).value, b[8..16], b[16..24], b[24..32], b[32..34], b[34..36], b[36..40]);
    Reassemble(b);
  }

  lemma EncodeFields(op: Operation, g: seq<byte>, e: seq<byte>, s: seq<byte>, t: seq<byte>, c: seq<byte>, v: seq<byte>)
    requires |g| == 8 && |e| == 8 && |s| == 8 && |t| == 2 && |c| == 2 && |v| == 4
    ensures Frame(Decode(op, g, e, s, t, c, v)) == MAGIC + [Opcode(op), 0, 0, 0] + g + e + s + t + c + v
  {
    hide ToLe, FromLe;
    EncodeDecoded(g); EncodeDecoded(e); EncodeDecoded(s); EncodeDecoded(t); EncodeDecoded(c); EncodeDecoded(v);
    Bounded(v);
  }

  lemma Reassemble(b: seq<byte>)
    requires |b| == SIZE && b[5..8] == [0, 0, 0]
    ensures b == b[..4] + [b[4], 0, 0, 0] + b[8..16] + b[16..24] + b[24..32] + b[32..34] + b[34..36] + b[36..40]
  {
    assert b[5] == b[5..8][0] && b[6] == b[5..8][1] && b[7] == b[5..8][2];
  }
}
