/** The notification ring between the compositor and the socket worker, and the worker's connection
    generations, as an interleaved protocol: one load, store or slot access per step. Indices are
    32-bit and wrap; positions count notifications without wrapping. */
module WorkerRing {

  const SLOTS: nat := 16
  const U32: nat := 0x1_0000_0000
  const U64: nat := 0x1_0000_0000_0000_0000

  /** A packet as far as the ring looks at it: the connection nonce it carries, and the rest. */
  datatype Packet = Packet(nonce: nat, body: nat)
  datatype Note = Note(packet: Packet, generation: nat)
  datatype Connection = Connection(generation: nat, nonce: nat)
  datatype Sent = Sent(position: nat, on: Connection)
  datatype Discarded = Discarded(position: nat, retired: nat)
  datatype Dropped = Dropped(position: nat, on: Connection)

  /** Where the compositor thread is inside `notify`; `write` is the index it loaded. */
  datatype Producer =
    | Away
    | CheckingReady(packet: Packet, generation: nat)
    | CheckingPark(packet: Packet, generation: nat)
    | LoadingWrite(packet: Packet, generation: nat)
    | LoadingRead(packet: Packet, generation: nat, write: nat)
    | CheckingNonce(packet: Packet, generation: nat, write: nat)
    | Storing(packet: Packet, generation: nat, write: nat)
    | Publishing(note: Note, write: nat)

  /** Where the worker is: between connections, draining on one, or retiring a generation's notes. */
  datatype Worker =
    | Between
    | StoringNonce(on: Connection)
    | StoringGeneration(on: Connection)
    | StoringReady(on: Connection)
    | Draining(on: Connection)
    | Comparing(on: Connection, read: nat)
    | Fetching(on: Connection, read: nat)
    | Holding(on: Connection, read: nat, note: Note)
    | Advancing(on: Connection, read: nat)
    | RetireReading(retired: nat)
    | RetireWriting(retired: nat, read: nat)
    | Retiring(retired: nat, read: nat, write: nat, position: nat)
    | Stopped

  datatype Ring = Ring(
    slots: seq<Note>, writeIndex: nat, readIndex: nat,
    ready: bool, park: bool, connectionGeneration: nat, connectionNonce: nat, retirement: nat,
    seed: nat, generation: nat,
    producer: Producer, worker: Worker,
    enqueued: seq<Note>, consumed: nat, sent: seq<Sent>, discarded: seq<Discarded>, dropped: seq<Dropped>,
    attempts: seq<Connection>)

  function Empty(seed: nat): Ring {
    Ring(seq(SLOTS, _ => Note(Packet(0, 0), 0)), 0, 0, false, false, 0, 0, 0, seed, 1, Away, Between,
         [], 0, [], [], [], [])
  }

  datatype Move =
    | Notify(packet: Packet)
    | ProducerStep
    | WorkerStep(ok: bool)            // `ok`: the handshake or the send succeeded
    | Invalidate                      // the owner asks for the connection to be closed
    | RequestPark
    | RetireForDrain(generation: nat) // the owner proved the drain barrier for this generation

  function Step(r: Ring, m: Move): Ring {
    match m
    case Notify(packet) => if r.producer == Away then r.(producer := CheckingReady(packet, r.connectionGeneration))
        else r
    case ProducerStep => ProducerMoves(r)
    case WorkerStep(ok) => WorkerMoves(r, ok)
    case Invalidate => r.(ready := false)
    case RequestPark => r.(park := true)
    case RetireForDrain(g) =>
      if g == 0 || g != r.connectionGeneration || !r.park then r else r.(retirement := g, ready := false)
  }

  /** 32-bit unsigned wrap, and the slot an index addresses. */
  function Wrap(x: nat): (i: nat) { x % U32 }
  function SlotOf(x: nat): (i: nat)
    ensures i < SLOTS
  { x % SLOTS }

  /** Unsigned subtraction of two indices. */
  function Distance(read: nat, write: nat): nat {
    if read <= write then write - read else if read <= U32 + write then U32 + write - read else 0
  }

  function ProducerMoves(r: Ring): Ring {
    match r.producer
    case Away => r
    case CheckingReady(p, g) => r.(producer := if r.ready then CheckingPark(p, g) else Away)
    case CheckingPark(p, g) => r.(producer := if r.park then Away else LoadingWrite(p, g))
    case LoadingWrite(p, g) => r.(producer := LoadingRead(p, g, r.writeIndex))
    case LoadingRead(p, g, w) =>
      r.(producer := if Distance(r.readIndex, w) == SLOTS then Away else CheckingNonce(p, g, w))
    case CheckingNonce(p, g, w) => r.(producer := if p.nonce == r.connectionNonce then Storing(p, g, w) else Away)
    case Storing(p, g, w) =>
      if |r.slots| != SLOTS then r
      else r.(slots := r.slots[SlotOf(w) := Note(p, g)], producer := Publishing(Note(p, g), w))
    case Publishing(note, w) =>
      r.(writeIndex := Wrap(w + 1), producer := Away, enqueued := r.enqueued + [note])
  }

  /** The nonce of a generation: the seed plus the generations already tried, modulo 2^64. */
  function NonceOf(seed: nat, generation: nat): nat
    requires generation >= 1
  {
    (seed + generation - 1) % U64
  }

  function WorkerMoves(r: Ring, ok: bool): Ring {
    match r.worker
    case Stopped => r
    case Between =>
      if r.park then
        if r.retirement != 0 then r.(worker := RetireReading(r.retirement)) else r
      else if r.generation == 0 || r.generation >= U64 || NonceOf(r.seed, r.generation) == 0 then r.(worker := Stopped)
      else
        var c := Connection(r.generation, NonceOf(r.seed, r.generation));
        r.(worker := if ok then StoringNonce(c) else Between, generation := r.generation + 1,
           attempts := r.attempts + [c])
    case StoringNonce(c) => r.(connectionNonce := c.nonce, worker := StoringGeneration(c))
    case StoringGeneration(c) => r.(connectionGeneration := c.generation, worker := StoringReady(c))
    case StoringReady(c) => r.(ready := true, worker := Draining(c))
    case Draining(c) => if ok then r.(worker := Comparing(c, r.readIndex)) else r.(worker := Between, ready := false)
    case Comparing(c, read) => r.(worker := if read != r.writeIndex then Fetching(c, read) else Draining(c))
    case Fetching(c, read) => if |r.slots| != SLOTS then r else r.(worker := Holding(c, read, r.slots[SlotOf(read)]))
    case Holding(c, read, note) =>
      if note.generation != c.generation || note.packet.nonce != c.nonce then
        r.(worker := Advancing(c, read), dropped := r.dropped + [Dropped(r.consumed, c)])
      else if ok then r.(worker := Advancing(c, read), sent := r.sent + [Sent(r.consumed, c)])
      else r.(worker := Between, ready := false)
    case Advancing(c, read) => r.(readIndex := Wrap(read + 1), worker := Draining(c), consumed := r.consumed + 1)
    case RetireReading(g) => r.(worker := RetireWriting(g, r.readIndex))
    case RetireWriting(g, read) => r.(worker := Retiring(g, read, r.writeIndex, r.consumed))
    case Retiring(g, read, write, position) =>
      if read != write && |r.slots| == SLOTS && r.slots[SlotOf(read)].generation == g then
        r.(worker := Retiring(g, Wrap(read + 1), write, position + 1),
            discarded := r.discarded + [Discarded(position, g)])
      else r.(readIndex := read, consumed := position, worker := Between)
  }

  function Run(seed: nat, moves: seq<Move>): Ring {
    if moves == [] then Empty(seed) else Step(Run(seed, moves[..|moves| - 1]), moves[|moves| - 1])
  }

  // ---- the ring ----------------------------------------------------------------------

  /** Indices are the positions modulo 2^32, at most sixteen notes are unread, and every unread
      position's slot still holds its note. */
  ghost predicate Indexed(r: Ring) {
    && |r.slots| == SLOTS
    && r.consumed <= |r.enqueued| <= r.consumed + SLOTS
    && r.readIndex == Wrap(r.consumed) && r.writeIndex == Wrap(|r.enqueued|)
    && (forall p :: r.consumed <= p < |r.enqueued| ==> r.slots[SlotOf(p)] == r.enqueued[p])
  }

  ghost predicate ProducerHolds(r: Ring) {
    && (r.producer.LoadingRead? || r.producer.CheckingNonce? || r.producer.Storing? || r.producer.Publishing? ==>
          r.producer.write == r.writeIndex)
    && (r.producer.CheckingNonce? || r.producer.Storing? || r.producer.Publishing? ==>
       |r.enqueued| < r.consumed + SLOTS)
    && (r.producer.Publishing? && |r.slots| == SLOTS ==> r.slots[SlotOf(|r.enqueued|)] == r.producer.note)
  }

  ghost predicate WorkerHolds(r: Ring) {
    match r.worker
    case Comparing(_, read) => read == r.readIndex
    case Fetching(_, read) => read == r.readIndex && r.consumed < |r.enqueued|
    case Holding(_, read, note) => read == r.readIndex && r.consumed < |r.enqueued| && note == r.enqueued[r.consumed]
    case Advancing(_, read) => read == r.readIndex && r.consumed < |r.enqueued|
    case RetireWriting(_, read) => read == r.readIndex
    case Retiring(g, read, write, position) =>
      && r.consumed <= position <= |r.enqueued| && read == Wrap(position)
      && exists bound :: position <= bound <= |r.enqueued| && write == Wrap(bound)
    case _ => true
  }

  // Modulo facts about the two widths.

  lemma WrapIs(x: nat, q: nat, i: nat)
    requires x == q * U32 + i && i < U32
    ensures Wrap(x) == i
  {
  }

  lemma WrapAdd(x: nat, d: nat)
    requires d <= SLOTS
    ensures Wrap(x) < U32
    ensures Wrap(x + d) == if Wrap(x) + d < U32 then Wrap(x) + d else Wrap(x) + d - U32
  {
    var q := x / U32;
    if Wrap(x) + d < U32 { WrapIs(x + d, q, Wrap(x) + d); } else { WrapIs(x + d, q + 1, Wrap(x) + d - U32); }
  }

  lemma SlotOfIndex(p: nat)
    ensures SlotOf(Wrap(p)) == SlotOf(p)
  {
    var q := p / U32;
    assert p == (q * (U32 / SLOTS)) * SLOTS + Wrap(p);
  }

  lemma NextIndex(p: nat)
    ensures Wrap(Wrap(p) + 1) == Wrap(p + 1)
  {
    WrapAdd(p, 1);
    if Wrap(p) + 1 < U32 { WrapIs(Wrap(p) + 1, 0, Wrap(p) + 1); } else { WrapIs(Wrap(p) + 1, 1, 0); }
  }

  lemma IndexGap(read: nat, write: nat)
    requires read <= write <= read + SLOTS
    ensures Distance(Wrap(read), Wrap(write)) == write - read
    ensures Wrap(write) == Wrap(read) <==> write == read
  {
    WrapAdd(read, write - read);
    hide Wrap;
  }

  lemma SlotsApart(p: nat, q: nat)
    requires p < q < p + SLOTS
    ensures SlotOf(p) != SlotOf(q)
  {
  }

  /** Writing the next free slot leaves every unread one alone. */
  lemma StoreIsSafe(r: Ring)
    requires Indexed(r) && ProducerHolds(r) && r.producer.Storing?
    ensures Indexed(ProducerMoves(r)) && ProducerHolds(ProducerMoves(r))
  {
    SlotOfIndex(|r.enqueued|);
    forall p | r.consumed <= p < |r.enqueued| ensures SlotOf(p) != SlotOf(|r.enqueued|) { SlotsApart(p, |r.enqueued|); }
    hide SlotOf, Wrap;
  }

  lemma PublishIsSafe(r: Ring)
    requires Indexed(r) && ProducerHolds(r) && r.producer.Publishing?
    ensures Indexed(ProducerMoves(r)) && ProducerHolds(ProducerMoves(r))
  {
    hide SlotOf, Wrap;
    NextIndex(|r.enqueued|);
  }

  lemma ProducerIsSafe(r: Ring)
    requires Indexed(r) && ProducerHolds(r)
    ensures Indexed(ProducerMoves(r)) && ProducerHolds(ProducerMoves(r))
  {
    hide SlotOf, Wrap, Distance;
    if r.producer.Storing? { StoreIsSafe(r); }
    else if r.producer.Publishing? { PublishIsSafe(r); }
    else if r.producer.LoadingRead? { IndexGap(r.consumed, |r.enqueued|); }
  }

  /** Producer steps never disturb what the worker holds. */
  lemma ProducerLeavesWorker(r: Ring)
    requires Indexed(r) && ProducerHolds(r) && WorkerHolds(r)
    ensures WorkerHolds(ProducerMoves(r))
  {
    hide SlotOf, Wrap;
  }

  predicate SameRing(r: Ring, n: Ring) {
    && n.slots == r.slots && n.readIndex == r.readIndex && n.writeIndex == r.writeIndex
    && n.consumed == r.consumed && n.enqueued == r.enqueued && n.producer == r.producer
  }

  lemma SameRingIsSafe(r: Ring, n: Ring)
    requires Indexed(r) && ProducerHolds(r) && SameRing(r, n)
    ensures Indexed(n) && ProducerHolds(n)
  {
    hide SlotOf, Wrap;
  }

  lemma WorkerFrame(r: Ring, ok: bool)
    requires !r.worker.Advancing?
    ensures var n := WorkerMoves(r, ok);
            SameRing(r, n) || (r.worker.Retiring? && n.worker.Between?)
  {
    match r.worker {
      case Between => ConnectFrame(r, ok);
      case Retiring(_, _, _, _) => RetiringFrame(r, ok);
      case Holding(_, _, _) => HoldingFrame(r, ok);
      case _ =>
        hide SlotOf, Wrap, NonceOf;
    }
  }

  lemma ConnectFrame(r: Ring, ok: bool)
    requires r.worker.Between?
    ensures SameRing(r, WorkerMoves(r, ok))
  {
    hide SlotOf, Wrap, NonceOf;
  }

  lemma RetiringFrame(r: Ring, ok: bool)
    requires r.worker.Retiring?
    ensures var n := WorkerMoves(r, ok); SameRing(r, n) || n.worker.Between?
  {
    hide SlotOf, Wrap, NonceOf;
  }

  lemma HoldingFrame(r: Ring, ok: bool)
    requires r.worker.Holding?
    ensures SameRing(r, WorkerMoves(r, ok))
  {
    hide SlotOf, Wrap, NonceOf;
  }

  lemma WorkerIsSafe(r: Ring, ok: bool)
    requires Indexed(r) && ProducerHolds(r) && WorkerHolds(r)
    ensures Indexed(WorkerMoves(r, ok)) && ProducerHolds(WorkerMoves(r, ok))
  {
    if r.worker.Advancing? || r.worker.Retiring? {
      WorkerAdvances(r, ok);
    } else {
      hide Indexed, ProducerHolds, WorkerMoves, SameRing;
      WorkerFrame(r, ok);
      SameRingIsSafe(r, WorkerMoves(r, ok));
    }
  }

  lemma WorkerAdvances(r: Ring, ok: bool)
    requires Indexed(r) && ProducerHolds(r) && WorkerHolds(r) && (r.worker.Advancing? || r.worker.Retiring?)
    ensures Indexed(WorkerMoves(r, ok)) && ProducerHolds(WorkerMoves(r, ok))
  {
    hide SlotOf, Wrap, ProducerHolds, NonceOf;
    var n := WorkerMoves(r, ok);
    if r.worker.Advancing? {
      NextIndex(r.consumed);
      ConsumedAdvances(r, n);
    } else if n.worker.Between? {
      ConsumedAdvances(r, n);
    } else {
      SameRingIsSafe(r, n);
    }
  }

  lemma ConsumedAdvances(r: Ring, n: Ring)
    requires Indexed(r) && ProducerHolds(r)
    requires n.slots == r.slots && n.writeIndex == r.writeIndex && n.enqueued == r.enqueued && n.producer == r.producer
    requires r.consumed <= n.consumed <= |r.enqueued| && n.readIndex == Wrap(n.consumed)
    ensures Indexed(n) && ProducerHolds(n)
  {
    hide SlotOf, Wrap;
  }

  lemma WorkerKeepsHold(r: Ring, ok: bool)
    requires Indexed(r) && WorkerHolds(r)
    ensures WorkerHolds(WorkerMoves(r, ok))
  {
    match r.worker {
      case Retiring(_, _, _, _) => RetiringKeepsHold(r, ok);
      case RetireWriting(_, _) => assert WorkerMoves(r, ok).worker.write == Wrap(|r.enqueued|);
      case _ => DrainKeepsHold(r, ok);
    }
  }

  lemma RetiringKeepsHold(r: Ring, ok: bool)
    requires Indexed(r) && WorkerHolds(r) && r.worker.Retiring?
    ensures WorkerHolds(WorkerMoves(r, ok))
  {
    hide SlotOf, Wrap;
    NextIndex(r.worker.position);
  }

  lemma DrainKeepsHold(r: Ring, ok: bool)
    requires Indexed(r) && WorkerHolds(r) && !r.worker.Retiring? && !r.worker.RetireWriting?
    ensures WorkerHolds(WorkerMoves(r, ok))
  {
    hide SlotOf, Wrap, NonceOf, Distance;
    SlotOfIndex(r.consumed);
    IndexGap(r.consumed, |r.enqueued|);
  }

  // ---- what was sent, discarded and connected ----------------------------------------

  /** Positions before this one are settled. */
  function Frontier(r: Ring): nat {
    match r.worker
    case Retiring(_, _, _, position) => position
    case Advancing(_, _) => r.consumed + 1
    case _ => r.consumed
  }

  ghost predicate SentFor(enqueued: seq<Note>, s: Sent) {
    s.position < |enqueued| && enqueued[s.position].generation == s.on.generation
        && enqueued[s.position].packet.nonce == s.on.nonce
  }

  ghost predicate SentInOrder(enqueued: seq<Note>, sent: seq<Sent>, frontier: nat) {
    && (forall i :: 0 <= i < |sent| ==> SentFor(enqueued, sent[i]) && sent[i].position < frontier)
    && (forall i, j :: 0 <= i < j < |sent| ==> sent[i].position < sent[j].position)
  }

  ghost predicate DiscardedFor(enqueued: seq<Note>, d: Discarded) {
    d.position < |enqueued| && enqueued[d.position].generation == d.retired
  }

  ghost predicate DiscardsRetired(enqueued: seq<Note>, sent: seq<Sent>, discarded: seq<Discarded>, frontier: nat) {
    && (forall i :: 0 <= i < |discarded| ==> DiscardedFor(enqueued, discarded[i]) && discarded[i].position < frontier)
    && (forall i, j :: 0 <= i < |sent| && 0 <= j < |discarded| ==> sent[i].position != discarded[j].position)
  }

  ghost predicate DroppedFor(enqueued: seq<Note>, d: Dropped) {
    && d.position < |enqueued|
    && (enqueued[d.position].generation != d.on.generation || enqueued[d.position].packet.nonce != d.on.nonce)
  }

  ghost predicate DropsStale(enqueued: seq<Note>, dropped: seq<Dropped>, frontier: nat) {
    forall i :: 0 <= i < |dropped| ==> DroppedFor(enqueued, dropped[i]) && dropped[i].position < frontier
  }

  ghost predicate SentAt(sent: seq<Sent>, p: int) {
    exists i :: 0 <= i < |sent| && sent[i].position == p
  }

  ghost predicate DiscardedAt(discarded: seq<Discarded>, p: int) {
    exists i :: 0 <= i < |discarded| && discarded[i].position == p
  }

  ghost predicate DroppedAt(dropped: seq<Dropped>, p: int) {
    exists i :: 0 <= i < |dropped| && dropped[i].position == p
  }

  predicate ExactlyOne(a: bool, b: bool, c: bool) {
    (a && !b && !c) || (!a && b && !c) || (!a && !b && c)
  }

  /** Every settled position went exactly one way, and no other has yet. */
  ghost predicate Accounted(sent: seq<Sent>, discarded: seq<Discarded>, dropped: seq<Dropped>, frontier: nat) {
    && (forall p :: 0 <= p < frontier ==> ExactlyOne(SentAt(sent, p), DiscardedAt(discarded, p), DroppedAt(dropped, p)))
    && (forall p :: frontier <= p ==> !SentAt(sent, p) && !DiscardedAt(discarded, p) && !DroppedAt(dropped, p))
  }

  lemma SentNext(sent: seq<Sent>, s: Sent)
    ensures forall p :: SentAt(sent + [s], p) <==> SentAt(sent, p) || p == s.position
  {
    forall p ensures SentAt(sent + [s], p) <==> SentAt(sent, p) || p == s.position {
      if SentAt(sent, p) {
        var i :| 0 <= i < |sent| && sent[i].position == p;
        assert (sent + [s])[i].position == p;
      }
      assert (sent + [s])[|sent|] == s;
    }
  }

  lemma DiscardedNext(discarded: seq<Discarded>, d: Discarded)
    ensures forall p :: DiscardedAt(discarded + [d], p) <==> DiscardedAt(discarded, p) || p == d.position
  {
    forall p ensures DiscardedAt(discarded + [d], p) <==> DiscardedAt(discarded, p) || p == d.position {
      if DiscardedAt(discarded, p) {
        var i :| 0 <= i < |discarded| && discarded[i].position == p;
        assert (discarded + [d])[i].position == p;
      }
      assert (discarded + [d])[|discarded|] == d;
    }
  }

  lemma DroppedNext(dropped: seq<Dropped>, d: Dropped)
    ensures forall p :: DroppedAt(dropped + [d], p) <==> DroppedAt(dropped, p) || p == d.position
  {
    forall p ensures DroppedAt(dropped + [d], p) <==> DroppedAt(dropped, p) || p == d.position {
      if DroppedAt(dropped, p) {
        var i :| 0 <= i < |dropped| && dropped[i].position == p;
        assert (dropped + [d])[i].position == p;
      }
      assert (dropped + [d])[|dropped|] == d;
    }
  }

  /** Settling one more position, whichever way. */
  lemma AccountedNext(r: Ring, s: Sent, d: Discarded, o: Dropped, f: nat)
    requires Accounted(r.sent, r.discarded, r.dropped, f) && s.position == d.position == o.position == f
    ensures Accounted(r.sent + [s], r.discarded, r.dropped, f + 1)
    ensures Accounted(r.sent, r.discarded + [d], r.dropped, f + 1)
    ensures Accounted(r.sent, r.discarded, r.dropped + [o], f + 1)
  {
    hide SentAt, DiscardedAt, DroppedAt;
    SentNext(r.sent, s);
    DiscardedNext(r.discarded, d);
    DroppedNext(r.dropped, o);
  }

  predicate Opened(seed: nat, c: Connection) {
    1 <= c.generation < U64 && c.nonce == NonceOf(seed, c.generation) && c.nonce != 0
  }

  ghost predicate Connected(seed: nat, generation: nat, connections: seq<Connection>) {
    && generation >= 1
    && (forall i :: 0 <= i < |connections| ==> Opened(seed, connections[i]) && connections[i].generation < generation)
    && (forall i, j :: 0 <= i < j < |connections| ==> connections[i].generation < connections[j].generation)
  }

  ghost predicate Settled(r: Ring) {
    && SentInOrder(r.enqueued, r.sent, Frontier(r))
    && DiscardsRetired(r.enqueued, r.sent, r.discarded, Frontier(r))
    && DropsStale(r.enqueued, r.dropped, Frontier(r))
    && Accounted(r.sent, r.discarded, r.dropped, Frontier(r))
    && Connected(r.seed, r.generation, r.attempts)
  }

  lemma FrontierLater(enqueued: seq<Note>, sent: seq<Sent>, discarded: seq<Discarded>, f: nat, f': nat)
    requires SentInOrder(enqueued, sent, f) && DiscardsRetired(enqueued, sent, discarded, f) && f <= f'
    ensures SentInOrder(enqueued, sent, f') && DiscardsRetired(enqueued, sent, discarded, f')
  {
  }

  lemma OneMoreSent(r: Ring, s: Sent, f': nat)
    requires Settled(r) && SentFor(r.enqueued, s) && s.position == Frontier(r) < f'
    ensures SentInOrder(r.enqueued, r.sent + [s], f') && DiscardsRetired(r.enqueued, r.sent + [s], r.discarded, f')
  {
  }

  lemma OneMoreDiscarded(r: Ring, d: Discarded, f': nat)
    requires Settled(r) && DiscardedFor(r.enqueued, d) && d.position == Frontier(r) < f'
    ensures SentInOrder(r.enqueued, r.sent, f') && DiscardsRetired(r.enqueued, r.sent, r.discarded + [d], f')
  {
  }

  lemma DropsLater(enqueued: seq<Note>, dropped: seq<Dropped>, f: nat, f': nat)
    requires DropsStale(enqueued, dropped, f) && f <= f'
    ensures DropsStale(enqueued, dropped, f')
  {
  }

  lemma OneMoreDropped(enqueued: seq<Note>, dropped: seq<Dropped>, o: Dropped, f: nat)
    requires DropsStale(enqueued, dropped, f) && DroppedFor(enqueued, o) && o.position == f
    ensures DropsStale(enqueued, dropped + [o], f + 1)
  {
  }

  lemma OneMoreConnected(seed: nat, generation: nat, connections: seq<Connection>, c: Connection)
    requires Connected(seed, generation, connections) && Opened(seed, c) && c.generation == generation
    ensures Connected(seed, generation + 1, connections + [c])
  {
  }

  lemma WorkerSettles(r: Ring, ok: bool)
    requires Indexed(r) && WorkerHolds(r) && Settled(r)
    ensures Settled(WorkerMoves(r, ok))
  {
    hide SlotOf, Wrap, SentInOrder, DiscardsRetired, DropsStale, Accounted, Connected, NonceOf;
    match r.worker {
      case Holding(_, _, _) => SendSettles(r, ok);
      case Retiring(_, _, _, _) => RetireSettles(r, ok);
      case Between => ConnectSettles(r, ok);
      case _ => QuietSettles(r, ok);
    }
  }

  lemma QuietSettles(r: Ring, ok: bool)
    requires Settled(r) && !r.worker.Holding? && !r.worker.Retiring? && !r.worker.Between?
    ensures Settled(WorkerMoves(r, ok))
  {
    hide SlotOf, Wrap, SentInOrder, DiscardsRetired, DropsStale, Accounted, Connected;
    assert Frontier(WorkerMoves(r, ok)) == Frontier(r);
  }

  lemma SendSettles(r: Ring, ok: bool)
    requires WorkerHolds(r) && Settled(r) && r.worker.Holding?
    ensures Settled(WorkerMoves(r, ok))
  {
    hide SentInOrder, DiscardsRetired, DropsStale, Accounted, Connected;
    var f := Frontier(WorkerMoves(r, ok));
    var s, o := Sent(r.consumed, r.worker.on), Dropped(r.consumed, r.worker.on);
    FrontierLater(r.enqueued, r.sent, r.discarded, Frontier(r), f);
    DropsLater(r.enqueued, r.dropped, Frontier(r), f);
    AccountedNext(r, s, Discarded(r.consumed, 0), o, r.consumed);
    if SentFor(r.enqueued, s) {
      OneMoreSent(r, s, r.consumed + 1);
    } else {
      OneMoreDropped(r.enqueued, r.dropped, o, r.consumed);
    }
  }

  lemma RetireSettles(r: Ring, ok: bool)
    requires Indexed(r) && WorkerHolds(r) && Settled(r) && r.worker.Retiring?
    ensures Settled(WorkerMoves(r, ok))
  {
    hide SlotOf, Wrap, SentInOrder, DiscardsRetired, DropsStale, Accounted, Connected;
    var d := Discarded(r.worker.position, r.worker.retired);
    SlotOfIndex(r.worker.position);
    if WorkerMoves(r, ok).worker.Retiring? {
      OneMoreDiscarded(r, d, d.position + 1);
      DropsLater(r.enqueued, r.dropped, d.position, d.position + 1);
      var c := Connection(0, 0);
      AccountedNext(r, Sent(d.position, c), d, Dropped(d.position, c), d.position);
    }
  }

  lemma ConnectSettles(r: Ring, ok: bool)
    requires Settled(r) && r.worker.Between?
    ensures Settled(WorkerMoves(r, ok))
  {
    hide SentInOrder, DiscardsRetired, DropsStale, Accounted, Connected, NonceOf;
    GenerationLater(r.seed, r.generation, r.generation + 1, r.attempts);
    if 1 <= r.generation < U64 && NonceOf(r.seed, r.generation) != 0 {
      OneMoreConnected(r.seed, r.generation, r.attempts, Connection(r.generation, NonceOf(r.seed, r.generation)));
    }
  }

  lemma GenerationLater(seed: nat, g: nat, g': nat, connections: seq<Connection>)
    requires Connected(seed, g, connections) && g <= g'
    ensures Connected(seed, g', connections)
  {
  }

  lemma EnqueuedLater(enqueued: seq<Note>, note: Note, sent: seq<Sent>, discarded: seq<Discarded>, f: nat)
    requires SentInOrder(enqueued, sent, f) && DiscardsRetired(enqueued, sent, discarded, f)
    ensures SentInOrder(enqueued + [note], sent, f) && DiscardsRetired(enqueued + [note], sent, discarded, f)
  {
    forall i | 0 <= i < |sent| ensures SentFor(enqueued + [note], sent[i]) { assert SentFor(enqueued, sent[i]); }
    forall i | 0 <= i < |discarded|
        ensures DiscardedFor(enqueued + [note], discarded[i]) { assert DiscardedFor(enqueued, discarded[i]); }
  }

  lemma DropsKept(enqueued: seq<Note>, note: Note, dropped: seq<Dropped>, f: nat)
    requires DropsStale(enqueued, dropped, f)
    ensures DropsStale(enqueued + [note], dropped, f)
  {
    forall i | 0 <= i < |dropped| ensures DroppedFor(enqueued + [note], dropped[i]) {
      assert DroppedFor(enqueued, dropped[i]);
    }
  }

  lemma ProducerSettles(r: Ring)
    requires Settled(r)
    ensures Settled(ProducerMoves(r))
  {
    hide SentInOrder, DiscardsRetired, DropsStale, Accounted, Connected;
    if r.producer.Publishing? {
      EnqueuedLater(r.enqueued, r.producer.note, r.sent, r.discarded, Frontier(r));
      DropsKept(r.enqueued, r.producer.note, r.dropped, Frontier(r));
    }
  }

  ghost predicate Safe(r: Ring) {
    Indexed(r) && ProducerHolds(r) && WorkerHolds(r) && Settled(r)
  }

  lemma StepIsSafe(r: Ring, m: Move)
    requires Safe(r)
    ensures Safe(Step(r, m))
  {
    hide Indexed, ProducerHolds, WorkerHolds, Settled, ProducerMoves, WorkerMoves;
    match m {
      case ProducerStep =>
        ProducerIsSafe(r);
        ProducerLeavesWorker(r);
        ProducerSettles(r);
      case WorkerStep(ok) =>
        WorkerIsSafe(r, ok);
        WorkerKeepsHold(r, ok);
        WorkerSettles(r, ok);
      case _ => OwnerIsSafe(r, m);
    }
  }

  lemma OwnerIsSafe(r: Ring, m: Move)
    requires Safe(r) && !m.ProducerStep? && !m.WorkerStep?
    ensures Safe(Step(r, m))
  {
    hide SlotOf, Wrap, SentInOrder, DiscardsRetired, DropsStale, Accounted, Connected, ProducerMoves, WorkerMoves;
  }

  lemma {:induction false} AlwaysSafe(seed: nat, moves: seq<Move>)
    ensures Safe(Run(seed, moves))
    decreases |moves|
  {
    if moves == [] {
      assert Safe(Empty(seed));
    } else {
      AlwaysSafe(seed, moves[..|moves| - 1]);
      StepIsSafe(Run(seed, moves[..|moves| - 1]), moves[|moves| - 1]);
    }
  }

  // ---- what it means -----------------------------------------------------------------

  /** The slot about to be written holds no unread note, and the slot about to be read holds the
      next note in order, on every interleaving and across index wrap. */
  lemma NoSlotOverwrittenUnread(seed: nat, moves: seq<Move>)
    ensures var r := Run(seed, moves);
            && |r.slots| == SLOTS
            && (r.producer.Storing? ==> forall p :: r.consumed <= p < |r.enqueued| ==>
               SlotOf(p) != SlotOf(r.producer.write))
            && (r.worker.Fetching? ==>
                  r.consumed < |r.enqueued| && r.slots[SlotOf(r.worker.read)] == r.enqueued[r.consumed])
  {
    AlwaysSafe(seed, moves);
    var r := Run(seed, moves);
    SlotOfIndex(|r.enqueued|);
    SlotOfIndex(r.consumed);
    if r.producer.Storing? {
      forall p | r.consumed <= p < |r.enqueued|
          ensures SlotOf(p) != SlotOf(|r.enqueued|) { SlotsApart(p, |r.enqueued|); }
    }
    hide SlotOf, Wrap, Run;
  }

  /** Notes go out in the order they were enqueued, each at most once, and only on the connection
      whose generation and nonce they were enqueued for. */
  lemma SentOnceInOrder(seed: nat, moves: seq<Move>, i: nat, j: nat)
    requires i <= j < |Run(seed, moves).sent|
    ensures var r := Run(seed, moves);
            && (i < j ==> r.sent[i].position < r.sent[j].position) && r.sent[j].position < |r.enqueued|
            && r.enqueued[r.sent[j].position].generation == r.sent[j].on.generation
            && r.enqueued[r.sent[j].position].packet.nonce == r.sent[j].on.nonce
  {
    AlwaysSafe(seed, moves);
    assert SentFor(Run(seed, moves).enqueued, Run(seed, moves).sent[j]);
  }

  /** A drain discards only notes of the generation it retires, and none that was sent. */
  lemma DrainDiscardsOnlyRetired(seed: nat, moves: seq<Move>, i: nat)
    requires i < |Run(seed, moves).discarded|
    ensures var r := Run(seed, moves);
            var d := r.discarded[i];
            && d.position < |r.enqueued| && r.enqueued[d.position].generation == d.retired
            && (forall j :: 0 <= j < |r.sent| ==> r.sent[j].position != d.position)
  {
    AlwaysSafe(seed, moves);
    assert DiscardedFor(Run(seed, moves).enqueued, Run(seed, moves).discarded[i]);
  }

  /** What became of a consumed note: it was sent, or discarded by a drain of its own generation, or dropped
      because its generation or nonce was not that of the connection that consumed it, and only one of these. */
  lemma EveryNoteAccounted(seed: nat, moves: seq<Move>, p: nat)
    requires p < Run(seed, moves).consumed
    ensures var r := Run(seed, moves);
            && p < |r.enqueued|
            && ExactlyOne(SentAt(r.sent, p), DiscardedAt(r.discarded, p), DroppedAt(r.dropped, p))
            && (forall i :: 0 <= i < |r.sent| && r.sent[i].position == p ==> SentFor(r.enqueued, r.sent[i]))
            && (forall i :: 0 <= i < |r.discarded| && r.discarded[i].position == p ==>
                  DiscardedFor(r.enqueued, r.discarded[i]))
            && (forall i :: 0 <= i < |r.dropped| && r.dropped[i].position == p ==>
                  DroppedFor(r.enqueued, r.dropped[i]))
  {
    hide Run, SentAt, DiscardedAt, DroppedAt, SentFor, DiscardedFor, DroppedFor, SlotOf, Wrap;
    AlwaysSafe(seed, moves);
  }

  /** Connection nonces, those of failed attempts included, are never zero and never reused,
      whatever seed the worker starts from. */
  lemma NoncesAreFresh(seed: nat, moves: seq<Move>, i: nat, j: nat)
    requires i <= j < |Run(seed, moves).attempts|
    ensures var c := Run(seed, moves).attempts;
            c[j].nonce != 0 && (i < j ==> c[i].nonce != c[j].nonce && c[i].generation < c[j].generation)
  {
    AlwaysSafe(seed, moves);
    var c := Run(seed, moves).attempts;
    assert Opened(Run(seed, moves).seed, c[i]) && Opened(Run(seed, moves).seed, c[j]);
    if i < j {
      DistinctNonces(Run(seed, moves).seed, c[i].generation, c[j].generation);
    }
  }

  lemma DistinctNonces(seed: nat, g: nat, h: nat)
    requires 1 <= g < h < U64
    ensures NonceOf(seed, g) != NonceOf(seed, h)
  {
  }

  lemma RunExtend(seed: nat, moves: seq<Move>, m: Move)
    ensures Run(seed, moves + [m]) == Step(Run(seed, moves), m)
  {
    assert (moves + [m])[..|moves|] == moves;
  }

  // ---- what was notified is what is enqueued ---------------------------------------------

  /** The notify calls made while no other was under way: each with its packet and the generation then connected. */
  function Called(seed: nat, moves: seq<Move>): seq<Note> {
    if moves == [] then []
    else
      var front, m := moves[..|moves| - 1], moves[|moves| - 1];
      var r := Run(seed, front);
      if m.Notify? && r.producer == Away then Called(seed, front) + [Note(m.packet, r.connectionGeneration)]
      else Called(seed, front)
  }

  /** Which of the calls were published, in the order in which they were. */
  function Published(seed: nat, moves: seq<Move>): seq<int> {
    if moves == [] then []
    else
      var front, m := moves[..|moves| - 1], moves[|moves| - 1];
      if m.ProducerStep? && Run(seed, front).producer.Publishing?
      then Published(seed, front) + [|Called(seed, front)| - 1] else Published(seed, front)
  }

  /** What the call under way carries. */
  function Carried(p: Producer): Note
    requires p != Away
  {
    if p.Publishing? then p.note else Note(p.packet, p.generation)
  }

  ghost predicate CallsCarried(r: Ring, calls: seq<Note>, published: seq<int>) {
    && |published| == |r.enqueued|
    && (r.producer != Away ==> calls != [] && Carried(r.producer) == calls[|calls| - 1])
    && (forall i :: 0 <= i < |published| ==>
          0 <= published[i] < (if r.producer == Away then |calls| else |calls| - 1)
          && r.enqueued[i] == calls[published[i]])
    && (forall i, j :: 0 <= i < j < |published| ==> published[i] < published[j])
  }

  lemma ProducerCarries(r: Ring, calls: seq<Note>, published: seq<int>)
    requires CallsCarried(r, calls, published)
    ensures CallsCarried(ProducerMoves(r), calls,
                         if r.producer.Publishing? then published + [|calls| - 1] else published)
  {
    hide CallsCarried, ProducerMoves;
    if r.producer.Publishing? {
      PublishCarries(r, calls, published);
    } else if r.producer == Away {
      NobodyMoves(r);
    } else {
      CarriedOn(r);
      CallGoesOn(r, ProducerMoves(r), calls, published);
    }
  }

  lemma NobodyMoves(r: Ring)
    requires r.producer == Away
    ensures ProducerMoves(r) == r
  {
  }

  lemma CarriedOn(r: Ring)
    requires r.producer != Away && !r.producer.Publishing?
    ensures var n := ProducerMoves(r);
            n.enqueued == r.enqueued && (n.producer == Away || Carried(n.producer) == Carried(r.producer))
  {
    hide SlotOf, Wrap, Distance;
  }

  lemma CallGoesOn(r: Ring, n: Ring, calls: seq<Note>, published: seq<int>)
    requires CallsCarried(r, calls, published) && r.producer != Away && n.enqueued == r.enqueued
    requires n.producer == Away || Carried(n.producer) == Carried(r.producer)
    ensures CallsCarried(n, calls, published)
  {
    hide Carried;
  }

  lemma PublishCarries(r: Ring, calls: seq<Note>, published: seq<int>)
    requires CallsCarried(r, calls, published) && r.producer.Publishing?
    ensures CallsCarried(ProducerMoves(r), calls, published + [|calls| - 1])
  {
    hide Wrap;
    var n, more := ProducerMoves(r), published + [|calls| - 1];
    assert n.enqueued == r.enqueued + [calls[|calls| - 1]];
    forall i | 0 <= i < |more| ensures 0 <= more[i] < |calls| && n.enqueued[i] == calls[more[i]] {
      if i < |published| { assert more[i] == published[i] && n.enqueued[i] == r.enqueued[i]; }
    }
  }

  lemma WorkerKeepsCalls(r: Ring, ok: bool)
    ensures var n := WorkerMoves(r, ok); n.enqueued == r.enqueued && n.producer == r.producer
  {
    if r.worker.Advancing? || r.worker.Retiring? {
      hide SlotOf, Wrap, NonceOf;
    } else {
      hide WorkerMoves;
      WorkerFrame(r, ok);
    }
  }

  lemma SameCalls(r: Ring, n: Ring, calls: seq<Note>, published: seq<int>)
    requires CallsCarried(r, calls, published) && n.enqueued == r.enqueued && n.producer == r.producer
    ensures CallsCarried(n, calls, published)
  {
  }

  lemma CallCarries(r: Ring, packet: Packet, calls: seq<Note>, published: seq<int>)
    requires CallsCarried(r, calls, published) && r.producer == Away
    ensures CallsCarried(r.(producer := CheckingReady(packet, r.connectionGeneration)),
                         calls + [Note(packet, r.connectionGeneration)], published)
  {
  }

  lemma CallsExtend(seed: nat, moves: seq<Move>, m: Move)
    ensures var r := Run(seed, moves);
            && Called(seed, moves + [m]) == Called(seed, moves)
                 + (if m.Notify? && r.producer == Away then [Note(m.packet, r.connectionGeneration)] else [])
            && Published(seed, moves + [m]) == Published(seed, moves)
                 + (if m.ProducerStep? && r.producer.Publishing? then [|Called(seed, moves)| - 1] else [])
  {
    hide Run;
    assert (moves + [m])[..|moves|] == moves;
  }

  lemma CallsStep(seed: nat, moves: seq<Move>, m: Move)
    requires CallsCarried(Run(seed, moves), Called(seed, moves), Published(seed, moves))
    ensures CallsCarried(Run(seed, moves + [m]), Called(seed, moves + [m]), Published(seed, moves + [m]))
  {
    hide Run, ProducerMoves, WorkerMoves, CallsCarried, Called, Published;
    var r, calls, published := Run(seed, moves), Called(seed, moves), Published(seed, moves);
    RunExtend(seed, moves, m);
    CallsExtend(seed, moves, m);
    assert calls + [] == calls && published + [] == published;
    match m {
      case Notify(packet) =>
        if r.producer == Away { CallCarries(r, packet, calls, published); }
      case ProducerStep => ProducerCarries(r, calls, published);
      case WorkerStep(ok) =>
        WorkerKeepsCalls(r, ok);
        SameCalls(r, WorkerMoves(r, ok), calls, published);
      case _ => SameCalls(r, Step(r, m), calls, published);
    }
  }

  /** Over every interleaving: the enqueued notes are calls of notify in call order, each with the packet it was
      called with and the generation loaded at that call. */
  lemma {:induction false} NotesAreTheCalls(seed: nat, moves: seq<Move>)
    ensures var r, calls, published := Run(seed, moves), Called(seed, moves), Published(seed, moves);
            && |published| == |r.enqueued|
            && (forall i :: 0 <= i < |published| ==>
                  0 <= published[i] < |calls| && r.enqueued[i] == calls[published[i]])
            && (forall i, j :: 0 <= i < j < |published| ==> published[i] < published[j])
    ensures CallsCarried(Run(seed, moves), Called(seed, moves), Published(seed, moves))
    decreases |moves|
  {
    hide Step;
    if moves != [] {
      var front, m := moves[..|moves| - 1], moves[|moves| - 1];
      NotesAreTheCalls(seed, front);
      CallsStep(seed, front, m);
      assert front + [m] == moves;
    }
  }

  /** A call nobody interferes with is enqueued exactly if the connection is ready and not parked, its nonce is the
      connection's and fewer than sixteen notes are unread. */
  lemma NotifyEnqueuesExactly(seed: nat, before: seq<Move>, p: Packet)
    requires Run(seed, before).producer == Away
    ensures var r := Run(seed, before);
            var s := ProducerStep;
            var n := Run(seed, before + [Notify(p)] + [s] + [s] + [s] + [s] + [s] + [s] + [s]);
            && n.producer == Away
            && n.enqueued == if r.ready && !r.park && p.nonce == r.connectionNonce && |r.enqueued| < r.consumed + SLOTS
                             then r.enqueued + [Note(p, r.connectionGeneration)] else r.enqueued
  {
    hide Run, SlotOf, Wrap;
    var s := ProducerStep;
    var checked := before + [Notify(p)] + [s] + [s];
    CallIsChecked(seed, before, p);
    SlotIsChosen(seed, checked);
    NoteIsStored(seed, checked + [s] + [s] + [s]);
  }

  /** A call is turned away while the connection is not ready or parked. */
  lemma CallIsChecked(seed: nat, before: seq<Move>, p: Packet)
    requires Run(seed, before).producer == Away
    ensures var r, s := Run(seed, before), ProducerStep;
            Run(seed, before + [Notify(p)] + [s] + [s]) ==
            r.(producer := if r.ready && !r.park then LoadingWrite(p, r.connectionGeneration) else Away)
  {
    hide Run, SlotOf, Wrap, Distance;
    var s := ProducerStep;
    RunExtend(seed, before, Notify(p));
    RunExtend(seed, before + [Notify(p)], s);
    RunExtend(seed, before + [Notify(p)] + [s], s);
  }

  lemma NobodySteps(seed: nat, before: seq<Move>)
    requires Run(seed, before).producer == Away
    ensures Run(seed, before + [ProducerStep]) == Run(seed, before)
  {
    hide Run, ProducerMoves;
    RunExtend(seed, before, ProducerStep);
    NobodyMoves(Run(seed, before));
  }

  predicate MayStore(r: Ring, p: Packet) {
    |r.enqueued| < r.consumed + SLOTS && p.nonce == r.connectionNonce
  }

  /** It is given the next slot if one is free and its nonce is the connection's. */
  lemma SlotIsChosen(seed: nat, before: seq<Move>)
    requires Run(seed, before).producer.LoadingWrite? || Run(seed, before).producer == Away
    ensures var r, s := Run(seed, before), ProducerStep;
            Run(seed, before + [s] + [s] + [s]) ==
            if r.producer == Away then r
            else r.(producer := if MayStore(r, r.producer.packet)
                                then Storing(r.producer.packet, r.producer.generation, r.writeIndex) else Away)
  {
    hide Run, ProducerMoves, MayStore;
    var r, s := Run(seed, before), ProducerStep;
    if r.producer == Away {
      NobodySteps(seed, before);
      NobodySteps(seed, before + [s]);
      NobodySteps(seed, before + [s] + [s]);
    } else {
      AlwaysSafe(seed, before);
      RunExtend(seed, before, s);
      RunExtend(seed, before + [s], s);
      RunExtend(seed, before + [s] + [s], s);
      hide Safe;
      ThreeSteps(r);
    }
  }

  lemma ThreeSteps(r: Ring)
    requires Indexed(r) && r.producer.LoadingWrite?
    ensures ProducerMoves(ProducerMoves(ProducerMoves(r))) ==
            r.(producer := if MayStore(r, r.producer.packet)
                           then Storing(r.producer.packet, r.producer.generation, r.writeIndex) else Away)
  {
    hide SlotOf, Wrap, Distance;
    IndexGap(r.consumed, |r.enqueued|);
    hide Indexed;
  }

  lemma NoteIsStored(seed: nat, before: seq<Move>)
    requires Run(seed, before).producer.Storing? || Run(seed, before).producer == Away
    ensures var r, s := Run(seed, before), ProducerStep;
            var n := Run(seed, before + [s] + [s]);
            && n.producer == Away
            && n.enqueued == if r.producer == Away then r.enqueued
                             else r.enqueued + [Note(r.producer.packet, r.producer.generation)]
  {
    hide Run, SlotOf, Wrap, Distance, Settled, WorkerHolds, ProducerHolds;
    var s := ProducerStep;
    AlwaysSafe(seed, before);
    RunExtend(seed, before, s);
    RunExtend(seed, before + [s], s);
  }

  // ---- what is unread is sent, or settled otherwise ---------------------------------------

  /** A draining worker whose sends succeed sends the next unread note if it is its connection's, and drops it
      otherwise; it moves on by exactly that note. */
  lemma NextNoteIsSettled(seed: nat, before: seq<Move>)
    requires Run(seed, before).worker.Draining? && Run(seed, before).consumed < |Run(seed, before).enqueued|
    ensures var r, w := Run(seed, before), WorkerStep(true);
            var n := Run(seed, before + [w] + [w] + [w] + [w] + [w]);
            var note, c := r.enqueued[r.consumed], r.worker.on;
            var its := note.generation == c.generation && note.packet.nonce == c.nonce;
            && n.worker == r.worker && n.consumed == r.consumed + 1
            && n.sent == (if its then r.sent + [Sent(r.consumed, c)] else r.sent)
            && n.dropped == (if its then r.dropped else r.dropped + [Dropped(r.consumed, c)])
  {
    hide Run, SlotOf, Wrap;
    var w := WorkerStep(true);
    var fetched := before + [w] + [w] + [w];
    NextNoteIsFetched(seed, before);
    RunExtend(seed, fetched, w);
    RunExtend(seed, fetched + [w], w);
  }

  lemma NextNoteIsFetched(seed: nat, before: seq<Move>)
    requires Run(seed, before).worker.Draining? && Run(seed, before).consumed < |Run(seed, before).enqueued|
    ensures var r, w := Run(seed, before), WorkerStep(true);
            Run(seed, before + [w] + [w] + [w]) ==
            r.(worker := Holding(r.worker.on, r.readIndex, r.enqueued[r.consumed]))
  {
    hide Run, SlotOf, Wrap, Distance, Settled, ProducerHolds, WorkerHolds;
    var r, w := Run(seed, before), WorkerStep(true);
    AlwaysSafe(seed, before);
    IndexGap(r.consumed, |r.enqueued|);
    SlotOfIndex(r.consumed);
    RunExtend(seed, before, w);
    RunExtend(seed, before + [w], w);
    RunExtend(seed, before + [w] + [w], w);
  }

  /** A drain moves on past a note exactly if it is of the retired generation and was there when the drain looked;
      where it stops is where reading resumes. */
  lemma DrainStopsExactly(seed: nat, before: seq<Move>, ok: bool) returns (bound: nat)
    requires Run(seed, before).worker.Retiring?
    ensures var r := Run(seed, before);
            var n := Run(seed, before + [WorkerStep(ok)]);
            var g, p := r.worker.retired, r.worker.position;
            && p <= bound <= |r.enqueued| && r.worker.write == Wrap(bound)
            && if p < bound && r.enqueued[p].generation == g
               then n.worker.Retiring? && n.worker.position == p + 1 && n.discarded == r.discarded + [Discarded(p, g)]
               else n.worker.Between? && n.consumed == p && n.discarded == r.discarded
  {
    hide Run, SlotOf, Wrap, Distance, Settled, ProducerHolds;
    var r := Run(seed, before);
    AlwaysSafe(seed, before);
    bound :| r.worker.position <= bound <= |r.enqueued| && r.worker.write == Wrap(bound);
    IndexGap(r.worker.position, bound);
    SlotOfIndex(r.worker.position);
    RunExtend(seed, before, WorkerStep(ok));
  }

  /** A worker that may connect and succeeds opens the next generation: its nonce and generation are what a caller
      then loads, and it is ready. */
  lemma ConnectionIsOpened(seed: nat, before: seq<Move>)
    requires var r := Run(seed, before);
             r.worker.Between? && !r.park && 1 <= r.generation < U64 && NonceOf(r.seed, r.generation) != 0
    ensures var r, w := Run(seed, before), WorkerStep(true);
            var n := Run(seed, before + [w] + [w] + [w] + [w]);
            && n.worker == Draining(Connection(r.generation, NonceOf(r.seed, r.generation)))
            && n.ready && n.connectionGeneration == r.generation && n.connectionNonce == NonceOf(r.seed, r.generation)
            && n.generation == r.generation + 1
  {
    hide Run, NonceOf, SlotOf, Wrap;
    var w := WorkerStep(true);
    RunExtend(seed, before, w);
    RunExtend(seed, before + [w], w);
    RunExtend(seed, before + [w] + [w], w);
    RunExtend(seed, before + [w] + [w] + [w], w);
  }

  /** A parked worker told to drain the connected generation begins with what is unread then. */
  lemma DrainBegins(seed: nat, before: seq<Move>, g: nat)
    requires var r := Run(seed, before); r.worker.Between? && r.park && r.connectionGeneration == g != 0
    ensures var r, w := Run(seed, before), WorkerStep(true);
            var n := Run(seed, before + [RetireForDrain(g)] + [w] + [w] + [w]);
            n.worker == Retiring(g, Wrap(r.consumed), Wrap(|r.enqueued|), r.consumed) && !n.ready
  {
    hide Run, SlotOf, Wrap, Settled, ProducerHolds, WorkerHolds;
    var w, told := WorkerStep(true), before + [RetireForDrain(g)];
    AlwaysSafe(seed, before);
    RunExtend(seed, before, RetireForDrain(g));
    RunExtend(seed, told, w);
    RunExtend(seed, told + [w], w);
    RunExtend(seed, told + [w] + [w], w);
  }
}
