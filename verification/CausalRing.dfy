/**
 * The fixed ring of causal evidence. Any number of writers and readers interleave, one atomic
 * operation per step; a slot is guarded by a test-and-set flag and nobody ever waits for it.
 */
module CausalRing {
  import LittleEndian
  import Wire

  const CAPACITY: nat := 2048
  const CONTROL_ENQUEUE: nat := 9

  datatype Evidence = Evidence(at: nat, nonce: nat, epoch: nat, sequence: nat, generation: nat, connection: nat,
                               deadline: nat, phase: nat, ok: bool, opcode: nat, controlValue: nat)

  /** What one record call takes from the packet it witnesses. */
  function Observe(phase: nat, p: Wire.Packet, connection: nat, ok: bool, at: nat): Evidence {
    Evidence(at, Wire.Get(p, 48, 8), Wire.Get(p, 24, 8), Wire.Get(p, 32, 8), Wire.Get(p, 16, 8), connection,
             Wire.Get(p, 40, 8), phase, ok, Wire.Get(p, 6, 2),
             if phase >= CONTROL_ENQUEUE then Wire.Get(p, 64, 4) else 0)
  }

  lemma OthersUntouched(p: Wire.Packet, offset: nat, count: nat, value: nat)
    requires offset + count <= Wire.PACKET
    ensures forall at: nat, size: nat :: at + size <= Wire.PACKET && (at + size <= offset || offset + count <= at) ==>
              Wire.Get(Wire.Put(p, offset, count, value), at, size) == Wire.Get(p, at, size)
  {
    hide Wire.Put, Wire.Get;
    forall at: nat, size: nat | at + size <= Wire.PACKET && (at + size <= offset || offset + count <= at)
      ensures Wire.Get(Wire.Put(p, offset, count, value), at, size) == Wire.Get(p, at, size)
    {
      Wire.PutLeavesOthers(p, offset, count, value, at, size);
    }
  }

  /** Each field of the evidence is the field of the packet at its offset, and depends on no other. */
  lemma EvidenceIsTheHeader(phase: nat, p: Wire.Packet, connection: nat, ok: bool, at: nat, v: nat)
    ensures var seen := (q: Wire.Packet) => Observe(phase, q, connection, ok, at);
            && seen(Wire.Put(p, 16, 8, v)) == seen(p).(generation := v % LittleEndian.Pow(8))
            && seen(Wire.Put(p, 24, 8, v)) == seen(p).(epoch := v % LittleEndian.Pow(8))
            && seen(Wire.Put(p, 32, 8, v)) == seen(p).(sequence := v % LittleEndian.Pow(8))
            && seen(Wire.Put(p, 40, 8, v)) == seen(p).(deadline := v % LittleEndian.Pow(8))
            && seen(Wire.Put(p, 48, 8, v)) == seen(p).(nonce := v % LittleEndian.Pow(8))
            && seen(Wire.Put(p, 6, 2, v)) == seen(p).(opcode := v % LittleEndian.Pow(2))
            && seen(Wire.Put(p, 64, 4, v))
               == seen(p).(controlValue := if phase >= CONTROL_ENQUEUE then v % LittleEndian.Pow(4) else 0)
  {
    hide Wire.Put, Wire.Get, LittleEndian.Pow;
    FieldPut(p, 16, 8, v);
    FieldPut(p, 24, 8, v);
    FieldPut(p, 32, 8, v);
    FieldPut(p, 40, 8, v);
    FieldPut(p, 48, 8, v);
    FieldPut(p, 6, 2, v);
    FieldPut(p, 64, 4, v);
  }

  lemma FieldPut(p: Wire.Packet, offset: nat, count: nat, value: nat)
    requires offset + count <= Wire.PACKET
    ensures Wire.Get(Wire.Put(p, offset, count, value), offset, count) == value % LittleEndian.Pow(count)
    ensures forall at: nat, size: nat :: at + size <= Wire.PACKET && (at + size <= offset || offset + count <= at) ==>
              Wire.Get(Wire.Put(p, offset, count, value), at, size) == Wire.Get(p, at, size)
  {
    hide Wire.Put, Wire.Get, LittleEndian.Pow;
    Wire.GetAfterPut(p, offset, count, value);
    OthersUntouched(p, offset, count, value);
  }

  function SlotOf(index: nat): (s: nat)
    ensures s < CAPACITY
  {
    index % CAPACITY
  }

  /** Two reservations of one slot are at least a whole turn of the ring apart. */
  lemma TurnApart(i: nat, j: nat)
    requires SlotOf(i) == SlotOf(j) && i < j
    ensures i + CAPACITY <= j
  {
  }

  /** Whose test-and-set raised the flag; the flag itself is only `!Free?`. */
  datatype Holder = Free | ByWriter(index: nat) | ByReader

  datatype Slot = Slot(holder: Holder, id: nat, value: Evidence)

  /** Reserved: has its index. Refused: found the flag up. Holding: raised the flag. Stale and Current:
      compared the slot's id. Leaving: stored or counted, the flag still up. */
  datatype Stage = Reserved | Refused | Holding | Stale | Current | Leaving

  predicate Guarded(stage: Stage) {
    stage.Holding? || stage.Stale? || stage.Current? || stage.Leaving?
  }

  /** What a reader copied out of a slot while it held the flag. */
  datatype Copy = Copy(slot: nat, id: nat, value: Evidence)

  /** The atomics, the slots and the calls in progress; `log` holds the evidence of call i at i, `written`
      and `lost` the calls that stored it or counted a drop, and `copies` what was read so far. */
  datatype Ring = Ring(next: nat, dropped: nat, slots: seq<Slot>, writers: map<nat, Stage>,
                       log: seq<Evidence>, written: set<nat>, lost: set<nat>, copies: set<Copy>)

  datatype Step =
    | Reserve(evidence: Evidence)
    | RaiseFlag(index: nat)
    | Compare(index: nat)
    | Store(index: nat)
    | CountDrop(index: nat)
    | LowerFlag(index: nat)
    | ReadBegin(slot: nat)
    | ReadCopy(slot: nat)
    | ReadEnd(slot: nat)

  predicate Enabled(r: Ring, step: Step) {
    match step
    case Reserve(_) => true
    case RaiseFlag(i) => i in r.writers && r.writers[i].Reserved?
    case Compare(i) => i in r.writers && r.writers[i].Holding?
    case Store(i) => i in r.writers && r.writers[i].Current?
    case CountDrop(i) => i in r.writers && (r.writers[i].Refused? || r.writers[i].Stale?)
    case LowerFlag(i) => i in r.writers && r.writers[i].Leaving?
    case ReadBegin(s) => s < CAPACITY && s < |r.slots| && r.slots[s].holder.Free?
    case ReadCopy(s) => s < |r.slots| && r.slots[s].holder.ByReader?
    case ReadEnd(s) => s < |r.slots| && r.slots[s].holder.ByReader?
  }

  /** Evidence for every call begun, and only begun calls in progress. */
  predicate Fit(r: Ring) {
    |r.slots| == CAPACITY && |r.log| == r.next && forall i :: i in r.writers ==> i < r.next
  }

  function Next(r: Ring, step: Step): (n: Ring)
    requires Fit(r) && Enabled(r, step)
    ensures |n.slots| == CAPACITY && |n.log| == n.next
  {
    match step
    case Reserve(evidence) =>
      r.(next := r.next + 1, writers := r.writers[r.next := Reserved], log := r.log + [evidence])
    case RaiseFlag(i) =>
      var slot := r.slots[SlotOf(i)];
      if slot.holder.Free? then
        r.(slots := r.slots[SlotOf(i) := slot.(holder := ByWriter(i))], writers := r.writers[i := Holding])
      else
        r.(writers := r.writers[i := Refused])
    case Compare(i) =>
      r.(writers := r.writers[i := if r.slots[SlotOf(i)].id > i + 1 then Stale else Current])
    case Store(i) =>
      r.(slots := r.slots[SlotOf(i) := r.slots[SlotOf(i)].(id := i + 1, value := r.log[i])],
         writers := r.writers[i := Leaving], written := r.written + {i})
    case CountDrop(i) =>
      r.(dropped := r.dropped + 1, lost := r.lost + {i},
         writers := if r.writers[i].Refused? then r.writers - {i} else r.writers[i := Leaving])
    case LowerFlag(i) =>
      r.(slots := r.slots[SlotOf(i) := r.slots[SlotOf(i)].(holder := Free)], writers := r.writers - {i})
    case ReadBegin(s) =>
      r.(slots := r.slots[s := r.slots[s].(holder := ByReader)])
    case ReadCopy(s) =>
      r.(copies := r.copies + {Copy(s, r.slots[s].id, r.slots[s].value)})
    case ReadEnd(s) =>
      r.(slots := r.slots[s := r.slots[s].(holder := Free)])
  }

  function Empty(): Ring {
    Ring(0, 0, seq(CAPACITY, _ => Slot(Free, 0, Evidence(0, 0, 0, 0, 0, 0, 0, 0, false, 0, 0))), map[], [], {}, {}, {})
  }

  // ---- what every interleaving keeps ---------------------------------------------------

  ghost predicate Unsettled(writers: map<nat, Stage>, i: nat) {
    i in writers && !writers[i].Leaving?
  }

  /** Each call is in exactly one of: stored, counted as dropped, still under way. */
  ghost predicate Settled(next: nat, writers: map<nat, Stage>, written: set<nat>, lost: set<nat>) {
    && (forall i :: i in writers ==> i < next)
    && (forall i :: i in written ==> i < next && !Unsettled(writers, i))
    && (forall i :: i in lost ==> i < next && i !in written && !Unsettled(writers, i))
    && (forall i: nat :: i < next ==> i in written || i in lost || Unsettled(writers, i))
  }

  /** The flag of a slot is up for the call past its test-and-set, and for no other call. */
  ghost predicate Exclusive(writers: map<nat, Stage>, slots: seq<Slot>) {
    && |slots| == CAPACITY
    && (forall i :: i in writers && Guarded(writers[i]) ==> slots[SlotOf(i)].holder == ByWriter(i))
    && (forall s :: 0 <= s < CAPACITY && slots[s].holder.ByWriter? ==>
          var i := slots[s].holder.index; i in writers && Guarded(writers[i]) && SlotOf(i) == s)
  }

  /** A filled slot holds the evidence of a stored call of its own. */
  ghost predicate Genuine(slots: seq<Slot>, log: seq<Evidence>, written: set<nat>) {
    |slots| == CAPACITY && forall s :: 0 <= s < CAPACITY ==> GenuineSlot(slots[s], s, log, written)
  }

  ghost predicate GenuineSlot(slot: Slot, s: nat, log: seq<Evidence>, written: set<nat>) {
    slot.id != 0 ==>
      var i := slot.id - 1; i in written && SlotOf(i) == s && i < |log| && slot.value == log[i]
  }

  /** No stored call was ever replaced by an older one. */
  ghost predicate Newest(slots: seq<Slot>, writers: map<nat, Stage>, written: set<nat>) {
    && |slots| == CAPACITY
    && (forall i :: i in written ==> slots[SlotOf(i)].id >= i + 1)
    && (forall i :: i in writers && writers[i].Current? ==> slots[SlotOf(i)].id <= i + 1)
  }

  /** Whatever a reader copied is the evidence of the call the id names. */
  ghost predicate Faithful(copies: set<Copy>, log: seq<Evidence>) {
    forall c :: c in copies && c.id != 0 ==>
      c.id - 1 < |log| && SlotOf(c.id - 1) == c.slot && c.value == log[c.id - 1]
  }

  ghost predicate Safe(r: Ring) {
    && Fit(r) && |r.lost| == r.dropped
    && Settled(r.next, r.writers, r.written, r.lost)
    && Exclusive(r.writers, r.slots)
    && Genuine(r.slots, r.log, r.written)
    && Newest(r.slots, r.writers, r.written)
    && Faithful(r.copies, r.log)
  }

  lemma EmptySafe()
    ensures Safe(Empty())
  {
  }

  lemma StepFits(r: Ring, step: Step)
    requires Safe(r) && Enabled(r, step)
    ensures Fit(Next(r, step))
  {
    hide Exclusive, Genuine, Newest, Faithful, Settled, SlotOf, Guarded;
    match step
    case Reserve(_) =>
    case RaiseFlag(i) =>
    case Compare(i) =>
    case Store(i) =>
    case CountDrop(i) =>
    case LowerFlag(i) =>
    case ReadBegin(s) =>
    case ReadCopy(s) =>
    case ReadEnd(s) =>
  }

  lemma StepCounts(r: Ring, step: Step)
    requires Safe(r) && Enabled(r, step)
    ensures |Next(r, step).lost| == Next(r, step).dropped
  {
    hide Exclusive, Genuine, Newest, Faithful, Settled, Fit, SlotOf, Guarded;
    if step.CountDrop? {
      NotLost(r.next, r.writers, r.written, r.lost, step.index);
    }
  }

  lemma NotLost(next: nat, writers: map<nat, Stage>, written: set<nat>, lost: set<nat>, i: nat)
    requires Settled(next, writers, written, lost) && Unsettled(writers, i)
    ensures i !in lost
  {
  }

  lemma StageChange(next: nat, writers: map<nat, Stage>, written: set<nat>, lost: set<nat>, i: nat, stage: Stage)
    requires Settled(next, writers, written, lost) && Unsettled(writers, i) && !stage.Leaving?
    ensures Settled(next, writers[i := stage], written, lost)
  {
    assert forall j :: Unsettled(writers[i := stage], j) <==> Unsettled(writers, j);
  }

  /** The call i leaves the unsettled ones for exactly one of the two sets. */
  lemma Settles(next: nat, writers: map<nat, Stage>, written: set<nat>, lost: set<nat>, i: nat, after: map<nat, Stage>,
                stores: bool)
    requires Settled(next, writers, written, lost) && Unsettled(writers, i)
    requires after == writers - {i} || after == writers[i := Leaving]
    ensures Settled(next, after, if stores then written + {i} else written, if stores then lost else lost + {i})
  {
    assert forall j :: j != i ==> (Unsettled(after, j) <==> Unsettled(writers, j));
    assert !Unsettled(after, i);
  }

  lemma Reserves(next: nat, writers: map<nat, Stage>, written: set<nat>, lost: set<nat>)
    requires Settled(next, writers, written, lost)
    ensures Settled(next + 1, writers[next := Reserved], written, lost)
  {
    assert forall j :: j != next ==> (Unsettled(writers[next := Reserved], j) <==> Unsettled(writers, j));
  }

  lemma StepSettled(r: Ring, step: Step)
    requires Safe(r) && Enabled(r, step)
    ensures var n := Next(r, step); Settled(n.next, n.writers, n.written, n.lost)
  {
    hide Exclusive, Genuine, Newest, SlotOf, Guarded;
    match step
    case Reserve(_) =>
      hide Settled;
      Reserves(r.next, r.writers, r.written, r.lost);
    case RaiseFlag(i) =>
      hide Settled;
      StageChange(r.next, r.writers, r.written, r.lost, i, Next(r, step).writers[i]);
    case Compare(i) =>
      hide Settled;
      StageChange(r.next, r.writers, r.written, r.lost, i, Next(r, step).writers[i]);
    case Store(i) =>
      hide Settled;
      Settles(r.next, r.writers, r.written, r.lost, i, Next(r, step).writers, true);
    case CountDrop(i) =>
      hide Settled;
      Settles(r.next, r.writers, r.written, r.lost, i, Next(r, step).writers, false);
    case LowerFlag(i) =>
      Lowers(r.next, r.writers, r.written, r.lost, i);
    case ReadBegin(s) =>
    case ReadCopy(s) =>
    case ReadEnd(s) =>
  }

  lemma Lowers(next: nat, writers: map<nat, Stage>, written: set<nat>, lost: set<nat>, i: nat)
    requires Settled(next, writers, written, lost) && i in writers && writers[i].Leaving?
    ensures Settled(next, writers - {i}, written, lost)
  {
    assert forall j :: Unsettled(writers - {i}, j) <==> Unsettled(writers, j);
  }

  lemma SameGuard(writers: map<nat, Stage>, slots: seq<Slot>, i: nat, stage: Stage)
    requires Exclusive(writers, slots)
    requires Guarded(stage) == (i in writers && Guarded(writers[i]))
    ensures Exclusive(writers[i := stage], slots)
    ensures !Guarded(stage) ==> Exclusive(writers - {i}, slots)
  {
    hide SlotOf, Guarded;
  }

  lemma SameHolder(writers: map<nat, Stage>, slots: seq<Slot>, s: nat, slot: Slot)
    requires s < CAPACITY && Exclusive(writers, slots)
    requires slot.holder == slots[s].holder || (!slot.holder.ByWriter? && !slots[s].holder.ByWriter?)
    ensures Exclusive(writers, slots[s := slot])
  {
    hide SlotOf, Guarded;
  }

  lemma Raises(writers: map<nat, Stage>, slots: seq<Slot>, i: nat, slot: Slot)
    requires Exclusive(writers, slots) && slots[SlotOf(i)].holder.Free?
    requires slot.holder == ByWriter(i)
    ensures Exclusive(writers[i := Holding], slots[SlotOf(i) := slot])
  {
    hide SlotOf;
  }

  lemma LowersFlag(writers: map<nat, Stage>, slots: seq<Slot>, i: nat, slot: Slot)
    requires Exclusive(writers, slots) && i in writers && Guarded(writers[i])
    requires slot.holder.Free?
    ensures Exclusive(writers - {i}, slots[SlotOf(i) := slot])
  {
    hide SlotOf, Guarded;
  }

  lemma StepExclusive(r: Ring, step: Step)
    requires Safe(r) && Enabled(r, step)
    ensures Exclusive(Next(r, step).writers, Next(r, step).slots)
  {
    hide Genuine, Newest, SlotOf, Exclusive;
    match step
    case Reserve(_) =>
      SameGuard(r.writers, r.slots, r.next, Reserved);
    case RaiseFlag(i) =>
      if r.slots[SlotOf(i)].holder.Free? {
        Raises(r.writers, r.slots, i, Next(r, step).slots[SlotOf(i)]);
      } else {
        SameGuard(r.writers, r.slots, i, Refused);
      }
    case Compare(i) =>
      SameGuard(r.writers, r.slots, i, Next(r, step).writers[i]);
    case Store(i) =>
      SameGuard(r.writers, r.slots, i, Leaving);
      SameHolder(r.writers[i := Leaving], r.slots, SlotOf(i), Next(r, step).slots[SlotOf(i)]);
    case CountDrop(i) =>
      SameGuard(r.writers, r.slots, i, r.writers[i]);
      if r.writers[i].Stale? {
        SameGuard(r.writers, r.slots, i, Leaving);
      }
    case LowerFlag(i) =>
      LowersFlag(r.writers, r.slots, i, Next(r, step).slots[SlotOf(i)]);
    case ReadBegin(s) =>
      SameHolder(r.writers, r.slots, s, Next(r, step).slots[s]);
    case ReadCopy(s) =>
    case ReadEnd(s) =>
      SameHolder(r.writers, r.slots, s, Next(r, step).slots[s]);
  }

  lemma GenuineUpdate(slots: seq<Slot>, log: seq<Evidence>, written: set<nat>, s: nat, slot: Slot)
    requires Genuine(slots, log, written) && s < CAPACITY && GenuineSlot(slot, s, log, written)
    ensures Genuine(slots[s := slot], log, written)
  {
    hide GenuineSlot;
  }

  lemma GenuineHolder(slots: seq<Slot>, log: seq<Evidence>, written: set<nat>, s: nat, holder: Holder)
    requires Genuine(slots, log, written) && s < CAPACITY
    ensures Genuine(slots[s := slots[s].(holder := holder)], log, written)
  {
    hide SlotOf;
    assert GenuineSlot(slots[s], s, log, written);
    assert GenuineSlot(slots[s].(holder := holder), s, log, written);
    GenuineUpdate(slots, log, written, s, slots[s].(holder := holder));
  }

  lemma GenuineLater(slots: seq<Slot>, log: seq<Evidence>, written: set<nat>, e: Evidence, i: nat)
    requires Genuine(slots, log, written)
    ensures Genuine(slots, log + [e], written) && Genuine(slots, log, written + {i})
  {
    hide SlotOf;
    forall s | 0 <= s < CAPACITY
      ensures GenuineSlot(slots[s], s, log + [e], written) && GenuineSlot(slots[s], s, log, written + {i})
    {
      assert GenuineSlot(slots[s], s, log, written);
    }
  }

  lemma StepGenuine(r: Ring, step: Step)
    requires Safe(r) && Enabled(r, step)
    ensures Genuine(Next(r, step).slots, Next(r, step).log, Next(r, step).written)
  {
    hide Exclusive, Newest, Settled, Faithful, Genuine, SlotOf, Guarded;
    match step
    case Reserve(e) =>
      GenuineLater(r.slots, r.log, r.written, e, 0);
    case RaiseFlag(i) =>
      GenuineHolder(r.slots, r.log, r.written, SlotOf(i), ByWriter(i));
    case Compare(i) =>
    case Store(i) =>
      GenuineLater(r.slots, r.log, r.written, r.log[i], i);
      GenuineUpdate(r.slots, r.log, r.written + {i}, SlotOf(i), Next(r, step).slots[SlotOf(i)]);
    case CountDrop(i) =>
    case LowerFlag(i) =>
      GenuineHolder(r.slots, r.log, r.written, SlotOf(i), Free);
    case ReadBegin(s) =>
      GenuineHolder(r.slots, r.log, r.written, s, ByReader);
    case ReadCopy(s) =>
    case ReadEnd(s) =>
      GenuineHolder(r.slots, r.log, r.written, s, Free);
  }

  lemma NewestStage(slots: seq<Slot>, writers: map<nat, Stage>, written: set<nat>, i: nat, stage: Stage)
    requires Newest(slots, writers, written)
    requires stage.Current? ==> slots[SlotOf(i)].id <= i + 1
    ensures Newest(slots, writers[i := stage], written) && Newest(slots, writers - {i}, written)
  {
    hide SlotOf;
  }

  lemma NewestHolder(slots: seq<Slot>, writers: map<nat, Stage>, written: set<nat>, s: nat, holder: Holder)
    requires s < CAPACITY && Newest(slots, writers, written)
    ensures Newest(slots[s := slots[s].(holder := holder)], writers, written)
  {
    hide SlotOf;
    assert forall t :: 0 <= t < CAPACITY ==> slots[s := slots[s].(holder := holder)][t].id == slots[t].id;
  }

  lemma StoreNewest(r: Ring, i: nat)
    requires Safe(r) && i in r.writers && r.writers[i].Current?
    ensures Newest(Next(r, Store(i)).slots, Next(r, Store(i)).writers, Next(r, Store(i)).written)
  {
    hide Genuine, SlotOf, Exclusive;
    StoreAlone(r, i);
    var slots := Next(r, Store(i)).slots;
    assert forall t :: 0 <= t < CAPACITY && t != SlotOf(i) ==> slots[t].id == r.slots[t].id;
    assert r.slots[SlotOf(i)].id <= i + 1 == slots[SlotOf(i)].id;
  }

  lemma StepNewest(r: Ring, step: Step)
    requires Safe(r) && Enabled(r, step)
    ensures Newest(Next(r, step).slots, Next(r, step).writers, Next(r, step).written)
  {
    hide Genuine, SlotOf, Newest, Exclusive, Guarded;
    match step
    case Reserve(_) =>
      NewestStage(r.slots, r.writers, r.written, r.next, Reserved);
    case RaiseFlag(i) =>
      NewestHolder(r.slots, r.writers, r.written, SlotOf(i), ByWriter(i));
      var slots := r.slots[SlotOf(i) := r.slots[SlotOf(i)].(holder := ByWriter(i))];
      NewestStage(slots, r.writers, r.written, i, Holding);
      NewestStage(r.slots, r.writers, r.written, i, Refused);
    case Compare(i) =>
      NewestStage(r.slots, r.writers, r.written, i, Next(r, step).writers[i]);
    case Store(i) =>
      StoreNewest(r, i);
    case CountDrop(i) =>
      NewestStage(r.slots, r.writers, r.written, i, Leaving);
    case LowerFlag(i) =>
      NewestHolder(r.slots, r.writers, r.written, SlotOf(i), Free);
      var slots := r.slots[SlotOf(i) := r.slots[SlotOf(i)].(holder := Free)];
      NewestStage(slots, r.writers, r.written, i, Leaving);
    case ReadBegin(s) =>
      NewestHolder(r.slots, r.writers, r.written, s, ByReader);
    case ReadCopy(s) =>
    case ReadEnd(s) =>
      NewestHolder(r.slots, r.writers, r.written, s, Free);
  }

  /** While one call may store into a slot, no other call has compared its id. */
  lemma StoreAlone(r: Ring, i: nat)
    requires Safe(r) && i in r.writers && r.writers[i].Current?
    ensures forall j :: j in r.writers && j != i && r.writers[j].Current? ==> SlotOf(j) != SlotOf(i)
  {
    hide Settled, Genuine, Newest, SlotOf;
  }

  lemma StepFaithful(r: Ring, step: Step)
    requires Safe(r) && Enabled(r, step)
    ensures Faithful(Next(r, step).copies, Next(r, step).log)
  {
    hide Exclusive, Newest, Settled, Genuine, Faithful, SlotOf, Guarded;
    if step.Reserve? {
      LogGrows(r.copies, r.log, step.evidence);
    } else if step.ReadCopy? {
      CopyOne(r, step.slot);
    }
  }

  lemma CopyOne(r: Ring, s: nat)
    requires Faithful(r.copies, r.log) && Genuine(r.slots, r.log, r.written) && s < CAPACITY
    ensures Faithful(r.copies + {Copy(s, r.slots[s].id, r.slots[s].value)}, r.log)
  {
    hide SlotOf;
    assert GenuineSlot(r.slots[s], s, r.log, r.written);
  }

  lemma LogGrows(copies: set<Copy>, log: seq<Evidence>, evidence: Evidence)
    requires Faithful(copies, log)
    ensures Faithful(copies, log + [evidence])
  {
    hide SlotOf;
  }

  lemma StepSafe(r: Ring, step: Step)
    requires Safe(r) && Enabled(r, step)
    ensures Safe(Next(r, step))
  {
    hide Fit, Faithful, Settled, Exclusive, Genuine, Newest, Next, Enabled;
    StepFits(r, step);
    StepCounts(r, step);
    StepSettled(r, step);
    StepExclusive(r, step);
    StepGenuine(r, step);
    StepNewest(r, step);
    StepFaithful(r, step);
  }

  // ---- runs ----------------------------------------------------------------------------

  /** The states of one interleaving, first to last. */
  ghost predicate Run(states: seq<Ring>, steps: seq<Step>) {
    && |states| == |steps| + 1 && states[0] == Empty()
    && forall k :: 0 <= k < |steps| ==> Moves(states[k], steps[k], states[k + 1])
  }

  ghost predicate Moves(r: Ring, step: Step, n: Ring) {
    Fit(r) && Enabled(r, step) && n == Next(r, step)
  }

  lemma {:induction false} AlwaysSafe(states: seq<Ring>, steps: seq<Step>, k: nat)
    requires Run(states, steps) && k < |states|
    ensures Safe(states[k])
  {
    hide Next, Enabled, Safe, Empty;
    if k == 0 {
      EmptySafe();
    } else {
      AlwaysSafe(states, steps, k - 1);
      assert Moves(states[k - 1], steps[k - 1], states[k]);
      StepSafe(states[k - 1], steps[k - 1]);
    }
  }

  lemma CurrentId(slots: seq<Slot>, writers: map<nat, Stage>, written: set<nat>, i: nat)
    requires Newest(slots, writers, written) && i in writers && writers[i].Current?
    ensures slots[SlotOf(i)].id <= i + 1
  {
    hide SlotOf;
  }

  lemma StepKeepsIds(r: Ring, step: Step, s: nat)
    requires Safe(r) && Enabled(r, step) && s < CAPACITY
    ensures r.slots[s].id <= Next(r, step).slots[s].id
  {
    hide Settled, Exclusive, Genuine, Newest, Faithful, SlotOf, Guarded;
    match step
    case Reserve(_) =>
    case RaiseFlag(i) =>
    case Compare(i) =>
    case Store(i) =>
      CurrentId(r.slots, r.writers, r.written, i);
    case CountDrop(i) =>
    case LowerFlag(i) =>
    case ReadBegin(_) =>
    case ReadCopy(_) =>
    case ReadEnd(_) =>
  }

  /** In every interleaving the id of a slot never decreases. */
  lemma {:induction false} IdsNeverDecrease(states: seq<Ring>, steps: seq<Step>, i: nat, j: nat, s: nat)
    requires Run(states, steps) && i <= j < |states| && s < CAPACITY
    ensures |states[i].slots| == |states[j].slots| == CAPACITY
    ensures states[i].slots[s].id <= states[j].slots[s].id
    decreases j
  {
    hide Next, Enabled, Empty, Settled, Exclusive, Genuine, Newest;
    AlwaysSafe(states, steps, i);
    AlwaysSafe(states, steps, j);
    if i < j {
      IdsNeverDecrease(states, steps, i, j - 1, s);
      AlwaysSafe(states, steps, j - 1);
      MoveAt(states, steps, j - 1);
      StepKeepsIds(states[j - 1], steps[j - 1], s);
    }
  }

  lemma MoveAt(states: seq<Ring>, steps: seq<Step>, k: nat)
    requires Run(states, steps) && k < |steps|
    ensures Moves(states[k], steps[k], states[k + 1])
  {
  }

  /** Calls still under way. */
  ghost function Open(r: Ring): set<nat> {
    set i | i in r.writers && !r.writers[i].Leaving?
  }

  function Below(n: nat): (s: set<nat>)
    ensures |s| == n && forall i: nat :: i in s <==> i < n
  {
    if n == 0 then {} else Below(n - 1) + {n - 1}
  }

  /** In every interleaving each call stored its evidence, counted one drop, or is still under way. */
  lemma EveryCallCounted(states: seq<Ring>, steps: seq<Step>, k: nat)
    requires Run(states, steps) && k < |states|
    ensures var r := states[k];
            && r.next == |r.written| + r.dropped + |Open(r)|
            && r.written !! r.lost && |r.lost| == r.dropped
  {
    hide Exclusive, Genuine, Newest, Next, Enabled, Empty, Run;
    AlwaysSafe(states, steps, k);
    var r := states[k];
    var settled := r.written + r.lost;
    assert |settled| == |r.written| + |r.lost|;
    assert settled !! Open(r) && settled + Open(r) == Below(r.next);
    assert |settled + Open(r)| == |settled| + |Open(r)|;
  }

  /** While a reader holds the flag of a slot nothing in it changes, so a copy made word by word is one. */
  lemma StillWhileRead(r: Ring, step: Step, s: nat)
    requires Safe(r) && Enabled(r, step) && s < CAPACITY && r.slots[s].holder.ByReader? && step != ReadEnd(s)
    ensures Next(r, step).slots[s] == r.slots[s]
  {
    hide Settled, Genuine, Newest, Faithful, Exclusive, SlotOf;
    match step
    case Reserve(_) =>
    case RaiseFlag(i) =>
    case Compare(i) =>
    case Store(i) =>
      HeldByItsWriter(r.writers, r.slots, i);
    case CountDrop(i) =>
    case LowerFlag(i) =>
      HeldByItsWriter(r.writers, r.slots, i);
    case ReadBegin(_) =>
    case ReadCopy(_) =>
    case ReadEnd(_) =>
  }

  lemma HeldByItsWriter(writers: map<nat, Stage>, slots: seq<Slot>, i: nat)
    requires Exclusive(writers, slots) && i in writers && Guarded(writers[i])
    ensures slots[SlotOf(i)].holder == ByWriter(i)
  {
    hide SlotOf, Guarded;
  }

  /** Under every interleaving what a reader copied is, if the slot was filled, the evidence of the very call
      whose id came with it. */
  lemma ReadIsGenuine(states: seq<Ring>, steps: seq<Step>, k: nat, c: Copy)
    requires Run(states, steps) && k < |states| && c in states[k].copies && c.id != 0
    ensures var r := states[k];
            c.id <= r.next == |r.log| && SlotOf(c.id - 1) == c.slot && c.value == r.log[c.id - 1]
  {
    hide Exclusive, Newest, Genuine, Next, Enabled, Empty, Run, Settled, SlotOf;
    AlwaysSafe(states, steps, k);
  }

  /** Once every call has finished and none was dropped, each of the last 2048 is in its slot. */
  lemma QuietRingIsComplete(states: seq<Ring>, steps: seq<Step>, k: nat, index: nat)
    requires Run(states, steps) && k < |states|
    requires states[k].writers == map[] && states[k].dropped == 0
    requires index < states[k].next <= index + CAPACITY
    ensures |states[k].slots| == CAPACITY && |states[k].log| == states[k].next
    ensures var slot := states[k].slots[SlotOf(index)];
            !slot.holder.ByWriter? && slot.id == index + 1 && slot.value == states[k].log[index]
  {
    hide *;
    AlwaysSafe(states, steps, k);
    Quiet(states[k], index);
  }

  lemma Quiet(r: Ring, index: nat)
    requires Safe(r) && r.writers == map[] && r.dropped == 0 && index < r.next <= index + CAPACITY
    ensures |r.slots| == CAPACITY && |r.log| == r.next
    ensures var slot := r.slots[SlotOf(index)];
            !slot.holder.ByWriter? && slot.id == index + 1 && slot.value == r.log[index]
  {
    hide SlotOf, Settled, Exclusive, Genuine, Newest;
    var s := SlotOf(index);
    assert r.lost == {};
    QuietStored(r, index);
    QuietSlot(r, s);
    QuietNewest(r, index);
    QuietBound(r, r.slots[s].id);
    if r.slots[s].id > index + 1 {
      TurnApart(index, r.slots[s].id - 1);
    }
  }

  lemma QuietSlot(r: Ring, s: nat)
    requires |r.slots| == CAPACITY && s < CAPACITY && r.writers == map[]
    requires Exclusive(r.writers, r.slots) && Genuine(r.slots, r.log, r.written)
    ensures !r.slots[s].holder.ByWriter?
    ensures r.slots[s].id != 0 ==>
      var i := r.slots[s].id - 1; i in r.written && SlotOf(i) == s && i < |r.log| && r.slots[s].value == r.log[i]
  {
  }

  lemma QuietNewest(r: Ring, index: nat)
    requires |r.slots| == CAPACITY && Newest(r.slots, r.writers, r.written) && index in r.written
    ensures r.slots[SlotOf(index)].id >= index + 1
  {
  }

  lemma QuietStored(r: Ring, index: nat)
    requires Settled(r.next, r.writers, r.written, r.lost) && r.writers == map[] && r.lost == {} && index < r.next
    ensures index in r.written
  {
  }

  lemma QuietBound(r: Ring, id: nat)
    requires Settled(r.next, r.writers, r.written, r.lost)
    ensures id != 0 && id - 1 in r.written ==> id <= r.next
  {
  }

  // ---- a run of any length -------------------------------------------------------------

  ghost predicate AtRest(r: Ring) {
    && Safe(r) && r.writers == map[] && r.dropped == 0
    && forall s :: 0 <= s < |r.slots| ==> r.slots[s].holder.Free?
  }

  lemma Append(states: seq<Ring>, steps: seq<Step>, r: Ring, step: Step)
    returns (longer: seq<Ring>, more: seq<Step>, n: Ring)
    requires Run(states, steps) && r == states[|states| - 1] && Safe(r) && Enabled(r, step)
    ensures Run(longer, more) && n == longer[|longer| - 1] == Next(r, step)
  {
    n := Next(r, step);
    hide Next, Enabled, Empty, Exclusive, Genuine, Newest, Faithful, SlotOf;
    longer, more := states + [n], steps + [step];
    assert Moves(r, step, n);
    hide Moves, Safe;
    forall k | 0 <= k < |more| ensures Moves(longer[k], more[k], longer[k + 1]) {
      if k < |steps| {
        assert Moves(states[k], steps[k], states[k + 1]);
      }
    }
  }

  /** One undisturbed call: reserve, raise the flag, compare, store, lower the flag. */
  lemma UndisturbedCall(r: Ring, e: Evidence)
    requires AtRest(r)
    ensures var i := r.next;
            var a := Next(r, Reserve(e));
            && Enabled(a, RaiseFlag(i)) && Safe(a)
            && var b := Next(a, RaiseFlag(i));
               && Enabled(b, Compare(i)) && Safe(b)
               && var c := Next(b, Compare(i));
                  && Enabled(c, Store(i)) && Safe(c)
                  && var d := Next(c, Store(i));
                     && Enabled(d, LowerFlag(i)) && Safe(d)
                     && var n := Next(d, LowerFlag(i)); AtRest(n) && n.next == i + 1
  {
    hide SlotOf, Settled, Exclusive, Genuine, Newest, Faithful;
    var i := r.next;
    OldIds(r, i);
    StepSafe(r, Reserve(e));
    var a := Next(r, Reserve(e));
    StepSafe(a, RaiseFlag(i));
    var b := Next(a, RaiseFlag(i));
    StepSafe(b, Compare(i));
    var c := Next(b, Compare(i));
    StepSafe(c, Store(i));
    var d := Next(c, Store(i));
    StepSafe(d, LowerFlag(i));
    assert Next(d, LowerFlag(i)).writers == map[];
  }

  lemma OldIds(r: Ring, i: nat)
    requires Safe(r) && i == r.next
    ensures r.slots[SlotOf(i)].id <= i
  {
    hide SlotOf, Exclusive, Newest;
  }

  /** There are runs at rest of any length with nothing dropped. */
  lemma {:induction false} RestingRun(n: nat, e: Evidence) returns (states: seq<Ring>, steps: seq<Step>)
    ensures |states| > 0 && Run(states, steps) && AtRest(states[|states| - 1]) && states[|states| - 1].next == n
  {
    hide Next, Enabled, SlotOf, Safe, AtRest;
    if n == 0 {
      states, steps := [Empty()], [];
      EmptyAtRest();
    } else {
      states, steps := RestingRun(n - 1, e);
      var r := states[|states| - 1];
      RestIsSafe(r, e);
      UndisturbedCall(r, e);
      var i := r.next;
      var a, b, c, d, z;
      states, steps, a := Append(states, steps, r, Reserve(e));
      states, steps, b := Append(states, steps, a, RaiseFlag(i));
      states, steps, c := Append(states, steps, b, Compare(i));
      states, steps, d := Append(states, steps, c, Store(i));
      states, steps, z := Append(states, steps, d, LowerFlag(i));
    }
  }

  lemma RestIsSafe(r: Ring, e: Evidence)
    requires AtRest(r)
    ensures Safe(r) && Enabled(r, Reserve(e))
  {
  }

  lemma EmptyAtRest()
    ensures AtRest(Empty())
  {
    EmptySafe();
  }
}
