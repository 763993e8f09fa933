/** The broker's proxy of one keyboard: input events are decided, applied to the key state, and
    written to the virtual keyboard in whole frames. A lost input frame rolls speculation back. */
module Broker {
  import opened Wrappers
  import opened Protocol
  import opened KeyOwnership

  const FRAME_BOUND: nat := 256
  const U64: nat := 0x1_0000_0000_0000_0000

  /** `frames` is every frame the virtual keyboard has accepted. */
  datatype Proxy = Proxy(generation: nat, keys: Keys, pending: seq<RawEvent>, epoch: nat, sequence: nat,
                         frames: seq<seq<RawEvent>>)

  function NewProxy(generation: nat): Proxy {
    Proxy(generation, NoKeys(), [], 1, 0, [])
  }

  /** One input event and everything the outside world answers while it is processed: whether the
      session still authorises capture, the daemon's reply, the kernel's key state, how many control
      messages in a row are acknowledged, and whether the virtual keyboard accepts a frame. */
  datatype Input = Input(event: RawEvent, authorized: bool, reply: Option<Message>, keyState: Option<set<nat>>,
                         acknowledged: nat, writable: bool)

  /** Only an echoed pass or swallow decision of this very request is admitted. */
  function AdmittedDecision(request: Message, reply: Message): Option<Operation> {
    if (reply.operation == Pass || reply.operation == Swallow) && reply.Answers(request) && reply.event == request.event
    then Some(reply.operation) else None
  }

  /** Appends events to the pending frame; a report writes the frame and commits. */
  function Emit(p: Proxy, events: seq<RawEvent>, writable: bool): (Proxy, bool)
    decreases |events|
  {
    if |events| == 0 then (p, true)
    else
      var e := events[0];
      if IsReport(e) then
        if !writable then (p, false)
        else Emit(p.(frames := p.frames + [p.pending], keys := CommitOutput(p.keys), pending := []), events[1..],
            writable)
      else if e.eventType != 0 then
        if |p.pending| >= FRAME_BOUND then (p, false) else Emit(p.(pending := p.pending + [e]), events[1..], writable)
      else Emit(p, events[1..], writable)
  }

  /** What one input event comes to before anything is emitted: a failure, or the state to emit from,
      the events to emit, and whether a report ends the frame at once. */
  datatype Prepared = Failed(proxy: Proxy) | Ready(proxy: Proxy, events: seq<RawEvent>, report: bool)

  function Prepare(p: Proxy, x: Input): Prepared {
    if !x.authorized then Failed(p)
    else if p.keys.dropping && IsReport(x.event) then Recover(p, x)
    else if p.sequence + 1 >= U64 then Failed(p)
    else
      var q := p.(sequence := p.sequence + 1);
      var decision := Decide(q, x);
      if decision.None? then Failed(q)
      else
        var r := if IsDropped(x.event) then q.(pending := [], keys := RollbackOutput(q.keys)) else q;
        var (keys, events) := Apply(r.keys, x.event, decision.value);
        Ready(r.(keys := keys), events, false)
  }

  function Decide(q: Proxy, x: Input): Option<Operation> {
    if x.event.eventType == 1 && !q.keys.dropping then
      if x.reply.None? then None
      else AdmittedDecision(Message(Event, q.generation, q.epoch, q.sequence, x.event), x.reply.value)
    else Some(Pass)
  }

  /** The report after a loss: query the kernel, advance the epoch, resynchronise both sides, and
      only then write the reconciling frame. */
  function Recover(p: Proxy, x: Input): Prepared {
    if x.keyState.None? || p.epoch + 1 >= U64 then Failed(p)
    else
      var (keys, events) := Resync(p.keys, x.keyState.value);
      var (sequence, acknowledged) := Controls(p.sequence, 1 + |x.keyState.value|, x.acknowledged);
      var q := p.(epoch := p.epoch + 1, keys := keys, sequence := sequence);
      if acknowledged then Ready(q, events, true) else Failed(q)
  }

  /** The sequence number after up to `n` control messages, and whether all of them were acknowledged. */
  function Controls(sequence: nat, n: nat, acknowledged: nat): (nat, bool)
    decreases n
  {
    if n == 0 then (sequence, true)
    else if sequence + 1 >= U64 then (sequence, false)
    else if acknowledged == 0 then (sequence + 1, false)
    else Controls(sequence + 1, n - 1, acknowledged - 1)
  }

  lemma {:induction false} ControlsCount(sequence: nat, n: nat, acknowledged: nat)
    ensures Controls(sequence, n, acknowledged).1 <==> n == 0 || (acknowledged >= n && sequence + n < U64)
    ensures Controls(sequence, n, acknowledged).1 ==> Controls(sequence, n, acknowledged).0 == sequence + n
    decreases n
  {
    if n != 0 && sequence + 1 < U64 && acknowledged != 0 {
      ControlsCount(sequence + 1, n - 1, acknowledged - 1);
    }
  }

  /** One iteration of the pump. A false result tears the proxy down. */
  function PumpEvent(p: Proxy, x: Input): (Proxy, bool) {
    match Prepare(p, x)
    case Failed(q) => (q, false)
    case Ready(q, events, report) =>
      var (r, ok) := Emit(q, events, x.writable);
      if ok && report then Emit(r, [RawEvent(0, 0, 0)], x.writable) else (r, ok)
  }

  /** Best-effort release of everything this proxy may have left down. */
  function Bypass(p: Proxy, writable: bool): Proxy {
    var (keys, releases) := ReleaseAll(p.keys);
    Emit(p.(pending := [], keys := keys), releases + [RawEvent(0, 0, 0)], writable).0
  }

  // ---- what the consumer sees ---------------------------------------------------------

  function Feel(held: set<nat>, e: RawEvent): set<nat> {
    if e.eventType != 1 then held
    else if e.value == 1 then held + {e.code}
    else if e.value == 0 then held - {e.code}
    else held
  }

  /** A down only for a key the consumer does not hold; anything else only for one it does. */
  predicate Fits(held: set<nat>, e: RawEvent) {
    e.eventType == 1 ==> (e.value == 1 <==> e.code !in held)
  }

  function Replay(held: set<nat>, events: seq<RawEvent>): set<nat>
    decreases |events|
  {
    if |events| == 0 then held else Replay(Feel(held, events[0]), events[1..])
  }

  predicate Balanced(held: set<nat>, events: seq<RawEvent>)
    decreases |events|
  {
    |events| == 0 || (Fits(held, events[0]) && Balanced(Feel(held, events[0]), events[1..]))
  }

  /** The keys the consumer holds after a sequence of frames. */
  function Consumer(frames: seq<seq<RawEvent>>): set<nat> {
    if |frames| == 0 then {} else Replay(Consumer(frames[..|frames| - 1]), frames[|frames| - 1])
  }

  predicate AllBalanced(frames: seq<seq<RawEvent>>) {
    |frames| == 0 || (AllBalanced(frames[..|frames| - 1])
        && Balanced(Consumer(frames[..|frames| - 1]), frames[|frames| - 1]))
  }

  lemma {:induction false} ReplayAppend(held: set<nat>, a: seq<RawEvent>, b: seq<RawEvent>)
    ensures Replay(held, a + b) == Replay(Replay(held, a), b)
    ensures Balanced(held, a + b) == (Balanced(held, a) && Balanced(Replay(held, a), b))
    decreases |a|
  {
    if |a| == 0 {
      assert a + b == b;
    } else {
      assert (a + b)[1..] == a[1..] + b;
      ReplayAppend(Feel(held, a[0]), a[1..], b);
    }
  }

  lemma ReplayOne(held: set<nat>, e: RawEvent)
    ensures Replay(held, [e]) == Feel(held, e) && Balanced(held, [e]) == Fits(held, e)
  {
    assert [e][1..] == [];
  }

  lemma FramesAppend(frames: seq<seq<RawEvent>>, f: seq<RawEvent>)
    ensures Consumer(frames + [f]) == Replay(Consumer(frames), f)
    ensures AllBalanced(frames + [f]) == (AllBalanced(frames) && Balanced(Consumer(frames), f))
  {
    assert (frames + [f])[..|frames + [f]| - 1] == frames;
  }

  // ---- the invariant ------------------------------------------------------------------

  /** The consumer holds exactly the committed keys, the pending frame takes them to the speculative
      output, and every frame ever written was balanced. */
  predicate Accounted(p: Proxy) {
    && AllBalanced(p.frames)
    && Consumer(p.frames) == p.keys.committed
    && Balanced(p.keys.committed, p.pending)
    && Replay(p.keys.committed, p.pending) == p.keys.output
  }

  /** Outside a lost frame, speculative output is physically held; inside one nothing is pending. A
      swallowed key is in the output only if the consumer still has it from before. */
  predicate Anchored(p: Proxy) {
    && (if p.keys.dropping then p.pending == [] && p.keys.output == p.keys.committed
        else p.keys.output <= p.keys.physical && p.keys.swallowed <= p.keys.physical)
    && Leftover(p.keys)
  }

  predicate Leftover(s: Keys) {
    s.swallowed * s.output <= s.committed
  }

  predicate Bounded(p: Proxy) {
    (forall k :: k in p.keys.output ==> k <= MAX_KEY) && (forall k :: k in p.keys.committed ==> k <= MAX_KEY)
  }

  predicate Sound(p: Proxy) {
    Accounted(p) && Anchored(p) && Bounded(p)
  }

  /** What even a failing step leaves behind: the frames written so far account for what the
      consumer holds. */
  predicate Committed(p: Proxy) {
    AllBalanced(p.frames) && Consumer(p.frames) == p.keys.committed && Bounded(p)
  }

  lemma ApplyFits(s: Keys, e: RawEvent, decision: Operation)
    requires !s.dropping ==> s.output <= s.physical && s.swallowed <= s.physical
    ensures var (t, events) := Apply(s, e, decision);
            && |events| <= 1 && t.committed == s.committed
            && (|events| == 0 ==> t.output == s.output)
            && (|events| == 1 ==> events[0] == e && Fits(s.output, e) && Feel(s.output, e) == t.output && !t.dropping)
            && (!t.dropping ==> t.output <= t.physical && t.swallowed <= t.physical)
            && (t.dropping ==> s.dropping || IsDropped(e))
            && (forall k :: k in t.output ==> k in s.output || k <= MAX_KEY)
            && (Leftover(s) ==> Leftover(t))
  {
  }

  /** Appending one event to the pending frame. */
  lemma EmitOne(p: Proxy, keys: Keys, e: RawEvent, writable: bool)
    requires Accounted(p) && Bounded(p) && keys.committed == p.keys.committed && !keys.dropping
    requires keys.output <= keys.physical && keys.swallowed <= keys.physical && Leftover(keys)
    requires Fits(p.keys.output, e) && Feel(p.keys.output, e) == keys.output
    requires forall k :: k in keys.output ==> k <= MAX_KEY
    ensures var (q, ok) := Emit(p.(keys := keys), [e], writable);
            Committed(q) && (ok ==> Sound(q))
  {
    ReplayAppend(p.keys.committed, p.pending, [e]);
    ReplayOne(p.keys.output, e);
    FramesAppend(p.frames, p.pending);
    var q := p.(keys := keys);
    assert [e][1..] == [];
    if IsReport(e) {
      assert keys.output == p.keys.output;
      assert Emit(q, [e], true)
          == (q.(frames := p.frames + [p.pending], keys := CommitOutput(keys), pending := []), true);
    } else if e.eventType != 0 {
      assert |p.pending| < FRAME_BOUND ==> Emit(q, [e], writable) == (q.(pending := p.pending + [e]), true);
    } else {
      assert Emit(q, [e], writable) == (q, true);
    }
  }

  /** Input that is not the report ending a loss. */
  lemma OrdinaryEvent(p: Proxy, x: Input)
    requires Sound(p) && !(p.keys.dropping && IsReport(x.event))
    ensures var (q, ok) := PumpEvent(p, x);
            Committed(q) && (ok ==> Sound(q))
  {
    var q := p.(sequence := p.sequence + 1);
    var decision := Decide(q, x);
    if x.authorized && p.sequence + 1 < U64 && decision.Some? {
      var r := if IsDropped(x.event) then q.(pending := [], keys := RollbackOutput(q.keys)) else q;
      var (keys, events) := Apply(r.keys, x.event, decision.value);
      if IsDropped(x.event) {
        assert keys == r.keys.(dropping := true) && events == [];
      } else {
        ApplyFits(r.keys, x.event, decision.value);
        if |events| == 1 {
          assert events == [x.event];
          EmitOne(r, keys, x.event, x.writable);
        }
      }
    }
  }

  // ---- resynchronisation --------------------------------------------------------------

  function Below(keys: set<nat>, n: nat): set<nat> {
    set k | k in keys && k < n
  }

  lemma EventsGrow(codes: seq<nat>, code: nat, value: int)
    ensures Events(codes + [code], value) == Events(codes, value) + [Key(code, value)]
  {
  }

  lemma {:induction false} ReleasesReplay(held: set<nat>, keys: set<nat>, n: nat)
    requires keys <= held
    ensures var events := Events(Ascending(keys, n), 0);
            Balanced(held, events) && Replay(held, events) == held - Below(keys, n)
  {
    if n > 0 {
      ReleasesReplay(held, keys, n - 1);
      if n - 1 in keys {
        EventsGrow(Ascending(keys, n - 1), n - 1, 0);
        ReplayAppend(held, Events(Ascending(keys, n - 1), 0), [Key(n - 1, 0)]);
        ReplayOne(held - Below(keys, n - 1), Key(n - 1, 0));
        assert Below(keys, n) == Below(keys, n - 1) + {n - 1};
      } else {
        assert Ascending(keys, n) == Ascending(keys, n - 1) && Below(keys, n) == Below(keys, n - 1);
      }
    }
  }

  lemma {:induction false} DownsReplay(held: set<nat>, keys: set<nat>, n: nat)
    requires keys !! held
    ensures var events := Events(Ascending(keys, n), 1);
            Balanced(held, events) && Replay(held, events) == held + Below(keys, n)
  {
    if n > 0 {
      DownsReplay(held, keys, n - 1);
      if n - 1 in keys {
        EventsGrow(Ascending(keys, n - 1), n - 1, 1);
        ReplayAppend(held, Events(Ascending(keys, n - 1), 1), [Key(n - 1, 1)]);
        var mid := held + Below(keys, n - 1);
        ReplayOne(mid, Key(n - 1, 1));
        assert n - 1 !in mid && mid + {n - 1} == held + Below(keys, n);
        hide Below;
      } else {
        assert Ascending(keys, n) == Ascending(keys, n - 1) && Below(keys, n) == Below(keys, n - 1);
      }
    }
  }

  /** The reconciling events take the consumer from the committed keys to the new output. */
  lemma ResyncReplay(s: Keys, keys: set<nat>)
    requires forall k :: k in s.output ==> k <= MAX_KEY
    ensures var (t, events) := Resync(s, keys);
            Balanced(s.output, events) && Replay(s.output, events) == t.output
  {
    var gone, found := s.output - keys, Discovered(s, keys);
    ReleasesReplay(s.output, gone, CODES);
    assert Below(gone, CODES) == gone && Below(found, CODES) == found;
    assert s.output - gone == s.output * keys;
    DownsReplay(s.output - gone, found, CODES);
    ReplayAppend(s.output, Events(Ascending(gone, CODES), 0), Events(Ascending(found, CODES), 1));
  }

  /** Key events only fill the pending frame, up to its bound. */
  lemma {:induction false} EmitKeys(p: Proxy, events: seq<RawEvent>, writable: bool)
    requires forall i :: 0 <= i < |events| ==> events[i].eventType == 1
    ensures var (q, ok) := Emit(p, events, writable);
            && q == p.(pending := q.pending)
            && (ok <==> |events| == 0 || |p.pending| + |events| <= FRAME_BOUND)
            && (ok ==> q.pending == p.pending + events)
    decreases |events|
  {
    if |events| != 0 && |p.pending| < FRAME_BOUND {
      EmitKeys(p.(pending := p.pending + [events[0]]), events[1..], writable);
      assert p.pending + [events[0]] + events[1..] == p.pending + events;
    }
  }

  lemma EmitReport(p: Proxy, writable: bool)
    ensures Emit(p, [RawEvent(0, 0, 0)], writable)
         == if writable then (p.(frames := p.frames + [p.pending], keys := CommitOutput(p.keys), pending := []), true)
             else (p, false)
  {
    assert [RawEvent(0, 0, 0)][1..] == [];
  }

  lemma ResyncShape(s: Keys, keys: set<nat>)
    requires forall k :: k in s.output ==> k <= MAX_KEY
    ensures var t := Resync(s, keys).0;
            && t.committed == s.committed && !t.dropping && t.output <= t.physical && t.swallowed <= t.physical
            && forall k :: k in t.output ==> k <= MAX_KEY
    ensures forall e :: e in Resync(s, keys).1 ==> e.eventType == 1
  {
    hide Ascending;
  }

  lemma RecoverEvent(p: Proxy, x: Input)
    requires Sound(p) && p.keys.dropping
    ensures IsReport(x.event) ==> var (q, ok) := PumpEvent(p, x); Committed(q) && (ok ==> Sound(q))
  {
    hide Emit, Resync, AllBalanced, Consumer, Balanced, Replay, Controls;
    if x.keyState.Some? && p.epoch + 1 < U64 {
      var (keys, events) := Resync(p.keys, x.keyState.value);
      var sequence := Controls(p.sequence, 1 + |x.keyState.value|, x.acknowledged).0;
      var q := p.(epoch := p.epoch + 1, keys := keys, sequence := sequence);
      ResyncShape(p.keys, x.keyState.value);
      ResyncReplay(p.keys, x.keyState.value);
      EmitKeys(q, events, x.writable);
      EmitReport(Emit(q, events, x.writable).0, x.writable);
      assert q.pending + events == events;
      FrameWritten(q, events);
    }
  }

  /** Writing the reconciling frame settles the account. */
  lemma FrameWritten(q: Proxy, events: seq<RawEvent>)
    requires AllBalanced(q.frames) && Consumer(q.frames) == q.keys.committed && Bounded(q)
    requires Balanced(q.keys.committed, events) && Replay(q.keys.committed, events) == q.keys.output
    requires !q.keys.dropping && q.keys.output <= q.keys.physical && q.keys.swallowed <= q.keys.physical
    ensures Sound(q.(frames := q.frames + [events], keys := CommitOutput(q.keys), pending := []))
  {
    FramesAppend(q.frames, events);
    Nothing(q.keys.output);
  }

  lemma Nothing(held: set<nat>)
    ensures Replay(held, []) == held && Balanced(held, [])
  {
  }

  /** Every pumped event keeps the account, and a failing one still leaves the consumer's keys known. */
  lemma PumpKeepsAccount(p: Proxy, x: Input)
    requires Sound(p)
    ensures var (q, ok) := PumpEvent(p, x);
            Committed(q) && (ok ==> Sound(q))
  {
    if p.keys.dropping && IsReport(x.event) { RecoverEvent(p, x); } else { OrdinaryEvent(p, x); }
  }

  // ---- whole runs ---------------------------------------------------------------------

  /** The proxy after a batch of events, stopping at the first failure. */
  function Pump(p: Proxy, inputs: seq<Input>): (Proxy, bool)
    decreases |inputs|
  {
    if |inputs| == 0 then (p, true)
    else
      var (q, ok) := PumpEvent(p, inputs[0]);
      if ok then Pump(q, inputs[1..]) else (q, false)
  }

  /** Frame balance over every run of the pump, across losses and resynchronisations: the consumer
      always holds exactly the committed keys, and every frame ever written pressed only keys it did
      not hold and released or repeated only keys it did. */
  lemma {:induction false} FrameBalance(p: Proxy, inputs: seq<Input>)
    requires Sound(p)
    ensures var (q, ok) := Pump(p, inputs);
            && AllBalanced(q.frames) && Consumer(q.frames) == q.keys.committed && Bounded(q)
            && (ok ==> Sound(q))
    decreases |inputs|
  {
    if |inputs| != 0 {
      PumpKeepsAccount(p, inputs[0]);
      var (q, ok) := PumpEvent(p, inputs[0]);
      if ok { FrameBalance(q, inputs[1..]); }
    }
  }

  lemma NewProxyIsSound(generation: nat)
    ensures Sound(NewProxy(generation))
  {
  }

  // ---- tear-down ----------------------------------------------------------------------

  lemma {:induction false} UpsClear(held: set<nat>, keys: set<nat>, n: nat)
    ensures Replay(held, Events(Ascending(keys, n), 0)) == held - Below(keys, n)
  {
    if n > 0 {
      UpsClear(held, keys, n - 1);
      if n - 1 in keys {
        EventsGrow(Ascending(keys, n - 1), n - 1, 0);
        ReplayAppend(held, Events(Ascending(keys, n - 1), 0), [Key(n - 1, 0)]);
        ReplayOne(held - Below(keys, n - 1), Key(n - 1, 0));
        assert Below(keys, n) == Below(keys, n - 1) + {n - 1};
      } else {
        assert Ascending(keys, n) == Ascending(keys, n - 1) && Below(keys, n) == Below(keys, n - 1);
      }
    }
  }

  lemma {:induction false} AscendingCount(keys: set<nat>, n: nat)
    ensures |Ascending(keys, n)| == |Below(keys, n)|
  {
    if n > 0 {
      AscendingCount(keys, n - 1);
      if n - 1 in keys { assert Below(keys, n) == Below(keys, n - 1) + {n - 1}; }
      else { assert Below(keys, n) == Below(keys, n - 1); }
    } else {
      assert Below(keys, 0) == {};
    }
  }

  /** Tear-down leaves the consumer holding nothing exactly when it held nothing already, or the
      virtual keyboard takes the frame and the owned keys fit in it. */
  lemma BypassReleases(p: Proxy, writable: bool)
    requires Committed(p)
    ensures Consumer(Bypass(p, writable).frames) == {} <==>
              Consumer(p.frames) == {} || (writable && |p.keys.output + p.keys.committed| <= FRAME_BOUND)
  {
    var owned := p.keys.output + p.keys.committed;
    var releases := ReleaseAll(p.keys).1;
    var q := p.(pending := [], keys := NoKeys());
    assert Below(owned, CODES) == owned;
    AscendingCount(owned, CODES);
    UpsClear(p.keys.committed, owned, CODES);
    assert p.keys.committed - owned == {};
    EmitThenReport(q, releases, writable);
    assert [] + releases == releases;
    FramesAppend(p.frames, releases);
  }

  lemma {:induction false} EmitThenReport(p: Proxy, events: seq<RawEvent>, writable: bool)
    requires forall i :: 0 <= i < |events| ==> events[i].eventType == 1
    ensures var q := Emit(p, events + [RawEvent(0, 0, 0)], writable).0;
            if writable && (|events| == 0 || |p.pending| + |events| <= FRAME_BOUND)
                then q.frames == p.frames + [p.pending + events]
            else q.frames == p.frames
    decreases |events|
  {
    if |events| == 0 {
      assert events + [RawEvent(0, 0, 0)] == [RawEvent(0, 0, 0)] && p.pending + events == p.pending;
      EmitReport(p, writable);
    } else if |p.pending| < FRAME_BOUND {
      assert (events + [RawEvent(0, 0, 0)])[1..] == events[1..] + [RawEvent(0, 0, 0)];
      EmitThenReport(p.(pending := p.pending + [events[0]]), events[1..], writable);
      assert p.pending + [events[0]] + events[1..] == p.pending + events;
    }
  }

  /** The tear-down frame may release a key the consumer never saw go down: exactly when some
      speculative press was not yet committed. */
  lemma BypassFrameBalance(p: Proxy)
    requires Bounded(p)
    ensures Balanced(p.keys.committed, ReleaseAll(p.keys).1) <==> p.keys.output <= p.keys.committed
  {
    var owned := p.keys.output + p.keys.committed;
    if p.keys.output <= p.keys.committed {
      assert owned == p.keys.committed;
      ReleasesReplay(p.keys.committed, owned, CODES);
    } else {
      var k :| k in p.keys.output && k !in p.keys.committed;
      StrayUp(p.keys.committed, owned, k, CODES);
    }
  }

  lemma {:induction false} StrayUp(held: set<nat>, keys: set<nat>, k: nat, n: nat)
    requires k in keys && k !in held && k < n
    ensures !Balanced(held, Events(Ascending(keys, n), 0))
  {
    if n - 1 in keys {
      EventsGrow(Ascending(keys, n - 1), n - 1, 0);
      ReplayAppend(held, Events(Ascending(keys, n - 1), 0), [Key(n - 1, 0)]);
      if k < n - 1 {
        StrayUp(held, keys, k, n - 1);
      } else {
        UpsClear(held, keys, n - 1);
        ReplayOne(held - Below(keys, n - 1), Key(n - 1, 0));
      }
    } else {
      assert Ascending(keys, n) == Ascending(keys, n - 1);
      StrayUp(held, keys, k, n - 1);
    }
  }

  // ---- swallowed keys -----------------------------------------------------------------

  /** A swallowed key the consumer does not have. */
  predicate Hidden(p: Proxy, k: nat) {
    k in p.keys.swallowed && k !in p.keys.committed
  }

  /** The input does not say the key was released: no release event outside a loss, and a kernel
      query after a loss that still reports it down. */
  predicate StillDown(p: Proxy, x: Input, k: nat) {
    && (p.keys.dropping || x.event != Key(k, 0))
    && (p.keys.dropping && IsReport(x.event) && x.keyState.Some? ==> k in x.keyState.value)
  }

  /** What one pumped event hands to the output. */
  function Emitted(p: Proxy, x: Input): seq<RawEvent> {
    var prepared := Prepare(p, x);
    if prepared.Ready? then prepared.events else []
  }

  predicate Mentions(events: seq<RawEvent>, k: nat) {
    exists i :: 0 <= i < |events| && events[i].eventType == 1 && events[i].code == k
  }

  lemma {:induction false} AscendingMembers(keys: set<nat>, n: nat, k: nat)
    ensures k in Ascending(keys, n) ==> k in keys
  {
    if n > 0 { AscendingMembers(keys, n - 1, k); }
  }

  lemma ResyncHides(s: Keys, keys: set<nat>, k: nat)
    requires k in s.swallowed && k !in s.output
    ensures !Mentions(Resync(s, keys).1, k)
    ensures k in keys ==> k in Resync(s, keys).0.swallowed && k !in Resync(s, keys).0.output
  {
    AscendingMembers(s.output - keys, CODES, k);
    AscendingMembers(Discovered(s, keys), CODES, k);
  }

  /** The frame of a teardown. */
  predicate TornDownSilently(p: Proxy, k: nat) {
    !Mentions(ReleaseAll(p.keys).1, k)
  }

  lemma TeardownHides(p: Proxy, k: nat)
    requires k !in p.keys.output && k !in p.keys.committed
    ensures TornDownSilently(p, k)
  {
    AscendingMembers(p.keys.output + p.keys.committed, CODES, k);
  }

  /** Emission only appends and commits: it never changes what is swallowed or speculative. */
  lemma {:induction false} EmitKeepsKeys(p: Proxy, events: seq<RawEvent>, writable: bool)
    ensures var q := Emit(p, events, writable).0;
            && q.keys == p.keys.(committed := q.keys.committed)
            && (q.keys.committed == p.keys.committed || q.keys.committed == p.keys.output)
    decreases |events|
  {
    if |events| != 0 {
      var e := events[0];
      if IsReport(e) {
        EmitKeepsKeys(p.(frames := p.frames + [p.pending], keys := CommitOutput(p.keys), pending := []), events[1..],
            writable);
      } else if e.eventType != 0 {
        EmitKeepsKeys(p.(pending := p.pending + [e]), events[1..], writable);
      } else {
        EmitKeepsKeys(p, events[1..], writable);
      }
    }
  }

  /** Swallowed and known to nobody downstream. */
  predicate Unknown(s: Keys, k: nat) {
    k in s.swallowed && k !in s.output && k !in s.committed
  }

  function PreparedProxy(p: Proxy, x: Input): Proxy {
    match Prepare(p, x)
    case Failed(q) => q
    case Ready(q, _, _) => q
  }

  lemma PrepareHides(p: Proxy, x: Input, k: nat)
    requires Anchored(p) && Hidden(p, k) && StillDown(p, x, k)
    ensures !Mentions(Emitted(p, x), k) && Unknown(PreparedProxy(p, x).keys, k)
  {
    if p.keys.dropping && IsReport(x.event) && x.keyState.Some? { ResyncHides(p.keys, x.keyState.value, k); }
  }

  lemma HiddenStep(p: Proxy, x: Input, k: nat)
    requires Anchored(p) && Hidden(p, k) && StillDown(p, x, k)
    ensures !Mentions(Emitted(p, x), k)
    ensures Hidden(PumpEvent(p, x).0, k) && TornDownSilently(PumpEvent(p, x).0, k)
  {
    PrepareHides(p, x, k);
    var prepared := Prepare(p, x);
    hide Prepare, Mentions, Emit, TornDownSilently;
    if prepared.Ready? {
      EmitKeepsKeys(prepared.proxy, prepared.events, x.writable);
      EmitKeepsKeys(Emit(prepared.proxy, prepared.events, x.writable).0, [RawEvent(0, 0, 0)], x.writable);
    }
    TeardownHides(PumpEvent(p, x).0, k);
  }

  /** The inputs keep the key down, judged state by state along the run. */
  predicate StillDownThroughout(p: Proxy, inputs: seq<Input>, k: nat)
    decreases |inputs|
  {
    |inputs| == 0 || (StillDown(p, inputs[0], k)
                      && (PumpEvent(p, inputs[0]).1 ==> StillDownThroughout(PumpEvent(p, inputs[0]).0, inputs[1..], k)))
  }

  /** No step of the run hands the output an event of the key, and wherever the run stops neither does the
      frame that tears the proxy down. */
  predicate NeverMentioned(p: Proxy, inputs: seq<Input>, k: nat)
    decreases |inputs|
  {
    if |inputs| == 0 then TornDownSilently(p, k)
    else
      var (q, ok) := PumpEvent(p, inputs[0]);
      !Mentions(Emitted(p, inputs[0]), k) && if ok then NeverMentioned(q, inputs[1..], k) else TornDownSilently(q, k)
  }

  /** A swallowed press stays swallowed across any number of lost frames and resynchronisations, and
      through a teardown, for as long as the key is physically down. */
  lemma {:induction false} SwallowSurvivesLoss(p: Proxy, inputs: seq<Input>, k: nat)
    requires Sound(p) && Hidden(p, k)
    requires StillDownThroughout(p, inputs, k)
    ensures NeverMentioned(p, inputs, k)
    decreases |inputs|
  {
    hide PumpEvent, Emitted, StillDown, TornDownSilently, Accounted, Bounded;
    if |inputs| != 0 {
      HiddenStep(p, inputs[0], k);
      PumpKeepsAccount(p, inputs[0]);
      var (q, ok) := PumpEvent(p, inputs[0]);
      if ok { SwallowSurvivesLoss(q, inputs[1..], k); }
    } else {
      TeardownHides(p, k);
    }
  }

  // ---- where the teardown falls short --------------------------------------------------

  function PressOf(code: nat): Input {
    var e := Key(code, 1);
    Input(e, true, Some(Message(Pass, 1, 1, 1, e)), None, 0, true)
  }

  /** One passed press without its report leaves output the consumer has not seen. */
  lemma UnreportedPress()
    ensures var (p, ok) := Pump(NewProxy(1), [PressOf(30)]);
            ok && p.keys.output == {30} && p.keys.committed == {} && p.keys.swallowed == {}
  {
    var e := Key(30, 1);
    var p := NewProxy(1).(sequence := 1);
    var keys := p.keys.(physical := {30}, output := {30});
    assert Prepare(NewProxy(1), PressOf(30)) == Ready(p.(keys := keys), [e], false);
    assert [e][1..] == [] && p.pending + [e] == [e];
    assert Emit(p.(keys := keys), [e], true) == (p.(keys := keys, pending := [e]), true);
    assert PumpEvent(NewProxy(1), PressOf(30)) == (p.(keys := keys, pending := [e]), true);
    assert [PressOf(30)][1..] == [];
  }

  /** Torn down then, the frame releases a key the consumer never saw go down. */
  lemma TeardownCanBeUnbalanced()
    ensures var p := Pump(NewProxy(1), [PressOf(30)]).0;
            Sound(p) && !Balanced(p.keys.committed, ReleaseAll(p.keys).1)
  {
    UnreportedPress();
    NewProxyIsSound(1);
    FrameBalance(NewProxy(1), [PressOf(30)]);
    BypassFrameBalance(Pump(NewProxy(1), [PressOf(30)]).0);
  }

  function Report(): Input {
    Input(RawEvent(0, 0, 0), true, None, None, 0, true)
  }

  /** With the press reported and the output broken, the teardown leaves the consumer holding the key. */
  lemma TeardownCanStrand()
    ensures var p := Pump(NewProxy(1), [PressOf(30), Report()]).0;
            Sound(p) && Consumer(Bypass(p, false).frames) == {30}
  {
    UnreportedPress();
    NewProxyIsSound(1);
    var inputs := [PressOf(30), Report()];
    FrameBalance(NewProxy(1), inputs);
    var q := Pump(NewProxy(1), [PressOf(30)]).0;
    PumpLast(NewProxy(1), PressOf(30));
    PumpLast(q, Report());
    assert inputs[1..] == [Report()];
    PressKeeps();
    ReportCommits(q);
    var p := Pump(NewProxy(1), inputs).0;
    BypassReleases(p, false);
    EmitThenReport(p.(pending := [], keys := NoKeys()), ReleaseAll(p.keys).1, false);
  }

  lemma PumpLast(p: Proxy, x: Input)
    ensures Pump(p, [x]) == PumpEvent(p, x)
  {
    hide PumpEvent;
    assert [x][1..] == [];
  }

  lemma PressKeeps()
    ensures var p := PumpEvent(NewProxy(1), PressOf(30)).0; !p.keys.dropping && p.sequence == 1
  {
    var e := Key(30, 1);
    assert [e][1..] == [];
  }

  lemma ReportCommits(q: Proxy)
    requires !q.keys.dropping && q.sequence + 1 < U64
    ensures var (p, ok) := PumpEvent(q, Report()); ok && p.keys.committed == q.keys.output
  {
    var r := q.(sequence := q.sequence + 1);
    assert Prepare(q, Report()) == Ready(r, [RawEvent(0, 0, 0)], false);
    EmitReport(r, true);
  }
}
