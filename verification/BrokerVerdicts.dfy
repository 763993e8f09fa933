/** What the daemon decides the broker does: which events of a key reach the virtual keyboard, for every answer
    the daemon can give, and what the consumer is left holding after a loss. */
module BrokerVerdicts {
  import opened Wrappers
  import opened Protocol
  import opened KeyOwnership
  import opened Broker

  /** The one reply that carries a decision on this event: it repeats the request under another operation. */
  function Echo(p: Proxy, e: RawEvent, decision: Operation): Message {
    Message(decision, p.generation, p.epoch, p.sequence + 1, e)
  }

  /** The broker is outside a loss, may capture and can still number the request. */
  predicate Attentive(p: Proxy, x: Input) {
    !p.keys.dropping && x.authorized && p.sequence + 1 < U64
  }

  /** Only an echo decides: any other answer to a key event, or none, emits nothing and ends the pump. */
  lemma OnlyEchoDecides(p: Proxy, x: Input)
    requires Attentive(p, x) && x.event.eventType == 1
    requires x.reply != Some(Echo(p, x.event, Pass)) && x.reply != Some(Echo(p, x.event, Swallow))
    ensures Emitted(p, x) == [] && PumpEvent(p, x) == (p.(sequence := p.sequence + 1), false)
  {
  }

  /** A fresh press answered Swallow emits nothing and is remembered as swallowed. */
  lemma SwallowEmitsNothing(p: Proxy, x: Input, k: nat)
    requires Attentive(p, x) && x.event == Key(k, 1) && k <= MAX_KEY && k !in p.keys.physical
    requires x.reply == Some(Echo(p, x.event, Swallow))
    ensures var q := PumpEvent(p, x).0;
            && PumpEvent(p, x).1 && Emitted(p, x) == [] && q.pending == p.pending && q.frames == p.frames
            && q.keys == p.keys.(physical := p.keys.physical + {k}, swallowed := p.keys.swallowed + {k})
  {
  }

  /** And from then on no event and no teardown frame mentions the key until it is released, across any losses,
      unless the consumer still had it. */
  lemma SwallowIsObeyed(p: Proxy, x: Input, k: nat, inputs: seq<Input>)
    requires Sound(p) && Attentive(p, x) && x.event == Key(k, 1) && k <= MAX_KEY && k !in p.keys.physical
    requires x.reply == Some(Echo(p, x.event, Swallow)) && k !in p.keys.committed
    requires StillDownThroughout(PumpEvent(p, x).0, inputs, k)
    ensures Emitted(p, x) == [] && PumpEvent(p, x).1 && NeverMentioned(PumpEvent(p, x).0, inputs, k)
  {
    hide AllBalanced, Consumer, Balanced, Replay, NeverMentioned, StillDownThroughout, PumpEvent;
    SwallowEmitsNothing(p, x, k);
    PumpKeepsAccount(p, x);
    SwallowSurvivesLoss(PumpEvent(p, x).0, inputs, k);
  }

  /** A fresh press answered Pass emits exactly that event; it joins the pending frame if there is room. */
  lemma PassIsObeyed(p: Proxy, x: Input, k: nat)
    requires Attentive(p, x) && x.event == Key(k, 1) && k <= MAX_KEY && k !in p.keys.physical
    requires x.reply == Some(Echo(p, x.event, Pass))
    ensures var (q, ok) := PumpEvent(p, x);
            && Emitted(p, x) == [x.event] && q.frames == p.frames
            && q.keys == p.keys.(physical := p.keys.physical + {k}, output := p.keys.output + {k})
            && (ok <==> |p.pending| < FRAME_BOUND) && (ok ==> q.pending == p.pending + [x.event])
  {
    var e := x.event;
    assert [e][1..] == [];
    var q := p.(sequence := p.sequence + 1,
                keys := p.keys.(physical := p.keys.physical + {k}, output := p.keys.output + {k}));
    assert Prepare(p, x) == Ready(q, [e], false);
    assert Emit(q, [e], x.writable) == if |q.pending| >= FRAME_BOUND then (q, false)
                                       else (q.(pending := q.pending + [e]), true);
  }

  /** A repeat or release belongs to its press, whatever the daemon answers: it is emitted exactly if the press
      was. A second press of a key already down emits nothing. */
  lemma OwnedKeyEvents(p: Proxy, x: Input, k: nat)
    requires Attentive(p, x) && k <= MAX_KEY && x.event.eventType == 1 && x.event.code == k && 0 <= x.event.value <= 2
    requires x.reply == Some(Echo(p, x.event, Pass)) || x.reply == Some(Echo(p, x.event, Swallow))
    requires x.event.value == 1 ==> k in p.keys.physical
    ensures Emitted(p, x) == if x.event.value != 1 && k in p.keys.output then [x.event] else []
    ensures var keys := PumpEvent(p, x).0.keys;
            if x.event.value == 0
            then keys == p.keys.(physical := p.keys.physical - {k}, output := p.keys.output - {k},
                                 swallowed := p.keys.swallowed - {k})
            else keys == p.keys
  {
    hide Emit;
    var prepared := Prepare(p, x);
    assert prepared.Ready? && !prepared.report;
    OneKeyEmitted(prepared.proxy, prepared.events, x.writable);
  }

  lemma OneKeyEmitted(p: Proxy, events: seq<RawEvent>, writable: bool)
    requires forall e :: e in events ==> e.eventType == 1
    ensures Emit(p, events, writable).0.keys == p.keys
  {
    EmitKeys(p, events, writable);
  }

  /** What is neither a key nor a synchronisation is passed on as it came, without asking anybody. */
  lemma OtherEventsPass(p: Proxy, x: Input)
    requires Attentive(p, x) && x.event.eventType > 1
    ensures var (q, ok) := PumpEvent(p, x);
            && Emitted(p, x) == [x.event] && q.keys == p.keys
            && (ok <==> |p.pending| < FRAME_BOUND) && (ok ==> q.pending == p.pending + [x.event])
  {
    var e, q := x.event, p.(sequence := p.sequence + 1);
    assert [e][1..] == [];
    assert Prepare(p, x) == Ready(q, [e], false);
    assert Emit(q, [e], x.writable) == if |q.pending| >= FRAME_BOUND then (q, false)
                                       else (q.(pending := q.pending + [e]), true);
  }

  /** The report that ends a frame hands everything pending to the consumer, which then holds the output keys. */
  lemma ReportReachesConsumer(p: Proxy, x: Input)
    requires Sound(p) && Attentive(p, x) && x.event == RawEvent(0, 0, 0)
    ensures var (q, ok) := PumpEvent(p, x);
            && (ok <==> x.writable)
            && (ok ==> q.frames == p.frames + [p.pending] && q.pending == [] && Consumer(q.frames) == p.keys.output)
  {
    hide AllBalanced, Consumer, Balanced, Replay, Emit;
    var q := p.(sequence := p.sequence + 1);
    assert Prepare(p, x) == Ready(q, [x.event], false);
    EmitReport(q, x.writable);
    PumpKeepsAccount(p, x);
  }

  // ---- after a loss -------------------------------------------------------------------

  /** A lost frame discards what was pending and takes the speculative output back to what the consumer has. */
  lemma LossDiscardsFrame(p: Proxy, x: Input)
    requires x.authorized && p.sequence + 1 < U64 && IsDropped(x.event)
    ensures PumpEvent(p, x) == (p.(sequence := p.sequence + 1, pending := [],
                                   keys := p.keys.(output := p.keys.committed, dropping := true)), true)
    ensures Emitted(p, x) == []
  {
  }

  /** Until the report that ends it, a loss emits nothing and changes no key. */
  lemma LossIsMute(p: Proxy, x: Input)
    requires x.authorized && p.sequence + 1 < U64 && p.keys.dropping && !IsDropped(x.event) && !IsReport(x.event)
    ensures PumpEvent(p, x) == (p.(sequence := p.sequence + 1), true) && Emitted(p, x) == []
  {
  }

  /** Keys to release: the consumer has them and they are up. Keys to press: down, known to nobody and not
      swallowed. */
  function Stale(p: Proxy, keys: set<nat>): set<nat> { p.keys.output - keys }

  function Missed(p: Proxy, keys: set<nat>): set<nat> {
    set k | k in keys && k <= MAX_KEY && k !in p.keys.output && k !in p.keys.swallowed
  }

  lemma RecoveryEvents(p: Proxy, keys: set<nat>)
    requires forall k :: k in p.keys.output ==> k <= MAX_KEY
    ensures |Resync(p.keys, keys).1| == |Stale(p, keys)| + |Missed(p, keys)|
  {
    var gone, found := p.keys.output - keys, Discovered(p.keys, keys);
    AscendingCount(gone, CODES);
    AscendingCount(found, CODES);
    assert Below(gone, CODES) == gone && Below(found, CODES) == found;
    assert found == Missed(p, keys);
  }

  /** The report after a loss succeeds exactly when capture is authorised, the kernel answers, the counters are not
      exhausted, every control message is acknowledged and the reconciling frame is taken. The consumer then holds
      exactly the keys that are down, save those swallowed before the loss that it did not have. */
  lemma RecoveryRestores(p: Proxy, x: Input)
    requires Sound(p) && p.keys.dropping && IsReport(x.event)
    requires x.keyState.Some?
    ensures var keys := x.keyState.value;
            var (q, ok) := PumpEvent(p, x);
            && (ok <==> && x.authorized && p.epoch + 1 < U64 && p.sequence + 1 + |keys| < U64
                        && x.acknowledged >= 1 + |keys| && x.writable
                        && |Stale(p, keys)| + |Missed(p, keys)| <= FRAME_BOUND)
            && (ok ==> && q.keys.physical == keys && !q.keys.dropping && q.epoch == p.epoch + 1
                       && Consumer(q.frames) == p.keys.committed * keys + Missed(p, keys)
                       && q.keys.swallowed == p.keys.swallowed * keys)
  {
    hide Emit, Controls, Events, Ascending, AllBalanced, Consumer, Balanced, Replay;
    var keys := x.keyState.value;
    var (after, events) := Resync(p.keys, keys);
    RecoveryEvents(p, keys);
    ResyncShape(p.keys, keys);
    ControlsCount(p.sequence, 1 + |keys|, x.acknowledged);
    var q := p.(epoch := p.epoch + 1, keys := after,
                sequence := Controls(p.sequence, 1 + |keys|, x.acknowledged).0);
    EmitKeys(q, events, x.writable);
    EmitReport(Emit(q, events, x.writable).0, x.writable);
    PumpKeepsAccount(p, x);
  }

  /** Without an answer from the kernel the pump ends and nothing is emitted. */
  lemma RecoveryNeedsKernel(p: Proxy, x: Input)
    requires p.keys.dropping && IsReport(x.event) && x.keyState.None?
    ensures PumpEvent(p, x) == (p, false) && Emitted(p, x) == []
  {
  }
}
