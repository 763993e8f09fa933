/** The proxy as the broker runs it: one object whose pump loop updates the key state, the pending
    frame and the counters in place. */
module BrokerDevice {
  import opened Wrappers
  import opened Protocol
  import opened KeyOwnership
  import opened BrokerKeys
  import opened Broker

  const BATCH_BOUND: nat := 256

  class DeviceProxy {
    const generation: nat
    const keys: KeyState
    var pending: seq<RawEvent>
    var epoch: nat
    var sequence: nat
    var grabbed: bool
    ghost var frames: seq<seq<RawEvent>>

    ghost function Model(): Proxy
      reads this, keys
    {
      Proxy(generation, keys.State(), pending, epoch, sequence, frames)
    }

    constructor (generation: nat)
      ensures Model() == NewProxy(generation) && !grabbed && fresh(keys)
    {
      this.generation := generation;
      keys := new KeyState();
      pending, epoch, sequence, grabbed := [], 1, 0, false;
      frames := [];
    }

    method Emit(events: seq<RawEvent>, writable: bool) returns (ok: bool)
      modifies this`pending, this`frames, keys
      ensures (Model(), ok) == Broker.Emit(old(Model()), events, writable)
    {
      var i := 0;
      while i < |events|
        invariant 0 <= i <= |events|
        invariant Broker.Emit(Model(), events[i..], writable) == Broker.Emit(old(Model()), events, writable)
      {
        var e := events[i];
        assert events[i..][1..] == events[i + 1..];
        if e.eventType == 0 && e.code == 0 {
          if !writable { return false; }
          frames := frames + [pending];
          keys.CommitOutput();
          pending := [];
        } else if e.eventType != 0 {
          if |pending| >= FRAME_BOUND { return false; }
          pending := pending + [e];
        }
        i := i + 1;
      }
      ok := true;
    }

    /** Sends control messages one by one until one is not acknowledged. */
    method SendControls(n: nat, acknowledged: nat) returns (ok: bool)
      modifies this`sequence
      ensures (sequence, ok) == Controls(old(sequence), n, acknowledged)
    {
      var sent := 0;
      while sent < n
        invariant 0 <= sent <= n && sent <= acknowledged
        invariant Controls(sequence, n - sent, acknowledged - sent) == Controls(old(sequence), n, acknowledged)
      {
        if sequence + 1 >= U64 { return false; }
        sequence := sequence + 1;
        if sent == acknowledged { return false; }
        sent := sent + 1;
      }
      ok := true;
    }

    method Recover(x: Input) returns (ok: bool)
      requires keys.dropping && IsReport(x.event) && x.authorized
      requires x.keyState.Some? ==> forall k :: k in x.keyState.value ==> k < CODES
      modifies this, keys
      ensures (Model(), ok) == Broker.PumpEvent(old(Model()), x)
      ensures grabbed == old(grabbed)
    {
      if x.keyState.None? || epoch + 1 >= U64 { return false; }
      epoch := epoch + 1;
      var reconciled := keys.Resync(x.keyState.value);
      ok := SendControls(1 + |x.keyState.value|, x.acknowledged);
      if !ok { return; }
      ok := Emit(reconciled, x.writable);
      if ok { ok := Emit([RawEvent(0, 0, 0)], x.writable); }
    }

    method PumpOne(x: Input) returns (ok: bool)
      requires x.keyState.Some? ==> forall k :: k in x.keyState.value ==> k < CODES
      modifies this, keys
      ensures (Model(), ok) == Broker.PumpEvent(old(Model()), x)
      ensures grabbed == old(grabbed)
    {
      hide Broker.Emit, KeyOwnership.Apply, KeyOwnership.Resync, Broker.Decide, Broker.Recover;
      if !x.authorized { return false; }
      if keys.dropping && x.event.eventType == 0 && x.event.code == 0 {
        ok := Recover(x);
      } else {
        ok := PumpOrdinary(x);
      }
    }

    method PumpOrdinary(x: Input) returns (ok: bool)
      requires x.authorized && !(keys.dropping && IsReport(x.event))
      modifies this, keys
      ensures (Model(), ok) == Broker.PumpEvent(old(Model()), x)
      ensures grabbed == old(grabbed)
    {
      hide Broker.Emit, KeyOwnership.Apply, Broker.AdmittedDecision, Broker.Recover;
      if sequence + 1 >= U64 { return false; }
      sequence := sequence + 1;
      var decision := Some(Pass);
      if x.event.eventType == 1 && !keys.dropping {
        if x.reply.None? { return false; }
        decision := AdmittedDecision(Message(Event, generation, epoch, sequence, x.event), x.reply.value);
        if decision.None? { return false; }
      }
      if x.event.eventType == 0 && x.event.code == 3 {
        pending := [];
        keys.RollbackOutput();
      }
      var events := keys.Apply(x.event, decision.value);
      ok := Emit(events, x.writable);
    }

    /** One poll of the device: a bounded batch of events, stopping at the first failure. */
    method PumpInner(inputs: seq<Input>) returns (ok: bool)
      requires forall i :: 0 <= i < |inputs| && inputs[i].keyState.Some? ==>
          forall k :: k in inputs[i].keyState.value ==> k < CODES
      modifies this, keys
      ensures !old(grabbed) || |inputs| > BATCH_BOUND ==> !ok && Model() == old(Model())
      ensures old(grabbed) && |inputs| <= BATCH_BOUND ==> (Model(), ok) == Broker.Pump(old(Model()), inputs)
      ensures grabbed == old(grabbed)
    {
      if !grabbed || |inputs| > BATCH_BOUND { return false; }
      var i := 0;
      while i < |inputs|
        invariant 0 <= i <= |inputs|
        invariant Broker.Pump(Model(), inputs[i..]) == Broker.Pump(old(Model()), inputs)
        invariant grabbed == old(grabbed)
      {
        assert inputs[i..][0] == inputs[i] && inputs[i..][1..] == inputs[i + 1..];
        ok := PumpOne(inputs[i]);
        if !ok { return; }
        i := i + 1;
      }
      ok := true;
    }

    method Bypass(writable: bool)
      modifies this, keys
      ensures Model() == Broker.Bypass(old(Model()), writable) && !grabbed
    {
      pending := [];
      var releases := keys.ReleaseAll();
      var ok := Emit(releases + [RawEvent(0, 0, 0)], writable);
      grabbed := false;
    }

    /** Any failure tears capture down before returning: the virtual keyboard's consumer is left
        holding nothing if it takes the releasing frame and the owned keys fit in one. */
    method Pump(inputs: seq<Input>, writable: bool) returns (ok: bool, ghost failed: Proxy)
      requires forall i :: 0 <= i < |inputs| && inputs[i].keyState.Some? ==>
                 forall k :: k in inputs[i].keyState.value ==> k < CODES
      modifies this, keys
      ensures ok ==> grabbed && (Model(), true) == Broker.Pump(old(Model()), inputs)
      ensures !ok ==> !grabbed && Model() == Broker.Bypass(failed, writable)
      ensures old(frames) <= frames
      ensures old(Sound(Model())) ==>
        && (ok ==> Sound(Model()))
        && (!ok ==> Consumer(failed.frames) == failed.keys.committed)
        && (!ok && writable && |failed.keys.output + failed.keys.committed| <= FRAME_BOUND ==> Consumer(frames) == {})
    {
      ghost var before := Model();
      if Sound(before) { FrameBalance(before, inputs); }
      ok := PumpInner(inputs);
      FramesGrow(before, inputs);
      failed := Model();
      if !ok {
        Bypass(writable);
        if Sound(before) { BypassReleases(failed, writable); }
        BypassFrames(failed, writable);
      }
    }
  }

  lemma {:induction false} EmitFrames(p: Proxy, events: seq<RawEvent>, writable: bool)
    ensures p.frames <= Broker.Emit(p, events, writable).0.frames
    decreases |events|
  {
    if |events| != 0 {
      var e := events[0];
      if IsReport(e) {
        EmitFrames(p.(frames := p.frames + [p.pending], keys := KeyOwnership.CommitOutput(p.keys), pending := []),
            events[1..], writable);
      } else if e.eventType != 0 {
        EmitFrames(p.(pending := p.pending + [e]), events[1..], writable);
      } else {
        EmitFrames(p, events[1..], writable);
      }
    }
  }

  lemma {:induction false} FramesGrow(p: Proxy, inputs: seq<Input>)
    ensures p.frames <= Broker.Pump(p, inputs).0.frames
    decreases |inputs|
  {
    if |inputs| != 0 {
      var prepared := Prepare(p, inputs[0]);
      if prepared.Ready? {
        EmitFrames(prepared.proxy, prepared.events, inputs[0].writable);
        EmitFrames(Broker.Emit(prepared.proxy, prepared.events, inputs[0].writable).0, [RawEvent(0, 0, 0)],
            inputs[0].writable);
      }
      FramesGrow(PumpEvent(p, inputs[0]).0, inputs[1..]);
    }
  }

  lemma BypassFrames(p: Proxy, writable: bool)
    ensures p.frames <= Broker.Bypass(p, writable).frames
  {
    var (keys, releases) := KeyOwnership.ReleaseAll(p.keys);
    EmitFrames(p.(pending := [], keys := keys), releases + [RawEvent(0, 0, 0)], writable);
  }
}
