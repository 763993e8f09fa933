/** Per-device key ownership in the broker: what is physically down, what the virtual keyboard's
    consumer has been given, and what was swallowed. */
module KeyOwnership {
  import opened Protocol

  const MAX_KEY: nat := 767
  const CODES: nat := 0x1_0000

  datatype Keys = Keys(physical: set<nat>, output: set<nat>, committed: set<nat>, swallowed: set<nat>, dropping: bool)

  function NoKeys(): Keys {
    Keys({}, {}, {}, {}, false)
  }

  function Key(code: nat, value: int): RawEvent {
    RawEvent(1, code, value)
  }

  predicate IsDropped(e: RawEvent) { e.eventType == 0 && e.code == 3 }
  predicate IsReport(e: RawEvent) { e.eventType == 0 && e.code == 0 }

  /** The state after an input event under a decision, and the events to emit for it. */
  function Apply(s: Keys, e: RawEvent, decision: Operation): (Keys, seq<RawEvent>) {
    if decision != Pass && decision != Swallow then (s, [])
    else if IsDropped(e) then (s.(dropping := true), [])
    else if s.dropping then (s, [])
    else if e.eventType != 1 then (s, [e])
    else if e.code > MAX_KEY || e.value < 0 || e.value > 2 then (s, [])
    else if e.value == 0 then
      (s.(physical := s.physical - {e.code}, swallowed := s.swallowed - {e.code}, output := s.output - {e.code}),
       if e.code in s.output then [e] else [])
    else if e.value == 2 then (s, if e.code in s.output then [e] else [])
    else Press(s, e, decision)
  }

  function Press(s: Keys, e: RawEvent, decision: Operation): (Keys, seq<RawEvent>) {
    if e.code in s.physical then (s, [])
    else
      var t := s.(physical := s.physical + {e.code});
      if decision == Pass then (t.(output := t.output + {e.code}), [e])
      else (t.(swallowed := t.swallowed + {e.code}), [])
  }

  /** Codes below `n` in a set, in ascending order: the order an ordered set is walked in. */
  function Ascending(keys: set<nat>, n: nat): seq<nat> {
    if n == 0 then [] else Ascending(keys, n - 1) + (if n - 1 in keys then [n - 1] else [])
  }

  function Events(codes: seq<nat>, value: int): (events: seq<RawEvent>)
    ensures |events| == |codes|
  {
    seq(|codes|, i requires 0 <= i < |codes| => Key(codes[i], value))
  }

  /** Keys newly found down that nobody swallowed. */
  function Discovered(s: Keys, keys: set<nat>): set<nat> {
    set k | k in keys && k <= MAX_KEY && k !in s.output && k !in s.swallowed
  }

  function Resync(s: Keys, keys: set<nat>): (Keys, seq<RawEvent>) {
    var gone := s.output - keys;
    var found := Discovered(s, keys);
    (Keys(keys, s.output * keys + found, s.committed, s.swallowed * keys, false),
     Events(Ascending(gone, CODES), 0) + Events(Ascending(found, CODES), 1))
  }

  function CommitOutput(s: Keys): Keys { s.(committed := s.output) }

  function RollbackOutput(s: Keys): Keys { s.(output := s.committed) }

  /** Releases everything the consumer has, or may have, been given. */
  function ReleaseAll(s: Keys): (Keys, seq<RawEvent>) {
    (NoKeys(), Events(Ascending(s.output + s.committed, CODES), 0))
  }

}

/** The same state as an object the broker updates in place. */
module BrokerKeys {
  import opened Protocol
  import opened KeyOwnership

  class KeyState {
    var physical: set<nat>
    var output: set<nat>
    var committed: set<nat>
    var swallowed: set<nat>
    var dropping: bool

    ghost function State(): Keys
      reads this
    {
      Keys(physical, output, committed, swallowed, dropping)
    }

    constructor ()
      ensures State() == NoKeys()
    {
      physical, output, committed, swallowed, dropping := {}, {}, {}, {}, false;
    }

    method CommitOutput()
      modifies this
      ensures State() == KeyOwnership.CommitOutput(old(State()))
    {
      committed := output;
    }

    method RollbackOutput()
      modifies this
      ensures State() == KeyOwnership.RollbackOutput(old(State()))
    {
      output := committed;
    }

    method Apply(e: RawEvent, decision: Operation) returns (events: seq<RawEvent>)
      modifies this
      ensures (State(), events) == KeyOwnership.Apply(old(State()), e, decision)
    {
      if decision != Pass && decision != Swallow { return []; }
      if e.eventType == 0 && e.code == 3 { dropping := true; return []; }
      if dropping { return []; }
      if e.eventType != 1 { return [e]; }
      if e.code > MAX_KEY || !(0 <= e.value <= 2) { return []; }
      if e.value == 0 {
        physical := physical - {e.code};
        swallowed := swallowed - {e.code};
        events := if e.code in output then [e] else [];
        output := output - {e.code};
      } else if e.value == 2 {
        events := if e.code in output then [e] else [];
      } else {
        events := Press(e, decision);
      }
    }

    method Press(e: RawEvent, decision: Operation) returns (events: seq<RawEvent>)
      modifies this
      ensures (State(), events) == KeyOwnership.Press(old(State()), e, decision)
    {
      if e.code in physical { return []; }
      physical := physical + {e.code};
      if decision == Pass {
        output := output + {e.code};
        return [e];
      }
      swallowed := swallowed + {e.code};
      events := [];
    }

    /** Releases first, then downs for keys nobody knew of, each in code order. */
    method Resync(keys: set<nat>) returns (events: seq<RawEvent>)
      requires forall k :: k in keys ==> k < CODES
      modifies this
      ensures (State(), events) == KeyOwnership.Resync(old(State()), keys)
    {
      ghost var before := State();
      events := Walk(output - keys, 0);
      output := output * keys;
      swallowed := swallowed * keys;
      var added: seq<RawEvent> := [];
      var found: set<nat> := {};
      var code := 0;
      while code < CODES
        invariant 0 <= code <= CODES
        invariant found == set k | k in Discovered(before, keys) && k < code
        invariant output == before.output * keys + found && swallowed == before.swallowed * keys
        invariant committed == before.committed
        invariant added == Events(Ascending(Discovered(before, keys), code), 1)
      {
        if code in keys && code <= MAX_KEY && code !in output && code !in swallowed {
          output := output + {code};
          found := found + {code};
          added := added + [Key(code, 1)];
        }
        code := code + 1;
      }
      assert found == Discovered(before, keys);
      physical := keys;
      dropping := false;
      events := events + added;
    }

    method ReleaseAll() returns (events: seq<RawEvent>)
      modifies this
      ensures (State(), events) == KeyOwnership.ReleaseAll(old(State()))
    {
      events := Walk(output + committed, 0);
      physical, output, committed, swallowed, dropping := {}, {}, {}, {}, false;
    }
  }

  method Walk(keys: set<nat>, value: int) returns (events: seq<RawEvent>)
    ensures events == Events(Ascending(keys, CODES), value)
  {
    events := [];
    var code := 0;
    while code < CODES
      invariant 0 <= code <= CODES && events == Events(Ascending(keys, code), value)
    {
      if code in keys { events := events + [Key(code, value)]; }
      code := code + 1;
    }
  }
}
