/** The daemon's side of the broker protocol: which generations it follows, how far each has come,
    and a replica of each one's physical keys. */
module DaemonClient {
  import opened Wrappers
  import opened Protocol
  import opened KeyOwnership

  const ACTIVE_BOUND: nat := 128

  datatype Client = Client(physical: map<nat, set<nat>>, epochs: map<nat, nat>, sequences: map<nat, nat>, highest: nat)
  {
    /** The replica of a generation's keys; absence is the empty set. */
    function Replica(generation: nat): set<nat> {
      if generation in physical then physical[generation] else {}
    }
  }

  function NewClient(): Client {
    Client(map[], map[], map[], 0)
  }

  predicate Acceptable(c: Client, m: Message) {
    && (m.operation == Event || m.operation == DeviceReset || m.operation == SnapshotKey || m.operation == DeviceRetire)
    && m.generation != 0 && m.epoch != 0 && m.sequence != 0
    && (m.generation in c.sequences ==> c.sequences[m.generation] < m.sequence)
    && (m.generation in c.epochs ==> c.epochs[m.generation] <= m.epoch)
    && (m.generation !in c.epochs ==> m.generation > c.highest && |c.epochs| < ACTIVE_BOUND)
  }

  /** The bookkeeping of an accepted request; a new epoch drops the replica. */
  function Admit(c: Client, m: Message): Client {
    Client(if m.generation in c.epochs && c.epochs[m.generation] != m.epoch then c.physical - {m.generation}
        else c.physical,
           c.epochs[m.generation := m.epoch], c.sequences[m.generation := m.sequence],
           if m.generation > c.highest then m.generation else c.highest)
  }

  function Forget(c: Client, generation: nat): Client {
    c.(physical := c.physical - {generation}, epochs := c.epochs - {generation},
        sequences := c.sequences - {generation})
  }

  /** One request served: the new state and the reply, or nothing when the connection is refused.
      `swallow` is what the matcher says of an event it is shown. */
  function Serve(c: Client, m: Message, swallow: bool): Option<(Client, Message)> {
    if !Acceptable(c, m) then None
    else
      var d := Admit(c, m);
      match m.operation
      case DeviceReset => Some((d.(physical := d.physical - {m.generation}), m.(operation := Pass)))
      case DeviceRetire => Some((Forget(d, m.generation), m.(operation := Pass)))
      case SnapshotKey =>
        if m.event.eventType != 1 || m.event.value != 1 || m.event.code > MAX_KEY then None
        else Some((d.(physical := d.physical[m.generation := d.Replica(m.generation) + {m.event.code}]),
            m.(operation := Pass)))
      case _ => Some(Dispatch(d, m, swallow))
  }

  function Dispatch(c: Client, m: Message, swallow: bool): (Client, Message) {
    var e := m.event;
    if e.eventType == 1 && 0 <= e.value <= 1 then
      var keys := if e.value == 0 then c.Replica(m.generation) - {e.code} else c.Replica(m.generation) + {e.code};
      (c.(physical := c.physical[m.generation := keys]), m.(operation := if swallow then Swallow else Pass))
    else (c, m.(operation := Pass))
  }

  /** The reply to a served event echoes the request: Swallow if and only if the event is a press or release and the
      matcher said so; a repeat, and anything that is not a key, is answered Pass. */
  lemma EventAnswer(c: Client, m: Message, swallow: bool)
    requires Acceptable(c, m) && m.operation == Event
    ensures Serve(c, m, swallow).Some?
    ensures var reply := Serve(c, m, swallow).value.1;
            && reply == m.(operation := reply.operation) && (reply.operation == Pass || reply.operation == Swallow)
            && (reply.operation == Swallow <==> m.event.eventType == 1 && 0 <= m.event.value <= 1 && swallow)
  {
  }

  /** An event under a new epoch starts from no keys: what was down under the old one is forgotten. */
  lemma NewEpochForgets(c: Client, m: Message, swallow: bool)
    requires Acceptable(c, m) && m.operation == Event && m.generation in c.epochs && c.epochs[m.generation] < m.epoch
    ensures var d := Serve(c, m, swallow).value.0;
            Serve(c, m, swallow).Some? && d.epochs[m.generation] == m.epoch
            && d.Replica(m.generation) == if m.event.eventType == 1 && m.event.value == 1 then {m.event.code} else {}
  {
  }

  // ---- any peer at all ----------------------------------------------------------------

  function ServeAll(c: Client, messages: seq<(Message, bool)>): Option<Client>
    decreases |messages|
  {
    if |messages| == 0 then Some(c)
    else
      var served := Serve(c, messages[0].0, messages[0].1);
      if served.None? then None else ServeAll(served.value.0, messages[1..])
  }

  /** A generation the client knew and let go. */
  predicate Gone(c: Client, generation: nat) {
    generation <= c.highest && generation !in c.epochs
  }

  lemma RetiredStays(c: Client, m: Message, swallow: bool, generation: nat)
    requires Gone(c, generation) && generation != 0
    ensures m.generation == generation ==> Serve(c, m, swallow).None?
    ensures Serve(c, m, swallow).Some? ==> Gone(Serve(c, m, swallow).value.0, generation)
  {
  }

  /** No peer can revive a retired generation, whatever it sends in between. */
  lemma {:induction false} RetiredNeverAccepted(c: Client, messages: seq<(Message, bool)>, generation: nat)
    requires Gone(c, generation) && generation != 0
    requires ServeAll(c, messages).Some?
    ensures forall i :: 0 <= i < |messages| ==> messages[i].0.generation != generation
    ensures Gone(ServeAll(c, messages).value, generation)
    decreases |messages|
  {
    if |messages| != 0 {
      RetiredStays(c, messages[0].0, messages[0].1, generation);
      RetiredNeverAccepted(Serve(c, messages[0].0, messages[0].1).value.0, messages[1..], generation);
      forall i | 0 <= i < |messages| ensures messages[i].0.generation != generation {
        if i > 0 { assert messages[i] == messages[1..][i - 1]; }
      }
    }
  }

  /** Retiring makes a generation one of those. */
  lemma RetireMakesGone(c: Client, m: Message, swallow: bool)
    requires m.operation == DeviceRetire && Serve(c, m, swallow).Some?
    ensures Gone(Serve(c, m, swallow).value.0, m.generation)
  {
  }
}

/** The client as the daemon keeps it. */
module DaemonBackend {
  import opened Wrappers
  import opened Protocol
  import opened KeyOwnership
  import opened DaemonClient

  class ClientState {
    var physical: map<nat, set<nat>>
    var epochs: map<nat, nat>
    var sequences: map<nat, nat>
    var highest: nat

    ghost function State(): Client
      reads this
    {
      Client(physical, epochs, sequences, highest)
    }

    constructor ()
      ensures State() == NewClient()
    {
      physical, epochs, sequences, highest := map[], map[], map[], 0;
    }

    method Retire(generation: nat)
      modifies this
      ensures State() == Forget(old(State()), generation)
    {
      physical := physical - {generation};
      epochs := epochs - {generation};
      sequences := sequences - {generation};
    }

    /** Rejects anything stale before touching any state. */
    method Validate(m: Message) returns (ok: bool, reset: bool)
      modifies this
      ensures ok == Acceptable(old(State()), m)
      ensures State() == if ok then Admit(old(State()), m) else old(State())
      ensures reset == (ok && m.generation in old(epochs) && old(epochs)[m.generation] != m.epoch)
    {
      reset := false;
      if m.operation == Pass || m.operation == Swallow || m.operation == Replace { return false, false; }
      if m.generation == 0 || m.epoch == 0 || m.sequence == 0
         || (m.generation in sequences && sequences[m.generation] >= m.sequence)
         || (m.generation in epochs && epochs[m.generation] > m.epoch)
         || (m.generation !in epochs && m.generation <= highest)
         || (m.generation !in epochs && |epochs| >= ACTIVE_BOUND) {
        return false, false;
      }
      highest := if m.generation > highest then m.generation else highest;
      sequences := sequences[m.generation := m.sequence];
      reset := m.generation in epochs && epochs[m.generation] != m.epoch;
      epochs := epochs[m.generation := m.epoch];
      if reset { physical := physical - {m.generation}; }
      ok := true;
    }

    method Handle(m: Message, swallow: bool) returns (reply: Option<Message>)
      modifies this
      ensures reply.Some? <==> Serve(old(State()), m, swallow).Some?
      ensures reply.Some? ==> (State(), reply.value) == Serve(old(State()), m, swallow).value
    {
      hide Acceptable, Admit;
      var ok, reset := Validate(m);
      if !ok { return None; }
      if m.operation == DeviceReset {
        physical := physical - {m.generation};
        return Some(m.(operation := Pass));
      }
      if m.operation == DeviceRetire {
        Retire(m.generation);
        return Some(m.(operation := Pass));
      }
      if m.operation == SnapshotKey {
        if m.event.eventType != 1 || m.event.value != 1 || m.event.code > MAX_KEY { return None; }
        physical := physical[m.generation :=
            (if m.generation in physical then physical[m.generation] else {}) + {m.event.code}];
        return Some(m.(operation := Pass));
      }
      var operation := Dispatch(m, swallow);
      reply := Some(m.(operation := operation));
    }

    /** Repeats belong to the existing press and are never shown to the matcher. */
    method Dispatch(m: Message, swallow: bool) returns (operation: Operation)
      modifies this`physical
      ensures (State(), m.(operation := operation)) == DaemonClient.Dispatch(old(State()), m, swallow)
    {
      operation := Pass;
      var e := m.event;
      if e.eventType == 1 && e.value == 2 { return; }
      if e.eventType == 1 && 0 <= e.value <= 2 {
        var keys := if m.generation in physical then physical[m.generation] else {};
        physical := physical[m.generation := if e.value == 0 then keys - {e.code} else keys + {e.code}];
        if swallow { operation := Swallow; }
      }
    }

    /** The serve loop: requests in order until one is refused. */
    method ServeLoop(requests: seq<(Message, bool)>) returns (ok: bool)
      modifies this
      ensures ok <==> ServeAll(old(State()), requests).Some?
      ensures ok ==> State() == ServeAll(old(State()), requests).value
    {
      hide Serve;
      var i := 0;
      while i < |requests|
        invariant 0 <= i <= |requests|
        invariant ServeAll(State(), requests[i..]) == ServeAll(old(State()), requests)
      {
        assert requests[i..][0] == requests[i] && requests[i..][1..] == requests[i + 1..];
        var reply := Handle(requests[i].0, requests[i].1);
        if reply.None? { return false; }
        i := i + 1;
      }
      ok := true;
    }
  }
}
