/** Broker and daemon on one connection: every keyboard's physical keys as the broker knows them and
    the replica the daemon keeps stay equal after every completed exchange. */
module ReplicaAgreement {
  import opened Wrappers
  import opened Protocol
  import opened KeyOwnership
  import opened Broker
  import opened DaemonClient
  import BrokerVerdicts

  /** Discovery refuses more keyboards than this. */
  const KEYBOARD_BOUND: nat := 64

  datatype Link = Link(proxies: map<nat, Proxy>, client: Client, generation: nat)

  /** What a completed exchange comes to: both sides moved on, the broker tore its proxies down, or
      the daemon refused a message. */
  datatype Outcome = Continues(link: Link) | TornDown | Refused

  datatype Exchange =
    | Adopt                                                     // a newly discovered keyboard
    | Strike(device: nat, event: RawEvent, swallow: bool, writable: bool)
    | Resynchronise(device: nat, keys: set<nat>, writable: bool) // the report that ends a loss
    | Drop(device: nat)                                         // a keyboard that went away

  function Control(operation: Operation, p: Proxy, sequence: nat, event: RawEvent): Message {
    Message(operation, p.generation, p.epoch, sequence, event)
  }

  /** One snapshot message per held key, in code order, numbered from `sequence + 1`. */
  function Snapshots(c: Client, p: Proxy, sequence: nat, codes: seq<nat>): Option<Client>
    decreases |codes|
  {
    if |codes| == 0 then Some(c)
    else
      var served := Serve(c, Control(SnapshotKey, p, sequence + 1, Key(codes[0], 1)), false);
      if served.None? then None else Snapshots(served.value.0, p, sequence + 1, codes[1..])
  }

  function Perform(l: Link, x: Exchange): Outcome {
    match x
    case Adopt => Adopted(l)
    case Strike(g, e, swallow, writable) =>
      if g !in l.proxies || (l.proxies[g].keys.dropping && IsReport(e)) then Continues(l)
          else Struck(l, g, e, swallow, writable)
    case Resynchronise(g, keys, writable) =>
      if g !in l.proxies || !l.proxies[g].keys.dropping then Continues(l) else Resynchronised(l, g, keys, writable)
    case Drop(g) => if g !in l.proxies then Continues(l) else Dropped(l, g)
  }

  function Adopted(l: Link): Outcome {
    if l.generation + 1 >= U64 || |l.proxies| >= KEYBOARD_BOUND then TornDown
    else
      var p := NewProxy(l.generation + 1).(sequence := 1);
      var served := Serve(l.client, Control(DeviceReset, p, 1, RawEvent(0, 0, 0)), false);
      if served.None? then Refused
      else Continues(Link(l.proxies[p.generation := p], served.value.0, l.generation + 1))
  }

  function Dropped(l: Link, g: nat): Outcome
    requires g in l.proxies
  {
    var p := l.proxies[g];
    if p.sequence + 1 >= U64 then TornDown
    else
      var served := Serve(l.client, Control(DeviceRetire, p, p.sequence + 1, RawEvent(0, 0, 0)), false);
      if served.None? then Refused else Continues(Link(l.proxies - {g}, served.value.0, l.generation))
  }

  /** Only key events outside a loss are put to the daemon; its reply becomes the decision. */
  function Struck(l: Link, g: nat, e: RawEvent, swallow: bool, writable: bool): Outcome
    requires g in l.proxies
  {
    var p := l.proxies[g];
    if e.eventType == 1 && !p.keys.dropping then
      if p.sequence + 1 >= U64 then TornDown
      else
        var served := Serve(l.client, Control(Event, p, p.sequence + 1, e), swallow);
        if served.None? then Refused
        else Pumped(l.(client := served.value.0), g, Input(e, true, Some(served.value.1), None, 0, writable))
    else Pumped(l, g, Input(e, true, None, None, 0, writable))
  }

  function Pumped(l: Link, g: nat, x: Input): Outcome
    requires g in l.proxies
  {
    var (q, ok) := PumpEvent(l.proxies[g], x);
    if ok then Continues(l.(proxies := l.proxies[g := q])) else TornDown
  }

  /** The report that ends a loss, with every control message acknowledged. */
  function ReportOf(keys: set<nat>, writable: bool): Input {
    Input(RawEvent(0, 0, 0), true, None, Some(keys), 1 + |keys|, writable)
  }

  function Resynchronised(l: Link, g: nat, keys: set<nat>, writable: bool): Outcome
    requires g in l.proxies
  {
    var p := l.proxies[g];
    if p.epoch + 1 >= U64 || p.sequence + 1 + |keys| >= U64 then TornDown
    else
      var q := p.(epoch := p.epoch + 1);
      var reset := Serve(l.client, Control(DeviceReset, q, p.sequence + 1, RawEvent(0, 0, 0)), false);
      if reset.None? then Refused
      else
        var client := Snapshots(reset.value.0, q, p.sequence + 1, Ascending(keys, CODES));
        if client.None? then Refused
        else Pumped(l.(client := client.value), g, ReportOf(keys, writable))
  }

  // ---- agreement ----------------------------------------------------------------------

  /** The daemon follows a keyboard: same epoch, no sequence from its future, and the same keys down
      among those the broker tracks. */
  ghost predicate Follows(c: Client, p: Proxy) {
    && p.generation in c.epochs && p.generation in c.sequences
    && c.epochs[p.generation] == p.epoch && 1 <= p.epoch
    && 1 <= c.sequences[p.generation] <= p.sequence
    && SameKeys(c.Replica(p.generation), p.keys.physical)
  }

  ghost predicate SameKeys(replica: set<nat>, physical: set<nat>) {
    forall k :: 0 <= k <= MAX_KEY ==> (k in replica <==> k in physical)
  }

  ghost predicate InStep(l: Link) {
    Ledger(l) && AllFollow(l.proxies, l.client)
  }

  /** The daemon follows exactly the keyboards the broker has, and has seen no generation the broker
      has not issued. */
  ghost predicate Ledger(l: Link) {
    && l.client.epochs.Keys == l.proxies.Keys && l.client.sequences.Keys == l.proxies.Keys
    && |l.proxies| <= KEYBOARD_BOUND
    && l.client.highest <= l.generation
  }

  ghost predicate AllFollow(proxies: map<nat, Proxy>, c: Client) {
    forall g :: g in proxies ==> 1 <= g <= c.highest && proxies[g].generation == g && Follows(c, proxies[g])
  }

  /** A message the broker sends next is one the daemon accepts. */
  lemma NextAccepted(c: Client, p: Proxy, operation: Operation, epoch: nat, sequence: nat, e: RawEvent)
    requires Follows(c, p) && p.generation != 0 && sequence > p.sequence && epoch >= p.epoch
    requires operation == Event || operation == DeviceReset || operation == SnapshotKey || operation == DeviceRetire
    ensures Acceptable(c, Message(operation, p.generation, epoch, sequence, e))
  {
  }

  /** Serving one generation leaves every other one alone. */
  lemma ServeElsewhere(c: Client, m: Message, swallow: bool, p: Proxy)
    requires Follows(c, p) && m.generation != p.generation && Serve(c, m, swallow).Some?
    ensures Follows(Serve(c, m, swallow).value.0, p)
  {
  }

  /** The untouched part of a link when one keyboard and the client move. */
  lemma StillInStep(l: Link, client: Client, p: Proxy)
    requires InStep(l) && p.generation in l.proxies
    requires Follows(client, p) && client.epochs.Keys == client.sequences.Keys == l.client.epochs.Keys
        && client.highest == l.client.highest
    requires forall g :: g in l.proxies && g != p.generation ==> Follows(client, l.proxies[g])
    ensures InStep(Link(l.proxies[p.generation := p], client, l.generation))
  {
    hide Follows, AllFollow;
    SameSize(l.proxies, p);
    AllFollowWith(l.proxies, l.client, client, p);
  }

  lemma AllFollowWith(proxies: map<nat, Proxy>, before: Client, client: Client, p: Proxy)
    requires AllFollow(proxies, before) && before.highest <= client.highest
    requires p.generation in proxies || 1 <= p.generation == client.highest
    requires Follows(client, p) && forall g :: g in proxies && g != p.generation ==> Follows(client, proxies[g])
    ensures AllFollow(proxies[p.generation := p], client)
  {
    hide Follows;
  }

  lemma OthersKeepFollowing(l: Link, m: Message, swallow: bool)
    requires InStep(l) && Serve(l.client, m, swallow).Some?
    ensures forall h :: h in l.proxies && h != m.generation ==>
              Follows(Serve(l.client, m, swallow).value.0, l.proxies[h])
  {
    hide Serve, Follows;
    forall h | h in l.proxies && h != m.generation
      ensures Follows(Serve(l.client, m, swallow).value.0, l.proxies[h])
    {
      ServeElsewhere(l.client, m, swallow, l.proxies[h]);
    }
  }

  lemma SameSize(proxies: map<nat, Proxy>, p: Proxy)
    requires p.generation in proxies
    ensures proxies[p.generation := p].Keys == proxies.Keys && |proxies[p.generation := p]| == |proxies|
  {
    assert proxies[p.generation := p].Keys == proxies.Keys;
  }

  // ---- key events ---------------------------------------------------------------------

  lemma {:induction false} EmitKeepsRest(p: Proxy, events: seq<RawEvent>, writable: bool)
    ensures var q := Emit(p, events, writable).0;
            q.generation == p.generation && q.epoch == p.epoch && q.sequence == p.sequence
                && q.keys.physical == p.keys.physical
    decreases |events|
  {
    if |events| != 0 {
      var e := events[0];
      if IsReport(e) {
        EmitKeepsRest(p.(frames := p.frames + [p.pending], keys := CommitOutput(p.keys), pending := []), events[1..],
            writable);
      } else if e.eventType != 0 {
        EmitKeepsRest(p.(pending := p.pending + [e]), events[1..], writable);
      } else {
        EmitKeepsRest(p, events[1..], writable);
      }
    }
  }

  lemma PumpKeepsRest(p: Proxy, x: Input)
    requires PumpEvent(p, x).1
    ensures Prepare(p, x).Ready?
    ensures var q, r := PumpEvent(p, x).0, Prepare(p, x).proxy;
            q.generation == r.generation && q.epoch == r.epoch && q.sequence == r.sequence
                && q.keys.physical == r.keys.physical
  {
    var r := Prepare(p, x);
    hide Prepare, Emit;
    if r.Ready? {
      EmitKeepsRest(r.proxy, r.events, x.writable);
      EmitKeepsRest(Emit(r.proxy, r.events, x.writable).0, [RawEvent(0, 0, 0)], x.writable);
    }
  }

  /** How a key event moves the physical set on either side. */
  function Moved(keys: set<nat>, e: RawEvent): set<nat> {
    if e.eventType != 1 || e.value < 0 || e.value > 1 then keys
    else if e.value == 0 then keys - {e.code} else keys + {e.code}
  }

  lemma BrokerMoves(p: Proxy, x: Input)
    requires !(p.keys.dropping && IsReport(x.event)) && Prepare(p, x).Ready?
    ensures var q := Prepare(p, x).proxy;
            && q.generation == p.generation && q.epoch == p.epoch && q.sequence == p.sequence + 1
            && (p.keys.dropping ==> q.keys.physical == p.keys.physical)
            && (!p.keys.dropping ==> q.keys.physical == if x.event.code > MAX_KEY then p.keys.physical
               else Moved(p.keys.physical, x.event))
  {
  }

  lemma DaemonMoves(c: Client, p: Proxy, e: RawEvent, swallow: bool)
    requires Follows(c, p) && p.generation != 0
    ensures var m := Control(Event, p, p.sequence + 1, e);
            var served := Serve(c, m, swallow);
            && served.Some?
            && served.value.0.Replica(p.generation) == Moved(c.Replica(p.generation), e)
            && served.value.0.epochs == c.epochs[p.generation := p.epoch]
            && served.value.0.sequences == c.sequences[p.generation := p.sequence + 1]
            && (p.generation <= c.highest ==> served.value.0.highest == c.highest)
  {
    NextAccepted(c, p, Event, p.epoch, p.sequence + 1, e);
  }

  lemma MovedAgree(replica: set<nat>, physical: set<nat>, e: RawEvent)
    requires SameKeys(replica, physical)
    ensures SameKeys(Moved(replica, e), if e.code > MAX_KEY then physical else Moved(physical, e))
  {
  }

  lemma InStepOne(l: Link, g: nat)
    requires InStep(l) && g in l.proxies
    ensures Follows(l.client, l.proxies[g]) && l.proxies[g].generation == g && 1 <= g <= l.client.highest
    ensures g in l.client.epochs && g in l.client.sequences
        && l.client.epochs.Keys == l.client.sequences.Keys == l.proxies.Keys
    ensures 1 <= l.proxies[g].epoch == l.client.epochs[g]
  {
  }

  lemma OthersFollowNow(l: Link)
    requires InStep(l)
    ensures forall h :: h in l.proxies ==> Follows(l.client, l.proxies[h])
  {
    hide Follows;
  }

  lemma StruckInStep(l: Link, g: nat, e: RawEvent, swallow: bool, writable: bool)
    requires InStep(l) && g in l.proxies && !(l.proxies[g].keys.dropping && IsReport(e))
    ensures var o := Struck(l, g, e, swallow, writable);
            !o.Refused? && (o.Continues? ==> InStep(o.link))
  {
    hide Serve, PumpEvent, InStep;
    var p := l.proxies[g];
    InStepOne(l, g);
    if e.eventType == 1 && !p.keys.dropping {
      if p.sequence + 1 < U64 {
        DaemonMoves(l.client, p, e, swallow);
        var m := Control(Event, p, p.sequence + 1, e);
        var served := Serve(l.client, m, swallow).value;
        AskedInStep(l, g, served.0, Input(e, true, Some(served.1), None, 0, writable), m, swallow);
      }
    } else {
      UnaskedInStep(l, g, Input(e, true, None, None, 0, writable));
    }
  }

  /** What the matcher says of a press is what the broker's key state shows: swallowed, with nothing pending for
      the consumer, or passed on as it came. The exchange goes through unless the counters or the frame are full. */
  lemma MatcherDecidesPress(l: Link, g: nat, k: nat, swallow: bool, writable: bool)
    requires InStep(l) && g in l.proxies && !l.proxies[g].keys.dropping && k <= MAX_KEY
    requires k !in l.proxies[g].keys.physical
    ensures var p := l.proxies[g];
            var o := Struck(l, g, Key(k, 1), swallow, writable);
            && (o.Continues? <==> p.sequence + 1 < U64 && (swallow || |p.pending| < FRAME_BOUND))
            && (o.Continues? ==>
                  var q := o.link.proxies[g];
                  && q.keys == (if swallow then p.keys.(physical := p.keys.physical + {k},
                                                        swallowed := p.keys.swallowed + {k})
                                else p.keys.(physical := p.keys.physical + {k}, output := p.keys.output + {k}))
                  && q.pending == (if swallow then p.pending else p.pending + [Key(k, 1)]) && q.frames == p.frames)
  {
    hide InStep, Serve, PumpEvent;
    var p, e := l.proxies[g], Key(k, 1);
    InStepOne(l, g);
    if p.sequence + 1 < U64 {
      var m := Control(Event, p, p.sequence + 1, e);
      NextAccepted(l.client, p, Event, p.epoch, p.sequence + 1, e);
      EventAnswer(l.client, m, swallow);
      var reply := Serve(l.client, m, swallow).value.1;
      var x := Input(e, true, Some(reply), None, 0, writable);
      if swallow { BrokerVerdicts.SwallowEmitsNothing(p, x, k); } else { BrokerVerdicts.PassIsObeyed(p, x, k); }
    }
  }

  /** A repeat or release is the consumer's exactly if its press was, whatever the matcher says. */
  lemma PressDecidesRest(l: Link, g: nat, e: RawEvent, swallow: bool, writable: bool)
    requires InStep(l) && g in l.proxies && !l.proxies[g].keys.dropping && e.eventType == 1 && e.code <= MAX_KEY
    requires e.value == 0 || e.value == 2
    ensures var p := l.proxies[g];
            var o := Struck(l, g, e, swallow, writable);
            o.Continues? ==> o.link.proxies[g].pending == if e.code in p.keys.output then p.pending + [e] else p.pending
  {
    hide InStep, Serve;
    var p := l.proxies[g];
    InStepOne(l, g);
    if p.sequence + 1 < U64 {
      var m := Control(Event, p, p.sequence + 1, e);
      NextAccepted(l.client, p, Event, p.epoch, p.sequence + 1, e);
      EventAnswer(l.client, m, swallow);
      var x := Input(e, true, Some(Serve(l.client, m, swallow).value.1), None, 0, writable);
      BrokerVerdicts.OwnedKeyEvents(p, x, e.code);
      var prepared := Prepare(p, x);
      hide Prepare, Emit;
      EmitKeys(prepared.proxy, prepared.events, writable);
      assert p.pending + [] == p.pending;
    }
  }

  lemma AskedInStep(l: Link, g: nat, client: Client, x: Input, m: Message, swallow: bool)
    requires InStep(l) && g in l.proxies && !l.proxies[g].keys.dropping && x.event.eventType == 1
    requires m == Control(Event, l.proxies[g], l.proxies[g].sequence + 1, x.event)
    requires Serve(l.client, m, swallow).Some? && client == Serve(l.client, m, swallow).value.0
    ensures var o := Pumped(l.(client := client), g, x);
            o.Continues? ==> InStep(o.link)
  {
    hide PumpEvent, Prepare, Serve, SameKeys, Moved, InStep;
    var p := l.proxies[g];
    var (q, ok) := PumpEvent(p, x);
    InStepOne(l, g);
    if ok {
      PumpKeepsRest(p, x);
      BrokerMoves(p, x);
      DaemonMoves(l.client, p, x.event, swallow);
      MovedAgree(l.client.Replica(g), p.keys.physical, x.event);
      OthersKeepFollowing(l, m, swallow);
      assert Follows(client, q);
      StillInStep(l, client, q);
    }
  }

  lemma UnaskedInStep(l: Link, g: nat, x: Input)
    requires InStep(l) && g in l.proxies && !(l.proxies[g].keys.dropping && IsReport(x.event))
    requires l.proxies[g].keys.dropping || x.event.eventType != 1
    ensures var o := Pumped(l, g, x);
            o.Continues? ==> InStep(o.link)
  {
    hide PumpEvent, Prepare, SameKeys, InStep;
    var p := l.proxies[g];
    var (q, ok) := PumpEvent(p, x);
    InStepOne(l, g);
    if ok {
      PumpKeepsRest(p, x);
      BrokerMoves(p, x);
      OthersFollowNow(l);
      assert Follows(l.client, q);
      StillInStep(l, l.client, q);
    }
  }

  // ---- resynchronisation --------------------------------------------------------------

  ghost function Codes(codes: seq<nat>): set<nat> {
    set k | k in codes
  }

  /** Snapshots go through exactly when every code is one the daemon knows. */
  lemma {:induction false} SnapshotsServed(c: Client, p: Proxy, sequence: nat, codes: seq<nat>)
    requires p.generation in c.epochs && p.generation in c.sequences && p.generation != 0 && p.epoch >= 1
    requires c.epochs[p.generation] == p.epoch && 1 <= c.sequences[p.generation] <= sequence
        && p.generation <= c.highest
    ensures Snapshots(c, p, sequence, codes).Some? <==> forall i :: 0 <= i < |codes| ==> codes[i] <= MAX_KEY
    ensures var d := Snapshots(c, p, sequence, codes);
            d.Some? ==>
              && d.value.Replica(p.generation) == c.Replica(p.generation) + Codes(codes)
              && d.value.epochs == c.epochs && d.value.highest == c.highest
              && p.generation in d.value.sequences && 1 <= d.value.sequences[p.generation] <= sequence + |codes|
              && d.value.sequences.Keys == c.sequences.Keys
              && (forall q: Proxy :: q.generation != p.generation && Follows(c, q) ==> Follows(d.value, q))
    decreases |codes|
  {
    hide Follows, Serve;
    if |codes| != 0 {
      assert codes == [codes[0]] + codes[1..];
      if codes[0] <= MAX_KEY {
        var m := Control(SnapshotKey, p, sequence + 1, Key(codes[0], 1));
        SnapshotServed(c, p, sequence, codes[0]);
        var d := Serve(c, m, false).value.0;
        SnapshotsServed(d, p, sequence + 1, codes[1..]);
        forall q: Proxy | q.generation != p.generation && Follows(c, q)
            ensures Follows(d, q) { ServeElsewhere(c, m, false, q); }
      } else {
        UnknownRefused(c, p, sequence, codes[0]);
      }
    }
  }

  lemma UnknownRefused(c: Client, p: Proxy, sequence: nat, code: nat)
    requires code > MAX_KEY
    ensures Serve(c, Control(SnapshotKey, p, sequence + 1, Key(code, 1)), false).None?
  {
  }

  lemma SnapshotServed(c: Client, p: Proxy, sequence: nat, code: nat)
    requires p.generation in c.epochs && p.generation in c.sequences && p.generation != 0 && p.epoch >= 1
    requires c.epochs[p.generation] == p.epoch && 1 <= c.sequences[p.generation] <= sequence
        && p.generation <= c.highest
    requires code <= MAX_KEY
    ensures var served := Serve(c, Control(SnapshotKey, p, sequence + 1, Key(code, 1)), false);
            && served.Some?
            && served.value.0.Replica(p.generation) == c.Replica(p.generation) + {code}
            && served.value.0.epochs == c.epochs && served.value.0.highest == c.highest
            && served.value.0.sequences == c.sequences[p.generation := sequence + 1]
  {
    assert c.epochs[p.generation := p.epoch] == c.epochs;
  }

  /** The reset that opens a resynchronisation: a new epoch and an empty replica. */
  lemma ResetServed(c: Client, p: Proxy, sequence: nat)
    requires Follows(c, p) && p.generation != 0 && p.generation <= c.highest && sequence > p.sequence
    ensures var q := p.(epoch := p.epoch + 1);
            var served := Serve(c, Control(DeviceReset, q, sequence, RawEvent(0, 0, 0)), false);
            && served.Some?
            && served.value.0.Replica(p.generation) == {}
            && served.value.0.epochs == c.epochs[p.generation := p.epoch + 1] && served.value.0.highest == c.highest
            && served.value.0.sequences == c.sequences[p.generation := sequence]
  {
    NextAccepted(c, p, DeviceReset, p.epoch + 1, sequence, RawEvent(0, 0, 0));
  }

  lemma {:induction false} AscendingIs(keys: set<nat>, n: nat)
    ensures Codes(Ascending(keys, n)) == Below(keys, n)
  {
    if n > 0 {
      AscendingIs(keys, n - 1);
      assert Below(keys, n) == Below(keys, n - 1) + (if n - 1 in keys then {n - 1} else {});
      assert forall k :: k in Ascending(keys, n) <==> k in Ascending(keys, n - 1) || (n - 1 in keys && k == n - 1);
    }
  }

  lemma RecoveredKeys(p: Proxy, keys: set<nat>, x: Input)
    requires p.keys.dropping && x == ReportOf(keys, x.writable) && PumpEvent(p, x).1
    ensures var q := PumpEvent(p, x).0;
            && q.generation == p.generation && q.epoch == p.epoch + 1 && q.sequence == p.sequence + 1 + |keys|
            && q.keys.physical == keys
  {
    PumpKeepsRest(p, x);
    ControlsCount(p.sequence, 1 + |keys|, 1 + |keys|);
    hide Emit, Ascending, Events;
  }

  /** After a loss both sides restart from the kernel's key state. The daemon would refuse exactly a key
      beyond the ones the protocol carries; exhausted counters tear the connection down first. */
  lemma ResynchronisedInStep(l: Link, g: nat, keys: set<nat>, writable: bool)
    requires InStep(l) && g in l.proxies && l.proxies[g].keys.dropping && (forall k :: k in keys ==> k < CODES)
    ensures var o := Resynchronised(l, g, keys, writable);
            var p := l.proxies[g];
            && (o.Refused? <==> && p.epoch + 1 < U64 && p.sequence + 1 + |keys| < U64
                                && exists k :: k in keys && k > MAX_KEY)
            && (o.Continues? ==> InStep(o.link))
  {
    hide Ascending, Serve, InStep, Follows, PumpEvent;
    var p := l.proxies[g];
    var q := p.(epoch := p.epoch + 1);
    var reset := Serve(l.client, Control(DeviceReset, q, p.sequence + 1, RawEvent(0, 0, 0)), false);
    SnapshotsAgree(l, g, keys);
    var client := Snapshots(reset.value.0, q, p.sequence + 1, Ascending(keys, CODES));
    if client.Some? {
      OthersFollow(l, g, keys, client.value);
      RestartInStep(l, g, keys, client.value, writable);
    }
  }

  /** The reset and the snapshots rebuild the replica from nothing. */
  lemma SnapshotsAgree(l: Link, g: nat, keys: set<nat>)
    requires InStep(l) && g in l.proxies && (forall k :: k in keys ==> k < CODES)
    ensures var p := l.proxies[g];
            var q := p.(epoch := p.epoch + 1);
            var reset := Serve(l.client, Control(DeviceReset, q, p.sequence + 1, RawEvent(0, 0, 0)), false);
            && reset.Some?
            && var d := Snapshots(reset.value.0, q, p.sequence + 1, Ascending(keys, CODES));
               && (d.Some? <==> forall k :: k in keys ==> k <= MAX_KEY)
               && (d.Some? ==> && d.value.Replica(g) == keys && d.value.epochs == l.client.epochs[g := p.epoch + 1]
                               && d.value.highest == l.client.highest
                                  && d.value.sequences.Keys == l.client.sequences.Keys
                               && g in d.value.sequences && 1 <= d.value.sequences[g] <= p.sequence + 1 + |keys|
                               && (forall o: Proxy :: o.generation != g && Follows(reset.value.0, o) ==>
                                  Follows(d.value, o)))
  {
    hide *;
    var p := l.proxies[g];
    InStepOne(l, g);
    KnownCodes(keys, Ascending(keys, CODES));
    ResetServed(l.client, p, p.sequence + 1);
    var reset := Serve(l.client, Control(DeviceReset, p.(epoch := p.epoch + 1), p.sequence + 1, RawEvent(0, 0, 0)),
        false);
    SnapshotsServed(reset.value.0, p.(epoch := p.epoch + 1), p.sequence + 1, Ascending(keys, CODES));
    assert {} + Codes(Ascending(keys, CODES)) == keys;
  }

  lemma KnownCodes(keys: set<nat>, codes: seq<nat>)
    requires codes == Ascending(keys, CODES) && forall k :: k in keys ==> k < CODES
    ensures |codes| == |keys| && Codes(codes) == keys
    ensures (forall i :: 0 <= i < |codes| ==> codes[i] <= MAX_KEY) <==> (forall k :: k in keys ==> k <= MAX_KEY)
  {
    AscendingIs(keys, CODES);
    AscendingCount(keys, CODES);
    assert Below(keys, CODES) == keys;
    hide Ascending, Below;
    if forall i :: 0 <= i < |codes| ==> codes[i] <= MAX_KEY {
      forall k | k in keys ensures k <= MAX_KEY { assert k in Codes(codes); }
    }
    if forall k :: k in keys ==> k <= MAX_KEY {
      forall i | 0 <= i < |codes| ensures codes[i] <= MAX_KEY { assert codes[i] in Codes(codes); }
    }
  }

  lemma OwnGenerations(l: Link)
    requires InStep(l)
    ensures forall h :: h in l.proxies ==> l.proxies[h].generation == h
  {
    hide Follows;
  }

  lemma OthersFollow(l: Link, g: nat, keys: set<nat>, client: Client)
    requires InStep(l) && g in l.proxies
    requires var p := l.proxies[g];
             var reset := Serve(l.client,
                 Control(DeviceReset, p.(epoch := p.epoch + 1), p.sequence + 1, RawEvent(0, 0, 0)), false);
             reset.Some? && forall q: Proxy :: q.generation != g && Follows(reset.value.0, q) ==> Follows(client, q)
    ensures forall h :: h in l.proxies && h != g ==> Follows(client, l.proxies[h])
  {
    hide Serve, Follows, InStep;
    var p := l.proxies[g];
    InStepOne(l, g);
    OthersKeepFollowing(l, Control(DeviceReset, p.(epoch := p.epoch + 1), p.sequence + 1, RawEvent(0, 0, 0)), false);
    OwnGenerations(l);
  }

  lemma RestartInStep(l: Link, g: nat, keys: set<nat>, client: Client, writable: bool)
    requires InStep(l) && g in l.proxies && l.proxies[g].keys.dropping
    requires client.epochs == l.client.epochs[g := l.proxies[g].epoch + 1] && client.highest == l.client.highest
    requires g in client.sequences && 1 <= client.sequences[g] <= l.proxies[g].sequence + 1 + |keys|
    requires client.sequences.Keys == l.client.sequences.Keys
    requires client.Replica(g) == keys
    requires forall h :: h in l.proxies && h != g ==> Follows(client, l.proxies[h])
    ensures var o := Pumped(l.(client := client), g, ReportOf(keys, writable));
            !o.Refused? && (o.Continues? ==> InStep(o.link))
  {
    hide PumpEvent, InStep;
    var x := ReportOf(keys, writable);
    var (q, ok) := PumpEvent(l.proxies[g], x);
    InStepOne(l, g);
    if ok {
      RecoveredKeys(l.proxies[g], keys, x);
      assert Follows(client, q);
      StillInStep(l, client, q);
    }
  }

  // ---- keyboards coming and going -----------------------------------------------------

  /** A fresh generation is above everything the daemon has seen, and there is room for it. */
  lemma AdoptInStep(l: Link)
    requires InStep(l)
    ensures var o := Adopted(l);
            !o.Refused? && (o.Continues? ==> InStep(o.link))
  {
    hide Serve, Follows, InStep;
    var p := NewProxy(l.generation + 1).(sequence := 1);
    if l.generation + 1 < U64 && |l.proxies| < KEYBOARD_BOUND {
      NewcomerServed(l, p);
      var m := Control(DeviceReset, p, 1, RawEvent(0, 0, 0));
      OthersKeepFollowing(l, m, false);
      OneMore(l, Serve(l.client, m, false).value.0, p);
    }
  }

  lemma OneMore(l: Link, client: Client, p: Proxy)
    requires InStep(l) && p.generation == l.generation + 1 == client.highest && |l.proxies| < KEYBOARD_BOUND
    requires Follows(client, p) && client.epochs.Keys == client.sequences.Keys == l.proxies.Keys + {p.generation}
    requires forall h :: h in l.proxies ==> Follows(client, l.proxies[h])
    ensures InStep(Link(l.proxies[p.generation := p], client, l.generation + 1))
  {
    hide Follows, AllFollow;
    var after := l.proxies[p.generation := p];
    AllFollowWith(l.proxies, l.client, client, p);
    assert after.Keys == l.proxies.Keys + {p.generation};
    assert |after| == |after.Keys|;
  }

  lemma NewcomerServed(l: Link, p: Proxy)
    requires InStep(l) && |l.proxies| < KEYBOARD_BOUND && p == NewProxy(l.generation + 1).(sequence := 1)
    ensures p.generation !in l.proxies
    ensures var served := Serve(l.client, Control(DeviceReset, p, 1, RawEvent(0, 0, 0)), false);
            && served.Some? && Follows(served.value.0, p)
            && served.value.0.epochs.Keys == served.value.0.sequences.Keys == l.proxies.Keys + {p.generation}
            && served.value.0.highest == p.generation
  {
    hide Follows;
    assert |l.client.epochs| == |l.client.epochs.Keys| == |l.proxies.Keys| == |l.proxies|;
    NewcomerAccepted(l.client, p);
  }

  lemma NewcomerAccepted(c: Client, p: Proxy)
    requires c.highest < p.generation && c.epochs.Keys == c.sequences.Keys && p.generation !in c.epochs
    requires |c.epochs| < KEYBOARD_BOUND && p == NewProxy(p.generation).(sequence := 1)
    ensures var served := Serve(c, Control(DeviceReset, p, 1, RawEvent(0, 0, 0)), false);
            && served.Some? && Follows(served.value.0, p)
            && served.value.0.epochs.Keys == served.value.0.sequences.Keys == c.epochs.Keys + {p.generation}
            && served.value.0.highest == p.generation
  {
    hide Follows;
    NewcomerFollows(c, p);
  }

  lemma NewcomerFollows(c: Client, p: Proxy)
    requires p == NewProxy(p.generation).(sequence := 1)
    requires Acceptable(c, Control(DeviceReset, p, 1, RawEvent(0, 0, 0)))
    ensures Follows(Serve(c, Control(DeviceReset, p, 1, RawEvent(0, 0, 0)), false).value.0, p)
  {
  }

  lemma DropInStep(l: Link, g: nat)
    requires InStep(l) && g in l.proxies
    ensures var o := Dropped(l, g);
            !o.Refused? && (o.Continues? ==> InStep(o.link) && Gone(o.link.client, g))
  {
    hide Follows, Serve, Acceptable, InStep, Gone;
    var p := l.proxies[g];
    var m := Control(DeviceRetire, p, p.sequence + 1, RawEvent(0, 0, 0));
    InStepOne(l, g);
    NextAccepted(l.client, p, DeviceRetire, p.epoch, p.sequence + 1, RawEvent(0, 0, 0));
    Retired(l.client, m);
    OthersKeepFollowing(l, m, false);
    OneFewer(l, Serve(l.client, m, false).value.0, g);
  }

  lemma Retired(c: Client, m: Message)
    requires Acceptable(c, m) && m.operation == DeviceRetire && m.generation <= c.highest && m.generation in c.epochs
    ensures var d := Serve(c, m, false).value.0;
            Serve(c, m, false).Some? && d.epochs.Keys == c.epochs.Keys - {m.generation} && d.highest == c.highest
    ensures m.generation in c.sequences ==>
        Serve(c, m, false).value.0.sequences.Keys == c.sequences.Keys - {m.generation}
  {
  }

  lemma OneFewer(l: Link, client: Client, g: nat)
    requires InStep(l) && g in l.proxies && client.highest == l.client.highest
    requires client.epochs.Keys == client.sequences.Keys == l.proxies.Keys - {g}
    requires forall h :: h in l.proxies && h != g ==> Follows(client, l.proxies[h])
    ensures InStep(Link(l.proxies - {g}, client, l.generation)) && Gone(client, g)
  {
    hide Follows;
    var after := l.proxies - {g};
    assert after.Keys == l.proxies.Keys - {g};
    assert |after| == |after.Keys|;
  }

  // ---- whole runs ---------------------------------------------------------------------

  /** What the kernel owes an exchange: its key bitmap has 768 bits, so it reports no code above 767. */
  predicate Carried(x: Exchange) {
    x.Resynchronise? ==> forall k :: k in x.keys ==> k <= MAX_KEY
  }

  lemma ExchangeInStep(l: Link, x: Exchange)
    requires InStep(l) && Carried(x)
    ensures var o := Perform(l, x);
            !o.Refused? && (o.Continues? ==> InStep(o.link))
  {
    match x {
      case Adopt => AdoptInStep(l);
      case Strike(g, e, swallow, writable) =>
        if g in l.proxies && !(l.proxies[g].keys.dropping && IsReport(e)) { StruckInStep(l, g, e, swallow, writable); }
      case Resynchronise(g, keys, writable) =>
        if g in l.proxies && l.proxies[g].keys.dropping { ResynchronisedInStep(l, g, keys, writable); }
      case Drop(g) => if g in l.proxies { DropInStep(l, g); }
    }
  }

  /** The link after a run of exchanges, or how it ended. */
  function Converse(l: Link, exchanges: seq<Exchange>): Outcome
    decreases |exchanges|
  {
    if |exchanges| == 0 then Continues(l)
    else
      var o := Perform(l, exchanges[0]);
      if o.Continues? then Converse(o.link, exchanges[1..]) else o
  }

  predicate AllCarried(exchanges: seq<Exchange>) {
    forall i :: 0 <= i < |exchanges| ==> Carried(exchanges[i])
  }

  /** A broker that follows the lifecycle is never refused, and as long as the connection lasts the
      daemon's replica of every keyboard equals the broker's physical set. */
  lemma {:induction false} ReplicasAgree(l: Link, exchanges: seq<Exchange>)
    requires InStep(l) && AllCarried(exchanges)
    ensures var o := Converse(l, exchanges);
            && !o.Refused?
            && (o.Continues? ==> InStep(o.link)
                                 && forall g :: g in o.link.proxies ==>
                                    SameKeys(o.link.client.Replica(g), o.link.proxies[g].keys.physical))
    decreases |exchanges|
  {
    if |exchanges| != 0 {
      ExchangeInStep(l, exchanges[0]);
      var o := Perform(l, exchanges[0]);
      hide Perform, Carried;
      if o.Continues? { ReplicasAgree(o.link, exchanges[1..]); }
    }
  }

  lemma FreshLinkInStep()
    ensures InStep(Link(map[], NewClient(), 0)) && AllSound(Link(map[], NewClient(), 0))
  {
  }

  // ---- when an exchange goes through --------------------------------------------------

  ghost predicate AllSound(l: Link) {
    forall g :: g in l.proxies ==> Sound(l.proxies[g])
  }

  lemma PumpedSound(l: Link, g: nat, x: Input)
    requires AllSound(l) && g in l.proxies
    ensures var o := Pumped(l, g, x); o.Continues? ==> AllSound(o.link)
  {
    hide Sound, PumpEvent;
    PumpKeepsAccount(l.proxies[g], x);
  }

  lemma ExchangeSound(l: Link, x: Exchange)
    requires AllSound(l)
    ensures var o := Perform(l, x); o.Continues? ==> AllSound(o.link)
  {
    hide Sound, PumpEvent, Serve, Snapshots, AllSound, Pumped;
    match x {
      case Adopt => AdoptSound(l);
      case Strike(g, e, swallow, writable) =>
        if g in l.proxies { StruckSound(l, g, e, swallow, writable); }
      case Resynchronise(g, keys, writable) =>
        if g in l.proxies { ResynchronisedSound(l, g, keys, writable); }
      case Drop(g) => DropSound(l, g);
    }
  }

  lemma AdoptSound(l: Link)
    requires AllSound(l)
    ensures var o := Adopted(l); o.Continues? ==> AllSound(o.link)
  {
    hide Serve;
    NewProxyIsSound(l.generation + 1);
    assert Sound(NewProxy(l.generation + 1).(sequence := 1));
    hide Sound;
  }

  lemma DropSound(l: Link, g: nat)
    requires AllSound(l)
    ensures g in l.proxies ==> var o := Dropped(l, g); o.Continues? ==> AllSound(o.link)
  {
    hide Serve, Sound;
  }

  lemma ClientAside(l: Link, c: Client)
    requires AllSound(l)
    ensures AllSound(l.(client := c))
  {
    hide Sound;
  }

  lemma StruckSound(l: Link, g: nat, e: RawEvent, swallow: bool, writable: bool)
    requires AllSound(l) && g in l.proxies
    ensures var o := Struck(l, g, e, swallow, writable); o.Continues? ==> AllSound(o.link)
  {
    hide Serve, AllSound, Pumped;
    var p := l.proxies[g];
    var served := Serve(l.client, Control(Event, p, p.sequence + 1, e), swallow);
    if e.eventType == 1 && !p.keys.dropping {
      if served.Some? {
        ClientAside(l, served.value.0);
        PumpedSound(l.(client := served.value.0), g, Input(e, true, Some(served.value.1), None, 0, writable));
      }
    } else {
      PumpedSound(l, g, Input(e, true, None, None, 0, writable));
    }
  }

  lemma ResynchronisedSound(l: Link, g: nat, keys: set<nat>, writable: bool)
    requires AllSound(l) && g in l.proxies
    ensures var o := Resynchronised(l, g, keys, writable); o.Continues? ==> AllSound(o.link)
  {
    hide Serve, AllSound, Pumped, Snapshots, Ascending;
    var p := l.proxies[g];
    var q := p.(epoch := p.epoch + 1);
    var reset := Serve(l.client, Control(DeviceReset, q, p.sequence + 1, RawEvent(0, 0, 0)), false);
    if reset.Some? {
      var client := Snapshots(reset.value.0, q, p.sequence + 1, Ascending(keys, CODES));
      if client.Some? {
        ClientAside(l, client.value);
        PumpedSound(l.(client := client.value), g, ReportOf(keys, writable));
      }
    }
  }

  /** Along every conversation the broker's account of each keyboard is kept. */
  lemma {:induction false} ConversationSound(l: Link, exchanges: seq<Exchange>)
    requires AllSound(l)
    ensures var o := Converse(l, exchanges); o.Continues? ==> AllSound(o.link)
    decreases |exchanges|
  {
    hide AllSound, Perform;
    if |exchanges| != 0 {
      ExchangeSound(l, exchanges[0]);
      var o := Perform(l, exchanges[0]);
      if o.Continues? { ConversationSound(o.link, exchanges[1..]); }
    }
  }

  /** A discovered keyboard is adopted unless generations or slots have run out, and a lost one dropped unless its
      sequence has: nothing else tears the connection down there. */
  lemma KeyboardsComeAndGo(l: Link, g: nat)
    requires InStep(l)
    ensures var o := Adopted(l);
            && (o.Continues? <==> l.generation + 1 < U64 && |l.proxies| < KEYBOARD_BOUND)
            && (o.Continues? ==> o.link.proxies ==
                                 l.proxies[l.generation + 1 := NewProxy(l.generation + 1).(sequence := 1)])
    ensures g in l.proxies ==>
              var o := Dropped(l, g);
              && (o.Continues? <==> l.proxies[g].sequence + 1 < U64)
              && (o.Continues? ==> o.link.proxies == l.proxies - {g})
  {
    hide InStep, Serve, Gone;
    AdoptInStep(l);
    if g in l.proxies { DropInStep(l, g); }
  }

  /** After a loss the exchange goes through exactly if the counters, the codes and the reconciling frame allow, and
      the consumer then holds the keys that are down, save those swallowed before that it did not have. */
  lemma LossIsMadeGood(l: Link, g: nat, keys: set<nat>, writable: bool)
    requires InStep(l) && AllSound(l) && g in l.proxies && l.proxies[g].keys.dropping
    requires forall k :: k in keys ==> k < CODES
    ensures var p := l.proxies[g];
            var o := Resynchronised(l, g, keys, writable);
            var missed := BrokerVerdicts.Missed(p, keys);
            && (o.Continues? <==> && p.epoch + 1 < U64 && p.sequence + 1 + |keys| < U64 && writable
                                  && (forall k :: k in keys ==> k <= MAX_KEY)
                                  && |BrokerVerdicts.Stale(p, keys)| + |missed| <= FRAME_BOUND)
            && (o.Continues? ==> && InStep(o.link) && g in o.link.proxies
                                 && Consumer(o.link.proxies[g].frames) == p.keys.committed * keys + missed)
  {
    hide InStep, Serve, PumpEvent, Consumer, Sound, Snapshots, Ascending, BrokerVerdicts.Missed;
    BrokerVerdicts.RecoveryRestores(l.proxies[g], ReportOf(keys, writable));
    ResynchronisedInStep(l, g, keys, writable);
  }
}
