/** The registered keyboards and the router together. Whatever is plugged, pressed, locked or
    unplugged, a raw key is held exactly while the router owns its press, so every event the router
    sees is one whose client-side effect it accounts for. */
module KeyboardSystem {
  import opened Wrappers
  import opened Routing
  import opened RouterRuns
  import opened PhysicalDevices
  import opened PressLatch
  import opened Announcement
  import ClientView
  import RecoveryGate

  datatype Keyboards = Keyboards(devices: DeviceState, world: World)

  datatype Stimulus =
    | Plug(identity: nat, verifiedEvdev: bool, virtualDevice: bool, translation: seq<nat>)
    | Unplug(identity: nat, answers: Answers)
    | Strike(identity: nat, raw: nat, down: bool, ticket: Option<Ticket>, reply: Option<Decision>, now: nat,
             answers: Answers, admission: Option<bool>)
    | Session(action: Action)

  /** Devices and key events reach the router only through the device registry. */
  predicate SessionAction(a: Action) {
    !a.DoAdd? && !a.DoRetire? && !a.DoKey?
  }

  ghost predicate Reaches(s: DeviceState, x: Stimulus)
    requires x.Plug?
  {
    !(x.identity == 0 || !x.verifiedEvdev || x.virtualDevice || s.next >= U64_MAX || x.identity in s.attached
      || |x.translation| != KEY_COUNT || !Injective(x.translation) || |s.attached| >= DEVICE_COUNT)
  }

  /** The router call, if any, that a stimulus causes. */
  ghost function Induced(k: Keyboards, x: Stimulus): Option<Action>
    requires Agrees(k.devices, k.world.router)
  {
    match x
    case Plug(_, _, _, _) => if Reaches(k.devices, x) then Some(DoAdd(k.devices.next)) else None
    case Unplug(identity, answers) =>
      if identity in k.devices.attached then Some(DoRetire(k.devices.attached[identity].generation, answers)) else None
    case Strike(identity, raw, down, ticket, reply, now, answers, admission) =>
      var (_, e) := KeyTransition(k.devices, identity, raw, down);
      if e.Some? then Some(DoKey(e.value, ticket, reply, now, answers, admission)) else None
    case Session(a) => if SessionAction(a) then Some(a) else None
  }

  ghost function DevicesAfter(k: Keyboards, x: Stimulus): DeviceState
    requires Agrees(k.devices, k.world.router)
  {
    match x
    case Plug(identity, verified, virtual, translation) =>
      if |translation| != KEY_COUNT then k.devices
      else Attach(k.devices, k.world.router, identity, verified, virtual, translation).0
    case Unplug(identity, answers) => Detach(k.devices, k.world.router, identity, answers).0
    case Strike(identity, raw, down, _, _, _, _, _) => KeyTransition(k.devices, identity, raw, down).0
    case Session(_) => k.devices
  }

  ghost function Advance(k: Keyboards, x: Stimulus): Keyboards
    requires Agrees(k.devices, k.world.router)
  {
    var action := Induced(k, x);
    Keyboards(DevicesAfter(k, x), if action.Some? then Next(k.world, action.value) else k.world)
  }

  // ---- one step ----------------------------------------------------------------------

  /** After its event is processed a press is owned unless it was released. */
  lemma KeyOwner(s: RouterState, a: Action)
    requires a.DoKey? && Disciplined(s, a)
    ensures Apply(s, a).state.OwnerOf(a.event.device, a.event.key) != Owner.Unowned <==> a.event.state != Up
  {
    hide Route, OriginalOutcome;
    RouteOwner(s, a.event, a.ticket, a.reply, a.now, a.answers.delivery);
    var proposal := Route(s, a.event, a.ticket, a.reply, a.now, a.answers.delivery);
    if a.admission.Some? {
      OutcomeOwner(proposal.state, a.event, proposal.result, a.admission.value);
    }
  }

  lemma RouteOwner(s: RouterState, e: Event, ticket: Option<Ticket>, reply: Option<Decision>, now: nat,
                   answer: Delivery)
    requires !Bypasses(s, e) && (e.state == Down <==> s.OwnerOf(e.device, e.key) == Owner.Unowned)
    ensures Route(s, e, ticket, reply, now, answer).state.OwnerOf(e.device, e.key) != Owner.Unowned <==> e.state != Up
  {
    hide RoutePress, OtherForwardedIn, IsModifier;
    PressShape(s, e, ticket, reply, now, answer);
  }

  lemma OutcomeOwner(s: RouterState, e: Event, proposal: RouteResult, admitted: bool)
    ensures OriginalOutcome(s, e, proposal, admitted).0.OwnerOf(e.device, e.key) != Owner.Unowned
       <==> s.OwnerOf(e.device, e.key) != Owner.Unowned
  {
  }

  lemma KeyElsewhere(s: RouterState, a: Action, d: nat, k: nat)
    requires a.DoKey? && s.WellFormed() && (d, k) != (a.event.device, a.event.key)
    ensures OwnerIn(Apply(s, a).state.held, d, k) == OwnerIn(s.held, d, k)
  {
    hide ProcessKey;
    ProcessKeyOneCell(s, a.event, a.ticket, a.reply, a.now, a.answers.delivery, a.admission);
  }

  /** Only the struck press changed hands. */
  ghost predicate StruckOnly(held: Ownership, held': Ownership, device: nat, key: nat, down: bool) {
    && (OwnerIn(held', device, key) != Owner.Unowned <==> down)
    && (forall d: nat, c: nat :: (d, c) != (device, key) ==> OwnerIn(held', d, c) == OwnerIn(held, d, c))
  }

  lemma KeyStrikes(r: RouterState, a: Action)
    requires r.WellFormed() && a.DoKey? && Disciplined(r, a)
    ensures var r' := Apply(r, a).state;
            && r'.WellFormed() && r'.live == r.live && r'.lastGeneration == r.lastGeneration
            && StruckOnly(r.held, r'.held, a.event.device, a.event.key, a.event.state != Up)
  {
    hide ProcessKey, Disciplined;
    KeyOwner(r, a);
    ProcessKeyOneCell(r, a.event, a.ticket, a.reply, a.now, a.answers.delivery, a.admission);
    var r' := Apply(r, a).state;
    forall d: nat, c: nat | (d, c) != (a.event.device, a.event.key)
      ensures OwnerIn(r'.held, d, c) == OwnerIn(r.held, d, c)
    {
      KeyElsewhere(r, a, d, c);
    }
  }

  lemma StrikeAgrees(k: Keyboards, x: Stimulus)
    requires Agrees(k.devices, k.world.router) && x.Strike?
    ensures var k' := Advance(k, x); Agrees(k'.devices, k'.world.router)
  {
    var (s', e) := KeyTransition(k.devices, x.identity, x.raw, x.down);
    if e.Some? {
      var r := k.world.router;
      var action := Induced(k, x).value;
      EventIsDisciplined(k.devices, r, x.identity, x.raw, x.down);
      hide Agrees, Apply, StruckOnly, WellFormedTable, Bypasses;
      AgreesWellFormed(k.devices, r);
      KeyStrikes(r, action);
      StruckAgrees(k.devices, r, Apply(r, action).state, x.identity, x.raw, x.down);
    }
  }

  lemma AgreesWellFormed(s: DeviceState, r: RouterState)
    requires Agrees(s, r)
    ensures r.WellFormed()
  {
  }

  lemma StruckAgrees(s: DeviceState, r: RouterState, r': RouterState, identity: nat, raw: nat, down: bool)
    requires Agrees(s, r) && r'.WellFormed() && r'.live == r.live && r'.lastGeneration == r.lastGeneration
    requires KeyTransition(s, identity, raw, down).1.Some?
    requires var e := KeyTransition(s, identity, raw, down).1.value; StruckOnly(r.held, r'.held, e.device, e.key, down)
    ensures Agrees(KeyTransition(s, identity, raw, down).0, r')
  {
    hide AttachmentAgrees, Separate, WellFormedTable, AllAgree, StruckOnly;
    AllAttached(s.attached, r.live, r.held);
    var a := s.attached[identity];
    var s' := KeyTransition(s, identity, raw, down).0;
    var a' := s'.attached[identity];
    OneAgrees(s.attached, r.live, r.held, identity);
    StruckSource(a, raw, down, r.held, r'.held);
    StruckOthers(s.attached, identity, raw, down, r.live, r.held, r'.held);
    SeparateSame(s.attached, identity);
    SeparateAfter(s.attached, identity, a');
    AllAgreeBut(s.attached, r.live, r'.held, identity, a');
    assert s'.attached.Keys == s.attached.Keys;
  }

  lemma SeparateSame(attached: map<nat, Attachment>, identity: nat)
    requires Separate(attached) && identity in attached
    ensures forall i :: i in attached && i != identity ==> attached[i].generation != attached[identity].generation
  {
  }

  lemma StruckSource(a: Attachment, raw: nat, down: bool, held: Ownership, held': Ownership)
    requires AttachmentAgrees(a, held) && raw < KEY_COUNT && a.translation[raw] != UNMAPPED
    requires StruckOnly(held, held', a.generation, a.translation[raw], down)
    ensures AttachmentAgrees(a.(held := if down then a.held + {raw} else a.held - {raw}), held')
  {
    hide AttachmentAgrees, OwnerIn;
    SourceAgrees(a, raw, down, held, held');
  }

  lemma StruckOthers(attached: map<nat, Attachment>, identity: nat, raw: nat, down: bool, live: set<nat>,
                     held: Ownership, held': Ownership)
    requires Separate(attached) && AllAgree(attached, live, held) && identity in attached
    requires raw < KEY_COUNT == |attached[identity].translation|
    requires StruckOnly(held, held', attached[identity].generation, attached[identity].translation[raw], down)
    ensures forall i :: i in attached && i != identity ==> AttachmentAgrees(attached[i], held')
  {
    hide AttachmentAgrees, OwnerIn;
    forall i | i in attached && i != identity ensures AttachmentAgrees(attached[i], held') {
      assert attached[i].generation != attached[identity].generation;
      OthersAgree(attached[i], held, held');
    }
  }

  lemma AllAgreeBut(attached: map<nat, Attachment>, live: set<nat>, held': Ownership, identity: nat, a: Attachment)
    requires forall i :: i in attached && i != identity ==> AttachmentAgrees(attached[i], held')
    requires forall i :: i in attached ==> attached[i].generation in live
    requires AttachmentAgrees(a, held') && a.generation in live
    ensures AllAgree(attached[identity := a], live, held')
  {
    hide AttachmentAgrees;
  }

  lemma PlugAgrees(k: Keyboards, x: Stimulus)
    requires Agrees(k.devices, k.world.router) && x.Plug?
    ensures var k' := Advance(k, x); Agrees(k'.devices, k'.world.router)
  {
    hide Agrees, Injective;
    if |x.translation| == KEY_COUNT {
      AttachAgrees(k.devices, k.world.router, x.identity, x.verifiedEvdev, x.virtualDevice, x.translation);
    }
  }

  lemma UnplugAgrees(k: Keyboards, x: Stimulus)
    requires Agrees(k.devices, k.world.router) && x.Unplug?
    ensures var k' := Advance(k, x); Agrees(k'.devices, k'.world.router)
  {
    hide Retire, Agrees, SoleKeysIn;
    if x.identity in k.devices.attached {
      AttachedIsLive(k.devices, k.world.router, x.identity);
      DetachedAgrees(k.devices, k.world.router, x.identity, x.answers);
    }
  }

  lemma AttachedIsLive(s: DeviceState, r: RouterState, identity: nat)
    requires Agrees(s, r) && identity in s.attached
    ensures s.attached[identity].generation in r.live
  {
    hide AttachmentAgrees, WellFormedTable, Separate;
  }

  lemma DetachedAgrees(s: DeviceState, r: RouterState, identity: nat, answers: Answers)
    requires Agrees(s, r) && identity in s.attached
    ensures Agrees(Detach(s, r, identity, answers).0, Retire(r, s.attached[identity].generation, answers))
  {
    hide AttachmentAgrees, Separate, WellFormedTable, AllAgree, Retire, OwnerIn;
    var g := s.attached[identity].generation;
    var r' := Retire(r, g, answers);
    var after := s.attached - {identity};
    OneAgrees(s.attached, r.live, r.held, identity);
    RetiredShape(r, g, answers);
    SeparateWithout(s.attached, identity);
    DetachedOthers(s.attached, identity, r.live, r.held, r'.held);
    assert after.Keys == s.attached.Keys - {identity};
  }

  lemma DetachedOthers(attached: map<nat, Attachment>, identity: nat, live: set<nat>, held: Ownership, held': Ownership)
    requires AllAgree(attached, live, held) && identity in attached && Separate(attached)
    requires forall d: nat, c: nat :: d != attached[identity].generation ==> OwnerIn(held', d, c) == OwnerIn(held, d, c)
    ensures AllAgree(attached - {identity}, live - {attached[identity].generation}, held')
  {
    hide AttachmentAgrees, OwnerIn;
    var after := attached - {identity};
    forall i | i in after
      ensures after[i].generation in live - {attached[identity].generation} && AttachmentAgrees(after[i], held')
    {
      assert attached[i].generation != attached[identity].generation;
      OthersAgree(after[i], held, held');
    }
  }

  lemma SeparateWithout(attached: map<nat, Attachment>, identity: nat)
    requires Separate(attached) && identity in attached
    ensures Separate(attached - {identity})
    ensures forall i :: i in attached && i != identity ==> attached[i].generation != attached[identity].generation
  {
  }

  lemma RetiredShape(r: RouterState, g: nat, answers: Answers)
    requires r.WellFormed() && g in r.live
    ensures var r' := Retire(r, g, answers);
            && r'.WellFormed() && r'.live == r.live - {g} && |r'.live| == |r.live| - 1
               && r'.lastGeneration == r.lastGeneration
            && (forall d: nat, c: nat :: d != g ==> OwnerIn(r'.held, d, c) == OwnerIn(r.held, d, c))
  {
    WellFormedStep(r, DoRetire(g, answers));
  }

  lemma SessionAgrees(k: Keyboards, x: Stimulus)
    requires Agrees(k.devices, k.world.router) && x.Session?
    ensures var k' := Advance(k, x); Agrees(k'.devices, k'.world.router)
  {
    hide Apply, AttachmentAgrees, WellFormedTable, Separate, OwnerIn;
    if SessionAction(x.action) {
      var r := k.world.router;
      var r' := Apply(r, x.action).state;
      WellFormedStep(r, x.action);
      SessionKeepsOwners(r, x.action);
      forall i | i in k.devices.attached ensures AttachmentAgrees(k.devices.attached[i], r'.held) {
        OthersAgree(k.devices.attached[i], r.held, r'.held);
      }
    }
  }

  /** Lock, unlock, focus and recovery change who owns a press, never whether it is owned. */
  lemma SessionKeepsOwners(r: RouterState, a: Action)
    requires SessionAction(a) && r.WellFormed()
    ensures var r' := Apply(r, a).state;
            && r'.live == r.live && r'.lastGeneration == r.lastGeneration
            && (forall d: nat, c: nat :: OwnerIn(r'.held, d, c) == Owner.Unowned <==>
               OwnerIn(r.held, d, c) == Owner.Unowned)
  {
    hide Begin, Settlement, FinishRelease, ModifierSides, KeysOwnedBy;
    match a {
      case DoBegin(e, now, budget, releaseAction) => BeginKeeps(r, e, now, budget, releaseAction);
      case DoSettlement(e, now, budget) => SettlementKeeps(r, e, now, budget);
      case DoFinish(ticket, reply, delivered, now, answers, original) =>
        FinishKeeps(r, ticket, reply, delivered, now, answers.delivery, original);
      case _ =>
    }
  }

  lemma AdvanceAgrees(k: Keyboards, x: Stimulus)
    requires Agrees(k.devices, k.world.router)
    ensures var k' := Advance(k, x); Agrees(k'.devices, k'.world.router)
  {
    hide Agrees, Advance;
    match x {
      case Plug(_, _, _, _) => PlugAgrees(k, x);
      case Unplug(_, _) => UnplugAgrees(k, x);
      case Strike(_, _, _, _, _, _, _, _) => StrikeAgrees(k, x);
      case Session(_) => SessionAgrees(k, x);
    }
  }

  // ---- whole runs --------------------------------------------------------------------

  ghost function Start(): (k: Keyboards)
    ensures Agrees(k.devices, k.world.router)
  {
    Keyboards(NoDevices(), World(Initial(), []))
  }

  /** The system after any sequence of stimuli; physical and router state agree throughout. */
  ghost function Play(stimuli: seq<Stimulus>): (k: Keyboards)
    ensures Agrees(k.devices, k.world.router)
  {
    if stimuli == [] then Start()
    else
      var k := Play(stimuli[..|stimuli| - 1]);
      AdvanceAgrees(k, stimuli[|stimuli| - 1]);
      Advance(k, stimuli[|stimuli| - 1])
  }

  /** The router calls a sequence of stimuli causes. */
  ghost function Calls(stimuli: seq<Stimulus>): seq<Action> {
    if stimuli == [] then []
    else
      var front := stimuli[..|stimuli| - 1];
      var action := Induced(Play(front), stimuli[|stimuli| - 1]);
      Calls(front) + if action.Some? then [action.value] else []
  }

  lemma {:induction false} CallsAreTheRun(stimuli: seq<Stimulus>)
    ensures Play(stimuli).world == Run(Calls(stimuli))
  {
    if stimuli != [] {
      var front := stimuli[..|stimuli| - 1];
      CallsAreTheRun(front);
      var action := Induced(Play(front), stimuli[|stimuli| - 1]);
      if action.Some? {
        RunExtend(Calls(front), action.value);
      } else {
        assert Calls(stimuli) == Calls(front);
      }
    }
  }

  lemma {:induction false} CallsAreDisciplined(stimuli: seq<Stimulus>)
    ensures DisciplinedRun(Calls(stimuli))
  {
    if stimuli != [] {
      var front := stimuli[..|stimuli| - 1];
      var x := stimuli[|stimuli| - 1];
      var k := Play(front);
      CallsAreDisciplined(front);
      CallsAreTheRun(front);
      var action := Induced(k, x);
      if action.Some? {
        if x.Strike? { EventIsDisciplined(k.devices, k.world.router, x.identity, x.raw, x.down); }
        assert Disciplined(k.world.router, action.value);
        DisciplinedExtend(Calls(front), action.value);
      } else {
        assert Calls(stimuli) == Calls(front);
      }
    }
  }

  /** For the whole system, with no assumption on the stimuli or on what the output does: the client has
      down every announced key, and beyond those at most the keys its answers leave in doubt. */
  lemma SystemViewBounds(stimuli: seq<Stimulus>)
    ensures var calls := Calls(stimuli);
            var keys := Play(stimuli).world.router.FocusEnterKeys();
            keys <= ClientView.Seen(calls) <= keys + ClientView.Doubtful(calls)
  {
    CallsAreTheRun(stimuli);
    CallsAreDisciplined(stimuli);
    ClientView.ViewBounds(Calls(stimuli));
  }

  /** Conservation for the whole system: if each recovery comes after an enter that nothing uncertain
      followed, then while the output is certain the client's view is exactly the announced key set. */
  lemma SystemConservation(stimuli: seq<Stimulus>)
    requires ClientView.FreshlyRecovered(Calls(stimuli))
    ensures var w := Play(stimuli).world;
            !w.router.fatal ==> ClientView.View({}, w.log) == w.router.FocusEnterKeys()
  {
    CallsAreTheRun(stimuli);
    CallsAreDisciplined(stimuli);
    ClientView.Conservation(Calls(stimuli));
  }

  /** The same with recoveries and enters made through the gate, which supplies that condition. */
  lemma GatedSystemConservation(stimuli: seq<Stimulus>, gate: seq<RecoveryGate.LatchAction>)
    requires Calls(stimuli) == RecoveryGate.RouterCalls(gate)
    ensures var w := Play(stimuli).world;
            !w.router.fatal ==> ClientView.View({}, w.log) == w.router.FocusEnterKeys()
  {
    RecoveryGate.GateRecoversFresh(gate);
    SystemConservation(stimuli);
  }

  /** The router's pass-through of unowned repeats and releases is never taken. */
  lemma PassThroughUnreachable(stimuli: seq<Stimulus>, x: Stimulus)
    requires x.Strike? && Induced(Play(stimuli), x).Some?
    ensures var e := Induced(Play(stimuli), x).value.event;
            var r := Play(stimuli).world.router;
            !Bypasses(r, e) && (e.state != Down ==> r.OwnerOf(e.device, e.key) != Owner.Unowned)
  {
    EventIsDisciplined(Play(stimuli).devices, Play(stimuli).world.router, x.identity, x.raw, x.down);
  }

  // ---- what is struck is reported ---------------------------------------------------------

  /** The last strike of a raw key of the keyboard, while it was attached and since it was, was a down. */
  ghost predicate LastDown(stimuli: seq<Stimulus>, identity: nat, raw: nat)
    decreases |stimuli|
  {
    if stimuli == [] then false
    else
      var front, x := stimuli[..|stimuli| - 1], stimuli[|stimuli| - 1];
      match x
      case Strike(i, r, down, _, _, _, _, _) =>
        if i == identity && r == raw && i in Play(front).devices.attached then down else LastDown(front, identity, raw)
      case Unplug(i, _) => i != identity && LastDown(front, identity, raw)
      case _ => LastDown(front, identity, raw)
  }

  predicate Mapped(s: DeviceState, identity: nat, raw: nat) {
    && identity in s.attached && raw < KEY_COUNT == |s.attached[identity].translation|
    && s.attached[identity].translation[raw] != UNMAPPED
  }

  ghost predicate HeldAgrees(s: DeviceState, identity: nat, raw: nat, down: bool) {
    && (identity !in s.attached ==> !down)
    && (Mapped(s, identity, raw) ==> (raw in s.attached[identity].held <==> down))
  }

  lemma StrikeHolds(s: DeviceState, r: RouterState, x: Stimulus, identity: nat, raw: nat, down: bool)
    requires Agrees(s, r) && x.Strike? && HeldAgrees(s, identity, raw, down)
    ensures var now := if x.identity == identity && x.raw == raw && identity in s.attached then x.down else down;
            HeldAgrees(KeyTransition(s, x.identity, x.raw, x.down).0, identity, raw, now)
  {
    hide AttachmentAgrees, WellFormedTable, Separate;
  }

  lemma PlugHolds(s: DeviceState, r: RouterState, x: Stimulus, identity: nat, raw: nat, down: bool)
    requires Agrees(s, r) && x.Plug? && HeldAgrees(s, identity, raw, down)
    ensures HeldAgrees(Attach(s, r, x.identity, x.verifiedEvdev, x.virtualDevice, x.translation).0, identity, raw, down)
  {
    hide AttachmentAgrees, WellFormedTable, Separate, AllAgree;
  }

  lemma {:induction false} HeldIsLastDown(stimuli: seq<Stimulus>, identity: nat, raw: nat)
    ensures HeldAgrees(Play(stimuli).devices, identity, raw, LastDown(stimuli, identity, raw))
    decreases |stimuli|
  {
    hide Agrees, HeldAgrees, KeyTransition, Attach, Induced, Next;
    if stimuli == [] {
      NothingHeld(identity, raw);
    } else {
      var front, x := stimuli[..|stimuli| - 1], stimuli[|stimuli| - 1];
      HeldIsLastDown(front, identity, raw);
      var k, down := Play(front), LastDown(front, identity, raw);
      match x {
        case Plug(_, _, _, _) => PlugHolds(k.devices, k.world.router, x, identity, raw, down);
        case Unplug(i, answers) => UnplugHolds(k.devices, k.world.router, i, answers, identity, raw, down);
        case Strike(_, _, _, _, _, _, _, _) => StrikeHolds(k.devices, k.world.router, x, identity, raw, down);
        case Session(_) =>
      }
    }
  }

  lemma NothingHeld(identity: nat, raw: nat)
    ensures HeldAgrees(Start().devices, identity, raw, false)
  {
  }

  lemma UnplugHolds(s: DeviceState, r: RouterState, i: nat, answers: Answers, identity: nat, raw: nat, down: bool)
    requires HeldAgrees(s, identity, raw, down)
    ensures HeldAgrees(Detach(s, r, i, answers).0, identity, raw, i != identity && down)
  {
    hide Retire;
  }

  /** Over every sequence of stimuli a strike reaches the router exactly if its keyboard is attached, the key is
      mapped and, for an up, was last struck down; the event names the keyboard's generation, the key it is mapped
      to and, for a down, whether it is the first. */
  lemma StrikesAreReported(stimuli: seq<Stimulus>, x: Stimulus)
    requires x.Strike?
    ensures var k := Play(stimuli);
            var was := LastDown(stimuli, x.identity, x.raw);
            Induced(k, x) ==
            if !Mapped(k.devices, x.identity, x.raw) || !(x.down || was) then None
            else
              var a := k.devices.attached[x.identity];
              var state := if !x.down then Up else if was then Repeat else Down;
              Some(DoKey(Event(a.generation, a.translation[x.raw], state, true), x.ticket, x.reply, x.now, x.answers,
                         x.admission))
  {
    hide Play, LastDown, WellFormedTable, Separate, Injective;
    HeldIsLastDown(stimuli, x.identity, x.raw);
  }
}
