/** Whole runs of the router: every call any caller can make, in any order, with any arguments
    and any answer from the output, together with the log of what the clients received. */
module RouterRuns {
  import opened Wrappers
  import opened Routing

  datatype Recipient = Client | Locker

  datatype Entry =
    | Delivered(to: Recipient, key: nat, state: KeyState)
    | ReleasedToClient(keys: set<nat>, doubtful: set<nat>, lost: set<nat>)
    | ReplacementSent(ticket: Ticket, target: nat, at: nat, delivery: Delivery, stuck: bool)
    | ClientEntered(keys: set<nat>)
    | Began(ticket: Ticket, at: nat, budget: nat)
    | Revoked | LockEntered | Unlocked | FocusMoved | Disconnected | DeviceRetired(device: nat) | OutputRecovered

  /** The router's calls. `DoFocus` only ends speculation; `DoEnter` is the compositor telling the client that
      gains focus which keys are down, the announced ones. It is no router call and changes no router state. */
  datatype Action =
    | DoAdd(id: nat)
    | DoBegin(event: Event, now: nat, budget: nat, releaseAction: bool)
    | DoSettlement(event: Event, now: nat, budget: nat)
    | DoKey(event: Event, ticket: Option<Ticket>, reply: Option<Decision>, now: nat, answers: Answers,
        admission: Option<bool>)
    | DoFinish(finished: Ticket, reply: Option<Decision>, deliveredOriginal: bool, now: nat, answers: Answers,
        original: Outcome)
    | DoFocus
    | DoEnter
    | DoRevoke(answers: Answers)
    | DoLock(answers: Answers)
    | DoUnlock
    | DoDisconnect
    | DoRetire(id: nat, answers: Answers)
    | DoRecover(proof: bool)

  datatype Effect = Effect(state: RouterState, entries: seq<Entry>)

  datatype KeyStep = KeyStep(state: RouterState, result: RouteResult, replaced: Option<ReplaceCall>)

  /** One physical event end to end: the router's proposal, the stock layer's admission of a
      fresh press when it is known, and the final decision whether the client sees the event. */
  ghost function ProcessKey(s: RouterState, e: Event, ticket: Option<Ticket>, reply: Option<Decision>, now: nat,
                            answer: Delivery, admission: Option<bool>): KeyStep
  {
    var proposal := Route(s, e, ticket, reply, now, answer);
    if admission.None? then KeyStep(proposal.state, proposal.result, proposal.replaced)
    else
      var (settled, result) := OriginalOutcome(proposal.state, e, proposal.result, admission.value);
      KeyStep(settled, result, proposal.replaced)
  }

  function Listener(s: RouterState): Recipient {
    if s.locked then Locker else Client
  }

  ghost function Sent(ticket: Option<Ticket>, call: Option<ReplaceCall>, now: nat, answers: Answers): seq<Entry> {
    if call.Some? && ticket.Some?
    then [ReplacementSent(ticket.value, call.value.key, now, answers.delivery,
                          answers.delivery == Delivery.PartialFatal && answers.stuck)]
    else []
  }

  /** A release of each key, of which the doubtful ones were not confirmed and the lost ones never arrived. */
  function Release(keys: set<nat>, answers: Answers): Entry {
    ReleasedToClient(keys, keys * answers.unconfirmed, keys * answers.unconfirmed * answers.lost)
  }

  /** The state after an action and the log entries it appends. */
  ghost function Apply(s: RouterState, a: Action): Effect {
    match a
    case DoAdd(id) => Effect(Add(s, id).0, [])
    case DoBegin(e, now, budget, releaseAction) =>
      var (t, ticket) := Begin(s, e, now, budget, releaseAction);
      Effect(t, if ticket.Some? then [Began(ticket.value, now, budget)] else [])
    case DoSettlement(e, now, budget) => Effect(Settlement(s, e, now, budget).0, [])
    case DoKey(e, ticket, reply, now, answers, admission) =>
      var step := ProcessKey(s, e, ticket, reply, now, answers.delivery, admission);
      Effect(step.state,
             Sent(ticket, step.replaced, now, answers) +
             (if step.result.deliverClient then [Delivered(Listener(s), e.key, e.state)] else []))
    case DoFinish(ticket, reply, delivered, now, answers, original) =>
      var step := FinishRelease(s, ticket, reply, delivered, now, answers.delivery, original);
      Effect(step.state, Sent(Some(ticket), step.replaced, now, answers))
    case DoFocus => Effect(FocusChanged(s), [FocusMoved])
    case DoEnter => Effect(s, [ClientEntered(s.FocusEnterKeys())])
    case DoRevoke(answers) => Effect(Revoke(s, answers), [Release(s.FocusEnterKeys(), answers), Revoked])
    case DoLock(answers) => Effect(Lock(s, answers), [Release(s.FocusEnterKeys(), answers), LockEntered])
    case DoUnlock => Effect(UnlockConfirmed(s), [Unlocked])
    case DoDisconnect => Effect(Disconnect(s), [Disconnected])
    case DoRetire(id, answers) =>
      if id in s.live then Effect(Retire(s, id, answers), [Release(SoleKeys(s, id), answers), DeviceRetired(id)])
      else Effect(s, [])
    case DoRecover(proof) =>
      var (t, recovered) := RecoverRetiredOutput(s, proof);
      Effect(t, if recovered then [OutputRecovered] else [])
  }

  /** A call leaves its output uncertain when the output says so: a replacement delivered in part, a
      release or a modifier state not confirmed. */
  ghost predicate Uncertain(s: RouterState, a: Action) {
    match a
    case DoKey(e, ticket, reply, now, answers, admission) =>
      answers.delivery == Delivery.PartialFatal && Route(s, e, ticket, reply, now, answers.delivery).replaced.Some?
    case DoFinish(ticket, reply, delivered, now, answers, original) =>
      && answers.delivery == Delivery.PartialFatal
      && FinishRelease(s, ticket, reply, delivered, now, answers.delivery, original).replaced.Some?
    case DoRevoke(answers) => Unconfirmed(s.FocusEnterKeys(), s.ForwardedModifiers() != {}, answers)
    case DoLock(answers) => Unconfirmed(s.FocusEnterKeys(), s.ForwardedModifiers() != {}, answers)
    case DoRetire(id, answers) => id in s.live && Unconfirmed(SoleKeys(s, id), Reconciles(s, id), answers)
    case _ => false
  }

  predicate Unconfirmed(keys: set<nat>, reconciles: bool, answers: Answers) {
    keys * answers.unconfirmed != {} || (reconciles && !answers.modifiersConfirmed)
  }

  /** Retiring a device asks for a modifier state when it released a key or the state changed. */
  ghost predicate Reconciles(s: RouterState, id: nat) {
    SoleKeys(s, id) != {} || s.ForwardedModifiers() != WithoutDevice(s, id).ForwardedModifiers()
  }

  datatype World = World(router: RouterState, log: seq<Entry>)

  ghost function Next(w: World, a: Action): World {
    var effect := Apply(w.router, a);
    World(effect.state, w.log + effect.entries)
  }

  /** The world after a run that starts from a freshly constructed router. */
  ghost function Run(actions: seq<Action>): World {
    if actions == [] then World(Initial(), [])
    else Next(Run(actions[..|actions| - 1]), actions[|actions| - 1])
  }

  // ---- structure kept by every step ------------------------------------------------

  lemma SetOwnerOf(s: RouterState, d: nat, k: nat, o: Owner)
    ensures forall d', k' :: OwnerIn(s.SetOwner(d, k, o).held, d', k') == if d' == d && k' == k then o
        else OwnerIn(s.held, d', k')
  {
  }

  // ---- what each kind of call may touch ------------------------------------------------

  lemma AddKeeps(s: RouterState, id: nat)
    ensures var t := Add(s, id).0; t == s.(live := t.live, lastGeneration := t.lastGeneration)
  {
  }

  lemma BeginKeeps(s: RouterState, e: Event, now: nat, budget: nat, releaseAction: bool)
    ensures var (t, ticket) := Begin(s, e, now, budget, releaseAction);
            && t == s.(sequence := t.sequence, pending := t.pending)
            && (s.locked ==> ticket.None? && t == s)
  {
  }

  lemma SettlementKeeps(s: RouterState, e: Event, now: nat, budget: nat)
    ensures var t := Settlement(s, e, now, budget).0; t == s.(sequence := t.sequence) && s.sequence <= t.sequence
  {
  }

  lemma FinishKeeps(s: RouterState, ticket: Ticket, reply: Option<Decision>, delivered: bool, now: nat,
                    answer: Delivery, original: Outcome)
    ensures var r := FinishRelease(s, ticket, reply, delivered, now, answer, original);
            && r.state == s.(released := None, fatal := r.state.fatal)
            && r.state.fatal == (s.fatal || (answer == Delivery.PartialFatal && r.replaced.Some?))
            && (r.replaced.Some? ==> !s.fatal)
  {
    hide TargetRefused;
  }

  lemma OwnedKeeps(s: RouterState, e: Event, ticket: Option<Ticket>)
    ensures var r := RouteOwned(s, e, ticket);
            && r.replaced.None?
            && r.state == s.(held := r.state.held, pending := r.state.pending, released := r.state.released)
            && (r.state.held == s.held || r.state.held == s.held - {(e.device, e.key)})
            && (s.pending.None? ==> r.state.pending.None?)
  {
    hide IsModifier, OtherForwardedIn;
  }

  lemma PressFatal(s: RouterState, e: Event, ticket: Option<Ticket>, reply: Option<Decision>, now: nat,
                   answer: Delivery)
    ensures var r := RoutePress(s, e, ticket, reply, now, answer);
            && r.state.fatal == (s.fatal || (answer == Delivery.PartialFatal && r.replaced.Some?))
            && (r.replaced.Some? ==> !s.fatal)
  {
    hide TargetRefused, OtherForwardedIn, ModifierSides, KeysOwnedBy;
  }

  /** Routing touches ownership, the two tickets and the latch, and the latch only for a partial replacement. */
  lemma RouteKeeps(s: RouterState, e: Event, ticket: Option<Ticket>, reply: Option<Decision>, now: nat,
                   answer: Delivery)
    ensures var r := Route(s, e, ticket, reply, now, answer);
            && r.state == s.(held := r.state.held, pending := r.state.pending, released := r.state.released,
                             fatal := r.state.fatal)
            && r.state.fatal == (s.fatal || (answer == Delivery.PartialFatal && r.replaced.Some?))
            && (r.replaced.Some? ==> !s.fatal)
  {
    hide RouteOwned, RoutePress;
    OwnedKeeps(s, e, ticket);
    PressFatal(s, e, ticket, reply, now, answer);
    PressShape(s, e, ticket, reply, now, answer);
  }

  lemma OutcomeKeeps(s: RouterState, e: Event, proposal: RouteResult, admitted: bool)
    ensures var t := OriginalOutcome(s, e, proposal, admitted).0; t == s.(held := t.held)
  {
  }

  lemma KeyKeeps(s: RouterState, e: Event, ticket: Option<Ticket>, reply: Option<Decision>, now: nat,
                 answer: Delivery, admission: Option<bool>)
    ensures var r := ProcessKey(s, e, ticket, reply, now, answer, admission);
            && r.replaced == Route(s, e, ticket, reply, now, answer).replaced
            && r.state == s.(held := r.state.held, pending := r.state.pending, released := r.state.released,
                             fatal := r.state.fatal)
            && r.state.fatal == (s.fatal || (answer == Delivery.PartialFatal && r.replaced.Some?))
            && (r.replaced.Some? ==> !s.fatal)
  {
    hide Route, OriginalOutcome;
    RouteKeeps(s, e, ticket, reply, now, answer);
    var proposal := Route(s, e, ticket, reply, now, answer);
    if admission.Some? {
      OutcomeKeeps(proposal.state, e, proposal.result, admission.value);
    }
  }

  lemma RetireWellFormed(s: RouterState, id: nat, answers: Answers)
    requires s.WellFormed() && id in s.live
    ensures Retire(s, id, answers).WellFormed()
  {
    hide SoleKeysIn, ModifierSides, KeysOwnedBy;
    assert |s.live - {id}| == |s.live| - 1;
  }

  lemma RevokeWellFormed(s: RouterState, answers: Answers)
    requires s.WellFormed()
    ensures Revoke(s, answers).WellFormed()
  {
    hide ModifierSides, KeysOwnedBy;
  }

  lemma AddWellFormed(s: RouterState, id: nat)
    requires s.WellFormed()
    ensures Add(s, id).0.WellFormed()
  {
  }

  lemma WellFormedStep(s: RouterState, a: Action)
    requires s.WellFormed()
    ensures Apply(s, a).state.WellFormed()
  {
    hide Add, Begin, Settlement, ProcessKey, FinishRelease, Revoke, Retire, WellFormedTable;
    match a {
      case DoAdd(id) => AddWellFormed(s, id);
      case DoBegin(e, now, budget, releaseAction) => BeginKeeps(s, e, now, budget, releaseAction);
      case DoSettlement(e, now, budget) => SettlementKeeps(s, e, now, budget);
      case DoKey(e, ticket, reply, now, answers, admission) =>
        ProcessKeyOneCell(s, e, ticket, reply, now, answers.delivery, admission);
      case DoFinish(ticket, reply, delivered, now, answers, original) =>
        FinishKeeps(s, ticket, reply, delivered, now, answers.delivery, original);
      case DoRevoke(answers) => RevokeWellFormed(s, answers);
      case DoLock(answers) => RevokeWellFormed(s.(locked := true), answers);
      case DoRetire(id, answers) => if id in s.live { RetireWellFormed(s, id, answers); }
      case _ =>
    }
  }

  /** Only the owner of one press may differ, and none of the lifecycle fields. */
  ghost predicate OneCell(s: RouterState, t: RouterState, d: nat, k: nat) {
    && t.live == s.live && t.lastGeneration == s.lastGeneration && t.epoch == s.epoch && t.focus == s.focus
    && t.sequence == s.sequence && t.locked == s.locked
    && (forall p :: p in t.held && p != (d, k) ==> p in s.held && t.held[p] == s.held[p])
    && (forall p :: p in s.held && p != (d, k) ==> p in t.held)
    && ((d, k) in t.held ==> d in s.live && k < KEY_COUNT && t.held[(d, k)] != Owner.Unowned)
  }

  lemma SetOwnerOneCell(s: RouterState, d: nat, k: nat, o: Owner)
    requires d in s.live && k < KEY_COUNT
    ensures OneCell(s, s.SetOwner(d, k, o), d, k)
  {
  }

  /** A fresh press ends Forwarded or Consumed, and spends whatever ticket was pending. */
  lemma PressShape(s: RouterState, e: Event, ticket: Option<Ticket>, reply: Option<Decision>, now: nat,
                   answer: Delivery)
    ensures var r := RoutePress(s, e, ticket, reply, now, answer);
            var o := if r.result.processStock then Owner.Forwarded else Owner.Consumed;
            && r.state == s.SetOwner(e.device, e.key, o).(pending := None, fatal := r.state.fatal)
            && (s.fatal ==> r.state.fatal)
            && (r.result.deliverClient <==> o == Owner.Forwarded && !s.OtherForwarded(e.device, e.key))
            && (r.result.outcome == Outcome.Merged ==> o == Owner.Forwarded)
            && (r.replaced.Some? ==> Admitted(s, e, ticket, reply, now) && !s.TargetHeld(r.replaced.value.key))
  {
  }

  lemma RouteOneCell(s: RouterState, e: Event, ticket: Option<Ticket>, reply: Option<Decision>, now: nat,
                     answer: Delivery)
    requires s.WellFormed()
    ensures OneCell(s, Route(s, e, ticket, reply, now, answer).state, e.device, e.key)
  {
    hide RouteOwned, RoutePress, OneCell;
    if Bypasses(s, e) {
      SameCell(s, e.device, e.key);
    } else if s.OwnerOf(e.device, e.key) != Owner.Unowned {
      OwnedOneCell(s, e, ticket);
    } else if e.state != Down {
      SameCell(s, e.device, e.key);
    } else if s.locked {
      SetOwnerOneCell(s, e.device, e.key, Owner.LockerOwned);
    } else {
      PressOneCell(s, e, ticket, reply, now, answer);
    }
  }

  lemma SameCell(s: RouterState, d: nat, k: nat)
    requires s.WellFormed()
    ensures OneCell(s, s, d, k)
  {
  }

  lemma OwnedOneCell(s: RouterState, e: Event, ticket: Option<Ticket>)
    requires s.WellFormed() && e.device in s.live && e.key < KEY_COUNT
    ensures OneCell(s, RouteOwned(s, e, ticket).state, e.device, e.key)
  {
    hide RouteOwned;
    OwnedKeeps(s, e, ticket);
  }

  lemma PressOneCell(s: RouterState, e: Event, ticket: Option<Ticket>, reply: Option<Decision>, now: nat,
                     answer: Delivery)
    requires s.WellFormed() && e.device in s.live && e.key < KEY_COUNT
    ensures OneCell(s, RoutePress(s, e, ticket, reply, now, answer).state, e.device, e.key)
  {
    hide RoutePress;
    PressShape(s, e, ticket, reply, now, answer);
    SetOwnerOneCell(s, e.device, e.key, Owner.Forwarded);
    SetOwnerOneCell(s, e.device, e.key, Owner.Consumed);
  }

  lemma OneCellWellFormed(s: RouterState, t: RouterState, d: nat, k: nat)
    requires s.WellFormed() && OneCell(s, t, d, k)
    ensures t.WellFormed()
  {
  }

  lemma ProcessKeyOneCell(s: RouterState, e: Event, ticket: Option<Ticket>, reply: Option<Decision>, now: nat,
                          answer: Delivery, admission: Option<bool>)
    requires s.WellFormed()
    ensures var t := ProcessKey(s, e, ticket, reply, now, answer, admission).state;
            OneCell(s, t, e.device, e.key) && t.WellFormed()
  {
    var t := Route(s, e, ticket, reply, now, answer).state;
    RouteOneCell(s, e, ticket, reply, now, answer);
    OneCellWellFormed(s, t, e.device, e.key);
    if e.device in s.live && e.key < KEY_COUNT { SetOwnerOneCell(t, e.device, e.key, Owner.StockConsumed); }
    OneCellWellFormed(s, ProcessKey(s, e, ticket, reply, now, answer, admission).state, e.device, e.key);
  }

  /** The latch is set exactly by uncertain output. */
  lemma FatalExactly(s: RouterState, a: Action)
    ensures Apply(s, a).state.fatal ==
              if a.DoRecover? && RecoverRetiredOutput(s, a.proof).1 then false else s.fatal || Uncertain(s, a)
  {
    hide Add, Begin, Settlement, ProcessKey, Route, FinishRelease, ModifierSides, KeysOwnedBy, SoleKeysIn;
    match a {
      case DoAdd(id) => AddKeeps(s, id);
      case DoBegin(e, now, budget, releaseAction) => BeginKeeps(s, e, now, budget, releaseAction);
      case DoSettlement(e, now, budget) => SettlementKeeps(s, e, now, budget);
      case DoKey(e, ticket, reply, now, answers, admission) =>
        KeyKeeps(s, e, ticket, reply, now, answers.delivery, admission);
      case DoFinish(ticket, reply, delivered, now, answers, original) =>
        FinishKeeps(s, ticket, reply, delivered, now, answers.delivery, original);
      case _ =>
    }
  }
}
