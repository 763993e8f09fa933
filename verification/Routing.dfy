/** The compositor key router as a step function on values: who owns each physical press,
    which one-shot ticket may still authorise a replacement, and what each call asks the
    output to do. Slots of the device table do not appear here; `Router` refines this
    specification with the fixed-size table. */
module Routing {
  import opened Wrappers

  const KEY_COUNT: nat := 768
  const DEVICE_COUNT: nat := 16
  const MAX_BUDGET_NS: nat := 10_000_000
  const U64_MAX: nat := 0xFFFF_FFFF_FFFF_FFFF

  datatype KeyState = Up | Down | Repeat
  datatype Verdict = Pass | Swallow | Replace
  datatype Delivery = Accepted | RejectedNoOutput | PartialFatal
  datatype Outcome = Forwarded | Merged | Swallowed | Replaced | Rejected | PartialFatal
                   | StockConsumed | LockerOwned | Quarantined
  datatype Owner = Unowned | Forwarded | Consumed | Quarantined | StockConsumed | LockerOwned
  datatype BeginReject = Clear | Device | Pending | Sequence | Locked | Fatal | Unmodeled | Key
                       | State | Owned | Budget | Overflow

  datatype Event = Event(device: nat, key: nat, state: KeyState, modeled: bool)
  datatype Ticket = Ticket(device: nat, epoch: nat, focus: nat, sequence: nat, deadline: nat, key: nat)

  /** An eight-bit modifier mask is the set of its set bits. */
  type Mask = set<nat>

  datatype Decision = Decision(ticket: Ticket, verdict: Verdict, key: nat, modifiers: Mask)
  datatype RouteResult = RouteResult(outcome: Outcome, processStock: bool, deliverClient: bool, reconcile: bool)

  /** What a router call asks of the output: at most one replacement, then the keys it releases
      to the client and the modifier state it asks to be restored. */
  datatype ReplaceCall = ReplaceCall(key: nat, requested: Mask, restore: Mask)

  /** How the output answers during one router call: the replacement's delivery, the keys whose
      release it could not confirm, and whether modifier reconciliation was confirmed. The router never
      learns the rest: which unconfirmed releases did not arrive, and whether a replacement delivered
      in part left its target down. */
  datatype Answers = Answers(delivery: Delivery, unconfirmed: set<nat>, modifiersConfirmed: bool,
                             lost: set<nat>, stuck: bool)

  datatype RouterState = RouterState(
    live: set<nat>,
    held: Ownership,
    epoch: nat, focus: nat, sequence: nat, lastGeneration: nat,
    locked: bool, fatal: bool,
    pending: Option<Ticket>, released: Option<Ticket>)
  {
    /** The table records a press only for a tracked device and a modelled key. */
    ghost predicate WellFormed() {
      WellFormedTable(live, held, lastGeneration)
    }

    function OwnerOf(device: nat, key: nat): Owner {
      OwnerIn(held, device, key)
    }

    function SetOwner(device: nat, key: nat, owner: Owner): RouterState {
      if owner == Owner.Unowned
      then this.(held := held - {(device, key)})
      else this.(held := held[(device, key) := owner])
    }

    ghost predicate OtherForwarded(device: nat, key: nat) {
      OtherForwardedIn(held, device, key)
    }

    /** A replacement target is refused while any device owns it, whoever the owner is. */
    ghost predicate TargetHeld(key: nat) {
      key >= KEY_COUNT || exists d: nat :: OwnerIn(held, d, key) != Owner.Unowned
    }

    /** The keys a client must be told are down when it gains focus. */
    ghost function FocusEnterKeys(): set<nat> {
      KeysOwnedBy(held, Owner.Forwarded)
    }

    ghost function LockerEnterKeys(): set<nat> {
      KeysOwnedBy(held, Owner.LockerOwned)
    }

    ghost function ForwardedModifiers(): Mask {
      ModifierSides(FocusEnterKeys())
    }

    ghost predicate OwnershipEmpty() {
      held == map[] && pending.None?
    }
  }

  type Ownership = map<(nat, nat), Owner>

  ghost predicate WellFormedTable(live: set<nat>, held: Ownership, lastGeneration: nat) {
    && 0 !in live
    && |live| <= DEVICE_COUNT
    && (forall id :: id in live ==> id <= lastGeneration)
    && (forall p :: p in held ==> p.0 in live && p.1 < KEY_COUNT && held[p] != Owner.Unowned)
  }

  function OwnerIn(held: Ownership, device: nat, key: nat): Owner {
    if (device, key) in held then held[(device, key)] else Owner.Unowned
  }

  ghost predicate OtherForwardedIn(held: Ownership, device: nat, key: nat) {
    exists d: nat :: d != device && OwnerIn(held, d, key) == Owner.Forwarded
  }

  ghost function KeysOwnedBy(held: Ownership, owner: Owner): set<nat> {
    set p | p in held && held[p] == owner :: p.1
  }

  function Quarantine(held: Ownership): Ownership {
    map p | p in held :: Owner.Quarantined
  }

  ghost function ModifierSides(keys: set<nat>): Mask {
    set i: nat | i < 8 && MODIFIER_KEYS[i] in keys
  }

  const MODIFIER_KEYS: seq<nat> := [42, 54, 29, 97, 56, 100, 125, 126]

  /** The mask bit of a modifier key, or the empty mask. */
  function ModifierBits(key: nat): Mask {
    set i: nat | i < 8 && MODIFIER_KEYS[i] == key
  }

  predicate IsModifier(key: nat) {
    ModifierBits(key) != {}
  }

  function Initial(): RouterState {
    RouterState({}, map[], 1, 1, 0, 0, true, false, None, None)
  }

  // ---- operations ----------------------------------------------------------------

  ghost function Add(s: RouterState, id: nat): (r: (RouterState, bool)) {
    if id == 0 || id <= s.lastGeneration || id in s.live || |s.live| >= DEVICE_COUNT then (s, false)
    else (s.(live := s.live + {id}, lastGeneration := id), true)
  }

  ghost function BeginRejection(s: RouterState, e: Event, now: nat, budget: nat, releaseAction: bool): BeginReject {
    if e.device !in s.live then BeginReject.Device
    else if s.pending.Some? then BeginReject.Pending
    else if s.sequence >= U64_MAX then BeginReject.Sequence
    else if s.locked then BeginReject.Locked
    else if s.fatal then BeginReject.Fatal
    else if !e.modeled then BeginReject.Unmodeled
    else if e.key >= KEY_COUNT then BeginReject.Key
    else if !(e.state == Down || (releaseAction && e.state == Up && IsModifier(e.key)
              && s.OwnerOf(e.device, e.key) == Owner.Forwarded && !s.OtherForwarded(e.device, e.key)))
                 then BeginReject.State
    else if e.state == Down && s.OwnerOf(e.device, e.key) != Owner.Unowned then BeginReject.Owned
    else if budget > MAX_BUDGET_NS then BeginReject.Budget
    else if now + budget > U64_MAX then BeginReject.Overflow
    else BeginReject.Clear
  }

  ghost function Begin(s: RouterState, e: Event, now: nat, budget: nat, releaseAction: bool):
      (r: (RouterState, Option<Ticket>)) {
    if BeginRejection(s, e, now, budget, releaseAction) != BeginReject.Clear then (s, None)
    else
      var ticket := Ticket(e.device, s.epoch, s.focus, s.sequence + 1, now + budget, e.key);
      (s.(sequence := s.sequence + 1, pending := Some(ticket)), Some(ticket))
  }

  /** Correlates a repeat or release without granting routing authority. */
  ghost function Settlement(s: RouterState, e: Event, now: nat, budget: nat): (r: (RouterState, Option<Ticket>)) {
    if e.device !in s.live || s.locked || !e.modeled || e.key >= KEY_COUNT || e.state == Down
       || s.sequence >= U64_MAX || budget > MAX_BUDGET_NS || now + budget > U64_MAX then (s, None)
    else (s.(sequence := s.sequence + 1),
          Some(Ticket(e.device, s.epoch, s.focus, s.sequence + 1, now + budget, e.key)))
  }

  datatype RouteStep = RouteStep(state: RouterState, result: RouteResult, replaced: Option<ReplaceCall>)

  predicate Bypasses(s: RouterState, e: Event) {
    e.device !in s.live || e.key >= KEY_COUNT || !e.modeled
  }

  ghost function Route(s: RouterState, e: Event, ticket: Option<Ticket>, reply: Option<Decision>,
                       now: nat, answer: Delivery): RouteStep
  {
    if Bypasses(s, e) then RouteStep(s, RouteResult(Outcome.Forwarded, true, true, false), None)
    else if s.OwnerOf(e.device, e.key) != Owner.Unowned then RouteOwned(s, e, ticket)
    else if e.state != Down then RouteStep(s, RouteResult(Outcome.Forwarded, true, true, false), None)
    else if s.locked then
      RouteStep(s.SetOwner(e.device, e.key, Owner.LockerOwned), RouteResult(Outcome.LockerOwned, true, true, false),
          None)
    else RoutePress(s, e, ticket, reply, now, answer)
  }

  /** Ownership decided at press time answers every later repeat and the release. */
  ghost function RouteOwned(s: RouterState, e: Event, ticket: Option<Ticket>): RouteStep {
    var previous := s.OwnerOf(e.device, e.key);
    var merged := e.state == Up && s.OtherForwarded(e.device, e.key);
    var next :=
      if e.state != Up then s
      else
        var action := previous == Owner.Forwarded && IsModifier(e.key) && !s.OtherForwarded(e.device, e.key)
                      && s.pending.Some? && ticket == s.pending
                      && ticket.value.device == e.device && ticket.value.key == e.key;
        s.SetOwner(e.device, e.key, Owner.Unowned).(pending := None, released := if action then ticket else None);
    var result := match previous
      case StockConsumed => RouteResult(Outcome.StockConsumed, true, false, false)
      case LockerOwned => RouteResult(Outcome.LockerOwned, s.locked, s.locked, false)
      case Quarantined => RouteResult(Outcome.Quarantined, false, false, false)
      case Consumed => RouteResult(Outcome.Swallowed, false, false, s.fatal)
      case _ => RouteResult(if merged then Outcome.Merged else Outcome.Forwarded, true, !merged, false);
    RouteStep(next, result, None)
  }

  /** The reply's verdict counts only for the pending ticket of this very press, in time, and
      under the epoch and focus it was issued for. */
  predicate Admitted(s: RouterState, e: Event, ticket: Option<Ticket>, reply: Option<Decision>, now: nat) {
    && s.pending.Some? && ticket == s.pending
    && ticket.value.device == e.device && ticket.value.key == e.key
    && !s.locked && !s.fatal && reply.Some? && now < ticket.value.deadline
    && ticket.value.epoch == s.epoch && ticket.value.focus == s.focus
    && reply.value.ticket == ticket.value
  }

  ghost predicate TargetRefused(s: RouterState, target: nat, key: nat) {
    target >= KEY_COUNT || target == key || s.TargetHeld(target)
  }

  ghost function RoutePress(s: RouterState, e: Event, ticket: Option<Ticket>, reply: Option<Decision>,
                            now: nat, answer: Delivery): RouteStep
  {
    var verdict := if Admitted(s, e, ticket, reply, now) then reply.value.verdict else Pass;
    var t := s.(pending := None);
    if verdict == Replace && !TargetRefused(s, reply.value.key, e.key) then
      var call := ReplaceCall(reply.value.key, reply.value.modifiers, s.ForwardedModifiers());
      if answer == RejectedNoOutput then Forward(t, e, Outcome.Rejected, Some(call))
      else
        var fatal := answer == Delivery.PartialFatal;
        RouteStep(t.SetOwner(e.device, e.key, Owner.Consumed).(fatal := fatal),
                  RouteResult(if fatal then Outcome.PartialFatal else Outcome.Replaced, false, false, fatal),
                      Some(call))
    else if verdict == Replace then Forward(t, e, Outcome.Rejected, None)
    else if verdict == Swallow then
      RouteStep(t.SetOwner(e.device, e.key, Owner.Consumed), RouteResult(Outcome.Swallowed, false, false, s.fatal),
          None)
    else Forward(t, e, Outcome.Forwarded, None)
  }

  ghost function Forward(s: RouterState, e: Event, outcome: Outcome, call: Option<ReplaceCall>): RouteStep {
    var merged := s.OtherForwarded(e.device, e.key);
    RouteStep(s.SetOwner(e.device, e.key, Owner.Forwarded),
              RouteResult(if merged && outcome == Outcome.Forwarded then Outcome.Merged
                  else outcome, true, !merged, s.fatal), call)
  }

  datatype FinishStep = FinishStep(state: RouterState, outcome: Outcome, replaced: Option<ReplaceCall>)

  ghost function FinishRelease(s: RouterState, ticket: Ticket, reply: Option<Decision>, deliveredOriginal: bool,
                               now: nat, answer: Delivery, original: Outcome): FinishStep
  {
    var t := s.(released := None);
    if reply.None? || reply.value.verdict != Replace then FinishStep(t, original, None)
    else if s.released != Some(ticket) || !deliveredOriginal || s.locked || s.fatal || now >= ticket.deadline
            || ticket.epoch != s.epoch || ticket.focus != s.focus || reply.value.ticket != ticket
            || TargetRefused(s, reply.value.key, ticket.key) then FinishStep(t, Outcome.Rejected, None)
    else
      var call := ReplaceCall(reply.value.key, reply.value.modifiers, s.ForwardedModifiers());
      match answer
      case RejectedNoOutput => FinishStep(t, Outcome.Rejected, Some(call))
      case PartialFatal => FinishStep(t.(fatal := true), Outcome.PartialFatal, Some(call))
      case Accepted => FinishStep(t, Outcome.Replaced, Some(call))
  }

  /** The stock keybinding layer reports whether it admitted a newly passed press. */
  function OriginalOutcome(s: RouterState, e: Event, proposal: RouteResult, stockAdmitted: bool):
      (RouterState, RouteResult) {
    if e.device !in s.live || e.key >= KEY_COUNT || e.state != Down
       || !(proposal.outcome == Outcome.Merged || proposal.deliverClient) then (s, proposal)
    else if (s.OwnerOf(e.device, e.key) == Owner.Forwarded || s.OwnerOf(e.device, e.key) == Owner.LockerOwned)
        && !stockAdmitted then
      (s.SetOwner(e.device, e.key, Owner.StockConsumed), RouteResult(Outcome.StockConsumed, true, false, false))
    else (s, proposal)
  }

  function FocusChanged(s: RouterState): RouterState {
    s.(pending := None, focus := s.focus + 1, epoch := s.epoch + 1)
  }

  /** Every key the client holds is released to it once; every owned press becomes silent. */
  ghost function Revoke(s: RouterState, a: Answers): RouterState {
    var keys := s.FocusEnterKeys();
    s.(pending := None, epoch := s.epoch + 1,
       held := Quarantine(s.held),
       fatal := s.fatal || keys * a.unconfirmed != {} || (s.ForwardedModifiers() != {} && !a.modifiersConfirmed))
  }

  ghost function Lock(s: RouterState, a: Answers): RouterState {
    Revoke(s.(locked := true), a)
  }

  function UnlockConfirmed(s: RouterState): RouterState {
    s.(epoch := s.epoch + 1, focus := s.focus + 1, locked := false)
  }

  function Disconnect(s: RouterState): RouterState {
    s.(pending := None, epoch := s.epoch + 1)
  }

  /** Forwarded keys of `id` that no other device still holds for the client. */
  ghost function SoleKeys(s: RouterState, id: nat): set<nat> {
    SoleKeysIn(s.held, id)
  }

  ghost function SoleKeysIn(held: Ownership, id: nat): set<nat> {
    set p | p in held && p.0 == id && SoleHold(held, id, p.1) :: p.1
  }

  ghost predicate SoleHold(held: Ownership, id: nat, k: nat) {
    OwnerIn(held, id, k) == Owner.Forwarded && !OtherForwardedIn(held, id, k)
  }

  function DropDevice(held: Ownership, id: nat): Ownership {
    map p | p in held && p.0 != id :: held[p]
  }

  ghost function WithoutDevice(s: RouterState, id: nat): RouterState {
    s.(live := s.live - {id}, held := DropDevice(s.held, id))
  }

  ghost function Retire(s: RouterState, id: nat, a: Answers): RouterState {
    if id !in s.live then s
    else
      var t := WithoutDevice(s, id).(epoch := s.epoch + 1, pending := None);
      var reconciles := SoleKeys(s, id) != {} || s.ForwardedModifiers() != t.ForwardedModifiers();
      t.(fatal := s.fatal || SoleKeys(s, id) * a.unconfirmed != {} || (reconciles && !a.modifiersConfirmed))
  }

  ghost function RecoverRetiredOutput(s: RouterState, exactRetirementProof: bool): (RouterState, bool) {
    if !s.fatal || !exactRetirementProof || !s.OwnershipEmpty() || s.locked then (s, false)
    else (s.(fatal := false, epoch := s.epoch + 1, focus := s.focus + 1), true)
  }
}
