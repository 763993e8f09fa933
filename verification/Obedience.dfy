/** What the router grants it carries out: a verdict given in time for the ticket of a press decides that press,
    a press nobody decided goes to whoever listens, and its owner hears of it until it ends. */
module Obedience {
  import opened Wrappers
  import opened Routing
  import opened RouterRuns
  import opened Authority
  import opened PressLatch

  // ---- what the log says about the tickets the router remembers ---------------------------

  ghost predicate Issued(log: seq<Entry>, ticket: Ticket) {
    exists i :: 0 <= i < |log| && log[i].Began? && log[i].ticket == ticket
  }

  /** The ticket was issued, and after that the client was sent the release of its key. */
  ghost predicate ReleaseDelivered(log: seq<Entry>, ticket: Ticket) {
    exists j :: 0 <= j < |log| && log[j] == Delivered(Client, ticket.key, Up) && Issued(log[..j], ticket)
  }

  /** Whatever was issued and not severed belongs to the epoch and focus of now. */
  ghost predicate IssuesAreCurrent(w: World) {
    forall i :: 0 <= i < |w.log| && w.log[i].Began? && UnseveredSince(w.log, i) ==>
        w.log[i].ticket.epoch == w.router.epoch && w.log[i].ticket.focus == w.router.focus
  }

  ghost predicate PendingIsLive(s: RouterState) {
    s.pending.Some? ==> s.pending.value.device in s.live && s.pending.value.key < KEY_COUNT
  }

  ghost predicate Grounded(w: World) {
    && IssuesAreCurrent(w) && PendingIsLive(w.router)
    && (w.router.pending.Some? ==> Issued(w.log, w.router.pending.value))
    && (w.router.released.Some? ==> ReleaseDelivered(w.log, w.router.released.value))
  }

  /** A call that stays in its epoch and focus, or severs what was issued before it. */
  ghost predicate InStride(s: RouterState, effect: Effect) {
    var t := effect.state;
    || (&& t.epoch == s.epoch && t.focus == s.focus
        && forall m :: 0 <= m < |effect.entries| && effect.entries[m].Began? ==>
             effect.entries[m].ticket.epoch == s.epoch && effect.entries[m].ticket.focus == s.focus)
    || (&& (exists m :: 0 <= m < |effect.entries| && Severs(effect.entries[m]))
        && forall m :: 0 <= m < |effect.entries| ==> !effect.entries[m].Began?)
  }

  lemma StaysInStride(s: RouterState, a: Action)
    ensures InStride(s, Apply(s, a))
  {
    hide Add, Settlement, ProcessKey, FinishRelease, ModifierSides, KeysOwnedBy, SoleKeysIn, Quarantine, BeginRejection;
    var entries := Apply(s, a).entries;
    match a {
      case DoAdd(id) => AddKeeps(s, id);
      case DoSettlement(e, now, budget) => SettlementKeeps(s, e, now, budget);
      case DoKey(e, ticket, reply, now, answers, admission) =>
        KeyKeeps(s, e, ticket, reply, now, answers.delivery, admission);
      case DoFinish(ticket, reply, delivered, now, answers, original) =>
        FinishKeeps(s, ticket, reply, delivered, now, answers.delivery, original);
      case DoFocus => assert Severs(entries[0]);
      case DoRevoke(_) => assert Severs(entries[1]);
      case DoLock(_) => assert Severs(entries[1]);
      case DoUnlock => assert Severs(entries[0]);
      case DoDisconnect => assert Severs(entries[0]);
      case DoRetire(id, _) => if id in s.live { assert Severs(entries[1]); }
      case DoRecover(proof) => if RecoverRetiredOutput(s, proof).1 { assert Severs(entries[0]); }
      case _ =>
    }
  }

  lemma CurrentStep(w: World, effect: Effect)
    requires IssuesAreCurrent(w) && InStride(w.router, effect)
    ensures IssuesAreCurrent(World(effect.state, w.log + effect.entries))
  {
    var log := w.log + effect.entries;
    forall i | 0 <= i < |log| && log[i].Began? && UnseveredSince(log, i)
      ensures log[i].ticket.epoch == effect.state.epoch && log[i].ticket.focus == effect.state.focus
    {
      if i < |w.log| {
        forall m | i < m < |w.log| ensures !Severs(w.log[m]) { assert log[m] == w.log[m]; }
        forall m | 0 <= m < |effect.entries| ensures !Severs(effect.entries[m]) { assert !Severs(log[|w.log| + m]); }
      } else {
        assert effect.entries[i - |w.log|] == log[i];
      }
    }
  }

  lemma IssuedLater(log: seq<Entry>, more: seq<Entry>, ticket: Ticket)
    requires Issued(log, ticket)
    ensures Issued(log + more, ticket)
  {
    var i :| 0 <= i < |log| && log[i].Began? && log[i].ticket == ticket;
    assert (log + more)[i] == log[i];
  }

  lemma ReleaseDeliveredLater(log: seq<Entry>, more: seq<Entry>, ticket: Ticket)
    requires ReleaseDelivered(log, ticket)
    ensures ReleaseDelivered(log + more, ticket)
  {
    var j :| 0 <= j < |log| && log[j] == Delivered(Client, ticket.key, Up) && Issued(log[..j], ticket);
    assert (log + more)[j] == log[j] && (log + more)[..j] == log[..j];
  }

  /** Where the two remembered tickets come from. */
  ghost predicate TicketsFrom(s: RouterState, effect: Effect) {
    var t := effect.state;
    && (t.pending.None? || t.pending == s.pending
        || (effect.entries != [] && effect.entries[0].Began? && effect.entries[0].ticket == t.pending.value))
    && (t.released.None? || t.released == s.released
        || (t.released == s.pending && effect.entries == [Delivered(Client, t.released.value.key, Up)]))
  }

  lemma OwnedTickets(s: RouterState, a: Action)
    requires a.DoKey? && LockSealed(s) && !Bypasses(s, a.event)
    requires s.OwnerOf(a.event.device, a.event.key) != Owner.Unowned
    ensures TicketsFrom(s, Apply(s, a))
  {
    hide IsModifier, OtherForwardedIn;
  }

  lemma KeyTickets(s: RouterState, a: Action)
    requires a.DoKey? && LockSealed(s)
    ensures TicketsFrom(s, Apply(s, a))
    ensures var t := Apply(s, a).state; t.live == s.live && (t.pending == s.pending || t.pending.None?)
  {
    hide RoutePress, RouteOwned, OriginalOutcome, IsModifier, OtherForwardedIn;
    var e := a.event;
    var proposal := Route(s, e, a.ticket, a.reply, a.now, a.answers.delivery);
    if a.admission.Some? { OutcomeKeeps(proposal.state, e, proposal.result, a.admission.value); }
    if !Bypasses(s, e) && s.OwnerOf(e.device, e.key) != Owner.Unowned {
      OwnedTickets(s, a);
      OwnedKeeps(s, e, a.ticket);
    } else {
      PressShape(s, e, a.ticket, a.reply, a.now, a.answers.delivery);
    }
  }

  lemma OtherTickets(s: RouterState, a: Action)
    requires !a.DoKey? && PendingIsLive(s)
    ensures TicketsFrom(s, Apply(s, a)) && PendingIsLive(Apply(s, a).state)
  {
    hide Add, Settlement, FinishRelease, ModifierSides, KeysOwnedBy, SoleKeysIn, Quarantine, IsModifier,
         OtherForwardedIn;
    match a {
      case DoAdd(id) => AddLive(s, id);
      case DoSettlement(e, now, budget) => SettlementKeeps(s, e, now, budget);
      case DoFinish(ticket, reply, delivered, now, answers, original) =>
        FinishKeeps(s, ticket, reply, delivered, now, answers.delivery, original);
      case _ =>
    }
  }

  lemma AddLive(s: RouterState, id: nat)
    ensures var t := Add(s, id).0; t == s.(live := t.live, lastGeneration := t.lastGeneration) && s.live <= t.live
  {
  }

  lemma GroundedStep(w: World, a: Action)
    requires Grounded(w) && LockSealed(w.router)
    ensures Grounded(Next(w, a))
  {
    hide Apply, LockSealed, IssuesAreCurrent, InStride, Issued, ReleaseDelivered;
    var effect := Apply(w.router, a);
    StaysInStride(w.router, a);
    CurrentStep(w, effect);
    if a.DoKey? { KeyTickets(w.router, a); } else { OtherTickets(w.router, a); }
    RememberedTickets(w, effect);
  }

  lemma RememberedTickets(w: World, effect: Effect)
    requires TicketsFrom(w.router, effect)
    requires w.router.pending.Some? ==> Issued(w.log, w.router.pending.value)
    requires w.router.released.Some? ==> ReleaseDelivered(w.log, w.router.released.value)
    ensures effect.state.pending.Some? ==> Issued(w.log + effect.entries, effect.state.pending.value)
    ensures effect.state.released.Some? ==> ReleaseDelivered(w.log + effect.entries, effect.state.released.value)
  {
    var s, t, log := w.router, effect.state, w.log + effect.entries;
    if t.pending.Some? {
      if t.pending == s.pending {
        IssuedLater(w.log, effect.entries, t.pending.value);
      } else {
        assert log[|w.log|] == effect.entries[0];
      }
    }
    if t.released.Some? {
      if t.released == s.released {
        ReleaseDeliveredLater(w.log, effect.entries, t.released.value);
      } else {
        assert log[|w.log|] == effect.entries[0] && log[..|w.log|] == w.log;
      }
    }
  }

  lemma {:induction false} AlwaysGrounded(actions: seq<Action>)
    ensures Grounded(Run(actions))
    decreases |actions|
  {
    if actions != [] {
      var front := actions[..|actions| - 1];
      AlwaysGrounded(front);
      LockedRouterIsSealed(front);
      GroundedStep(Run(front), actions[|actions| - 1]);
    }
  }

  // ---- a fresh press ----------------------------------------------------------------------

  /** The press of an unlocked session that nobody owns yet. */
  predicate FreshPress(s: RouterState, e: Event) {
    && e.state == Down && e.modeled && e.device in s.live && e.key < KEY_COUNT
    && s.OwnerOf(e.device, e.key) == Owner.Unowned && !s.locked
  }

  /** The caller presents, in time, a reply to the ticket the router waits with for this very press, and nothing
      has severed the ticket since it was issued. */
  ghost predicate Granted(w: World, a: Action, verdict: Verdict)
    requires a.DoKey?
  {
    && a.ticket.Some? && w.router.pending == a.ticket
    && a.ticket.value.device == a.event.device && a.ticket.value.key == a.event.key
    && FreshIssue(w.log, a.ticket.value) && !w.router.fatal && a.now < a.ticket.value.deadline
    && a.reply.Some? && a.reply.value.ticket == a.ticket.value && a.reply.value.verdict == verdict
  }

  /** Nobody, on any device, owns the key. */
  ghost predicate Free(s: RouterState, key: nat) {
    forall d: nat :: s.OwnerOf(d, key) == Owner.Unowned
  }

  ghost predicate MayReplace(s: RouterState, target: nat, key: nat) {
    target < KEY_COUNT && target != key && Free(s, target)
  }

  ghost predicate HeldElsewhere(s: RouterState, device: nat, key: nat) {
    exists d: nat :: d != device && s.OwnerOf(d, key) == Owner.Forwarded
  }

  /** The modifier sides some device has down for the client. */
  ghost function SidesDown(s: RouterState): Mask {
    set i: nat | i < 8 && exists d: nat :: s.OwnerOf(d, MODIFIER_KEYS[i]) == Owner.Forwarded
  }

  lemma SidesAre(s: RouterState)
    ensures s.ForwardedModifiers() == SidesDown(s)
  {
    forall i: nat | i < 8
      ensures MODIFIER_KEYS[i] in KeysOwnedBy(s.held, Owner.Forwarded)
         <==> exists d: nat :: s.OwnerOf(d, MODIFIER_KEYS[i]) == Owner.Forwarded
    {
      if d: nat :| s.OwnerOf(d, MODIFIER_KEYS[i]) == Owner.Forwarded { assert (d, MODIFIER_KEYS[i]) in s.held; }
      if MODIFIER_KEYS[i] in KeysOwnedBy(s.held, Owner.Forwarded) {
        var p :| p in s.held && s.held[p] == Owner.Forwarded && p.1 == MODIFIER_KEYS[i];
        assert s.OwnerOf(p.0, MODIFIER_KEYS[i]) == Owner.Forwarded;
      }
    }
  }

  lemma RefusedExactly(s: RouterState, target: nat, key: nat)
    ensures TargetRefused(s, target, key) <==> !MayReplace(s, target, key)
  {
    if !Free(s, target) {
      var d: nat :| s.OwnerOf(d, target) != Owner.Unowned;
      assert OwnerIn(s.held, d, target) != Owner.Unowned;
    }
    if d: nat :| OwnerIn(s.held, d, target) != Owner.Unowned { assert s.OwnerOf(d, target) != Owner.Unowned; }
  }

  /** On every run the guard of the router's branch means just that. */
  lemma GrantedExactly(before: seq<Action>, a: Action, verdict: Verdict)
    requires a.DoKey? && FreshPress(Run(before).router, a.event)
    ensures Granted(Run(before), a, verdict)
       <==> Admitted(Run(before).router, a.event, a.ticket, a.reply, a.now) && a.reply.value.verdict == verdict
  {
    hide Run, AllAuthorised, SequencesBounded, Unspent, ReleaseDelivered, Issued;
    AlwaysGrounded(before);
    SingleUseAuthority(before);
    var w := Run(before);
    if Granted(w, a, verdict) {
      var i :| IssuedAt(w.log, i, a.ticket.value) && UnseveredSince(w.log, i);
      assert w.log[i].ticket == a.ticket.value;
    }
  }

  ghost function Handled(s: RouterState, a: Action): KeyStep
    requires a.DoKey?
  {
    ProcessKey(s, a.event, a.ticket, a.reply, a.now, a.answers.delivery, a.admission)
  }

  function Announced(e: Event): seq<Entry> {
    [Delivered(Client, e.key, Down)]
  }

  /** The press goes on to its client: it counts as that client's, or as stock's if stock refused it, and the
      client hears of it unless it already has the key from another device. A press whose replacement was refused
      and that another device holds is not put to stock. */
  ghost predicate PassedOn(s: RouterState, a: Action, refused: bool)
    requires a.DoKey?
  {
    var e, t := a.event, Apply(s, a).state;
    var merged := HeldElsewhere(s, e.device, e.key);
    var stock := a.admission == Some(false) && !(refused && merged);
    && t.OwnerOf(e.device, e.key) == (if stock then Owner.StockConsumed else Owner.Forwarded)
    && Handled(s, a).result == (if stock then RouteResult(Outcome.StockConsumed, true, false, false)
       else RouteResult(if refused then Outcome.Rejected else if merged then Outcome.Merged else Outcome.Forwarded,
                        true, !merged, s.fatal))
    && Apply(s, a).entries == Sent(a.ticket, Handled(s, a).replaced, a.now, a.answers)
       + (if stock || merged then [] else Announced(e))
  }

  /** The press is used up: it reaches nobody. */
  ghost predicate UsedUp(s: RouterState, a: Action, outcome: Outcome)
    requires a.DoKey?
  {
    && Apply(s, a).state.OwnerOf(a.event.device, a.event.key) == Owner.Consumed
    && Handled(s, a).result == RouteResult(outcome, false, false, outcome == Outcome.PartialFatal)
    && Apply(s, a).entries == Sent(a.ticket, Handled(s, a).replaced, a.now, a.answers)
  }

  lemma SwallowStep(s: RouterState, a: Action)
    requires a.DoKey? && FreshPress(s, a.event) && Admitted(s, a.event, a.ticket, a.reply, a.now)
    requires a.reply.value.verdict == Swallow
    ensures UsedUp(s, a, Outcome.Swallowed) && Handled(s, a).replaced.None?
  {
    hide TargetRefused, OtherForwardedIn, ModifierSides, KeysOwnedBy;
  }

  /** The replacement the reply asks for, with the modifier sides to restore. */
  ghost predicate Asked(s: RouterState, call: Option<ReplaceCall>, reply: Option<Decision>) {
    reply.Some? && call == Some(ReplaceCall(reply.value.key, reply.value.modifiers, SidesDown(s)))
  }

  lemma ReplaceStep(s: RouterState, a: Action)
    requires a.DoKey? && FreshPress(s, a.event) && Admitted(s, a.event, a.ticket, a.reply, a.now)
    requires a.reply.value.verdict == Replace && MayReplace(s, a.reply.value.key, a.event.key)
    ensures Asked(s, Handled(s, a).replaced, a.reply)
    ensures match a.answers.delivery
            case Accepted => UsedUp(s, a, Outcome.Replaced) && !Apply(s, a).state.fatal
            case PartialFatal => UsedUp(s, a, Outcome.PartialFatal) && Apply(s, a).state.fatal
            case RejectedNoOutput => PassedOn(s, a, true) && !Apply(s, a).state.fatal
  {
    hide TargetRefused, ModifierSides, KeysOwnedBy, MayReplace;
    SidesAre(s);
    hide SidesDown;
    RefusedExactly(s, a.reply.value.key, a.event.key);
    ElsewhereIs(s, a.event.device, a.event.key);
  }

  lemma ElsewhereIs(s: RouterState, d: nat, k: nat)
    ensures s.OtherForwarded(d, k) <==> HeldElsewhere(s, d, k)
  {
    if c: nat :| c != d && OwnerIn(s.held, c, k) == Owner.Forwarded { assert s.OwnerOf(c, k) == Owner.Forwarded; }
    if c: nat :| c != d && s.OwnerOf(c, k) == Owner.Forwarded { assert OwnerIn(s.held, c, k) == Owner.Forwarded; }
  }

  lemma PassStep(s: RouterState, a: Action)
    requires a.DoKey? && FreshPress(s, a.event)
    requires Admitted(s, a.event, a.ticket, a.reply, a.now) ==>
        a.reply.value.verdict == Pass
        || (a.reply.value.verdict == Replace && !MayReplace(s, a.reply.value.key, a.event.key))
    ensures PassedOn(s, a, Admitted(s, a.event, a.ticket, a.reply, a.now) && a.reply.value.verdict == Replace)
    ensures Handled(s, a).replaced.None?
  {
    hide TargetRefused, ModifierSides, KeysOwnedBy, MayReplace;
    if a.reply.Some? { RefusedExactly(s, a.reply.value.key, a.event.key); }
    ElsewhereIs(s, a.event.device, a.event.key);
  }

  /** Over whole runs: a Swallow granted in time leaves no trace of the press, at its down, at any repeat or at
      its release. */
  lemma SwallowIsObeyed(before: seq<Action>, a: Action, after: seq<Action>)
    requires a.DoKey? && FreshPress(Run(before).router, a.event) && Granted(Run(before), a, Swallow)
    requires forall i :: 0 <= i < |after| - 1 ==> !Ends(after[i], a.event.device, a.event.key)
    ensures Apply(Run(before).router, a).entries == []
    ensures Handled(Run(before).router, a).result == RouteResult(Outcome.Swallowed, false, false, false)
    ensures forall i :: 0 <= i < |after| && Concerns(after[i], a.event.device, a.event.key) ==>
              Apply(Run(before + [a] + after[..i]).router, after[i]).entries == []
  {
    hide Run, Apply, Granted, Admitted, ProcessKey;
    var s := Run(before).router;
    GrantedExactly(before, a, Swallow);
    SwallowStep(s, a);
    RunExtend(before, a);
    SilentUntilRelease(before + [a], after, a.event.device, a.event.key);
  }

  /** A Replace granted in time, onto a key of the table that nobody owns and that is not the pressed one, asks the
      output once, for the reply's key and modifiers and the sides now down. The answer decides the rest: accepted
      or delivered in part, the press itself reaches nobody until it ends; refused, it goes on as if passed. */
  lemma ReplaceIsObeyed(before: seq<Action>, a: Action, after: seq<Action>)
    requires a.DoKey? && FreshPress(Run(before).router, a.event) && Granted(Run(before), a, Replace)
    requires MayReplace(Run(before).router, a.reply.value.key, a.event.key)
    requires forall i :: 0 <= i < |after| - 1 ==> !Ends(after[i], a.event.device, a.event.key)
    ensures var s := Run(before).router;
            var sent := ReplacementSent(a.ticket.value, a.reply.value.key, a.now, a.answers.delivery,
                                        a.answers.delivery == Delivery.PartialFatal && a.answers.stuck);
            && Asked(s, Handled(s, a).replaced, a.reply)
            && (a.answers.delivery == RejectedNoOutput ==> PassedOn(s, a, true))
            && (a.answers.delivery != RejectedNoOutput ==> Apply(s, a).entries == [sent])
            && (a.answers.delivery == Accepted ==> UsedUp(s, a, Outcome.Replaced))
            && (a.answers.delivery == Delivery.PartialFatal ==> UsedUp(s, a, Outcome.PartialFatal))
            && (Apply(s, a).state.fatal <==> a.answers.delivery == Delivery.PartialFatal)
    ensures a.answers.delivery != RejectedNoOutput ==>
              forall i :: 0 <= i < |after| && Concerns(after[i], a.event.device, a.event.key) ==>
                Apply(Run(before + [a] + after[..i]).router, after[i]).entries == []
  {
    hide Run, Apply, FreshIssue, Admitted, ProcessKey, PassedOn, MayReplace, SidesDown;
    var s := Run(before).router;
    GrantedExactly(before, a, Replace);
    ReplaceStep(s, a);
    RunExtend(before, a);
    if a.answers.delivery != RejectedNoOutput {
      SilentUntilRelease(before + [a], after, a.event.device, a.event.key);
    }
  }

  /** In every other case the press goes on to its client and the output is not asked for anything: with a Pass
      granted, with nothing granted, and, marked as refused, with a Replace granted onto a key that may not be
      used. */
  lemma OtherwisePassed(before: seq<Action>, a: Action)
    requires a.DoKey? && FreshPress(Run(before).router, a.event) && !Granted(Run(before), a, Swallow)
    requires Granted(Run(before), a, Replace) ==> !MayReplace(Run(before).router, a.reply.value.key, a.event.key)
    ensures PassedOn(Run(before).router, a, Granted(Run(before), a, Replace))
    ensures Handled(Run(before).router, a).replaced.None?
  {
    hide Run, Apply, Granted, Admitted, ProcessKey, PassedOn, MayReplace;
    GrantedExactly(before, a, Swallow);
    GrantedExactly(before, a, Replace);
    GrantedExactly(before, a, Pass);
    PassStep(Run(before).router, a);
  }

  /** Under a lock a press nobody owns goes to the locker, whatever ticket and reply come with it. */
  lemma LockedPressGoesToLocker(s: RouterState, a: Action)
    requires a.DoKey? && a.event.state == Down && !Bypasses(s, a.event) && s.locked
    requires s.OwnerOf(a.event.device, a.event.key) == Owner.Unowned
    ensures var stock := a.admission == Some(false);
            && Apply(s, a).state.OwnerOf(a.event.device, a.event.key)
               == (if stock then Owner.StockConsumed else Owner.LockerOwned)
            && Apply(s, a).entries == (if stock then [] else [Delivered(Locker, a.event.key, Down)])
            && Handled(s, a).replaced.None?
  {
    hide RoutePress;
  }

  // ---- an owned press ---------------------------------------------------------------------

  /** What may take a press from its owner: its end, a revocation or lock, and a second down of it. */
  predicate Takes(a: Action, d: nat, k: nat) {
    || Ends(a, d, k) || a.DoRevoke? || a.DoLock?
    || (a.DoKey? && a.event.device == d && a.event.key == k && a.event.state == Down)
  }

  lemma OwnEventKeeps(s: RouterState, a: Action, d: nat, k: nat)
    requires a.DoKey? && a.event.device == d && a.event.key == k && !Takes(a, d, k)
    requires s.OwnerOf(d, k) != Owner.Unowned
    ensures Apply(s, a).state.OwnerOf(d, k) == s.OwnerOf(d, k)
  {
    hide RoutePress, IsModifier, OtherForwardedIn;
  }

  lemma RetireKeeps(s: RouterState, id: nat, answers: Answers, d: nat, k: nat)
    requires id != d
    ensures Retire(s, id, answers).OwnerOf(d, k) == s.OwnerOf(d, k)
  {
    hide ModifierSides, KeysOwnedBy, SoleKeysIn;
  }

  lemma OwnerStays(s: RouterState, a: Action, d: nat, k: nat)
    requires s.WellFormed() && s.OwnerOf(d, k) != Owner.Unowned && !Takes(a, d, k)
    ensures Apply(s, a).state.OwnerOf(d, k) == s.OwnerOf(d, k)
  {
    hide Add, Begin, Settlement, FinishRelease, Retire, ProcessKey, OwnerIn;
    match a {
      case DoAdd(id) => AddKeeps(s, id);
      case DoBegin(e, now, budget, releaseAction) => BeginKeeps(s, e, now, budget, releaseAction);
      case DoSettlement(e, now, budget) => SettlementKeeps(s, e, now, budget);
      case DoKey(e, ticket, reply, now, answers, admission) =>
        if (e.device, e.key) == (d, k) { OwnEventKeeps(s, a, d, k); } else { OtherEventKeeps(s, a, d, k); }
      case DoFinish(ticket, reply, delivered, now, answers, original) =>
        FinishKeeps(s, ticket, reply, delivered, now, answers.delivery, original);
      case DoRetire(id, answers) => RetireKeeps(s, id, answers, d, k);
      case _ =>
    }
  }

  lemma OtherEventKeeps(s: RouterState, a: Action, d: nat, k: nat)
    requires s.WellFormed() && a.DoKey? && (a.event.device, a.event.key) != (d, k)
    ensures Apply(s, a).state.OwnerOf(d, k) == s.OwnerOf(d, k)
  {
    hide ProcessKey;
    ProcessKeyOneCell(s, a.event, a.ticket, a.reply, a.now, a.answers.delivery, a.admission);
  }

  lemma {:induction false} OwnerStaysUntilTaken(before: seq<Action>, after: seq<Action>, d: nat, k: nat)
    requires Run(before).router.OwnerOf(d, k) != Owner.Unowned
    requires forall i :: 0 <= i < |after| ==> !Takes(after[i], d, k)
    ensures Run(before + after).router.OwnerOf(d, k) == Run(before).router.OwnerOf(d, k)
    decreases |after|
  {
    hide Apply, OwnerIn;
    if after == [] {
      assert before + after == before;
    } else {
      var front, a := after[..|after| - 1], after[|after| - 1];
      OwnerStaysUntilTaken(before, front, d, k);
      RunWellFormed(before + front);
      OwnerStays(Run(before + front).router, a, d, k);
      RunExtend(before + front, a);
      assert before + front + [a] == before + after;
    }
  }

  lemma OwnedEventReaches(s: RouterState, a: Action, d: nat, k: nat)
    requires s.WellFormed() && Concerns(a, d, k) && a.event.state != Down
    requires s.OwnerOf(d, k) == Owner.Forwarded || (s.OwnerOf(d, k) == Owner.LockerOwned && s.locked)
    requires s.locked <==> s.OwnerOf(d, k) == Owner.LockerOwned
    ensures var heard := s.OwnerOf(d, k) == Owner.LockerOwned || a.event.state == Repeat || !HeldElsewhere(s, d, k);
            Apply(s, a).entries == if heard then [Delivered(Listener(s), k, a.event.state)] else []
  {
    hide RoutePress, IsModifier;
    assert (d, k) in s.held;
    ElsewhereIs(s, d, k);
  }

  /** A forwarded press is its client's until something takes it: every repeat reaches the client, and so does
      the release, unless another device still holds the key. */
  lemma ForwardedIsHeard(before: seq<Action>, after: seq<Action>, a: Action, d: nat, k: nat)
    requires Run(before).router.OwnerOf(d, k) == Owner.Forwarded
    requires forall i :: 0 <= i < |after| ==> !Takes(after[i], d, k)
    requires Concerns(a, d, k) && a.event.state != Down
    ensures var s := Run(before + after).router;
            Apply(s, a).entries == if a.event.state == Up && HeldElsewhere(s, d, k) then []
                                   else [Delivered(Client, k, a.event.state)]
  {
    hide Run, Apply;
    OwnerStaysUntilTaken(before, after, d, k);
    RunWellFormed(before + after);
    LockedRouterIsSealed(before + after);
    OwnedEventReaches(Run(before + after).router, a, d, k);
  }

  /** A press the locker has is the locker's while the session stays locked. */
  lemma LockerIsHeard(before: seq<Action>, after: seq<Action>, a: Action, d: nat, k: nat)
    requires Run(before).router.OwnerOf(d, k) == Owner.LockerOwned && Run(before + after).router.locked
    requires forall i :: 0 <= i < |after| ==> !Takes(after[i], d, k)
    requires Concerns(a, d, k) && a.event.state != Down
    ensures Apply(Run(before + after).router, a).entries == [Delivered(Locker, k, a.event.state)]
  {
    hide Run, Apply;
    OwnerStaysUntilTaken(before, after, d, k);
    RunWellFormed(before + after);
    OwnedEventReaches(Run(before + after).router, a, d, k);
  }

  // ---- from the request to the verdict ----------------------------------------------------

  /** What a caller may check before asking for a ticket: a fresh press, or with a release action the release of a
      modifier its client has from this device alone. */
  ghost predicate MayBegin(s: RouterState, e: Event, now: nat, budget: nat, releaseAction: bool) {
    && e.device in s.live && e.key < KEY_COUNT && e.modeled && !s.locked && !s.fatal && s.pending.None?
    && (|| (e.state == Down && s.OwnerOf(e.device, e.key) == Owner.Unowned)
        || (releaseAction && ActsOnRelease(s, e)))
    && s.sequence < U64_MAX && budget <= MAX_BUDGET_NS && now + budget <= U64_MAX
  }

  ghost predicate ActsOnRelease(s: RouterState, e: Event) {
    && e.state == Up && e.key in MODIFIER_KEYS && s.OwnerOf(e.device, e.key) == Owner.Forwarded
    && !HeldElsewhere(s, e.device, e.key)
  }

  lemma ModifierKeys(key: nat)
    ensures IsModifier(key) <==> key in MODIFIER_KEYS
  {
    if key in MODIFIER_KEYS {
      var i: nat :| i < 8 && MODIFIER_KEYS[i] == key;
      assert i in ModifierBits(key);
    }
    if i: nat :| i in ModifierBits(key) { assert MODIFIER_KEYS[i] == key; }
  }

  /** The ticket of the call: for this press, now, with the next number. */
  function NewTicket(s: RouterState, e: Event, now: nat, budget: nat): Ticket {
    Ticket(e.device, s.epoch, s.focus, s.sequence + 1, now + budget, e.key)
  }

  lemma BeginsExactly(s: RouterState, e: Event, now: nat, budget: nat, releaseAction: bool)
    ensures var (t, ticket) := Begin(s, e, now, budget, releaseAction);
            if MayBegin(s, e, now, budget, releaseAction)
            then ticket == Some(NewTicket(s, e, now, budget)) && t.pending == ticket
            else ticket.None? && t == s
  {
    hide IsModifier;
    ModifierKeys(e.key);
    ElsewhereIs(s, e.device, e.key);
    hide HeldElsewhere, OtherForwardedIn;
  }

  /** A settlement correlates any repeat or release of a registered key in an unlocked session, whatever has failed;
      it grants nothing. */
  lemma SettlesExactly(s: RouterState, e: Event, now: nat, budget: nat)
    ensures var (t, ticket) := Settlement(s, e, now, budget);
            if && e.device in s.live && e.key < KEY_COUNT && e.modeled && e.state != Down && !s.locked
               && s.sequence < U64_MAX && budget <= MAX_BUDGET_NS && now + budget <= U64_MAX
            then ticket == Some(NewTicket(s, e, now, budget)) && t == s.(sequence := s.sequence + 1)
            else ticket.None? && t == s
  {
  }

  /** Ends the wait of a pending ticket, or severs it: a press or release the router decides meanwhile, a change of
      session, focus or connection, the loss of a device. */
  predicate Interrupts(s: RouterState, a: Action) {
    match a
    case DoKey(e, _, _, _, _, _) =>
      && !Bypasses(s, e)
      && if s.OwnerOf(e.device, e.key) == Owner.Unowned then e.state == Down else e.state == Up
    case DoFocus => true
    case DoRevoke(_) => true
    case DoLock(_) => true
    case DoUnlock => true
    case DoDisconnect => true
    case DoRetire(id, _) => id in s.live
    case _ => false
  }

  lemma WaitsOn(s: RouterState, a: Action)
    requires s.pending.Some? && !s.locked && !Interrupts(s, a)
    ensures var t := Apply(s, a).state;
            && t.pending == s.pending && t.epoch == s.epoch && t.focus == s.focus && !t.locked && s.live <= t.live
            && (a.DoKey? || t.held == s.held)
  {
    hide Settlement, FinishRelease, RoutePress, BeginRejection, KeysOwnedBy, IsModifier, OtherForwardedIn;
    match a {
      case DoBegin(e, now, budget, releaseAction) => NoSecondTicket(s, e, now, budget, releaseAction);
      case DoSettlement(e, now, budget) => SettlementKeeps(s, e, now, budget);
      case DoFinish(ticket, reply, delivered, now, answers, original) =>
        FinishKeeps(s, ticket, reply, delivered, now, answers.delivery, original);
      case _ =>
    }
  }

  lemma NoSecondTicket(s: RouterState, e: Event, now: nat, budget: nat, releaseAction: bool)
    requires s.pending.Some?
    ensures Begin(s, e, now, budget, releaseAction) == (s, None)
  {
  }

  /** The press a pending ticket was issued for is left alone while the ticket waits. */
  lemma CellWaits(s: RouterState, a: Action, d: nat, k: nat)
    requires s.WellFormed() && s.pending.Some? && !s.locked && !Interrupts(s, a) && s.OwnerOf(d, k) == Owner.Unowned
    ensures Apply(s, a).state.OwnerOf(d, k) == Owner.Unowned
  {
    hide ProcessKey;
    if a.DoKey? {
      if (a.event.device, a.event.key) == (d, k) { BystanderKey(s, a); } else { OtherEventKeeps(s, a, d, k); }
    } else {
      WaitsOn(s, a);
    }
  }

  lemma BystanderKey(s: RouterState, a: Action)
    requires a.DoKey? && !Interrupts(s, a) && s.OwnerOf(a.event.device, a.event.key) == Owner.Unowned
    ensures Apply(s, a).state.OwnerOf(a.event.device, a.event.key) == Owner.Unowned
  {
    hide RoutePress, RouteOwned;
  }

  ghost predicate Undisturbed(before: seq<Action>, between: seq<Action>) {
    forall i :: 0 <= i < |between| ==> !Interrupts(Run(before + between[..i]).router, between[i])
  }

  lemma UndisturbedFront(before: seq<Action>, between: seq<Action>)
    requires Undisturbed(before, between) && between != []
    ensures var n := |between| - 1;
            Undisturbed(before, between[..n]) && !Interrupts(Run(before + between[..n]).router, between[n])
  {
    hide Run, Interrupts;
    var front := between[..|between| - 1];
    forall i | 0 <= i < |front| ensures !Interrupts(Run(before + front[..i]).router, front[i]) {
      assert front[..i] == between[..i];
    }
  }

  lemma {:induction false} TicketWaits(before: seq<Action>, between: seq<Action>, d: nat, k: nat)
    requires Run(before).router.pending.Some? && Undisturbed(before, between)
    ensures var s, t := Run(before).router, Run(before + between).router;
            && t.pending == s.pending && t.epoch == s.epoch && t.focus == s.focus && !t.locked
            && (s.OwnerOf(d, k) == Owner.Unowned ==> t.OwnerOf(d, k) == Owner.Unowned)
    decreases |between|
  {
    hide Apply, OwnerIn, Interrupts, Undisturbed;
    LockedRouterIsSealed(before);
    if between == [] {
      assert before + between == before;
    } else {
      var front, a := between[..|between| - 1], between[|between| - 1];
      UndisturbedFront(before, between);
      TicketWaits(before, front, d, k);
      RunWellFormed(before + front);
      var s := Run(before + front).router;
      WaitsOn(s, a);
      if s.OwnerOf(d, k) == Owner.Unowned { CellWaits(s, a, d, k); }
      RunExtend(before + front, a);
      assert before + front + [a] == before + between;
    }
  }

  /** From the request on: a press that may ask for a ticket gets one, and as long as nothing interrupts, the
      verdict given for it in time is granted. */
  lemma RequestIsGranted(before: seq<Action>, begin: Action, between: seq<Action>, a: Action)
    requires begin.DoBegin? && begin.event.state == Down
    requires MayBegin(Run(before).router, begin.event, begin.now, begin.budget, begin.releaseAction)
    requires Undisturbed(before + [begin], between)
    requires a.DoKey? && a.event == begin.event && a.reply.Some?
    requires var ticket := NewTicket(Run(before).router, begin.event, begin.now, begin.budget);
             a.ticket == Some(ticket) && a.reply.value.ticket == ticket && a.now < ticket.deadline
    requires !Run(before + [begin] + between).router.fatal
    ensures FreshPress(Run(before + [begin] + between).router, a.event)
    ensures Granted(Run(before + [begin] + between), a, a.reply.value.verdict)
  {
    hide Run, Begin, HeldElsewhere, Undisturbed, OwnerIn, IssuesAreCurrent, AllAuthorised, FreshIssue, Unspent;
    var e, s := begin.event, Run(before).router;
    BeginsExactly(s, e, begin.now, begin.budget, begin.releaseAction);
    BeginKeeps(s, e, begin.now, begin.budget, begin.releaseAction);
    RunExtend(before, begin);
    TicketWaits(before + [begin], between, e.device, e.key);
    var all := before + [begin] + between;
    AlwaysGrounded(all);
    SingleUseAuthority(all);
  }

  // ---- the action at a release ------------------------------------------------------------

  /** Releasing a modifier earns its action exactly with the pending ticket of that release; the client is sent
      the release first. */
  lemma ReleaseEarnsAction(before: seq<Action>, a: Action)
    requires a.DoKey? && a.event.modeled && a.event.state == Up
    requires Run(before).router.OwnerOf(a.event.device, a.event.key) != Owner.Unowned
    ensures var s, t := Run(before).router, Next(Run(before), a).router;
            var earned := && ActsOnRelease(s, a.event) && a.ticket.Some? && s.pending == a.ticket
                          && a.ticket.value.device == a.event.device && a.ticket.value.key == a.event.key;
            && t.released == (if earned then a.ticket else None)
            && (earned ==> Apply(s, a).entries == [Delivered(Client, a.event.key, Up)])
  {
    hide Run;
    RunWellFormed(before);
    LockedRouterIsSealed(before);
    EarnsAction(Run(before).router, a);
  }

  lemma EarnsAction(s: RouterState, a: Action)
    requires a.DoKey? && a.event.modeled && a.event.state == Up && s.WellFormed() && LockSealed(s)
    requires s.OwnerOf(a.event.device, a.event.key) != Owner.Unowned
    ensures var earned := && ActsOnRelease(s, a.event) && a.ticket.Some? && s.pending == a.ticket
                          && a.ticket.value.device == a.event.device && a.ticket.value.key == a.event.key;
            && Apply(s, a).state.released == (if earned then a.ticket else None)
            && (earned ==> Apply(s, a).entries == [Delivered(Client, a.event.key, Up)])
  {
    hide IsModifier, RoutePress;
    assert (a.event.device, a.event.key) in s.held;
    ModifierKeys(a.event.key);
    ElsewhereIs(s, a.event.device, a.event.key);
    hide HeldElsewhere, OtherForwardedIn;
  }

  /** The released ticket may still act: fresh, in time, answered Replace onto a key that may be used. */
  ghost predicate MayAct(w: World, a: Action)
    requires a.DoFinish?
  {
    && w.router.released == Some(a.finished) && FreshIssue(w.log, a.finished)
    && !w.router.locked && !w.router.fatal && a.now < a.finished.deadline
    && a.reply.Some? && a.reply.value.verdict == Replace && a.reply.value.ticket == a.finished
    && MayReplace(w.router, a.reply.value.key, a.finished.key)
  }

  ghost function Finished(s: RouterState, a: Action): FinishStep
    requires a.DoFinish?
  {
    FinishRelease(s, a.finished, a.reply, a.deliveredOriginal, a.now, a.answers.delivery, a.original)
  }

  predicate AsksReplace(reply: Option<Decision>) {
    reply.Some? && reply.value.verdict == Replace
  }

  function Answered(answer: Delivery): Outcome {
    match answer
    case Accepted => Outcome.Replaced
    case RejectedNoOutput => Outcome.Rejected
    case PartialFatal => Outcome.PartialFatal
  }

  /** A release action is sent if and only if it may act and the original release was delivered. */
  lemma ActionSentExactly(before: seq<Action>, a: Action)
    requires a.DoFinish?
    ensures var w := Run(before);
            var sent := MayAct(w, a) && a.deliveredOriginal;
            && (if sent then Asked(w.router, Finished(w.router, a).replaced, a.reply)
                else Finished(w.router, a).replaced.None?)
            && Finished(w.router, a).outcome ==
               (if sent then Answered(a.answers.delivery) else if AsksReplace(a.reply) then Outcome.Rejected
                else a.original)
            && Apply(w.router, a).entries ==
               (if sent then [ReplacementSent(a.finished, a.reply.value.key, a.now, a.answers.delivery,
                                              a.answers.delivery == Delivery.PartialFatal && a.answers.stuck)] else [])
  {
    hide Run, MayReplace, TargetRefused, SidesDown, ModifierSides, KeysOwnedBy, AllAuthorised, SequencesBounded,
         Unspent;
    var w := Run(before);
    SidesAre(w.router);
    if a.reply.Some? { RefusedExactly(w.router, a.reply.value.key, a.finished.key); }
    AlwaysGrounded(before);
    SingleUseAuthority(before);
    if FreshIssue(w.log, a.finished) { FreshIsCurrent(w, a.finished); }
  }

  lemma FreshIsCurrent(w: World, ticket: Ticket)
    requires IssuesAreCurrent(w) && FreshIssue(w.log, ticket)
    ensures ticket.epoch == w.router.epoch && ticket.focus == w.router.focus
  {
    var i :| IssuedAt(w.log, i, ticket) && UnseveredSince(w.log, i);
    assert w.log[i].ticket == ticket;
  }

  /** Every action sent at a release follows the release itself: its ticket was issued, and the client was sent
      the key's release after that. */
  lemma ReleaseComesFirst(before: seq<Action>, a: Action)
    requires a.DoFinish? && Apply(Run(before).router, a).entries != []
    ensures ReleaseDelivered(Run(before).log, a.finished)
  {
    hide ReleaseDelivered, Issued, IssuesAreCurrent, Run;
    AlwaysGrounded(before);
    ActionSentExactly(before, a);
  }

  /** A caller that reports what the client was sent has its action sent whenever it may act. */
  lemma HonestCallerActs(before: seq<Action>, a: Action)
    requires a.DoFinish? && MayAct(Run(before), a)
    requires a.deliveredOriginal <==> ReleaseDelivered(Run(before).log, a.finished)
    ensures Asked(Run(before).router, Finished(Run(before).router, a).replaced, a.reply)
  {
    hide ReleaseDelivered, Issued, IssuesAreCurrent, Run;
    AlwaysGrounded(before);
    ActionSentExactly(before, a);
  }
}
