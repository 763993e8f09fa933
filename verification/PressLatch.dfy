/** Ownership decided at press time holds until release, and lock never lets a press cross it. */
module PressLatch {
  import opened Wrappers
  import opened Routing
  import opened RouterRuns

  ghost predicate LockSealed(s: RouterState) {
    s.locked ==> s.pending.None? && forall p :: p in s.held ==> s.held[p] != Owner.Forwarded
  }

  lemma RouteSealed(s: RouterState, e: Event, ticket: Option<Ticket>, reply: Option<Decision>, now: nat,
                    answer: Delivery)
    requires LockSealed(s)
    ensures LockSealed(Route(s, e, ticket, reply, now, answer).state)
  {
    hide RouteOwned, RoutePress;
    OwnedKeeps(s, e, ticket);
    PressShape(s, e, ticket, reply, now, answer);
  }

  lemma OutcomeSealed(s: RouterState, e: Event, proposal: RouteResult, admitted: bool)
    requires LockSealed(s)
    ensures LockSealed(OriginalOutcome(s, e, proposal, admitted).0)
  {
  }

  lemma KeySealed(s: RouterState, e: Event, ticket: Option<Ticket>, reply: Option<Decision>, now: nat,
                  answer: Delivery, admission: Option<bool>)
    requires LockSealed(s)
    ensures LockSealed(ProcessKey(s, e, ticket, reply, now, answer, admission).state)
  {
    hide Route, OriginalOutcome, LockSealed;
    RouteSealed(s, e, ticket, reply, now, answer);
    var proposal := Route(s, e, ticket, reply, now, answer);
    if admission.Some? {
      OutcomeSealed(proposal.state, e, proposal.result, admission.value);
    }
  }

  lemma RevokeSealed(s: RouterState, answers: Answers)
    ensures LockSealed(Revoke(s, answers))
  {
    hide ModifierSides, KeysOwnedBy;
  }

  lemma RetireSealed(s: RouterState, id: nat, answers: Answers)
    requires LockSealed(s)
    ensures LockSealed(Retire(s, id, answers))
  {
    hide ModifierSides, KeysOwnedBy, SoleKeysIn;
  }

  lemma SealedStep(s: RouterState, a: Action)
    requires LockSealed(s)
    ensures LockSealed(Apply(s, a).state)
  {
    hide Add, Begin, Settlement, ProcessKey, FinishRelease, Revoke, Retire;
    match a {
      case DoAdd(id) => AddKeeps(s, id);
      case DoBegin(e, now, budget, releaseAction) => BeginKeeps(s, e, now, budget, releaseAction);
      case DoSettlement(e, now, budget) => SettlementKeeps(s, e, now, budget);
      case DoKey(e, ticket, reply, now, answers, admission) =>
        KeySealed(s, e, ticket, reply, now, answers.delivery, admission);
      case DoFinish(ticket, reply, delivered, now, answers, original) =>
        FinishKeeps(s, ticket, reply, delivered, now, answers.delivery, original);
      case DoRevoke(answers) => RevokeSealed(s, answers);
      case DoLock(answers) => RevokeSealed(s.(locked := true), answers);
      case DoRetire(id, answers) => RetireSealed(s, id, answers);
      case _ =>
    }
  }

  /** In every reachable state a locked router forwards nothing and holds no ticket. */
  lemma {:induction false} LockedRouterIsSealed(actions: seq<Action>)
    ensures LockSealed(Run(actions).router)
    decreases |actions|
  {
    if actions != [] {
      LockedRouterIsSealed(actions[..|actions| - 1]);
      SealedStep(Run(actions[..|actions| - 1]).router, actions[|actions| - 1]);
    }
  }

  /** A press no client will hear of again: consumed, quarantined or taken by stock, or a press the
      locker received before the session was unlocked. */
  predicate Silent(s: RouterState, d: nat, k: nat) {
    match s.OwnerOf(d, k)
    case Consumed => true
    case Quarantined => true
    case StockConsumed => true
    case LockerOwned => !s.locked
    case _ => false
  }

  predicate Concerns(a: Action, d: nat, k: nat) {
    a.DoKey? && a.event.device == d && a.event.key == k && a.event.modeled
  }

  /** The press ends: its physical release, or the loss of its device. */
  predicate Ends(a: Action, d: nat, k: nat) {
    (Concerns(a, d, k) && a.event.state == Up) || (a.DoRetire? && a.id == d)
  }

  /** Its own events: nothing is delivered or replaced, and only the release ends it. */
  lemma SilentOwn(s: RouterState, a: Action)
    requires a.DoKey? && a.event.modeled && s.WellFormed() && Silent(s, a.event.device, a.event.key)
    ensures Apply(s, a).entries == []
    ensures a.event.state != Up ==> Apply(s, a).state == s
  {
    hide OtherForwardedIn, IsModifier, RoutePress;
    var e := a.event;
    assert (e.device, e.key) in s.held;
    assert Route(s, e, a.ticket, a.reply, a.now, a.answers.delivery) == RouteOwned(s, e, a.ticket);
  }

  lemma SilentOther(s: RouterState, a: Action, d: nat, k: nat)
    requires a.DoKey? && s.WellFormed() && Silent(s, d, k) && (a.event.device, a.event.key) != (d, k)
    ensures Silent(Apply(s, a).state, d, k)
  {
    hide ProcessKey;
    ProcessKeyOneCell(s, a.event, a.ticket, a.reply, a.now, a.answers.delivery, a.admission);
  }

  /** An event the router does not model leaves a silent press silent, whatever stock says of it. */
  lemma SilentUnmodeled(s: RouterState, a: Action)
    requires a.DoKey? && !a.event.modeled && Silent(s, a.event.device, a.event.key)
    ensures Silent(Apply(s, a).state, a.event.device, a.event.key)
  {
    var e := a.event;
    assert Route(s, e, a.ticket, a.reply, a.now, a.answers.delivery).state == s;
  }

  lemma SilentRevoked(s: RouterState, answers: Answers, d: nat, k: nat)
    requires s.OwnerOf(d, k) != Owner.Unowned
    ensures Silent(Revoke(s, answers), d, k)
  {
    hide ModifierSides, KeysOwnedBy;
  }

  lemma SilentRetired(s: RouterState, id: nat, answers: Answers, d: nat, k: nat)
    requires Silent(s, d, k) && id != d
    ensures Silent(Retire(s, id, answers), d, k)
  {
    hide ModifierSides, KeysOwnedBy, SoleKeysIn;
  }

  lemma SilentCall(s: RouterState, a: Action, d: nat, k: nat)
    requires !a.DoKey? && Silent(s, d, k) && !Ends(a, d, k)
    ensures Silent(Apply(s, a).state, d, k)
  {
    hide Add, Begin, Settlement, FinishRelease, Revoke, Retire, ProcessKey;
    match a {
      case DoAdd(id) => AddKeeps(s, id);
      case DoBegin(e, now, budget, releaseAction) => BeginKeeps(s, e, now, budget, releaseAction);
      case DoSettlement(e, now, budget) => SettlementKeeps(s, e, now, budget);
      case DoFinish(ticket, reply, delivered, now, answers, original) =>
        FinishKeeps(s, ticket, reply, delivered, now, answers.delivery, original);
      case DoRevoke(answers) => SilentRevoked(s, answers, d, k);
      case DoLock(answers) => SilentRevoked(s.(locked := true), answers, d, k);
      case DoRetire(id, answers) => SilentRetired(s, id, answers, d, k);
      case _ =>
    }
  }

  lemma SilentStep(s: RouterState, a: Action, d: nat, k: nat)
    requires s.WellFormed() && Silent(s, d, k)
    ensures Concerns(a, d, k) ==> Apply(s, a).entries == []
    ensures !Ends(a, d, k) ==> Silent(Apply(s, a).state, d, k)
  {
    hide Apply, Silent;
    if Concerns(a, d, k) {
      SilentOwn(s, a);
    } else if a.DoKey? && (a.event.device, a.event.key) == (d, k) {
      SilentUnmodeled(s, a);
    } else if a.DoKey? {
      SilentOther(s, a, d, k);
    } else if !Ends(a, d, k) {
      SilentCall(s, a, d, k);
    }
  }

  lemma Resumed(before: seq<Action>, after: seq<Action>, i: nat)
    requires 1 <= i < |after|
    ensures before + [after[0]] + after[1..][..i - 1] == before + after[..i] && after[1..][i - 1] == after[i]
  {
    assert after[1..][..i - 1] == after[1..i] && after[..i] == [after[0]] + after[1..i];
  }

  /** From the moment a press is silent, every repeat and its release emit nothing at all: no
      delivery to any client, no replacement, whatever else happens in between. */
  lemma {:induction false} SilentUntilRelease(before: seq<Action>, after: seq<Action>, d: nat, k: nat)
    requires Silent(Run(before).router, d, k)
    requires forall i :: 0 <= i < |after| - 1 ==> !Ends(after[i], d, k)
    ensures forall i :: 0 <= i < |after| && Concerns(after[i], d, k) ==>
              Apply(Run(before + after[..i]).router, after[i]).entries == []
    decreases |after|
  {
    hide Apply;
    if after != [] {
      var a := after[0];
      RunWellFormed(before);
      SilentStep(Run(before).router, a, d, k);
      assert before + after[..0] == before;
      RunExtend(before, a);
      if |after| > 1 {
        SilentUntilRelease(before + [a], after[1..], d, k);
        forall i | 1 <= i < |after| && Concerns(after[i], d, k)
          ensures Apply(Run(before + after[..i]).router, after[i]).entries == []
        {
          Resumed(before, after, i);
        }
      }
    }
  }

  lemma RunExtend(actions: seq<Action>, a: Action)
    ensures Run(actions + [a]) == Next(Run(actions), a)
  {
    assert (actions + [a])[..|actions + [a]| - 1] == actions;
  }

  lemma {:induction false} RunWellFormed(actions: seq<Action>)
    ensures Run(actions).router.WellFormed()
    decreases |actions|
  {
    if actions != [] {
      RunWellFormed(actions[..|actions| - 1]);
      WellFormedStep(Run(actions[..|actions| - 1]).router, actions[|actions| - 1]);
    }
  }

  /** A press begun before a revocation, in whoever's hands, is silent from then on. */
  lemma RevokeSilencesEveryPress(before: seq<Action>, answers: Answers, d: nat, k: nat)
    requires Run(before).router.OwnerOf(d, k) != Owner.Unowned
    ensures Silent(Run(before + [DoRevoke(answers)]).router, d, k)
  {
    hide Revoke, Silent, Run;
    RunExtend(before, DoRevoke(answers));
    SilentRevoked(Run(before).router, answers, d, k);
  }

  /** A press begun before a lock, in whoever's hands, is silent from the lock on. */
  lemma LockSilencesEveryPress(before: seq<Action>, answers: Answers, d: nat, k: nat)
    requires Run(before).router.OwnerOf(d, k) != Owner.Unowned
    ensures Silent(Run(before + [DoLock(answers)]).router, d, k)
  {
    hide Revoke, Silent, Run;
    RunExtend(before, DoLock(answers));
    SilentRevoked(Run(before).router.(locked := true), answers, d, k);
  }

  /** A press begun under the locker is silent from the unlock on. */
  lemma UnlockSilencesLockerPress(before: seq<Action>, d: nat, k: nat)
    requires Run(before).router.OwnerOf(d, k) == Owner.LockerOwned
    ensures Silent(Run(before + [DoUnlock]).router, d, k)
  {
    RunExtend(before, DoUnlock);
  }

  /** The step seals a press: a revocation or lock does so to any press, an unlock to one the locker had. */
  predicate Seals(s: RouterState, a: Action, d: nat, k: nat) {
    || ((a.DoRevoke? || a.DoLock?) && s.OwnerOf(d, k) != Owner.Unowned)
    || (a.DoUnlock? && s.OwnerOf(d, k) == Owner.LockerOwned)
  }

  /** Lock isolation over whole runs: a press owned by anyone at a lock or revocation, or by the locker at
      an unlock, emits nothing to any client at any later event of it, up to and including its release. */
  lemma LockIsolation(before: seq<Action>, a: Action, after: seq<Action>, d: nat, k: nat)
    requires Seals(Run(before).router, a, d, k)
    requires forall i :: 0 <= i < |after| - 1 ==> !Ends(after[i], d, k)
    ensures forall i :: 0 <= i < |after| && Concerns(after[i], d, k) ==>
              Apply(Run(before + [a] + after[..i]).router, after[i]).entries == []
  {
    match a {
      case DoRevoke(answers) => RevokeSilencesEveryPress(before, answers, d, k);
      case DoLock(answers) => LockSilencesEveryPress(before, answers, d, k);
      case DoUnlock => UnlockSilencesLockerPress(before, d, k);
    }
    hide Apply, Run, Silent;
    SilentUntilRelease(before + [a], after, d, k);
  }

  /** A press whose replacement was accepted, or went out in part, is not itself delivered and is
      silent from then on. */
  lemma ReplacedPressIsSilent(before: seq<Action>, a: Action)
    requires a.DoKey? && a.answers.delivery != RejectedNoOutput
    requires ProcessKey(Run(before).router, a.event, a.ticket, a.reply, a.now, a.answers.delivery,
        a.admission).replaced.Some?
    ensures Silent(Run(before + [a]).router, a.event.device, a.event.key)
    ensures forall entry :: entry in Apply(Run(before).router, a).entries ==> entry.ReplacementSent?
  {
    hide Apply, ProcessKey;
    RunExtend(before, a);
    ReplacedIsConsumed(Run(before).router, a);
  }

  lemma ReplacedIsConsumed(s: RouterState, a: Action)
    requires a.DoKey? && a.answers.delivery != RejectedNoOutput
    requires ProcessKey(s, a.event, a.ticket, a.reply, a.now, a.answers.delivery, a.admission).replaced.Some?
    ensures Apply(s, a).state.OwnerOf(a.event.device, a.event.key) == Owner.Consumed
    ensures forall entry :: entry in Apply(s, a).entries ==> entry.ReplacementSent?
  {
    var r := Route(s, a.event, a.ticket, a.reply, a.now, a.answers.delivery);
    assert r == RoutePress(s, a.event, a.ticket, a.reply, a.now, a.answers.delivery);
    assert !r.result.deliverClient && r.result.outcome != Outcome.Merged;
  }
}
