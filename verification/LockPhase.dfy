/** The session-lock phase and the router it opens and closes. */
module SessionLock {
  import opened Routing
  import opened RouterRuns

  datatype Phase = Open | Entering | Locked

  datatype Move = Enter | Observe(protocolLocked: bool) | OriginalReturned(protocolLocked: bool)

  function MovePhase(phase: Phase, m: Move): Phase {
    match m
    case Enter => Entering
    case Observe(b) => if phase == Entering then Entering else if b then Phase.Locked else Open
    case OriginalReturned(b) => if phase == Entering && b then Phase.Locked else phase
  }

  /** Whether an observation reopens the route. */
  predicate Reopens(phase: Phase, m: Move) {
    phase == Phase.Locked && m == Observe(false)
  }

  class LockPhase {
    var phase: Phase

    constructor ()
      ensures phase == Open
    {
      phase := Open;
    }

    method EnterLock()
      modifies this
      ensures phase == MovePhase(old(phase), Enter)
    {
      phase := Entering;
    }

    method ObserveProtocol(protocolLocked: bool) returns (reopened: bool)
      modifies this
      ensures phase == MovePhase(old(phase), Observe(protocolLocked))
      ensures reopened == Reopens(old(phase), Observe(protocolLocked))
    {
      if phase == Entering { return false; }
      if protocolLocked { phase := Phase.Locked; return false; }
      if phase != Phase.Locked { return false; }
      phase := Open;
      reopened := true;
    }

    method OriginalReturns(protocolLocked: bool)
      modifies this
      ensures phase == MovePhase(old(phase), OriginalReturned(protocolLocked))
    {
      if phase == Entering && protocolLocked { phase := Phase.Locked; }
    }
  }

  // ---- composed with the router ------------------------------------------------------

  datatype Gate = Gate(phase: Phase, router: RouterState)

  datatype GateAction =
    | RevokeRoute(answers: Answers)        // phase.enter(), then router.lock()
    | SyncUnlock(protocolLocked: bool)     // phase.observe(), and router.unlockConfirmed() if it reopened
    | LockReturned(protocolLocked: bool)   // the stock lock entry point returned
    | Bootstrap                            // first unlock of a fresh router, only with the phase open
    | OtherCall(action: Action)

  ghost function GateStep(g: Gate, a: GateAction): Gate {
    match a
    case RevokeRoute(answers) => Gate(MovePhase(g.phase, Enter), Lock(g.router, answers))
    case SyncUnlock(b) =>
      Gate(MovePhase(g.phase, Observe(b)), if Reopens(g.phase, Observe(b)) then UnlockConfirmed(g.router) else g.router)
    case LockReturned(b) => Gate(MovePhase(g.phase, OriginalReturned(b)), g.router)
    case Bootstrap => if g.phase == Open then g.(router := UnlockConfirmed(g.router)) else g
    case OtherCall(action) =>
      if action.DoLock? || action.DoUnlock? then g else g.(router := Apply(g.router, action).state)
  }

  ghost function GateRun(actions: seq<GateAction>): Gate {
    if actions == [] then Gate(Open, Initial())
    else GateStep(GateRun(actions[..|actions| - 1]), actions[|actions| - 1])
  }

  /** A closed phase means a locked router. */
  predicate Shut(g: Gate) {
    g.phase != Open ==> g.router.locked
  }

  lemma OtherCallKeepsLocked(s: RouterState, a: Action)
    requires !a.DoLock? && !a.DoUnlock?
    ensures Apply(s, a).state.locked == s.locked
  {
    hide Add, Begin, Settlement, ProcessKey, FinishRelease, ModifierSides, KeysOwnedBy, SoleKeysIn;
    match a {
      case DoAdd(id) => AddKeeps(s, id);
      case DoBegin(e, now, budget, releaseAction) => BeginKeeps(s, e, now, budget, releaseAction);
      case DoSettlement(e, now, budget) => SettlementKeeps(s, e, now, budget);
      case DoKey(e, ticket, reply, now, answers, admission) =>
        KeyKeeps(s, e, ticket, reply, now, answers.delivery, admission);
      case DoFinish(ticket, reply, delivered, now, answers, original) =>
        FinishKeeps(s, ticket, reply, delivered, now, answers.delivery, original);
      case _ =>
    }
  }

  /** `Shut` is not an invariant of the code: an open phase that observes a locked protocol closes
      without locking the router. */
  lemma ObservedLockLeavesRouterOpen()
    ensures !Shut(GateRun([Bootstrap, SyncUnlock(true)]))
  {
    var actions := [Bootstrap, SyncUnlock(true)];
    assert actions[..1] == [Bootstrap] && [Bootstrap][..0] == [];
    assert GateRun([]) == Gate(Open, Initial());
    assert GateRun([Bootstrap]) == GateStep(GateRun([]), Bootstrap);
    assert GateRun(actions) == GateStep(GateRun([Bootstrap]), SyncUnlock(true));
  }

  /** Exactly that observation breaks it: every other step keeps a closed phase over a locked router. */
  lemma ShutStep(g: Gate, a: GateAction)
    requires Shut(g)
    ensures Shut(GateStep(g, a)) <==> !Unhooked(g, a)
  {
    if a.OtherCall? && !a.action.DoLock? && !a.action.DoUnlock? { OtherCallKeepsLocked(g.router, a.action); }
  }

  /** The protocol is seen locked while the phase is open over an unlocked router: stock locked the
      session without passing the revoking hook. */
  predicate Unhooked(g: Gate, a: GateAction) {
    a == SyncUnlock(true) && g.phase == Open && !g.router.locked
  }

  lemma GateRunStep(actions: seq<GateAction>, i: nat)
    requires i < |actions|
    ensures GateRun(actions[..i + 1]) == GateStep(GateRun(actions[..i]), actions[i])
  {
    assert actions[..i + 1][..i] == actions[..i];
  }

  lemma {:induction false} HookedStaysShut(actions: seq<GateAction>, n: nat)
    requires n <= |actions| && forall i :: 0 <= i < n ==> !Unhooked(GateRun(actions[..i]), actions[i])
    ensures Shut(GateRun(actions[..n]))
  {
    hide GateStep;
    if n != 0 {
      HookedStaysShut(actions, n - 1);
      GateRunStep(actions, n - 1);
      ShutStep(GateRun(actions[..n - 1]), actions[n - 1]);
    }
  }

  /** A run keeps a closed phase over a locked router all along if and only if stock's lock is always
      entered through the revoking hook. */
  lemma ClosedPhaseMeansLockedRouter(actions: seq<GateAction>)
    ensures (forall n :: 0 <= n <= |actions| ==> Shut(GateRun(actions[..n])))
       <==> (forall i :: 0 <= i < |actions| ==> !Unhooked(GateRun(actions[..i]), actions[i]))
  {
    hide GateStep, GateRun;
    if forall n :: 0 <= n <= |actions| ==> Shut(GateRun(actions[..n])) {
      forall i | 0 <= i < |actions| ensures !Unhooked(GateRun(actions[..i]), actions[i]) {
        GateRunStep(actions, i);
        ShutStep(GateRun(actions[..i]), actions[i]);
      }
    }
    if forall i :: 0 <= i < |actions| ==> !Unhooked(GateRun(actions[..i]), actions[i]) {
      forall n | 0 <= n <= |actions| ensures Shut(GateRun(actions[..n])) {
        HookedStaysShut(actions, n);
      }
    }
  }

  predicate ConfirmedAfter(actions: seq<GateAction>, i: int, j: int) {
    0 <= i < j < |actions| && actions[j] == LockReturned(true)
  }

  /** The stock lock returned locked at some `j` after `i`, and unlock was observed after that. */
  ghost predicate ReopenedSince(actions: seq<GateAction>, i: int) {
    exists j, l :: ConfirmedAfter(actions, i, j) && j < l < |actions| && actions[l] == SyncUnlock(false)
  }

  /** Leaving `Entering` takes a confirmed lock; reaching `Open` takes an unlock observed after it. */
  lemma {:induction false} PhaseNeedsConfirmation(actions: seq<GateAction>, i: nat)
    requires i < |actions| && actions[i].RevokeRoute?
    ensures GateRun(actions).phase != Entering ==> exists j :: ConfirmedAfter(actions, i, j)
    ensures GateRun(actions).phase == Open ==> ReopenedSince(actions, i)
  {
    var front := actions[..|actions| - 1];
    var a := actions[|actions| - 1];
    assert actions == front + [a];
    if i < |front| && GateRun(actions).phase != Entering {
      PhaseNeedsConfirmation(front, i);
      if GateRun(front).phase == Entering {
        assert ConfirmedAfter(actions, i, |actions| - 1);
      } else {
        var j :| ConfirmedAfter(front, i, j);
        assert ConfirmedAfter(actions, i, j);
        if GateRun(actions).phase == Open && GateRun(front).phase != Open {
          assert actions[|actions| - 1] == SyncUnlock(false);
        } else if GateRun(actions).phase == Open {
          CarryReopened(front, a, i);
        }
      }
    }
  }

  lemma CarryReopened(front: seq<GateAction>, a: GateAction, i: int)
    requires ReopenedSince(front, i)
    ensures ReopenedSince(front + [a], i)
  {
    var j, l :| ConfirmedAfter(front, i, j) && j < l < |front| && front[l] == SyncUnlock(false);
    assert ConfirmedAfter(front + [a], i, j) && (front + [a])[l] == SyncUnlock(false);
  }

  /** After a lock is entered the router serves clients again only once the lock was confirmed by
      its own return and, later, unlock was observed; nothing else reopens it, on any run. */
  lemma {:induction false} UnlockNeedsConfirmation(actions: seq<GateAction>, i: nat)
    requires i < |actions| && actions[i].RevokeRoute?
    requires !GateRun(actions).router.locked
    ensures ReopenedSince(actions, i)
  {
    var front := actions[..|actions| - 1];
    var a := actions[|actions| - 1];
    assert actions == front + [a];
    if i < |front| {
      if a == SyncUnlock(false) && GateRun(front).phase == Phase.Locked {
        PhaseNeedsConfirmation(front, i);
        var j :| ConfirmedAfter(front, i, j);
        assert ConfirmedAfter(actions, i, j);
      } else if a == Bootstrap && GateRun(front).phase == Open {
        PhaseNeedsConfirmation(front, i);
        CarryReopened(front, a, i);
      } else {
        if a.OtherCall? && !a.action.DoLock?
            && !a.action.DoUnlock? { OtherCallKeepsLocked(GateRun(front).router, a.action); }
        UnlockNeedsConfirmation(front, i);
        CarryReopened(front, a, i);
      }
    }
  }

  /** A lock always shuts the route, and it opens again: once the stock lock returned locked, the first unlock
      observed opens the phase and the router, whatever was called in between. */
  lemma ConfirmedLockReopens(actions: seq<GateAction>, answers: Answers, between: seq<GateAction>)
    requires forall i :: 0 <= i < |between| ==> between[i].OtherCall?
    ensures var entered := actions + [RevokeRoute(answers)];
            var confirmed := entered + [LockReturned(true)] + between;
            && GateRun(entered).phase == Entering && GateRun(entered).router.locked
            && GateRun(confirmed).phase == Phase.Locked && GateRun(confirmed).router.locked
            && GateRun(confirmed + [SyncUnlock(false)]).phase == Open
            && !GateRun(confirmed + [SyncUnlock(false)]).router.locked
  {
    hide GateRun, ModifierSides, KeysOwnedBy, Quarantine;
    var entered := actions + [RevokeRoute(answers)];
    GateRunExtend(actions, RevokeRoute(answers));
    GateRunExtend(entered, LockReturned(true));
    OtherCallsKeepPhase(entered + [LockReturned(true)], between);
    GateRunExtend(entered + [LockReturned(true)] + between, SyncUnlock(false));
  }

  lemma GateRunExtend(actions: seq<GateAction>, a: GateAction)
    ensures GateRun(actions + [a]) == GateStep(GateRun(actions), a)
  {
    assert (actions + [a])[..|actions|] == actions;
  }

  lemma {:induction false} OtherCallsKeepPhase(actions: seq<GateAction>, between: seq<GateAction>)
    requires forall i :: 0 <= i < |between| ==> between[i].OtherCall?
    ensures GateRun(actions + between).phase == GateRun(actions).phase
    ensures GateRun(actions + between).router.locked == GateRun(actions).router.locked
    decreases |between|
  {
    hide GateRun;
    if between == [] {
      assert actions + between == actions;
    } else {
      var front, a := between[..|between| - 1], between[|between| - 1];
      OtherCallsKeepPhase(actions, front);
      GateRunExtend(actions + front, a);
      assert actions + front + [a] == actions + between;
      if !a.action.DoLock? && !a.action.DoUnlock? { OtherCallKeepsLocked(GateRun(actions + front).router, a.action); }
    }
  }

  /** A fresh router is unlocked by its first bootstrap. */
  lemma BootstrapOpens()
    ensures !GateRun([Bootstrap]).router.locked && GateRun([Bootstrap]).phase == Open
  {
    hide Apply, Lock;
    assert [Bootstrap][..0] == [];
    assert GateRun([]) == Gate(Open, Initial());
  }
}
