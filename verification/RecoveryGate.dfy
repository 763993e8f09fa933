/** The router behind its recovery gate. A recovery is attempted only through the record of affected
    resources, so it follows an enter that nothing uncertain came after; client-view conservation then
    holds on every run, across any number of uncertain outputs and recoveries. */
module RecoveryGate {
  import opened Routing
  import opened RouterRuns
  import opened PressLatch
  import opened Announcement
  import OutputRecovery
  import ClientView

  type LatchAction = OutputRecovery.LatchAction

  /** The router calls one action of the gate comes to. */
  ghost function Induced(l: OutputRecovery.Latch, a: LatchAction): (calls: seq<Action>)
    ensures |calls| <= 1
  {
    match a
    case Call(action, _) => if OutputRecovery.Ordinary(action) then [action] else []
    case ResourceGone(_) => []
    case EnterSent => [DoEnter]
    case TryRecover(_, _, _) => if OutputRecovery.Recovers(l, a) then [DoRecover(true)] else []
  }

  ghost function RouterCalls(actions: seq<LatchAction>): seq<Action> {
    if actions == [] then []
    else
      var front := actions[..|actions| - 1];
      RouterCalls(front) + Induced(OutputRecovery.LatchRun(front), actions[|actions| - 1])
  }

  lemma InducedStep(l: OutputRecovery.Latch, a: LatchAction)
    ensures var calls := Induced(l, a);
            var router := OutputRecovery.LatchStep(l, a).router;
            && (calls == [] ==> router == l.router)
            && (calls != [] ==> router == Apply(l.router, calls[0]).state)
            && (calls != [] && Uncertain(l.router, calls[0]) ==> OutputRecovery.BecomesUncertain(l, a))
            && (calls != [] && calls[0].DoRecover? ==> OutputRecovery.Recovers(l, a))
  {
  }

  lemma {:induction false} GateIsTheRun(actions: seq<LatchAction>)
    ensures Run(RouterCalls(actions)).router == OutputRecovery.LatchRun(actions).router
    decreases |actions|
  {
    if actions != [] {
      hide Apply, Induced, OutputRecovery.LatchStep, Uncertain;
      var front, a := actions[..|actions| - 1], actions[|actions| - 1];
      var l := OutputRecovery.LatchRun(front);
      GateIsTheRun(front);
      InducedStep(l, a);
      var calls := Induced(l, a);
      if calls == [] {
        assert RouterCalls(actions) == RouterCalls(front);
      } else {
        assert calls == [calls[0]];
        RunExtend(RouterCalls(front), calls[0]);
      }
    }
  }

  lemma EnteredExtend(calls: seq<Action>, a: Action, q: int)
    requires ClientView.EnteredSince(calls, q) && !Uncertain(Run(calls).router, a)
    ensures ClientView.EnteredSince(calls + [a], q)
  {
    hide Uncertain, Run;
    var longer := calls + [a];
    ClientView.UncertainPrefix(longer, |calls|);
    assert longer[..|calls|] == calls;
    forall p | q < p < |longer| ensures !ClientView.UncertainAt(longer, p) {
      if p < |calls| {
        assert !ClientView.UncertainAt(calls, p);
      }
    }
  }

  lemma JustEntered(calls: seq<Action>)
    ensures ClientView.EnteredSince(calls + [DoEnter], |calls|)
  {
  }

  /** The gate's enter is one of the run, and nothing uncertain follows it there either. */
  lemma {:induction false} EnterIsInTheRun(actions: seq<LatchAction>, q: int) returns (at: int)
    requires OutputRecovery.EnteredLast(actions, q)
    ensures ClientView.EnteredSince(RouterCalls(actions), at)
    decreases |actions|
  {
    hide Apply, OutputRecovery.LatchStep, Uncertain, ClientView.EnteredSince;
    var front, a := actions[..|actions| - 1], actions[|actions| - 1];
    var l := OutputRecovery.LatchRun(front);
    if q == |front| {
      at := |RouterCalls(front)|;
      JustEntered(RouterCalls(front));
    } else {
      OutputRecovery.PrefixSame(actions, |front|);
      assert OutputRecovery.EnteredLast(front, q);
      at := EnterIsInTheRun(front, q);
      assert !OutputRecovery.UncertainAt(actions, |front|);
      InducedStep(l, a);
      GateIsTheRun(front);
      hide Induced;
      var calls := Induced(l, a);
      if calls == [] {
        assert RouterCalls(actions) == RouterCalls(front);
      } else {
        assert calls == [calls[0]];
        EnteredExtend(RouterCalls(front), calls[0], at);
      }
    }
  }

  lemma FreshExtend(calls: seq<Action>, a: Action)
    requires ClientView.FreshlyRecovered(calls)
    requires a.DoRecover? ==> exists q :: ClientView.EnteredSince(calls, q)
    ensures ClientView.FreshlyRecovered(calls + [a])
  {
    hide Run, ClientView.EnteredSince;
    var longer := calls + [a];
    ClientView.UncertainPrefix(longer, |calls|);
    assert longer[..|calls|] == calls;
    forall i | 0 <= i < |longer| && ClientView.RecoversAt(longer, i)
      ensures exists q :: ClientView.EnteredSince(longer[..i], q)
    {
      if i < |calls| {
        assert ClientView.RecoversAt(calls, i) && longer[..i] == calls[..i];
      }
    }
  }

  /** Every recovery behind the gate comes after an enter that nothing uncertain followed. */
  lemma {:induction false} GateRecoversFresh(actions: seq<LatchAction>)
    ensures ClientView.FreshlyRecovered(RouterCalls(actions))
    decreases |actions|
  {
    hide Apply, OutputRecovery.LatchStep, Uncertain, ClientView.EnteredSince, ClientView.FreshlyRecovered, Induced;
    if actions != [] {
      var front, a := actions[..|actions| - 1], actions[|actions| - 1];
      GateRecoversFresh(front);
      var l := OutputRecovery.LatchRun(front);
      InducedStep(l, a);
      var calls := Induced(l, a);
      if calls == [] {
        assert RouterCalls(actions) == RouterCalls(front);
      } else {
        assert calls == [calls[0]];
        if calls[0].DoRecover? {
          OutputRecovery.RecoveryIsEarned(actions, |front|);
          var q :| OutputRecovery.EnteredLast(front, q);
          var at := EnterIsInTheRun(front, q);
        }
        FreshExtend(RouterCalls(front), calls[0]);
      }
    } else {
      NoRecovery();
    }
  }

  lemma NoRecovery()
    ensures ClientView.FreshlyRecovered([])
  {
  }

  /** Conservation through the gate: whatever was lost, once the latch is clear again the client has down
      exactly the announced keys. */
  lemma GateConservation(actions: seq<LatchAction>)
    requires DisciplinedRun(RouterCalls(actions))
    ensures var r := OutputRecovery.LatchRun(actions).router;
            !r.fatal ==> ClientView.Seen(RouterCalls(actions)) == r.FocusEnterKeys()
  {
    GateIsTheRun(actions);
    GateRecoversFresh(actions);
    ClientView.Conservation(RouterCalls(actions));
  }
}
