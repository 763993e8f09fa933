/** The registered keyboards, the router and the recovery gate as one system: whatever is plugged, pressed,
    locked, lost, entered or recovered, while the latch is clear the client has down exactly the announced
    keys. */
module GatedKeyboards {
  import opened Wrappers
  import opened Routing
  import opened RouterRuns
  import opened PhysicalDevices
  import opened KeyboardSystem
  import OutputRecovery
  import RecoveryGate
  import ClientView

  type Latch = OutputRecovery.Latch
  type LatchAction = OutputRecovery.LatchAction

  datatype Gated = Gated(keyboards: Keyboards, recovery: OutputRecovery.RecoveryState)

  /** Something the keyboards or the session do, with the resources its output may have reached should it
      turn out uncertain; the loss of a resource; an enter sent to a client; a recovery attempt. */
  datatype Impulse =
    | Happens(stimulus: Stimulus, resources: seq<nat>)
    | ResourceLost(resource: nat)
    | Enter
    | Attempt(physicalEmpty: bool, qualified: bool, unlocked: bool)

  ghost function LatchOf(g: Gated): Latch {
    OutputRecovery.Latch(g.keyboards.world.router, g.recovery)
  }

  /** Recoveries and enters are made by the gate alone. */
  predicate Allowed(x: Stimulus) {
    x.Session? ==> OutputRecovery.Ordinary(x.action)
  }

  /** What an impulse does to the keyboards and the router. */
  ghost function Stimuli(g: Gated, i: Impulse): (xs: seq<Stimulus>)
    ensures |xs| <= 1
  {
    match i
    case Happens(x, _) => if Allowed(x) then [x] else []
    case ResourceLost(_) => []
    case Enter => [Session(DoEnter)]
    case Attempt(p, q, u) =>
      if OutputRecovery.Recovers(LatchOf(g), OutputRecovery.TryRecover(p, q, u)) then [Session(DoRecover(true))] else []
  }

  /** What the gate's record is told of an impulse. */
  ghost function Recorded(g: Gated, i: Impulse): (actions: seq<LatchAction>)
    requires Agrees(g.keyboards.devices, g.keyboards.world.router)
    ensures |actions| <= 1
  {
    match i
    case Happens(x, resources) =>
      if Allowed(x) && Induced(g.keyboards, x).Some? && OutputRecovery.Ordinary(Induced(g.keyboards, x).value)
      then [OutputRecovery.Call(Induced(g.keyboards, x).value, resources)] else []
    case ResourceLost(r) => [OutputRecovery.ResourceGone(r)]
    case Enter => [OutputRecovery.EnterSent]
    case Attempt(p, q, u) => [OutputRecovery.TryRecover(p, q, u)]
  }

  ghost function StepOf(g: Gated, i: Impulse): (n: Gated)
    requires Agrees(g.keyboards.devices, g.keyboards.world.router)
    ensures Agrees(n.keyboards.devices, n.keyboards.world.router)
  {
    var xs, actions := Stimuli(g, i), Recorded(g, i);
    var keyboards := if xs == [] then g.keyboards else (AdvanceAgrees(g.keyboards, xs[0]); Advance(g.keyboards, xs[0]));
    Gated(keyboards, if actions == [] then g.recovery else OutputRecovery.LatchStep(LatchOf(g), actions[0]).recovery)
  }

  /** The system after a sequence of impulses, from nothing plugged in and a fresh router. */
  ghost function Drive(impulses: seq<Impulse>): (g: Gated)
    ensures Agrees(g.keyboards.devices, g.keyboards.world.router)
  {
    if impulses == [] then Gated(Play([]), OutputRecovery.Fresh())
    else StepOf(Drive(impulses[..|impulses| - 1]), impulses[|impulses| - 1])
  }

  // ---- it is a run of the keyboards and a run of the gate -------------------------------

  ghost function AllStimuli(impulses: seq<Impulse>): seq<Stimulus> {
    if impulses == [] then []
    else
      var front := impulses[..|impulses| - 1];
      AllStimuli(front) + Stimuli(Drive(front), impulses[|impulses| - 1])
  }

  ghost function AllRecorded(impulses: seq<Impulse>): seq<LatchAction> {
    if impulses == [] then []
    else
      var front := impulses[..|impulses| - 1];
      AllRecorded(front) + Recorded(Drive(front), impulses[|impulses| - 1])
  }

  /** The router call an impulse comes to is the same on both sides. */
  lemma SameCall(g: Gated, i: Impulse)
    requires Agrees(g.keyboards.devices, g.keyboards.world.router)
    ensures var xs, actions := Stimuli(g, i), Recorded(g, i);
            var here := if xs == [] then None else Induced(g.keyboards, xs[0]);
            var there := if actions == [] then [] else RecoveryGate.Induced(LatchOf(g), actions[0]);
            && there == (if here.Some? then [here.value] else [])
  {
    hide Agrees;
    if i.Happens? && Allowed(i.stimulus) {
      InducedOrdinary(g.keyboards, i.stimulus);
    }
  }

  lemma InducedOrdinary(k: Keyboards, x: Stimulus)
    requires Agrees(k.devices, k.world.router) && Allowed(x)
    ensures Induced(k, x).Some? ==> OutputRecovery.Ordinary(Induced(k, x).value)
  {
    hide Agrees;
  }

  lemma PlayExtend(xs: seq<Stimulus>, x: Stimulus)
    ensures Play(xs + [x]) == Advance(Play(xs), x)
    ensures Calls(xs + [x]) == Calls(xs) + (if Induced(Play(xs), x).Some? then [Induced(Play(xs), x).value] else [])
  {
    assert (xs + [x])[..|xs|] == xs;
  }

  lemma GateExtend(actions: seq<LatchAction>, a: LatchAction)
    ensures OutputRecovery.LatchRun(actions + [a]) == OutputRecovery.LatchStep(OutputRecovery.LatchRun(actions), a)
    ensures RecoveryGate.RouterCalls(actions + [a])
         == RecoveryGate.RouterCalls(actions) + RecoveryGate.Induced(OutputRecovery.LatchRun(actions), a)
  {
    assert (actions + [a])[..|actions|] == actions;
  }

  lemma KeyboardsStep(g: Gated, i: Impulse, front: seq<Stimulus>)
    requires Agrees(g.keyboards.devices, g.keyboards.world.router) && g.keyboards == Play(front)
    ensures StepOf(g, i).keyboards == Play(front + Stimuli(g, i))
  {
    hide Agrees, Advance, Stimuli;
    var xs := Stimuli(g, i);
    if xs == [] {
      assert front + xs == front;
    } else {
      assert xs == [xs[0]];
      PlayExtend(front, xs[0]);
    }
  }

  lemma CallsStep(g: Gated, i: Impulse, xs: seq<Stimulus>, actions: seq<LatchAction>)
    requires Agrees(g.keyboards.devices, g.keyboards.world.router) && g.keyboards == Play(xs)
    requires LatchOf(g) == OutputRecovery.LatchRun(actions) && RecoveryGate.RouterCalls(actions) == Calls(xs)
    ensures RecoveryGate.RouterCalls(actions + Recorded(g, i)) == Calls(xs + Stimuli(g, i))
  {
    hide Agrees, Induced, Stimuli, Recorded, RecoveryGate.Induced, RecoveryGate.RouterCalls, Calls, Play;
    var more, told := Stimuli(g, i), Recorded(g, i);
    SameCall(g, i);
    if more == [] {
      assert xs + more == xs;
    } else {
      assert more == [more[0]];
      PlayExtend(xs, more[0]);
    }
    if told == [] {
      assert actions + told == actions;
    } else {
      assert told == [told[0]];
      GateExtend(actions, told[0]);
    }
  }

  lemma RecoveryStep(g: Gated, i: Impulse, actions: seq<LatchAction>)
    requires Agrees(g.keyboards.devices, g.keyboards.world.router)
    requires LatchOf(g) == OutputRecovery.LatchRun(actions)
    ensures StepOf(g, i).recovery == OutputRecovery.LatchRun(actions + Recorded(g, i)).recovery
  {
    hide Agrees, Advance, Stimuli, Recorded, OutputRecovery.LatchStep;
    var told := Recorded(g, i);
    if told == [] {
      assert actions + told == actions;
    } else {
      assert told == [told[0]];
      GateExtend(actions, told[0]);
    }
  }

  /** One system, seen from its two sides. */
  lemma {:induction false} TwoSides(impulses: seq<Impulse>)
    ensures var g := Drive(impulses);
            && g.keyboards == Play(AllStimuli(impulses))
            && LatchOf(g) == OutputRecovery.LatchRun(AllRecorded(impulses))
            && RecoveryGate.RouterCalls(AllRecorded(impulses)) == Calls(AllStimuli(impulses))
    decreases |impulses|
  {
    hide Agrees, StepOf, Stimuli, Recorded, Play, Calls, RecoveryGate.RouterCalls, OutputRecovery.LatchRun;
    if impulses == [] {
      StartsAlike();
    } else {
      var front, i := impulses[..|impulses| - 1], impulses[|impulses| - 1];
      TwoSides(front);
      var g := Drive(front);
      var xs, actions := AllStimuli(front), AllRecorded(front);
      KeyboardsStep(g, i, xs);
      CallsStep(g, i, xs, actions);
      RecoveryStep(g, i, actions);
      CallsAreTheRun(xs + Stimuli(g, i));
      RecoveryGate.GateIsTheRun(actions + Recorded(g, i));
    }
  }

  lemma StartsAlike()
    ensures OutputRecovery.LatchRun([]) == OutputRecovery.Latch(Play([]).world.router, OutputRecovery.Fresh())
    ensures RecoveryGate.RouterCalls([]) == Calls([])
  {
  }

  /** Conservation for the whole system, with no condition on what happens to it. */
  lemma WholeSystemConservation(impulses: seq<Impulse>)
    ensures var w := Drive(impulses).keyboards.world;
            !w.router.fatal ==> ClientView.View({}, w.log) == w.router.FocusEnterKeys()
  {
    TwoSides(impulses);
    GatedSystemConservation(AllStimuli(impulses), AllRecorded(impulses));
  }
}
