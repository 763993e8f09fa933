/** Recovery from uncertain output. A partial emission names the client resources it may have left
    in an unknown state; the router stays latched until every one of them is gone. */
module OutputRecovery {
  import opened Routing
  import opened RouterRuns

  const TRACKED: nat := 16

  /** Sixteen slots of affected resources (zero is null) and the three flags. */
  datatype RecoveryState = RecoveryState(affected: seq<nat>, uncertain: bool, overflow: bool, freshBinding: bool)
  {
    predicate RoutesRetired() {
      uncertain && !overflow && forall i :: 0 <= i < |affected| ==> affected[i] == 0
    }

    predicate Eligible(physicalEmpty: bool, qualified: bool, unlocked: bool) {
      RoutesRetired() && freshBinding && physicalEmpty && qualified && unlocked
    }
  }

  function Fresh(): RecoveryState {
    RecoveryState(seq(TRACKED, _ => 0), false, false, false)
  }

  class Recovery {
    const affected: array<nat>
    var uncertain: bool
    var overflow: bool
    var freshBinding: bool

    ghost predicate Valid() reads affected { affected.Length == TRACKED }

    ghost function State(): RecoveryState
      reads this, affected
    {
      RecoveryState(affected[..], uncertain, overflow, freshBinding)
    }

    constructor ()
      ensures Valid() && State() == Fresh() && fresh(affected)
    {
      affected := new nat[TRACKED](_ => 0);
      uncertain, overflow, freshBinding := false, false, false;
      new;
      assert affected[..] == seq(TRACKED, _ => 0);
    }

    method Begin()
      modifies this
      ensures State() == old(State()).(uncertain := true, freshBinding := false)
    {
      uncertain, freshBinding := true, false;
    }

    /** Records a resource, or gives up for good: afterwards either the resource is recorded and
        every other record is as before, or the record has overflowed. */
    method Include(resource: nat)
      requires Valid()
      modifies this, affected
      ensures Valid() && State() == Included(old(State()), resource)
    {
      if resource == 0 { overflow := true; return; }
      var i := 0;
      while i < TRACKED
        invariant 0 <= i <= TRACKED
        invariant forall j :: 0 <= j < i ==> affected[j] != 0 && affected[j] != resource
        invariant affected[..] == old(affected[..])
      {
        if affected[i] == resource { FirstFit(affected[..], resource, i); return; }
        if affected[i] == 0 {
          FirstFit(affected[..], resource, i);
          affected[i] := resource;
          assert affected[..] == old(affected[..])[i := resource];
          return;
        }
        i := i + 1;
      }
      FirstFit(affected[..], resource, TRACKED);
      overflow := true;
    }

    method Retired(resource: nat)
      requires Valid()
      modifies this`freshBinding, affected
      ensures Valid() && State() == RetiredState(old(State()), resource)
    {
      ghost var before := State();
      var i := 0;
      while i < TRACKED
        invariant 0 <= i <= TRACKED
        invariant forall j :: 0 <= j < i ==> affected[j] == if old(affected[j]) == resource then 0 else old(affected[j])
        invariant forall j :: i <= j < TRACKED ==> affected[j] == old(affected[j])
      {
        if affected[i] == resource { affected[i] := 0; }
        i := i + 1;
      }
      freshBinding := false;
      assert affected[..] == Cleared(before.affected, resource);
    }

    method RoutesRetired() returns (retired: bool)
      requires Valid()
      ensures retired == State().RoutesRetired()
    {
      if !uncertain || overflow { return false; }
      var i := 0;
      while i < TRACKED
        invariant 0 <= i <= TRACKED && forall j :: 0 <= j < i ==> affected[j] == 0
      {
        if affected[i] != 0 { return false; }
        i := i + 1;
      }
      retired := true;
    }

    method Entered()
      requires Valid()
      modifies this
      ensures Valid() && State() == EnteredState(old(State()))
    {
      var retired := RoutesRetired();
      if retired { freshBinding := true; }
    }

    method Completed()
      modifies this
      ensures State() == old(State()).(uncertain := false, freshBinding := false)
    {
      uncertain, freshBinding := false, false;
    }
  }

  // ---- the same operations on values -------------------------------------------------

  /** The first slot that is free or already holds the resource, or the table's size. */
  function Slot(affected: seq<nat>, resource: nat): nat {
    if affected == [] then 0
    else if affected[0] == 0 || affected[0] == resource then 0
    else 1 + Slot(affected[1..], resource)
  }

  lemma {:induction false} FirstFit(affected: seq<nat>, resource: nat, n: nat)
    requires n <= |affected|
    requires forall j :: 0 <= j < n ==> affected[j] != 0 && affected[j] != resource
    requires n < |affected| ==> affected[n] == 0 || affected[n] == resource
    ensures Slot(affected, resource) == n
    decreases |affected|
  {
    if affected != [] && n > 0 { FirstFit(affected[1..], resource, n - 1); }
  }

  lemma {:induction false} SlotBounds(affected: seq<nat>, resource: nat)
    ensures Slot(affected, resource) <= |affected|
    ensures Slot(affected, resource) < |affected| ==>
              affected[Slot(affected, resource)] == 0 || affected[Slot(affected, resource)] == resource
    ensures Slot(affected, resource) == |affected| ==> resource !in affected
    decreases |affected|
  {
    if affected != [] {
      SlotBounds(affected[1..], resource);
      assert affected == [affected[0]] + affected[1..];
    }
  }

  function Included(s: RecoveryState, resource: nat): RecoveryState {
    var i := Slot(s.affected, resource);
    if resource == 0 || i >= |s.affected| then s.(overflow := true)
    else s.(affected := s.affected[i := resource])
  }

  function Cleared(affected: seq<nat>, resource: nat): seq<nat> {
    seq(|affected|, i requires 0 <= i < |affected| => if affected[i] == resource then 0 else affected[i])
  }

  function RetiredState(s: RecoveryState, resource: nat): RecoveryState {
    s.(affected := Cleared(s.affected, resource), freshBinding := false)
  }

  function EnteredState(s: RecoveryState): RecoveryState {
    if s.RoutesRetired() then s.(freshBinding := true) else s
  }

  // ---- composed with the router ------------------------------------------------------

  datatype Latch = Latch(router: RouterState, recovery: RecoveryState)

  /** A router call whose output, should it turn out uncertain, may have reached `resources` (zero
      when they cannot be named); resource destruction; an enter sent to a client; a recovery attempt. */
  datatype LatchAction =
    | Call(action: Action, resources: seq<nat>)
    | ResourceGone(resource: nat)
    | EnterSent
    | TryRecover(physicalEmpty: bool, qualified: bool, unlocked: bool)

  function IncludeAll(s: RecoveryState, resources: seq<nat>): RecoveryState
    decreases |resources|
  {
    if |resources| == 0 then s else IncludeAll(Included(s, resources[0]), resources[1..])
  }

  /** Recoveries and enters reach the router only through the two actions made for them. */
  predicate Ordinary(action: Action) {
    !action.DoRecover? && !action.DoEnter?
  }

  /** The output reports each uncertainty as it arises, whether or not the latch is already set. */
  ghost predicate BecomesUncertain(l: Latch, a: LatchAction) {
    a.Call? && Ordinary(a.action) && Uncertain(l.router, a.action)
  }

  ghost predicate Recovers(l: Latch, a: LatchAction) {
    && a.TryRecover? && l.recovery.Eligible(a.physicalEmpty, a.qualified, a.unlocked)
    && RecoverRetiredOutput(l.router, true).1
  }

  ghost function LatchStep(l: Latch, a: LatchAction): Latch {
    match a
    case Call(action, resources) =>
      if !Ordinary(action) then l
      else Latch(Apply(l.router, action).state,
                 if BecomesUncertain(l, a)
                     then IncludeAll(l.recovery.(uncertain := true, freshBinding := false), resources)
                 else l.recovery)
    case ResourceGone(resource) => l.(recovery := RetiredState(l.recovery, resource))
    case EnterSent => l.(recovery := EnteredState(l.recovery))
    case TryRecover(_, _, _) =>
      if Recovers(l, a) then Latch(RecoverRetiredOutput(l.router, true).0,
          l.recovery.(uncertain := false, freshBinding := false))
      else l
  }

  ghost function LatchRun(actions: seq<LatchAction>): Latch {
    if actions == [] then Latch(Initial(), Fresh())
    else LatchStep(LatchRun(actions[..|actions| - 1]), actions[|actions| - 1])
  }

  ghost predicate UncertainAt(actions: seq<LatchAction>, i: int) {
    0 <= i < |actions| && BecomesUncertain(LatchRun(actions[..i]), actions[i])
  }

  ghost predicate RecoversAt(actions: seq<LatchAction>, i: int) {
    0 <= i < |actions| && Recovers(LatchRun(actions[..i]), actions[i])
  }

  ghost predicate Replaces(l: Latch, a: LatchAction) {
    && a.Call? && Ordinary(a.action)
    && exists entry :: entry in Apply(l.router, a.action).entries && entry.ReplacementSent?
  }

  ghost predicate ReplacesAt(actions: seq<LatchAction>, i: int) {
    0 <= i < |actions| && Replaces(LatchRun(actions[..i]), actions[i])
  }

  // ---- the latch ---------------------------------------------------------------------

  lemma FatalSticks(s: RouterState, a: Action)
    requires s.fatal && !a.DoRecover?
    ensures Apply(s, a).state.fatal
    ensures forall entry :: entry in Apply(s, a).entries ==> !entry.ReplacementSent?
  {
    hide Apply;
    FatalExactly(s, a);
    NoReplacementWhileFatal(s, a);
  }

  lemma NoReplacementWhileFatal(s: RouterState, a: Action)
    requires s.fatal
    ensures forall entry :: entry in Apply(s, a).entries ==> !entry.ReplacementSent?
  {
    hide Add, Begin, Settlement, ProcessKey, FinishRelease, ModifierSides, KeysOwnedBy, SoleKeysIn, Quarantine;
    match a {
      case DoKey(e, ticket, reply, now, answers, admission) =>
        KeyKeeps(s, e, ticket, reply, now, answers.delivery, admission);
      case DoFinish(ticket, reply, delivered, now, answers, original) =>
        FinishKeeps(s, ticket, reply, delivered, now, answers.delivery, original);
      case _ =>
    }
  }

  lemma {:induction false} LatchedSince(actions: seq<LatchAction>, i: int)
    requires UncertainAt(actions, i)
    requires forall m :: i < m < |actions| ==> !RecoversAt(actions, m)
    ensures LatchRun(actions).router.fatal
    decreases |actions|
  {
    hide Apply, Recovers;
    var front := actions[..|actions| - 1];
    if i < |front| {
      PrefixSame(actions, |front|);
      forall m | i < m < |front| ensures !RecoversAt(front, m) { assert !RecoversAt(actions, m); }
      LatchedSince(front, i);
      assert !RecoversAt(actions, |front|);
      LatchStepSticks(LatchRun(front), actions[|front|]);
    } else {
      FatalExactly(LatchRun(front).router, actions[i].action);
    }
  }

  lemma LatchStepSticks(l: Latch, a: LatchAction)
    requires l.router.fatal && !Recovers(l, a)
    ensures LatchStep(l, a).router.fatal
  {
    if a.Call? && Ordinary(a.action) { FatalSticks(l.router, a.action); }
  }

  /** What happened at a position depends only on the actions up to it. */
  lemma PrefixSame(actions: seq<LatchAction>, n: nat)
    requires n <= |actions|
    ensures forall i :: 0 <= i < n ==> (UncertainAt(actions[..n], i) <==> UncertainAt(actions, i))
    ensures forall i :: 0 <= i < n ==> (RecoversAt(actions[..n], i) <==> RecoversAt(actions, i))
  {
    forall i | 0 <= i < n
      ensures UncertainAt(actions[..n], i) <==> UncertainAt(actions, i)
      ensures RecoversAt(actions[..n], i) <==> RecoversAt(actions, i)
    {
      assert actions[..n][..i] == actions[..i];
    }
  }

  /** After uncertain output no replacement goes out before a recovery, on any run. */
  lemma NoReplacementBeforeRecovery(actions: seq<LatchAction>, i: int, j: int)
    requires UncertainAt(actions, i) && i < j && ReplacesAt(actions, j)
    ensures exists m :: i < m < j && RecoversAt(actions, m)
  {
    hide Replaces;
    if forall m :: i < m < j ==> !RecoversAt(actions, m) {
      var front := actions[..j];
      PrefixSame(actions, j);
      hide UncertainAt, RecoversAt;
      forall m | i < m < |front| ensures !RecoversAt(front, m) { assert !RecoversAt(actions, m); }
      LatchedSince(front, i);
      LatchedNeverReplaces(LatchRun(front), actions[j]);
    }
  }

  lemma LatchedNeverReplaces(l: Latch, a: LatchAction)
    requires l.router.fatal
    ensures !Replaces(l, a)
  {
    if a.Call? && Ordinary(a.action) { FatalSticks(l.router, a.action); }
  }

  // ---- what a recovery proves --------------------------------------------------------

  predicate GoneSince(actions: seq<LatchAction>, n: int, resource: nat) {
    exists p :: n < p < |actions| && 0 <= p && actions[p] == ResourceGone(resource)
  }

  ghost predicate EnteredLast(actions: seq<LatchAction>, q: int) {
    && 0 <= q < |actions| && actions[q] == EnterSent
    && forall p :: q < p < |actions| ==> !actions[p].ResourceGone? && !UncertainAt(actions, p)
  }

  /** The resource recorded at `n` is still recorded or is gone since, unless the record overflowed. */
  ghost predicate Accounted(actions: seq<LatchAction>, n: int, resource: nat, recovery: RecoveryState) {
    recovery.overflow || (resource != 0 && (resource in recovery.affected || GoneSince(actions, n, resource)))
  }

  ghost predicate AllAccounted(actions: seq<LatchAction>) {
    forall n, r :: UncertainAt(actions, n) && r in actions[n].resources ==>
        Accounted(actions, n, r, LatchRun(actions).recovery)
  }

  ghost predicate FreshEnter(actions: seq<LatchAction>) {
    LatchRun(actions).recovery.freshBinding ==> exists q :: EnteredLast(actions, q)
  }

  lemma IncludedKeeps(s: RecoveryState, resource: nat)
    ensures var t := Included(s, resource);
            && (s.overflow ==> t.overflow)
            && (t.overflow || (resource != 0 && resource in t.affected))
            && (forall r :: r in s.affected && r != 0 ==> r in t.affected)
            && !t.freshBinding == !s.freshBinding
  {
    SlotBounds(s.affected, resource);
    var i := Slot(s.affected, resource);
    if resource != 0 && i < |s.affected| {
      forall r | r in s.affected && r != 0 ensures r in s.affected[i := resource] {
        var j :| 0 <= j < |s.affected| && s.affected[j] == r;
        assert s.affected[i := resource][i] == resource;
        if j != i { assert s.affected[i := resource][j] == r; }
      }
      assert s.affected[i := resource][i] == resource;
    }
  }

  lemma {:induction false} IncludeAllKeeps(s: RecoveryState, resources: seq<nat>)
    ensures var t := IncludeAll(s, resources);
            && (s.overflow ==> t.overflow)
            && (forall r :: r in resources ==> t.overflow || (r != 0 && r in t.affected))
            && (forall r :: r in s.affected && r != 0 ==> r in t.affected)
            && t.freshBinding == s.freshBinding
    decreases |resources|
  {
    if |resources| != 0 {
      IncludedKeeps(s, resources[0]);
      IncludeAllKeeps(Included(s, resources[0]), resources[1..]);
      assert resources == [resources[0]] + resources[1..];
    }
  }

  lemma ClearedKeeps(affected: seq<nat>, resource: nat, r: nat)
    requires r in affected && r != resource
    ensures r in Cleared(affected, resource)
  {
    var j :| 0 <= j < |affected| && affected[j] == r;
    assert Cleared(affected, resource)[j] == r;
  }

  /** One more action keeps every recorded resource accounted for. */
  lemma AccountedStep(actions: seq<LatchAction>, a: LatchAction, n: int, r: nat)
    requires 0 <= n < |actions| && Accounted(actions, n, r, LatchRun(actions).recovery)
    ensures Accounted(actions + [a], n, r, LatchStep(LatchRun(actions), a).recovery)
  {
    var l := LatchRun(actions);
    if GoneSince(actions, n, r) {
      var p :| n < p < |actions| && actions[p] == ResourceGone(r);
      assert (actions + [a])[p] == ResourceGone(r);
    }
    match a {
      case Call(action, resources) =>
        IncludeAllKeeps(l.recovery.(uncertain := true, freshBinding := false), resources);
      case ResourceGone(resource) =>
        if resource == r { assert (actions + [a])[|actions|] == ResourceGone(r); }
        else if r in l.recovery.affected { ClearedKeeps(l.recovery.affected, resource, r); }
      case _ =>
    }
  }

  lemma NewlyAccounted(actions: seq<LatchAction>, a: LatchAction, r: nat)
    requires BecomesUncertain(LatchRun(actions), a) && r in a.resources
    ensures Accounted(actions + [a], |actions|, r, LatchStep(LatchRun(actions), a).recovery)
  {
    IncludeAllKeeps(LatchRun(actions).recovery.(uncertain := true, freshBinding := false), a.resources);
  }

  lemma {:induction false} EveryResourceAccounted(actions: seq<LatchAction>)
    ensures AllAccounted(actions)
    decreases |actions|
  {
    hide LatchStep, Uncertain, Accounted;
    if actions != [] {
      var front := actions[..|actions| - 1];
      var a := actions[|actions| - 1];
      EveryResourceAccounted(front);
      PrefixSame(actions, |front|);
      assert actions == front + [a];
      forall n, r | UncertainAt(actions, n) && r in actions[n].resources
        ensures Accounted(actions, n, r, LatchRun(actions).recovery)
      {
        if n < |front| {
          assert UncertainAt(front, n);
          AccountedStep(front, a, n, r);
        } else {
          NewlyAccounted(front, a, r);
        }
      }
    }
  }

  lemma StepBinding(l: Latch, a: LatchAction)
    ensures LatchStep(l, a).recovery.freshBinding ==> a == EnterSent || l.recovery.freshBinding
    ensures BecomesUncertain(l, a) ==> !LatchStep(l, a).recovery.freshBinding
    ensures a.ResourceGone? ==> !LatchStep(l, a).recovery.freshBinding
  {
    if a.Call? { IncludeAllKeeps(l.recovery.(uncertain := true, freshBinding := false), a.resources); }
  }

  lemma JustEntered(front: seq<LatchAction>)
    ensures EnteredLast(front + [EnterSent], |front|)
  {
    hide LatchRun;
  }

  lemma StillEntered(front: seq<LatchAction>, a: LatchAction, q: int)
    requires EnteredLast(front, q) && !a.ResourceGone? && !BecomesUncertain(LatchRun(front), a)
    ensures EnteredLast(front + [a], q)
  {
    hide LatchRun, BecomesUncertain;
    var actions := front + [a];
    PrefixSame(actions, |front|);
    assert actions[..|front|] == front;
    forall p | q < p < |actions| ensures !actions[p].ResourceGone? && !UncertainAt(actions, p) {
      if p < |front| {
        assert front[p] == actions[p] && !UncertainAt(front, p);
      }
    }
  }

  lemma {:induction false} FreshBindingMeansEnter(actions: seq<LatchAction>)
    ensures FreshEnter(actions)
    decreases |actions|
  {
    hide LatchStep, BecomesUncertain, EnteredLast;
    if actions == [] {
      NothingFresh();
    } else {
      var front, a := actions[..|actions| - 1], actions[|actions| - 1];
      assert actions == front + [a];
      StepBinding(LatchRun(front), a);
      if LatchRun(actions).recovery.freshBinding {
        if a == EnterSent {
          JustEntered(front);
        } else {
          FreshBindingMeansEnter(front);
          var q :| EnteredLast(front, q);
          StillEntered(front, a, q);
        }
      }
    }
  }

  lemma NothingFresh()
    ensures FreshEnter([])
  {
  }

  /** A recovery is earned: every resource any earlier uncertain output may have reached could be
      named and is gone since, an enter was sent after the last loss and the last uncertainty, and
      the router owns nothing in an unlocked session. A record that overflowed never recovers. */
  lemma RecoveryIsEarned(actions: seq<LatchAction>, m: int)
    requires RecoversAt(actions, m)
    ensures forall n, r :: UncertainAt(actions[..m], n) && r in actions[n].resources ==>
              r != 0 && GoneSince(actions[..m], n, r)
    ensures exists q :: EnteredLast(actions[..m], q)
    ensures var l := LatchRun(actions[..m]);
            l.router.OwnershipEmpty() && !l.router.locked && !l.recovery.overflow
  {
    var before := actions[..m];
    EveryResourceAccounted(before);
    FreshBindingMeansEnter(before);
    forall n, r | UncertainAt(before, n) && r in actions[n].resources ensures r != 0 && GoneSince(before, n, r) {
      assert Accounted(before, n, r, LatchRun(before).recovery);
    }
  }

  // ---- when a recovery is granted ------------------------------------------------------

  /** Every resource an uncertain output may have reached could be named and is gone since. */
  ghost predicate AllGone(actions: seq<LatchAction>) {
    forall n, r :: UncertainAt(actions, n) && r in actions[n].resources ==> r != 0 && GoneSince(actions, n, r)
  }

  /** What a recovery takes, apart from what the compositor says of its keyboards and binding. */
  ghost predicate Earned(actions: seq<LatchAction>) {
    var l := LatchRun(actions);
    && l.router.fatal && l.router.OwnershipEmpty() && !l.router.locked && !l.recovery.overflow
    && AllGone(actions) && exists q :: EnteredLast(actions, q)
  }

  ghost predicate LatchIsUncertainty(l: Latch) {
    l.router.fatal == l.recovery.uncertain
  }

  /** Whatever is recorded was named by an uncertain output and is not gone since. */
  ghost predicate RecordedStill(actions: seq<LatchAction>, r: nat) {
    exists n :: UncertainAt(actions, n) && r in actions[n].resources && !GoneSince(actions, n, r)
  }

  ghost predicate NoStrays(actions: seq<LatchAction>) {
    forall r :: r in LatchRun(actions).recovery.affected && r != 0 ==> RecordedStill(actions, r)
  }

  lemma {:induction false} IncludeAllAdds(s: RecoveryState, resources: seq<nat>)
    ensures var t := IncludeAll(s, resources);
            t.uncertain == s.uncertain && forall r :: r in t.affected ==> r in s.affected || r in resources
    decreases |resources|
  {
    if |resources| != 0 {
      IncludeAllAdds(Included(s, resources[0]), resources[1..]);
    }
  }

  lemma UncertaintyStep(l: Latch, a: LatchAction)
    requires LatchIsUncertainty(l)
    ensures LatchIsUncertainty(LatchStep(l, a))
  {
    hide Uncertain;
    if a.Call? {
      IncludeAllAdds(l.recovery.(uncertain := true, freshBinding := false), a.resources);
      FatalExactly(l.router, a.action);
    }
  }

  lemma {:induction false} LatchMeansUncertainty(actions: seq<LatchAction>)
    ensures LatchIsUncertainty(LatchRun(actions))
    decreases |actions|
  {
    hide LatchStep;
    if actions != [] {
      LatchMeansUncertainty(actions[..|actions| - 1]);
      UncertaintyStep(LatchRun(actions[..|actions| - 1]), actions[|actions| - 1]);
    }
  }

  lemma RecordedLater(front: seq<LatchAction>, a: LatchAction, r: nat)
    requires RecordedStill(front, r) && a != ResourceGone(r)
    ensures RecordedStill(front + [a], r)
  {
    hide LatchRun, Uncertain;
    var actions := front + [a];
    var n :| UncertainAt(front, n) && r in front[n].resources && !GoneSince(front, n, r);
    PrefixSame(actions, |front|);
    assert actions[..|front|] == front;
    assert UncertainAt(actions, n) && actions[n] == front[n];
    assert forall p :: n < p < |front| && 0 <= p ==> actions[p] == front[p];
  }

  lemma NewlyRecorded(front: seq<LatchAction>, a: LatchAction, r: nat)
    requires BecomesUncertain(LatchRun(front), a) && r in a.resources
    ensures RecordedStill(front + [a], r)
  {
    hide LatchRun, Uncertain;
    assert (front + [a])[..|front|] == front;
    assert UncertainAt(front + [a], |front|);
  }

  lemma StraysStep(front: seq<LatchAction>, a: LatchAction)
    requires NoStrays(front)
    ensures NoStrays(front + [a])
  {
    hide LatchRun, Uncertain, RecordedStill;
    var l, actions := LatchRun(front), front + [a];
    LatchRunExtend(front, a);
    if a.Call? { IncludeAllAdds(l.recovery.(uncertain := true, freshBinding := false), a.resources); }
    forall r | r in LatchRun(actions).recovery.affected && r != 0 ensures RecordedStill(actions, r) {
      if r in l.recovery.affected && a != ResourceGone(r) {
        RecordedLater(front, a, r);
      } else {
        NewlyRecorded(front, a, r);
      }
    }
  }

  lemma LatchRunExtend(front: seq<LatchAction>, a: LatchAction)
    ensures LatchRun(front + [a]) == LatchStep(LatchRun(front), a)
  {
    assert (front + [a])[..|front|] == front;
  }

  lemma {:induction false} NothingStray(actions: seq<LatchAction>)
    ensures NoStrays(actions)
    decreases |actions|
  {
    hide LatchStep;
    if actions == [] {
      assert LatchRun(actions).recovery.affected == Fresh().affected;
    } else {
      var front, a := actions[..|actions| - 1], actions[|actions| - 1];
      NothingStray(front);
      StraysStep(front, a);
      assert front + [a] == actions;
    }
  }

  lemma NothingRecorded(actions: seq<LatchAction>)
    requires AllGone(actions)
    ensures forall i :: 0 <= i < |LatchRun(actions).recovery.affected| ==> LatchRun(actions).recovery.affected[i] == 0
  {
    hide LatchRun, UncertainAt, GoneSince;
    NothingStray(actions);
    var affected := LatchRun(actions).recovery.affected;
    forall i | 0 <= i < |affected| ensures affected[i] == 0 { assert affected[i] in affected; }
  }

  /** What is gone at the end was gone before an action that is no loss. */
  lemma GoneBefore(front: seq<LatchAction>, a: LatchAction)
    requires AllGone(front + [a]) && !a.ResourceGone?
    ensures AllGone(front)
  {
    hide LatchRun, Uncertain;
    var actions := front + [a];
    PrefixSame(actions, |front|);
    assert actions[..|front|] == front;
    forall n, r | UncertainAt(front, n) && r in front[n].resources ensures r != 0 && GoneSince(front, n, r) {
      assert UncertainAt(actions, n) && actions[n] == front[n];
      var p :| n < p < |actions| && actions[p] == ResourceGone(r);
      assert front[p] == ResourceGone(r);
    }
  }

  lemma EnteredBefore(front: seq<LatchAction>, a: LatchAction, q: int)
    requires EnteredLast(front + [a], q) && q < |front|
    ensures EnteredLast(front, q) && !a.ResourceGone? && !BecomesUncertain(LatchRun(front), a)
  {
    hide LatchRun, Uncertain;
    var actions := front + [a];
    PrefixSame(actions, |front|);
    assert actions[..|front|] == front && actions[|front|] == a;
    assert !UncertainAt(actions, |front|);
    forall p | q < p < |front| ensures !front[p].ResourceGone? && !UncertainAt(front, p) {
      assert front[p] == actions[p] && !UncertainAt(actions, p);
    }
  }

  lemma EnterBinds(l: Latch, a: LatchAction)
    requires LatchStep(l, a).router.fatal && LatchIsUncertainty(l) && !a.ResourceGone? && !BecomesUncertain(l, a)
    ensures var n := LatchStep(l, a);
            && l.router.fatal && n.recovery.overflow == l.recovery.overflow
            && (l.recovery.freshBinding ==> n.recovery.freshBinding)
            && (a == EnterSent && l.recovery.RoutesRetired() ==> n.recovery.freshBinding)
  {
    hide Uncertain;
    if a.Call? { FatalExactly(l.router, a.action); }
  }

  /** An enter after the last loss and the last uncertainty leaves a fresh binding. */
  lemma {:induction false} EnterLeavesFreshBinding(actions: seq<LatchAction>, q: int)
    requires EnteredLast(actions, q) && AllGone(actions)
    requires LatchRun(actions).router.fatal && !LatchRun(actions).recovery.overflow
    ensures LatchRun(actions).recovery.freshBinding
    decreases |actions|
  {
    hide LatchStep, BecomesUncertain, AllGone, EnteredLast;
    var front, a := actions[..|actions| - 1], actions[|actions| - 1];
    assert front + [a] == actions;
    LatchMeansUncertainty(front);
    EnteredIsThere(actions, q);
    if q < |front| {
      EnteredBefore(front, a, q);
      GoneBefore(front, a);
      EnterBinds(LatchRun(front), a);
      EnterLeavesFreshBinding(front, q);
    } else {
      NotUncertain(LatchRun(front), a);
      GoneBefore(front, a);
      EnterBinds(LatchRun(front), a);
      NothingRecorded(front);
    }
  }

  lemma EnteredIsThere(actions: seq<LatchAction>, q: int)
    requires EnteredLast(actions, q)
    ensures 0 <= q < |actions| && actions[q] == EnterSent
  {
  }

  lemma NotUncertain(l: Latch, a: LatchAction)
    requires a == EnterSent
    ensures !BecomesUncertain(l, a)
  {
  }

  /** Over every run a recovery attempt succeeds if and only if it is earned and the compositor says that no key is
      down, the binding is qualified and the session unlocked. */
  lemma RecoversExactly(actions: seq<LatchAction>, a: LatchAction)
    requires a.TryRecover?
    ensures Recovers(LatchRun(actions), a) <==> a.physicalEmpty && a.qualified && a.unlocked && Earned(actions)
    ensures Recovers(LatchRun(actions), a) ==>
              !LatchStep(LatchRun(actions), a).router.fatal && !LatchStep(LatchRun(actions), a).recovery.uncertain
  {
    hide LatchRun, EnteredLast, AllGone;
    var l := LatchRun(actions);
    LatchMeansUncertainty(actions);
    if Recovers(l, a) {
      RecoveredAllGone(actions, a);
    }
    if Earned(actions) {
      var q :| EnteredLast(actions, q);
      EnterLeavesFreshBinding(actions, q);
      NothingRecorded(actions);
    }
  }

  lemma RecoveredAllGone(actions: seq<LatchAction>, a: LatchAction)
    requires Recovers(LatchRun(actions), a)
    ensures AllGone(actions) && exists q :: EnteredLast(actions, q)
  {
    hide LatchRun, Uncertain;
    EveryResourceAccounted(actions);
    FreshBindingMeansEnter(actions);
    forall n, r | UncertainAt(actions, n) && r in actions[n].resources ensures r != 0 && GoneSince(actions, n, r) {
      assert Accounted(actions, n, r, LatchRun(actions).recovery);
    }
  }

  lemma {:induction false} SlotExists(affected: seq<nat>, resource: nat)
    ensures Slot(affected, resource) < |affected| <==> 0 in affected || resource in affected
    decreases |affected|
  {
    if affected != [] {
      SlotExists(affected[1..], resource);
      assert affected == [affected[0]] + affected[1..];
    }
  }

  /** The record overflows exactly on a resource that cannot be named, or a new one when no slot is free. */
  lemma OverflowsExactly(s: RecoveryState, resource: nat)
    ensures var t := Included(s, resource);
            var fits := resource != 0 && (resource in s.affected || 0 in s.affected);
            && (t.overflow <==> s.overflow || !fits) && (fits ==> resource in t.affected)
  {
    SlotExists(s.affected, resource);
    var i := Slot(s.affected, resource);
    if resource != 0 && i < |s.affected| { assert Included(s, resource).affected[i] == resource; }
  }
}
