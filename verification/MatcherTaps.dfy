/** When the matcher fires, in terms of what happened: over every run each tap machine is the tap state machine run
    over what its device's events amount to, so that a tap rule fires at the end of a run of clean taps of its
    length and a hotkey at its press. */
module MatcherTaps {
  import opened Wrappers
  import opened KeyEvents
  import opened TapMachine
  import opened TapHistory
  import opened Matching
  import opened MatcherRuns

  // ---- what an event amounts to -----------------------------------------------------------

  /** The event says whether a modifier is down; the lock state of a key without a bit does not. */
  predicate Tells(e: KeyEvent) {
    IsModifier(e.code) && !(e.kind == ModifiersChanged && ModifierBit(e.code) == {})
  }

  predicate SaysDown(e: KeyEvent) {
    if e.kind == ModifiersChanged then ModifierBit(e.code) <= e.mods else e.kind == KeyDown
  }

  /** What the tap machines of a device feel of its event: a modifier's transition, or another key when a second
      modifier goes down or a plain key does whose press nobody has latched. */
  function Feels(e: KeyEvent, now: nat, wasDown: bool, otherDown: bool, latched: bool): (h: seq<Stimulus>)
    ensures |h| <= 1
  {
    if Tells(e) then
      if SaysDown(e) && !wasDown && otherDown then [OtherKey]
      else [Transition(e.code, wasDown, SaysDown(e), e.mods, now)]
    else if !IsModifier(e.code) && e.kind == KeyDown && !latched then [OtherKey]
    else []
  }

  predicate Recorded(state: map<Press, bool>, d: DeviceId, k: KeyCode) {
    (d, k) in state && state[(d, k)]
  }

  ghost predicate OtherRecorded(state: map<Press, bool>, d: DeviceId, k: KeyCode) {
    exists j :: j != k && Recorded(state, d, j)
  }

  predicate Latched(m: Matcher, d: DeviceId, k: KeyCode) {
    (d, k) in m.swallowed || (d, k) in m.forwarded
  }

  ghost function FeltIn(m: Matcher, d: DeviceId, e: KeyEvent, now: nat): (h: seq<Stimulus>)
    ensures |h| <= 1
  {
    Feels(e, now, Recorded(m.modifierState, d, e.code), OtherRecorded(m.modifierState, d, e.code),
          Latched(m, d, e.code))
  }

  function Moved(fsms: seq<Tap>, h: seq<Stimulus>): (moved: seq<Tap>)
    requires |h| <= 1
    ensures |moved| == |fsms|
    ensures forall i :: 0 <= i < |fsms| ==> moved[i] == if h == [] then fsms[i] else Step(fsms[i], h[0]).0
  {
    if h == [] then fsms else seq(|fsms|, i requires 0 <= i < |fsms| => Step(fsms[i], h[0]).0)
  }

  lemma OtherModifierIs(state: map<Press, bool>, d: DeviceId, k: KeyCode, down: bool)
    ensures OtherModifierDown(state[(d, k) := down], d, k) <==> OtherRecorded(state, d, k)
  {
    var after := state[(d, k) := down];
    if p :| p in after && p.0 == d && p.1 != k && after[p] { assert Recorded(state, d, p.1); }
    if j :| j != k && Recorded(state, d, j) { assert (d, j) in after; }
  }

  // ---- one event --------------------------------------------------------------------------

  /** What dispatching an event does to the rules, the recorded modifiers and the tap machines. */
  ghost predicate Felt(m: Matcher, t: Matcher, d: DeviceId, e: KeyEvent, now: nat) {
    && t.rules == m.rules
    && t.modifierState == (if Tells(e) then m.modifierState[(d, e.code) := SaysDown(e)] else m.modifierState)
    && (forall c :: c != d ==> Machines(t, c) == Machines(m, c))
    && Machines(t, d) == Moved(Machines(m, d), FeltIn(m, d, e, now))
  }

  lemma MachinesOf(m: Matcher, d: DeviceId, fsms: seq<Tap>)
    ensures var t := m.(tapFsms := m.tapFsms[d := fsms]);
            Machines(t, d) == fsms && forall c :: c != d ==> Machines(t, c) == Machines(m, c)
  {
  }

  lemma ModifierFeels(m: Matcher, d: DeviceId, e: KeyEvent, app: Option<string>, now: nat)
    requires IsModifier(e.code) && d in m.tapFsms && |m.tapFsms[d]| == |m.rules.taps|
    ensures Felt(m, MatchModifier(m, d, e, app, now).0, d, e, now)
  {
    hide IsModifier, ModifierBit, Machines, OtherModifierDown, OtherRecorded, StepTaps, Step;
    var wasDown, isDown := Recorded(m.modifierState, d, e.code), SaysDown(e);
    var fsms := m.tapFsms[d];
    MachinesOf(m, d, Moved(fsms, FeltIn(m, d, e, now)));
    MachinesOf(m, d, fsms);
    OtherModifierIs(m.modifierState, d, e.code, isDown);
    StepsAre(m.rules.taps, fsms, e.code, wasDown, isDown, e.mods, now, app);
    TaintsAre(fsms);
    assert m.tapFsms[d := fsms] == m.tapFsms;
    var t := MatchModifier(m, d, e, app, now).0;
    SameMachines(m.(tapFsms := t.tapFsms), t);
  }

  /** Only the table of machines matters, and the rules. */
  lemma SameMachines(m: Matcher, t: Matcher)
    requires t.rules == m.rules && t.tapFsms == m.tapFsms
    ensures forall c :: Machines(t, c) == Machines(m, c)
  {
  }

  lemma TaintsAre(fsms: seq<Tap>)
    ensures Taint(fsms) == Moved(fsms, [OtherKey])
  {
  }

  lemma StepsAre(rules: seq<Rule>, fsms: seq<Tap>, key: KeyCode, wasDown: bool, isDown: bool, mods: Modifiers,
                 now: nat, app: Option<string>)
    requires |fsms| == |rules|
    ensures StepTaps(rules, fsms, key, wasDown, isDown, mods, now, app).0
         == Moved(fsms, [Transition(key, wasDown, isDown, mods, now)])
  {
    hide Step, IsFirst, StepTaps;
    TapIsFirst(rules, fsms, key, wasDown, isDown, mods, now, app);
  }

  lemma PlainFeels(m: Matcher, d: DeviceId, e: KeyEvent, app: Option<string>, now: nat)
    requires !IsModifier(e.code) && d in m.tapFsms && (e.kind == KeyDown ==> !Latched(m, d, e.code))
    ensures Felt(m, MatchPlain(m, d, e, app).0, d, e, now)
  {
    hide ModifierBit, Machines, OtherRecorded, FirstHotkey, Step;
    var fsms := m.tapFsms[d];
    MachinesOf(m, d, Moved(fsms, FeltIn(m, d, e, now)));
    MachinesOf(m, d, fsms);
    TaintsAre(fsms);
    assert m.tapFsms[d := fsms] == m.tapFsms;
    var t := MatchPlain(m, d, e, app).0;
    SameMachines(m.(tapFsms := t.tapFsms), t);
  }

  /** Creating the machines of a device is no change to them. */
  lemma MachinesCreated(m: Matcher, t: Matcher, n: Matcher, d: DeviceId, e: KeyEvent, now: nat)
    requires t == m.(tapFsms := m.tapFsms[d := Machines(m, d)]) && Felt(t, n, d, e, now)
    ensures Felt(m, n, d, e, now)
  {
    hide OtherRecorded, Step, Feels;
    MachinesOf(m, d, Machines(m, d));
    hide Machines;
  }

  lemma MatchFeels(m: Matcher, d: DeviceId, e: KeyEvent, app: Option<string>, now: nat)
    requires |Machines(m, d)| == |m.rules.taps|
    requires Latched(m, d, e.code) ==> !IsModifier(e.code) && (e.kind == KeyDown ==> (d, e.code) in m.swallowed)
    ensures Felt(m, Match(m, d, e, app, now).0, d, e, now)
  {
    hide MatchModifier, MatchPlain, Machines, ModifierBit, OtherRecorded, Felt;
    if e.kind != ModifiersChanged && (d, e.code) in m.swallowed {
      NothingFelt(m, Match(m, d, e, app, now).0, d, e, now);
    } else {
      var t := m.(tapFsms := m.tapFsms[d := Machines(m, d)]);
      if IsModifier(e.code) { ModifierFeels(t, d, e, app, now); } else { PlainFeels(t, d, e, app, now); }
      MachinesCreated(m, t, Match(m, d, e, app, now).0, d, e, now);
    }
  }

  lemma NothingFelt(m: Matcher, t: Matcher, d: DeviceId, e: KeyEvent, now: nat)
    requires t.rules == m.rules && t.tapFsms == m.tapFsms && t.modifierState == m.modifierState
    requires !IsModifier(e.code) && (e.kind == KeyDown ==> Latched(m, d, e.code))
    ensures Felt(m, t, d, e, now)
  {
    hide Machines, ModifierBit, OtherRecorded;
    SameMachines(m, t);
  }

  lemma DispatchFeels(m: Matcher, d: DeviceId, e: KeyEvent, app: Option<string>, now: nat)
    requires Consistent(m) && |Machines(m, d)| == |m.rules.taps|
    ensures Felt(m, Dispatch(m, d, e, app, now).0, d, e, now)
  {
    hide Dispatch, Match, Machines, ModifierBit, OtherRecorded, Step, Moved, Feels;
    FastPathEqualsSlow(m, d, e, app, now);
    var (t, handedBack) := Reconcile(m, (d, e.code), e.kind);
    SameMachines(m, t);
    if handedBack {
      NothingFelt(m, t, d, e, now);
    } else {
      assert Latched(t, d, e.code) ==> (d, e.code) in m.swallowed || (d, e.code) in m.forwarded;
      MatchFeels(t, d, e, app, now);
    }
  }

  // ---- what happened so far ---------------------------------------------------------------

  /** The rules in force: those of the last reload. */
  function RulesNow(rules: RuleSet, ops: seq<Op>): RuleSet {
    if |ops| == 0 then rules
    else if ops[|ops| - 1].Reload? then ops[|ops| - 1].rules else RulesNow(rules, ops[..|ops| - 1])
  }

  predicate IsEvent(op: Op) { op.Event? || op.EventWithDelivery? }

  /** The operation makes the matcher forget which modifiers of a device are down, or this one. */
  predicate Forgets(op: Op, d: DeviceId, k: KeyCode) {
    || op.StreamLost? || (op.DeviceLost? && op.device == d)
    || (op.Observe? && op.device == d && op.event.code == k && op.event.kind == KeyUp)
  }

  /** A modifier is down if the last event that told, and was not forgotten, said so. */
  predicate IsDown(ops: seq<Op>, d: DeviceId, k: KeyCode) {
    if |ops| == 0 then false
    else
      var op := ops[|ops| - 1];
      if IsEvent(op) && op.device == d && op.event.code == k && Tells(op.event) then SaysDown(op.event)
      else !Forgets(op, d, k) && IsDown(ops[..|ops| - 1], d, k)
  }

  ghost predicate OtherIsDown(ops: seq<Op>, d: DeviceId, k: KeyCode) {
    exists j :: j != k && IsDown(ops, d, j)
  }

  /** The operation clears the tap machines of a device. */
  predicate Clears(op: Op, d: DeviceId) {
    || op.Reload? || op.Invalidate? || op.StreamLost? || (op.DeviceLost? && op.device == d)
    || (op.Observe? && op.device == d && op.event.kind == KeyUp)
  }

  /** What an operation adds to the history of a device's taps. */
  ghost function Adds(rules: RuleSet, ops: seq<Op>, op: Op, d: DeviceId): (h: seq<Stimulus>)
    ensures |h| <= 1
  {
    if op.Disqualify? then [OtherKey]
    else if IsEvent(op) && op.device == d then
      Feels(op.event, op.now, IsDown(ops, d, op.event.code), OtherIsDown(ops, d, op.event.code),
            Latched(MatcherRuns.Run(rules, ops), d, op.event.code))
    else []
  }

  /** Everything a device's tap machines felt since they were last cleared. */
  ghost function History(rules: RuleSet, ops: seq<Op>, d: DeviceId): seq<Stimulus> {
    if |ops| == 0 then []
    else
      var front, op := ops[..|ops| - 1], ops[|ops| - 1];
      if Clears(op, d) then [] else History(rules, front, d) + Adds(rules, front, op, d)
  }

  /** One machine for each tap rule, each with its own window. */
  function Machinery(taps: seq<Rule>, h: seq<Stimulus>): (fsms: seq<Tap>)
    ensures |fsms| == |taps|
    ensures forall i :: 0 <= i < |taps| ==> fsms[i] == TapMachine.Run(Window(taps[i]), h)
  {
    seq(|taps|, i requires 0 <= i < |taps| => TapMachine.Run(Window(taps[i]), h))
  }

  ghost predicate DownAgrees(m: Matcher, ops: seq<Op>) {
    forall d, k :: Recorded(m.modifierState, d, k) <==> IsDown(ops, d, k)
  }

  ghost predicate TapsAgree(rules: RuleSet, m: Matcher, ops: seq<Op>) {
    forall d :: Machines(m, d) == Machinery(m.rules.taps, History(rules, ops, d))
  }

  ghost predicate Remembers(rules: RuleSet, ops: seq<Op>) {
    var m := MatcherRuns.Run(rules, ops);
    m.rules == RulesNow(rules, ops) && DownAgrees(m, ops) && TapsAgree(rules, m, ops)
  }

  lemma Extend(rules: RuleSet, ops: seq<Op>, op: Op)
    ensures var more := ops + [op];
            && more[|more| - 1] == op && more[..|more| - 1] == ops
            && RulesNow(rules, more) == (if op.Reload? then op.rules else RulesNow(rules, ops))
            && (forall d :: History(rules, more, d)
                  == if Clears(op, d) then [] else History(rules, ops, d) + Adds(rules, ops, op, d))
  {
    hide Clears, Adds;
    assert (ops + [op])[..|ops|] == ops;
  }

  lemma DownExtend(ops: seq<Op>, op: Op, d: DeviceId, k: KeyCode)
    ensures IsDown(ops + [op], d, k)
         == (if IsEvent(op) && op.device == d && op.event.code == k && Tells(op.event) then SaysDown(op.event)
             else !Forgets(op, d, k) && IsDown(ops, d, k))
  {
    hide Tells, SaysDown, Forgets;
    assert (ops + [op])[..|ops|] == ops;
  }

  lemma MachineryMoves(taps: seq<Rule>, h: seq<Stimulus>, more: seq<Stimulus>)
    requires |more| <= 1
    ensures Moved(Machinery(taps, h), more) == Machinery(taps, h + more)
  {
    hide Step;
    if more == [] {
      assert h + more == h;
    } else {
      assert (h + more)[..|h|] == h && (h + more)[|h|] == more[0] && |h + more| == |h| + 1;
    }
  }

  /** The machines as they are made. */
  lemma FreshMachines(m: Matcher, d: DeviceId)
    requires d !in m.tapFsms
    ensures Machines(m, d) == Machinery(m.rules.taps, [])
  {
  }

  lemma FeltIsAdded(rules: RuleSet, ops: seq<Op>, op: Op)
    requires IsEvent(op) && DownAgrees(MatcherRuns.Run(rules, ops), ops)
    ensures FeltIn(MatcherRuns.Run(rules, ops), op.device, op.event, op.now) == Adds(rules, ops, op, op.device)
  {
    hide Feels, IsDown, Recorded, MatcherRuns.Run;
    var state, d, k := MatcherRuns.Run(rules, ops).modifierState, op.device, op.event.code;
    if j :| j != k && Recorded(state, d, j) { assert IsDown(ops, d, j); }
    if j :| j != k && IsDown(ops, d, j) { assert Recorded(state, d, j); }
  }

  lemma EventDown(m: Matcher, t: Matcher, ops: seq<Op>, op: Op)
    requires IsEvent(op) && DownAgrees(m, ops) && Felt(m, t, op.device, op.event, op.now)
    ensures DownAgrees(t, ops + [op])
  {
    hide Tells, SaysDown, Machines, FeltIn;
    forall d, k ensures Recorded(t.modifierState, d, k) <==> IsDown(ops + [op], d, k) {
      DownExtend(ops, op, d, k);
      assert Recorded(m.modifierState, d, k) <==> IsDown(ops, d, k);
    }
  }

  lemma EventTaps(rules: RuleSet, ops: seq<Op>, op: Op, t: Matcher)
    requires IsEvent(op) && Remembers(rules, ops)
    requires Felt(MatcherRuns.Run(rules, ops), t, op.device, op.event, op.now)
    ensures TapsAgree(rules, t, ops + [op])
  {
    hide MatcherRuns.Run, FeltIn, Machines, DownAgrees, Adds, History, Moved, Machinery;
    var m := MatcherRuns.Run(rules, ops);
    Extend(rules, ops, op);
    FeltIsAdded(rules, ops, op);
    forall d ensures Machines(t, d) == Machinery(t.rules.taps, History(rules, ops + [op], d)) {
      ElsewhereNothing(rules, ops, op, d);
      MachineryMoves(m.rules.taps, History(rules, ops, d), Adds(rules, ops, op, d));
      assert History(rules, ops, d) + [] == History(rules, ops, d);
    }
  }

  lemma ElsewhereNothing(rules: RuleSet, ops: seq<Op>, op: Op, d: DeviceId)
    ensures IsEvent(op) && op.device != d ==> Adds(rules, ops, op, d) == []
    ensures op.Report? ==> Adds(rules, ops, op, d) == []
  {
  }

  lemma EventRemembers(rules: RuleSet, ops: seq<Op>, op: Op)
    requires IsEvent(op) && Remembers(rules, ops)
    ensures Remembers(rules, ops + [op])
  {
    hide MatcherRuns.Run, Dispatch, Felt, DownAgrees;
    var m := MatcherRuns.Run(rules, ops);
    AlwaysConsistent(rules, ops);
    assert Machines(m, op.device) == Machinery(m.rules.taps, History(rules, ops, op.device));
    DispatchFeels(m, op.device, op.event, op.app, op.now);
    RunExtend(rules, ops, op);
    var t := MatcherRuns.Run(rules, ops + [op]);
    TokensAside(m, Dispatch(m, op.device, op.event, op.app, op.now).0, t, op.device, op.event, op.now);
    EventDown(m, t, ops, op);
    EventTaps(rules, ops, op, t);
    Extend(rules, ops, op);
    RulesKept(m, t, op.device, op.event, op.now);
  }

  lemma RulesKept(m: Matcher, t: Matcher, d: DeviceId, e: KeyEvent, now: nat)
    requires Felt(m, t, d, e, now)
    ensures t.rules == m.rules
  {
  }

  /** A token is not felt. */
  lemma TokensAside(m: Matcher, t: Matcher, n: Matcher, d: DeviceId, e: KeyEvent, now: nat)
    requires Felt(m, t, d, e, now)
    requires n.rules == t.rules && n.tapFsms == t.tapFsms && n.modifierState == t.modifierState
    ensures Felt(m, n, d, e, now)
  {
    hide Machines, FeltIn, Moved;
    SameMachines(t, n);
  }

  // ---- every other operation --------------------------------------------------------------

  lemma OtherDown(m: Matcher, ops: seq<Op>, op: Op)
    requires !IsEvent(op) && DownAgrees(m, ops)
    ensures DownAgrees(Perform(m, op).state, ops + [op])
  {
    hide Tells, SaysDown;
    var t := Perform(m, op).state;
    forall d, k ensures Recorded(t.modifierState, d, k) <==> IsDown(ops + [op], d, k) {
      DownExtend(ops, op, d, k);
      assert Recorded(m.modifierState, d, k) <==> IsDown(ops, d, k);
    }
  }

  lemma OtherMachines(m: Matcher, op: Op, d: DeviceId)
    requires !IsEvent(op)
    ensures var t := Perform(m, op).state;
            && (Clears(op, d) ==> d !in t.tapFsms)
            && (!Clears(op, d) && !op.Disqualify? ==> t.rules == m.rules && Machines(t, d) == Machines(m, d))
            && (op.Disqualify? ==> Machines(t, d) == if d in m.tapFsms then Taint(m.tapFsms[d]) else Machines(m, d))
  {
  }

  /** Disqualifying machines nobody has used changes nothing. */
  lemma UnusedTainted(taps: seq<Rule>, h: seq<Stimulus>)
    requires Machinery(taps, h) == Machinery(taps, [])
    ensures Machinery(taps, h + [OtherKey]) == Machinery(taps, [])
  {
    MachineryMoves(taps, h, [OtherKey]);
  }

  lemma OtherTaps(rules: RuleSet, ops: seq<Op>, op: Op, d: DeviceId)
    requires !IsEvent(op) && Remembers(rules, ops)
    ensures var t := Perform(MatcherRuns.Run(rules, ops), op).state;
            Machines(t, d) == Machinery(t.rules.taps, History(rules, ops + [op], d))
  {
    hide MatcherRuns.Run, DownAgrees, History, Step;
    var m := MatcherRuns.Run(rules, ops);
    var t := Perform(m, op).state;
    var h := History(rules, ops, d);
    Extend(rules, ops, op);
    OtherMachines(m, op, d);
    assert Machines(m, d) == Machinery(m.rules.taps, h);
    hide Perform, Machines;
    if Clears(op, d) {
      FreshMachines(t, d);
    } else if op.Disqualify? {
      DisqualifiedTaps(m, t, h, d);
    } else {
      assert h + [] == h;
    }
  }

  lemma DisqualifiedTaps(m: Matcher, t: Matcher, h: seq<Stimulus>, d: DeviceId)
    requires Machines(m, d) == Machinery(m.rules.taps, h) && t.rules == m.rules
    requires Machines(t, d) == if d in m.tapFsms then Taint(m.tapFsms[d]) else Machines(m, d)
    ensures Machines(t, d) == Machinery(m.rules.taps, h + [OtherKey])
  {
    if d in m.tapFsms {
      TaintsAre(m.tapFsms[d]);
      MachineryMoves(m.rules.taps, h, [OtherKey]);
    } else {
      FreshMachines(m, d);
      UnusedTainted(m.rules.taps, h);
    }
  }

  lemma OtherRemembers(rules: RuleSet, ops: seq<Op>, op: Op)
    requires !IsEvent(op) && Remembers(rules, ops)
    ensures Remembers(rules, ops + [op])
  {
    hide MatcherRuns.Run, DownAgrees, History, Machines, Machinery;
    var m := MatcherRuns.Run(rules, ops);
    RunExtend(rules, ops, op);
    Extend(rules, ops, op);
    OtherDown(m, ops, op);
    forall d ensures Machines(Perform(m, op).state, d)
                  == Machinery(Perform(m, op).state.rules.taps, History(rules, ops + [op], d)) {
      OtherTaps(rules, ops, op, d);
    }
  }

  /** Over every run, whatever is reloaded, invalidated, disqualified, observed, lost or reported in between: each
      tap machine of each device is the tap state machine run over what the device's events amounted to since the
      machines were last cleared, and a modifier counts as down exactly if the last event that told said so. */
  lemma {:induction false} MachinesFollowEvents(rules: RuleSet, ops: seq<Op>)
    ensures Remembers(rules, ops)
    decreases |ops|
  {
    if |ops| == 0 {
      forall d { FreshMachines(NewMatcher(rules), d); }
    } else {
      var front, op := ops[..|ops| - 1], ops[|ops| - 1];
      MachinesFollowEvents(rules, front);
      if IsEvent(op) { EventRemembers(rules, front, op); } else { OtherRemembers(rules, front, op); }
      assert front + [op] == ops;
    }
  }

  // ---- when a tap fires ---------------------------------------------------------------------

  /** The last thing felt completes a clean tap of `k`, and the longest run of such taps ending there has length
      `count`, as far as the counter goes. */
  ghost predicate EndsRun(within: nat, h: seq<Stimulus>, k: KeyCode, count: nat) {
    |h| > 0 && exists n :: LongestRun(within, h, |h| - 1, k, n) && count == Saturated(n)
  }

  /** A rule without a list of applications applies everywhere, another one where a listed one has the focus. */
  ghost predicate InScope(rule: Rule, app: Option<string>) {
    rule.whenAppIn.Some? ==> exists i :: 0 <= i < |rule.whenAppIn.value| && app == Some(rule.whenAppIn.value[i])
  }

  lemma ScopeIs(rule: Rule, app: Option<string>)
    ensures ScopeMatches(rule, app) <==> InScope(rule, app)
  {
  }

  ghost predicate TapFires(rule: Rule, h: seq<Stimulus>, app: Option<string>) {
    && rule.trigger.TapTrigger? && InScope(rule, app)
    && EndsRun(rule.trigger.within, h, rule.trigger.tap, rule.trigger.count)
  }

  /** The tap rule of least index that fires. */
  ghost predicate TapFiresFirst(taps: seq<Rule>, h: seq<Stimulus>, app: Option<string>, i: int) {
    0 <= i < |taps| && TapFires(taps[i], h, app) && forall j :: 0 <= j < i ==> !TapFires(taps[j], h, app)
  }

  lemma LongestIsUnique(within: nat, h: seq<Stimulus>, i: int, k: KeyCode, n: nat, r: nat)
    requires LongestRun(within, h, i, k, n) && LongestRun(within, h, i, k, r)
    ensures n == r
  {
    hide RunOfTaps;
  }

  lemma NoRunWithoutTap(within: nat, h: seq<Stimulus>, i: int, k: KeyCode)
    requires !IsTap(h, i, k)
    ensures forall n :: !LongestRun(within, h, i, k, n)
  {
    hide IsTap, Linked;
  }

  lemma ReportedIsRun(within: nat, h: seq<Stimulus>, k: KeyCode, count: nat)
    requires |h| > 0
    ensures TapMachine.Report(within, h) == Tapped(k, count) <==> EndsRun(within, h, k, count)
  {
    hide LongestRun, IsTap, TapMachine.Report;
    ReportMeansRun(within, h, k);
    var i := |h| - 1;
    if IsTap(h, i, k) {
      var r :| LongestRun(within, h, i, k, r) && TapMachine.Report(within, h) == Tapped(k, Saturated(r));
      forall n | LongestRun(within, h, i, k, n) ensures n == r { LongestIsUnique(within, h, i, k, n, r); }
    } else {
      NoRunWithoutTap(within, h, i, k);
    }
  }

  lemma FiresExactly(rule: Rule, h: seq<Stimulus>, app: Option<string>)
    requires |h| > 0
    ensures TapMatches(rule, TapMachine.Report(Window(rule), h), app) <==> TapFires(rule, h, app)
  {
    hide EndsRun, TapMachine.Report, ScopeMatches, InScope;
    ScopeIs(rule, app);
    if rule.trigger.TapTrigger? { ReportedIsRun(rule.trigger.within, h, rule.trigger.tap, rule.trigger.count); }
  }

  lemma HitsAreFires(taps: seq<Rule>, h: seq<Stimulus>, e: Stimulus, app: Option<string>, i: int)
    requires 0 <= i < |taps|
    ensures TapHits(taps, Machinery(taps, h), e, app)[i] <==> TapFires(taps[i], h + [e], app)
  {
    hide TapFires, Step, TapMatches;
    assert (h + [e])[..|h|] == h && (h + [e])[|h|] == e;
    FiresExactly(taps[i], h + [e], app);
  }

  ghost predicate AnswersFirstTap(taps: seq<Rule>, h: seq<Stimulus>, app: Option<string>, verdict: Verdict) {
    && verdict != Swallow
    && forall a :: verdict == Replace(a) <==> exists i :: TapFiresFirst(taps, h, app, i) && taps[i].action == a
  }

  lemma FirstFires(taps: seq<Rule>, h: seq<Stimulus>, e: Stimulus, app: Option<string>, action: Option<Action>)
    requires IsFirst(taps, TapHits(taps, Machinery(taps, h), e, app), action)
    ensures AnswersFirstTap(taps, h + [e], app, if action.Some? then Replace(action.value) else Pass)
  {
    hide TapFires, Machinery;
    var hits, more := TapHits(taps, Machinery(taps, h), e, app), h + [e];
    forall i | 0 <= i < |taps| ensures hits[i] <==> TapFires(taps[i], more, app) { HitsAreFires(taps, h, e, app, i); }
    if action.Some? {
      var i :| FirstAt(hits, i) && taps[i].action == action.value;
      assert TapFiresFirst(taps, more, app, i);
      assert forall j :: TapFiresFirst(taps, more, app, j) ==> j == i;
    }
  }

  lemma NothingFires(taps: seq<Rule>, h: seq<Stimulus>, app: Option<string>)
    ensures AnswersFirstTap(taps, h + [OtherKey], app, Pass)
  {
    var more := h + [OtherKey];
    forall i | 0 <= i < |taps| ensures !TapFires(taps[i], more, app) {
      if taps[i].trigger.TapTrigger? {
        NoRunWithoutTap(taps[i].trigger.within, more, |h|, taps[i].trigger.tap);
      }
    }
  }

  lemma ModifierVerdict(m: Matcher, d: DeviceId, e: KeyEvent, app: Option<string>, now: nat, h: seq<Stimulus>)
    requires IsModifier(e.code) && !Latched(m, d, e.code) && Machines(m, d) == Machinery(m.rules.taps, h)
    ensures var verdict, felt := Match(m, d, e, app, now).1, FeltIn(m, d, e, now);
            if felt == [] then verdict == Pass else AnswersFirstTap(m.rules.taps, h + felt, app, verdict)
  {
    hide Machines, Machinery, ModifierBit, OtherModifierDown, OtherRecorded, StepTaps, AnswersFirstTap, IsFirst;
    var taps, wasDown, isDown := m.rules.taps, Recorded(m.modifierState, d, e.code), SaysDown(e);
    OtherModifierIs(m.modifierState, d, e.code, isDown);
    NothingFires(taps, h, app);
    TapIsFirst(taps, Machinery(taps, h), e.code, wasDown, isDown, e.mods, now, app);
    var action := StepTaps(taps, Machinery(taps, h), e.code, wasDown, isDown, e.mods, now, app).1;
    FirstFires(taps, h, Transition(e.code, wasDown, isDown, e.mods, now), app, action);
  }

  lemma UnlatchedDispatch(m: Matcher, d: DeviceId, e: KeyEvent, app: Option<string>, now: nat)
    requires Consistent(m) && !Latched(m, d, e.code)
    ensures var t := Reconcile(m, (d, e.code), e.kind).0;
            && Dispatch(m, d, e, app, now) == Match(t, d, e, app, now) && !Latched(t, d, e.code)
            && t.rules == m.rules && t.tapFsms == m.tapFsms && t.modifierState == m.modifierState
  {
    hide Match, Dispatch;
    FastPathEqualsSlow(m, d, e, app, now);
  }

  lemma VerdictOf(m: Matcher, op: Op)
    requires IsEvent(op)
    ensures Perform(m, op).verdict == Some(Dispatch(m, op.device, op.event, op.app, op.now).1)
  {
    hide Dispatch;
  }

  /** Over every run: a modifier event is answered with the action of the first tap rule, in scope, whose key and
      count are those of the longest run of clean taps it ends, and passes if there is none. */
  lemma TapFiresExactly(rules: RuleSet, ops: seq<Op>, op: Op)
    requires IsEvent(op) && IsModifier(op.event.code)
    ensures var verdict := Perform(MatcherRuns.Run(rules, ops), op).verdict;
            && verdict.Some?
            && if Adds(rules, ops, op, op.device) == [] then verdict.value == Pass
               else AnswersFirstTap(RulesNow(rules, ops).taps, History(rules, ops + [op], op.device), op.app,
                                    verdict.value)
  {
    hide MatcherRuns.Run, Perform, Dispatch, Match, Machines, Machinery, FeltIn, Adds, History, AnswersFirstTap,
         Reconcile;
    var m, d, e := MatcherRuns.Run(rules, ops), op.device, op.event;
    MachinesFollowEvents(rules, ops);
    AlwaysConsistent(rules, ops);
    FeltIsAdded(rules, ops, op);
    Extend(rules, ops, op);
    UnlatchedDispatch(m, d, e, op.app, op.now);
    var t := Reconcile(m, (d, e.code), e.kind).0;
    SameMachines(m, t);
    SameFelt(m, t, d, e, op.now);
    ModifierVerdict(t, d, e, op.app, op.now, History(rules, ops, d));
    VerdictOf(m, op);
  }

  lemma SameFelt(m: Matcher, t: Matcher, d: DeviceId, e: KeyEvent, now: nat)
    requires t.modifierState == m.modifierState && Latched(t, d, e.code) == Latched(m, d, e.code)
    ensures FeltIn(t, d, e, now) == FeltIn(m, d, e, now)
  {
  }

  // ---- when a hotkey fires -------------------------------------------------------------------

  ghost predicate HotkeyApplies(rule: Rule, e: KeyEvent, app: Option<string>) {
    rule.trigger.Hotkey? && rule.trigger.key == e.code && rule.trigger.mods <= e.mods && InScope(rule, app)
  }

  ghost predicate HotkeyFirst(hotkeys: seq<Rule>, e: KeyEvent, app: Option<string>, i: int) {
    0 <= i < |hotkeys| && HotkeyApplies(hotkeys[i], e, app)
    && forall j :: 0 <= j < i ==> !HotkeyApplies(hotkeys[j], e, app)
  }

  ghost predicate AnswersFirstHotkey(hotkeys: seq<Rule>, e: KeyEvent, app: Option<string>, verdict: Verdict) {
    && verdict != Swallow
    && forall a :: verdict == Replace(a) <==> exists i :: HotkeyFirst(hotkeys, e, app, i) && hotkeys[i].action == a
  }

  lemma FirstHotkeyAnswers(hotkeys: seq<Rule>, e: KeyEvent, app: Option<string>)
    requires e.kind == KeyDown
    ensures var action := FirstHotkey(hotkeys, e, app);
            AnswersFirstHotkey(hotkeys, e, app, if action.Some? then Replace(action.value) else Pass)
  {
    hide FirstHotkey;
    HotkeyIsFirst(hotkeys, e, app);
    var hits, action := HotkeyHits(hotkeys, e, app), FirstHotkey(hotkeys, e, app);
    forall i | 0 <= i < |hits| ensures hits[i] == HotkeyApplies(hotkeys[i], e, app) { ScopeIs(hotkeys[i], app); }
    if action.Some? {
      var i :| FirstAt(hits, i) && hotkeys[i].action == action.value;
      assert HotkeyFirst(hotkeys, e, app, i);
      assert forall j :: HotkeyFirst(hotkeys, e, app, j) ==> j == i;
    }
  }

  lemma PlainVerdict(m: Matcher, d: DeviceId, e: KeyEvent, app: Option<string>, now: nat)
    requires !IsModifier(e.code) && !Latched(m, d, e.code)
    ensures var verdict := Match(m, d, e, app, now).1;
            if e.kind == KeyDown then AnswersFirstHotkey(m.rules.hotkeys, e, app, verdict) else verdict == Pass
  {
    hide Machines, FirstHotkey, AnswersFirstHotkey, Taint;
    if e.kind == KeyDown { FirstHotkeyAnswers(m.rules.hotkeys, e, app); }
  }

  lemma LatchedVerdict(m: Matcher, d: DeviceId, e: KeyEvent, app: Option<string>, now: nat)
    requires Consistent(m) && Latched(m, d, e.code) && e.kind != ModifiersChanged
    ensures Dispatch(m, d, e, app, now).1 == if (d, e.code) in m.swallowed then Swallow else Pass
  {
    hide MatchModifier, MatchPlain, Dispatch;
    FastPathEqualsSlow(m, d, e, app, now);
  }

  /** Over every run: a press nobody has latched is answered with the action of the first hotkey that applies in
      scope, and passes if there is none; a consumed press is swallowed at its repeats and release, one handed back
      passes, and nothing else a plain key does is answered otherwise than by passing it. */
  lemma HotkeyFiresExactly(rules: RuleSet, ops: seq<Op>, op: Op)
    requires IsEvent(op) && !IsModifier(op.event.code)
    ensures var m, e := MatcherRuns.Run(rules, ops), op.event;
            var verdict := Perform(m, op).verdict;
            && verdict.Some?
            && if e.kind != ModifiersChanged && Latched(m, op.device, e.code)
               then verdict.value == if (op.device, e.code) in m.swallowed then Swallow else Pass
               else if e.kind == KeyDown then AnswersFirstHotkey(RulesNow(rules, ops).hotkeys, e, op.app, verdict.value)
               else verdict.value == Pass
  {
    hide MatcherRuns.Run, Perform, Dispatch, Match, DownAgrees, TapsAgree, AnswersFirstHotkey;
    var m, d, e := MatcherRuns.Run(rules, ops), op.device, op.event;
    MachinesFollowEvents(rules, ops);
    AlwaysConsistent(rules, ops);
    VerdictOf(m, op);
    if e.kind == ModifiersChanged {
      ChangedPlain(m, d, e, op.app, op.now);
    } else if Latched(m, d, e.code) {
      LatchedVerdict(m, d, e, op.app, op.now);
    } else {
      UnlatchedDispatch(m, d, e, op.app, op.now);
      PlainVerdict(Reconcile(m, (d, e.code), e.kind).0, d, e, op.app, op.now);
    }
  }

  lemma ChangedPlain(m: Matcher, d: DeviceId, e: KeyEvent, app: Option<string>, now: nat)
    requires Consistent(m) && e.kind == ModifiersChanged && !IsModifier(e.code)
    ensures Dispatch(m, d, e, app, now).1 == Pass
  {
    hide MatchModifier, Machines;
    FastPathEqualsSlow(m, d, e, app, now);
  }

  /** The operation ends a press: its release, seen or observed, or the loss of its device or of the stream. */
  predicate EndsPress(op: Op, d: DeviceId, k: KeyCode) {
    || (IsEvent(op) && op.device == d && op.event.code == k && op.event.kind == KeyUp)
    || Forgets(op, d, k)
  }

  /** An ended press leaves nothing behind: it is latched no more and no token of it is outstanding, so the next
      press of the key is decided afresh. */
  lemma EndedPressIsForgotten(rules: RuleSet, ops: seq<Op>, op: Op, d: DeviceId, k: KeyCode)
    requires EndsPress(op, d, k) && !IsModifier(k)
    ensures var m := MatcherRuns.Run(rules, ops + [op]); !Latched(m, d, k) && (d, k) !in m.pending
  {
    hide MatcherRuns.Run;
    RunExtend(rules, ops, op);
    AlwaysConsistent(rules, ops);
    var m := MatcherRuns.Run(rules, ops);
    if IsEvent(op) { ReleaseForgets(m, op); }
  }

  lemma ReleaseForgets(m: Matcher, op: Op)
    requires IsEvent(op) && op.event.kind == KeyUp && !IsModifier(op.event.code) && Consistent(m)
    ensures var t := Perform(m, op).state;
            !Latched(t, op.device, op.event.code) && (op.device, op.event.code) !in t.pending
  {
    hide MatchModifier, Machines;
    FastPathEqualsSlow(m, op.device, op.event, op.app, op.now);
  }

  /** Every replacement made with a delivery report expected gets a token of its own, of its very press, numbered as
      none before, and it is the outstanding one; nothing else gets any. */
  lemma ReplacementGetsToken(rules: RuleSet, ops: seq<Op>, op: Op)
    requires op.EventWithDelivery?
    ensures var m, o := MatcherRuns.Run(rules, ops), Perform(MatcherRuns.Run(rules, ops), op);
            if o.verdict.Some? && o.verdict.value.Replace?
            then o.token == Some(Token(op.device, op.event.code, m.generation + 1)) && Current(o.state, o.token.value)
            else o.token.None?
    ensures forall p :: p in MatcherRuns.Run(rules, ops).pending ==>
              MatcherRuns.Run(rules, ops).pending[p] <= MatcherRuns.Run(rules, ops).generation
  {
    hide MatcherRuns.Run, Dispatch, IsModifier;
    var m := MatcherRuns.Run(rules, ops);
    AlwaysConsistent(rules, ops);
    GenerationKept(m, op.device, op.event, op.app, op.now);
  }

  lemma GenerationKept(m: Matcher, d: DeviceId, e: KeyEvent, app: Option<string>, now: nat)
    requires Consistent(m)
    ensures Dispatch(m, d, e, app, now).0.generation == m.generation
  {
    hide Match, Dispatch;
    FastPathEqualsSlow(m, d, e, app, now);
    MatchShape(Reconcile(m, (d, e.code), e.kind).0, d, e, app, now);
  }
}
