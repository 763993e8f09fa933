/** The rule matcher on values: which presses it consumed, which of those were handed back, and the
    one-shot tokens by which a backend reports what became of a replacement. */
module Matching {
  import opened Wrappers
  import opened KeyEvents
  import opened TapMachine

  type DeviceId = nat
  type Press = (DeviceId, KeyCode)
  type Action = nat

  datatype Trigger = Hotkey(key: KeyCode, mods: Modifiers) | TapTrigger(tap: KeyCode, count: nat, within: nat)
  datatype Rule = Rule(trigger: Trigger, action: Action, whenAppIn: Option<seq<string>>)
  datatype RuleSet = RuleSet(hotkeys: seq<Rule>, taps: seq<Rule>)

  datatype Verdict = Pass | Swallow | Replace(action: Action)
  datatype Token = Token(device: DeviceId, key: KeyCode, generation: nat)
  datatype Delivery = Delivered | RejectedOriginalForwarded | Uncertain

  datatype Matcher = Matcher(
    rules: RuleSet,
    tapFsms: map<DeviceId, seq<Tap>>,
    modifierState: map<Press, bool>,
    swallowed: set<Press>, forwarded: set<Press>,
    pending: map<Press, nat>,
    active: bool, generation: nat)

  function NewMatcher(rules: RuleSet): Matcher {
    Matcher(rules, map[], map[], {}, {}, map[], false, 0)
  }

  predicate HotkeyMatches(t: Trigger, e: KeyEvent) {
    t.Hotkey? && e.kind == KeyDown && e.code == t.key && t.mods <= e.mods
  }

  predicate ScopeMatches(rule: Rule, app: Option<string>) {
    rule.whenAppIn.None? || (app.Some? && app.value in rule.whenAppIn.value)
  }

  /** The first hotkey rule that applies. */
  function FirstHotkey(rules: seq<Rule>, e: KeyEvent, app: Option<string>): Option<Action> {
    if |rules| == 0 then None
    else if HotkeyMatches(rules[0].trigger, e) && ScopeMatches(rules[0], app) then Some(rules[0].action)
    else FirstHotkey(rules[1..], e, app)
  }

  /** The action is that of the rule of least index among the hits, if there is one. */
  ghost predicate IsFirst(rules: seq<Rule>, hits: seq<bool>, action: Option<Action>)
    requires |hits| <= |rules|
  {
    match action
    case None => forall i :: 0 <= i < |hits| ==> !hits[i]
    case Some(a) => exists i :: FirstAt(hits, i) && rules[i].action == a
  }

  ghost predicate FirstAt(hits: seq<bool>, i: int) {
    0 <= i < |hits| && hits[i] && forall j :: 0 <= j < i ==> !hits[j]
  }

  function HotkeyHits(rules: seq<Rule>, e: KeyEvent, app: Option<string>): (hits: seq<bool>)
    ensures |hits| == |rules|
    ensures forall i :: 0 <= i < |hits| ==>
        hits[i] == (HotkeyMatches(rules[i].trigger, e) && ScopeMatches(rules[i], app))
  {
    seq(|rules|, i requires 0 <= i < |rules| => HotkeyMatches(rules[i].trigger, e) && ScopeMatches(rules[i], app))
  }

  lemma FirstOfRest(rules: seq<Rule>, hits: seq<bool>, action: Option<Action>)
    requires 0 < |hits| <= |rules| && !hits[0] && IsFirst(rules[1..], hits[1..], action)
    ensures IsFirst(rules, hits, action)
  {
    if action.Some? {
      var i :| FirstAt(hits[1..], i) && rules[1..][i].action == action.value;
      forall j | 0 <= j < i + 1 ensures !hits[j] {
        if j > 0 { assert !hits[1..][j - 1]; }
      }
      assert FirstAt(hits, i + 1);
    } else {
      forall i | 0 <= i < |hits| ensures !hits[i] {
        if i > 0 { assert !hits[1..][i - 1]; }
      }
    }
  }

  /** The hotkey that fires is the rule of least index that matches in scope. */
  lemma {:induction false} HotkeyIsFirst(rules: seq<Rule>, e: KeyEvent, app: Option<string>)
    ensures IsFirst(rules, HotkeyHits(rules, e, app), FirstHotkey(rules, e, app))
  {
    hide HotkeyMatches, ScopeMatches;
    var hits := HotkeyHits(rules, e, app);
    if |rules| != 0 {
      if hits[0] {
        assert FirstAt(hits, 0);
      } else {
        HotkeyIsFirst(rules[1..], e, app);
        assert hits[1..] == HotkeyHits(rules[1..], e, app);
        FirstOfRest(rules, hits, FirstHotkey(rules, e, app));
      }
    }
  }

  predicate TapMatches(rule: Rule, result: TapResult, app: Option<string>) {
    rule.trigger.TapTrigger? && result.Tapped? && rule.trigger.tap == result.key && rule.trigger.count == result.count
    && ScopeMatches(rule, app)
  }

  /** The tap machines of a device, created on first use. */
  function Machines(m: Matcher, device: DeviceId): seq<Tap> {
    if device in m.tapFsms then m.tapFsms[device]
    else seq(|m.rules.taps|, i requires 0 <= i < |m.rules.taps| => WithWindow(Window(m.rules.taps[i])))
  }

  function Window(rule: Rule): nat {
    if rule.trigger.TapTrigger? then rule.trigger.within else 0
  }

  function Taint(fsms: seq<Tap>): seq<Tap> {
    seq(|fsms|, i requires 0 <= i < |fsms| => OnOtherKey(fsms[i]))
  }

  /** Every machine takes the transition; the first matching tap rule's action wins. */
  function StepTaps(rules: seq<Rule>, fsms: seq<Tap>, key: KeyCode, wasDown: bool, isDown: bool, mods: Modifiers,
                    now: nat, app: Option<string>): (seq<Tap>, Option<Action>)
    decreases |fsms|
  {
    if |rules| == 0 || |fsms| == 0 then (fsms, None)
    else
      var (fsm, result) := OnTransition(fsms[0], key, wasDown, isDown, mods, now);
      var (rest, action) := StepTaps(rules[1..], fsms[1..], key, wasDown, isDown, mods, now, app);
      ([fsm] + rest, if TapMatches(rules[0], result, app) then Some(rules[0].action) else action)
  }

  function Paired(rules: seq<Rule>, fsms: seq<Tap>): (n: nat)
    ensures n <= |rules| && n <= |fsms|
  {
    if |rules| < |fsms| then |rules| else |fsms|
  }

  function TapHits(rules: seq<Rule>, fsms: seq<Tap>, e: Stimulus, app: Option<string>): (hits: seq<bool>)
    ensures |hits| == Paired(rules, fsms)
    ensures forall i :: 0 <= i < |hits| ==> hits[i] == TapMatches(rules[i], Step(fsms[i], e).1, app)
  {
    seq(Paired(rules, fsms), i requires 0 <= i < Paired(rules, fsms) => TapMatches(rules[i], Step(fsms[i], e).1, app))
  }

  /** Every machine with a rule takes the transition, and the tap that fires is the one of least index. */
  lemma {:induction false} TapIsFirst(rules: seq<Rule>, fsms: seq<Tap>, key: KeyCode, wasDown: bool, isDown: bool,
                                      mods: Modifiers, now: nat, app: Option<string>)
    ensures var e := Transition(key, wasDown, isDown, mods, now);
            var (stepped, action) := StepTaps(rules, fsms, key, wasDown, isDown, mods, now, app);
            && |stepped| == |fsms|
            && (forall i :: 0 <= i < |fsms| ==> stepped[i] == if i < |rules| then Step(fsms[i], e).0 else fsms[i])
            && IsFirst(rules, TapHits(rules, fsms, e, app), action)
    decreases |fsms|
  {
    hide TapMatches, OnTransition;
    if |rules| != 0 && |fsms| != 0 {
      var e := Transition(key, wasDown, isDown, mods, now);
      var hits := TapHits(rules, fsms, e, app);
      var action := StepTaps(rules, fsms, key, wasDown, isDown, mods, now, app).1;
      TapIsFirst(rules[1..], fsms[1..], key, wasDown, isDown, mods, now, app);
      if hits[0] {
        assert FirstAt(hits, 0);
      } else {
        assert hits[1..] == TapHits(rules[1..], fsms[1..], e, app);
        FirstOfRest(rules, hits, action);
      }
    }
  }

  function Refresh(m: Matcher): Matcher {
    m.(active := m.pending != map[] || m.forwarded != {})
  }

  /** Settles tokens an event makes stale, and answers for presses handed back. */
  function Reconcile(m: Matcher, press: Press, kind: EventKind): (Matcher, bool) {
    var stale := kind != KeyDown || (press !in m.swallowed && press !in m.forwarded);
    var t := if stale then m.(pending := m.pending - {press}) else m;
    var handedBack := kind != ModifiersChanged && press in m.forwarded;
    (Refresh(if kind == KeyUp then t.(forwarded := t.forwarded - {press}) else t), handedBack)
  }

  /** Dispatch as the daemon runs it: reconciliation only while the cached flag says it matters. */
  function Dispatch(m: Matcher, device: DeviceId, e: KeyEvent, app: Option<string>, now: nat): (Matcher, Verdict) {
    if m.active then DispatchReconciled(m, device, e, app, now) else Match(m, device, e, app, now)
  }

  /** Dispatch that always reconciles. */
  function DispatchReconciled(m: Matcher, device: DeviceId, e: KeyEvent, app: Option<string>, now: nat):
      (Matcher, Verdict) {
    var (t, handedBack) := Reconcile(m, (device, e.code), e.kind);
    if handedBack then (t, Pass) else Match(t, device, e, app, now)
  }

  function Match(m: Matcher, device: DeviceId, e: KeyEvent, app: Option<string>, now: nat): (Matcher, Verdict) {
    var press := (device, e.code);
    if e.kind == KeyUp && press in m.swallowed then (m.(swallowed := m.swallowed - {press}), Swallow)
    else if e.kind == KeyDown && press in m.swallowed then (m, Swallow)
    else
      var t := m.(tapFsms := m.tapFsms[device := Machines(m, device)]);
      if IsModifier(e.code) then MatchModifier(t, device, e, app, now) else MatchPlain(t, device, e, app)
  }

  function MatchPlain(m: Matcher, device: DeviceId, e: KeyEvent, app: Option<string>): (Matcher, Verdict)
    requires device in m.tapFsms
  {
    if e.kind != KeyDown then (m, Pass)
    else
      var t := m.(tapFsms := m.tapFsms[device := Taint(m.tapFsms[device])]);
      var action := FirstHotkey(m.rules.hotkeys, e, app);
      if action.None? then (t, Pass)
      else (t.(swallowed := t.swallowed + {(device, e.code)}), Replace(action.value))
  }

  predicate OtherModifierDown(state: map<Press, bool>, device: DeviceId, code: KeyCode) {
    exists p :: p in state && p.0 == device && p.1 != code && state[p]
  }

  function MatchModifier(m: Matcher, device: DeviceId, e: KeyEvent, app: Option<string>, now: nat): (Matcher, Verdict)
    requires device in m.tapFsms
  {
    var press := (device, e.code);
    if e.kind == ModifiersChanged && ModifierBit(e.code) == {} then (m, Pass)
    else
      var wasDown := press in m.modifierState && m.modifierState[press];
      var isDown := if e.kind == ModifiersChanged then ModifierBit(e.code) <= e.mods else e.kind == KeyDown;
      var t := m.(modifierState := m.modifierState[press := isDown]);
      if isDown && !wasDown && OtherModifierDown(t.modifierState, device, e.code) then
        (t.(tapFsms := t.tapFsms[device := Taint(t.tapFsms[device])]), Pass)
      else
        var (fsms, action) := StepTaps(m.rules.taps, m.tapFsms[device], e.code, wasDown, isDown, e.mods, now, app);
        (t.(tapFsms := t.tapFsms[device := fsms]), if action.Some? then Replace(action.value) else Pass)
  }

  /** Only a replacement issues a token, and no token number is ever used twice. */
  function DispatchWithDelivery(m: Matcher, device: DeviceId, e: KeyEvent, app: Option<string>, now: nat)
    : (Matcher, Verdict, Option<Token>)
  {
    var (t, verdict) := Dispatch(m, device, e, app, now);
    if !verdict.Replace? then (t, verdict, None)
    else
      var g := t.generation + 1;
      (t.(generation := g, pending := t.pending[(device, e.code) := g], active := true), verdict,
          Some(Token(device, e.code, g)))
  }

  predicate Current(m: Matcher, token: Token) {
    (token.device, token.key) in m.pending && m.pending[(token.device, token.key)] == token.generation
  }

  function ReportDelivery(m: Matcher, token: Token, delivery: Delivery): (Matcher, bool) {
    var press := (token.device, token.key);
    if !Current(m, token) then (m, false)
    else
      var t := m.(pending := m.pending - {press});
      var back := delivery == RejectedOriginalForwarded && press in t.swallowed;
      (Refresh(if back then t.(swallowed := t.swallowed - {press}, forwarded := t.forwarded + {press}) else t), true)
  }

  function SwapRules(m: Matcher, rules: RuleSet): Matcher {
    m.(rules := rules, tapFsms := map[])
  }

  function InvalidateSpeculation(m: Matcher): Matcher {
    Refresh(m.(tapFsms := map[], pending := map[]))
  }

  function DisqualifyTaps(m: Matcher): Matcher {
    m.(tapFsms := map d | d in m.tapFsms :: Taint(m.tapFsms[d]))
  }

  function Settle(m: Matcher, device: DeviceId, e: KeyEvent): Matcher {
    if e.kind != KeyUp then m
    else
      var press := (device, e.code);
      Refresh(m.(swallowed := m.swallowed - {press}, forwarded := m.forwarded - {press}, pending := m.pending - {press},
                 modifierState := m.modifierState - {press}, tapFsms := m.tapFsms - {device}))
  }

  function Elsewhere(presses: set<Press>, device: DeviceId): set<Press> {
    set p | p in presses && p.0 != device
  }

  function ResetDevice(m: Matcher, device: DeviceId): Matcher {
    Refresh(m.(tapFsms := m.tapFsms - {device},
               modifierState := map p | p in m.modifierState && p.0 != device :: m.modifierState[p],
               swallowed := Elsewhere(m.swallowed, device), forwarded := Elsewhere(m.forwarded, device),
               pending := map p | p in m.pending && p.0 != device :: m.pending[p]))
  }

  function Reset(m: Matcher): Matcher {
    m.(tapFsms := map[], modifierState := map[], swallowed := {}, forwarded := {}, pending := map[], active := false)
  }
}
