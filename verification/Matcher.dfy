/** The matcher as the daemon keeps it: one object whose methods update its maps and sets in place,
    with the rule scans as loops. */
module RuleMatcher {
  import opened Wrappers
  import opened KeyEvents
  import opened TapMachine
  import opened Matching

  /** Scans the hotkeys for the first rule that applies. */
  method FindHotkey(rules: seq<Rule>, e: KeyEvent, app: Option<string>) returns (action: Option<Action>)
    ensures action == FirstHotkey(rules, e, app) && IsFirst(rules, HotkeyHits(rules, e, app), action)
  {
    HotkeyIsFirst(rules, e, app);
    var i := 0;
    while i < |rules|
      invariant 0 <= i <= |rules|
      invariant FirstHotkey(rules, e, app) == FirstHotkey(rules[i..], e, app)
    {
      assert rules[i..][1..] == rules[i + 1..];
      if HotkeyMatches(rules[i].trigger, e) && ScopeMatches(rules[i], app) { return Some(rules[i].action); }
      i := i + 1;
    }
    action := None;
  }

  /** The loop of `FeedTaps` has fed the first `i` machines. */
  ghost predicate Fed(rules: seq<Rule>, fsms: seq<Tap>, key: KeyCode, wasDown: bool, isDown: bool, mods: Modifiers,
                      now: nat, app: Option<string>, i: int, stepped: seq<Tap>, action: Option<Action>)
  {
    && 0 <= i <= |rules| && i <= |fsms|
    && var (rest, later) := StepTaps(rules[i..], fsms[i..], key, wasDown, isDown, mods, now, app);
       StepTaps(rules, fsms, key, wasDown, isDown, mods, now, app)
           == (stepped + rest, if action.Some? then action else later)
  }

  lemma NoneFed(rules: seq<Rule>, fsms: seq<Tap>, key: KeyCode, wasDown: bool, isDown: bool, mods: Modifiers,
                now: nat, app: Option<string>)
    ensures Fed(rules, fsms, key, wasDown, isDown, mods, now, app, 0, [], None)
  {
    hide OnTransition, TapMatches;
    assert rules[0..] == rules && fsms[0..] == fsms;
    var all := StepTaps(rules, fsms, key, wasDown, isDown, mods, now, app).0;
    assert [] + all == all;
  }

  lemma OneMoreFed(rules: seq<Rule>, fsms: seq<Tap>, key: KeyCode, wasDown: bool, isDown: bool, mods: Modifiers,
                   now: nat, app: Option<string>, i: int, stepped: seq<Tap>, action: Option<Action>)
    requires Fed(rules, fsms, key, wasDown, isDown, mods, now, app, i, stepped, action) && i < |rules| && i < |fsms|
    ensures var (fsm, result) := OnTransition(fsms[i], key, wasDown, isDown, mods, now);
            var fires := action.None? && TapMatches(rules[i], result, app);
            Fed(rules, fsms, key, wasDown, isDown, mods, now, app, i + 1, stepped + [fsm],
                if fires then Some(rules[i].action) else action)
  {
    hide OnTransition, TapMatches;
    assert rules[i..][1..] == rules[i + 1..] && fsms[i..][1..] == fsms[i + 1..];
    var fsm := OnTransition(fsms[i], key, wasDown, isDown, mods, now).0;
    var rest := StepTaps(rules[i + 1..], fsms[i + 1..], key, wasDown, isDown, mods, now, app).0;
    assert stepped + ([fsm] + rest) == stepped + [fsm] + rest;
  }

  lemma AllFed(rules: seq<Rule>, fsms: seq<Tap>, key: KeyCode, wasDown: bool, isDown: bool, mods: Modifiers,
               now: nat, app: Option<string>, i: int, stepped: seq<Tap>, action: Option<Action>)
    requires Fed(rules, fsms, key, wasDown, isDown, mods, now, app, i, stepped, action) && (i == |rules| || i == |fsms|)
    ensures StepTaps(rules, fsms, key, wasDown, isDown, mods, now, app) == (stepped + fsms[i..], action)
  {
    hide OnTransition, TapMatches;
  }

  /** Feeds every tap machine and remembers the first rule that fired. */
  method FeedTaps(rules: seq<Rule>, fsms: seq<Tap>, key: KeyCode, wasDown: bool, isDown: bool, mods: Modifiers,
                  now: nat, app: Option<string>) returns (stepped: seq<Tap>, action: Option<Action>)
    ensures (stepped, action) == StepTaps(rules, fsms, key, wasDown, isDown, mods, now, app)
    ensures IsFirst(rules, TapHits(rules, fsms, Transition(key, wasDown, isDown, mods, now), app), action)
  {
    hide IsFirst, OnTransition, TapMatches, StepTaps, Fed;
    TapIsFirst(rules, fsms, key, wasDown, isDown, mods, now, app);
    NoneFed(rules, fsms, key, wasDown, isDown, mods, now, app);
    stepped, action := [], None;
    var i := 0;
    while i < |rules| && i < |fsms|
      invariant 0 <= i <= |rules| && i <= |fsms|
      invariant Fed(rules, fsms, key, wasDown, isDown, mods, now, app, i, stepped, action)
    {
      OneMoreFed(rules, fsms, key, wasDown, isDown, mods, now, app, i, stepped, action);
      var (fsm, result) := OnTransition(fsms[i], key, wasDown, isDown, mods, now);
      if action.None? && TapMatches(rules[i], result, app) { action := Some(rules[i].action); }
      stepped := stepped + [fsm];
      i := i + 1;
    }
    AllFed(rules, fsms, key, wasDown, isDown, mods, now, app, i, stepped, action);
    stepped := stepped + fsms[i..];
  }

  class MatcherState {
    var rules: RuleSet
    var tapFsms: map<DeviceId, seq<Tap>>
    var modifierState: map<Press, bool>
    var swallowedDowns: set<Press>
    var forwardedDowns: set<Press>
    var pendingDeliveries: map<Press, nat>
    var deliveryActive: bool
    var deliveryGeneration: nat

    ghost function State(): Matcher
      reads this
    {
      Matcher(rules, tapFsms, modifierState, swallowedDowns, forwardedDowns, pendingDeliveries, deliveryActive,
          deliveryGeneration)
    }

    constructor (rules: RuleSet)
      ensures State() == NewMatcher(rules)
    {
      this.rules := rules;
      tapFsms, modifierState, swallowedDowns, forwardedDowns := map[], map[], {}, {};
      pendingDeliveries, deliveryActive, deliveryGeneration := map[], false, 0;
    }

    method RefreshDeliveryActive()
      modifies this`deliveryActive
      ensures State() == Refresh(old(State()))
    {
      deliveryActive := pendingDeliveries != map[] || forwardedDowns != {};
    }

    method ReconcileDeliveryEvent(press: Press, kind: EventKind) returns (forwarded: bool)
      modifies this`pendingDeliveries, this`forwardedDowns, this`deliveryActive
      ensures (State(), forwarded) == Reconcile(old(State()), press, kind)
    {
      if kind != KeyDown || (press !in swallowedDowns && press !in forwardedDowns) {
        pendingDeliveries := pendingDeliveries - {press};
      }
      forwarded := kind != ModifiersChanged && press in forwardedDowns;
      if kind == KeyUp { forwardedDowns := forwardedDowns - {press}; }
      RefreshDeliveryActive();
    }

    method DispatchDevice(device: DeviceId, e: KeyEvent, app: Option<string>, now: nat) returns (verdict: Verdict)
      modifies this
      ensures (State(), verdict) == Dispatch(old(State()), device, e, app, now)
    {
      var press := (device, e.code);
      if deliveryActive {
        var forwarded := ReconcileDeliveryEvent(press, e.kind);
        if forwarded { return Pass; }
      }
      if e.kind == KeyUp && press in swallowedDowns {
        swallowedDowns := swallowedDowns - {press};
        return Swallow;
      }
      if e.kind == KeyDown && press in swallowedDowns { return Swallow; }
      tapFsms := tapFsms[device := Machines(Matcher(rules, tapFsms, modifierState, swallowedDowns, forwardedDowns,
                                                    pendingDeliveries, deliveryActive, deliveryGeneration), device)];
      if IsModifier(e.code) {
        verdict := DispatchModifier(device, e, app, now);
      } else {
        verdict := DispatchPlain(device, e, app);
      }
    }

    method DispatchPlain(device: DeviceId, e: KeyEvent, app: Option<string>) returns (verdict: Verdict)
      requires device in tapFsms
      modifies this`tapFsms, this`swallowedDowns
      ensures (State(), verdict) == MatchPlain(old(State()), device, e, app)
    {
      if e.kind != KeyDown { return Pass; }
      tapFsms := tapFsms[device := Taint(tapFsms[device])];
      var action := FindHotkey(rules.hotkeys, e, app);
      if action.None? { return Pass; }
      swallowedDowns := swallowedDowns + {(device, e.code)};
      verdict := Replace(action.value);
    }

    method DispatchModifier(device: DeviceId, e: KeyEvent, app: Option<string>, now: nat) returns (verdict: Verdict)
      requires device in tapFsms
      modifies this`tapFsms, this`modifierState
      ensures (State(), verdict) == MatchModifier(old(State()), device, e, app, now)
    {
      hide StepTaps, IsFirst, OtherModifierDown, ModifierBit, Taint;
      var press := (device, e.code);
      if e.kind == ModifiersChanged && ModifierBit(e.code) == {} { return Pass; }
      var wasDown := press in modifierState && modifierState[press];
      var isDown := if e.kind == ModifiersChanged then ModifierBit(e.code) <= e.mods else e.kind == KeyDown;
      modifierState := modifierState[press := isDown];
      if isDown && !wasDown && OtherModifierDown(modifierState, device, e.code) {
        tapFsms := tapFsms[device := Taint(tapFsms[device])];
        return Pass;
      }
      var fsms, action := FeedTaps(rules.taps, tapFsms[device], e.code, wasDown, isDown, e.mods, now, app);
      tapFsms := tapFsms[device := fsms];
      verdict := if action.Some? then Replace(action.value) else Pass;
    }

    method DispatchDeviceWithDelivery(device: DeviceId, e: KeyEvent, app: Option<string>, now: nat)
      returns (verdict: Verdict, token: Option<Token>)
      modifies this
      ensures (State(), verdict, token) == DispatchWithDelivery(old(State()), device, e, app, now)
    {
      hide Dispatch;
      verdict := DispatchDevice(device, e, app, now);
      token := None;
      if verdict.Replace? {
        deliveryGeneration := deliveryGeneration + 1;
        pendingDeliveries := pendingDeliveries[(device, e.code) := deliveryGeneration];
        deliveryActive := true;
        token := Some(Token(device, e.code, deliveryGeneration));
      }
    }

    method ReportDelivery(token: Token, delivery: Delivery) returns (accepted: bool)
      modifies this
      ensures (State(), accepted) == Matching.ReportDelivery(old(State()), token, delivery)
    {
      var press := (token.device, token.key);
      if press !in pendingDeliveries || pendingDeliveries[press] != token.generation { return false; }
      pendingDeliveries := pendingDeliveries - {press};
      if delivery == RejectedOriginalForwarded && press in swallowedDowns {
        swallowedDowns := swallowedDowns - {press};
        forwardedDowns := forwardedDowns + {press};
      }
      RefreshDeliveryActive();
      accepted := true;
    }

    method SwapRules(newRules: RuleSet)
      modifies this
      ensures State() == Matching.SwapRules(old(State()), newRules)
    {
      rules, tapFsms := newRules, map[];
    }

    method InvalidateSpeculation()
      modifies this
      ensures State() == Matching.InvalidateSpeculation(old(State()))
    {
      tapFsms, pendingDeliveries := map[], map[];
      RefreshDeliveryActive();
    }

    method SettleDeviceEvent(device: DeviceId, e: KeyEvent)
      modifies this
      ensures State() == Settle(old(State()), device, e)
    {
      if e.kind != KeyUp { return; }
      var press := (device, e.code);
      swallowedDowns := swallowedDowns - {press};
      forwardedDowns := forwardedDowns - {press};
      pendingDeliveries := pendingDeliveries - {press};
      modifierState := modifierState - {press};
      tapFsms := tapFsms - {device};
      RefreshDeliveryActive();
    }

    method ResetDevice(device: DeviceId)
      modifies this
      ensures State() == Matching.ResetDevice(old(State()), device)
    {
      tapFsms := tapFsms - {device};
      modifierState := map p | p in modifierState && p.0 != device :: modifierState[p];
      swallowedDowns := Elsewhere(swallowedDowns, device);
      forwardedDowns := Elsewhere(forwardedDowns, device);
      pendingDeliveries := map p | p in pendingDeliveries && p.0 != device :: pendingDeliveries[p];
      RefreshDeliveryActive();
    }

    method Reset()
      modifies this
      ensures State() == Matching.Reset(old(State()))
    {
      tapFsms, modifierState, swallowedDowns, forwardedDowns := map[], map[], {}, {};
      pendingDeliveries, deliveryActive := map[], false;
    }
  }
}
