/** Modifier taps. The state machine counts taps one event at a time; `TapHistory` says what the
    count means in terms of everything that happened. */
module TapMachine {
  import opened Wrappers
  import opened KeyEvents

  const U32_MAX: nat := 0xFFFF_FFFF

  datatype TapState = TapState(count: nat, lastTapAt: nat)

  datatype TapResult = Nothing | Tapped(key: KeyCode, count: nat)

  datatype Tap = Tap(within: nat, states: map<KeyCode, TapState>, active: Option<KeyCode>, tainted: bool)

  function WithWindow(within: nat): Tap {
    Tap(within, map[], None, false)
  }

  datatype Stimulus =
    | Transition(key: KeyCode, wasDown: bool, isDown: bool, mods: Modifiers, now: nat)
    | OtherKey

  predicate OthersHeld(key: KeyCode, mods: Modifiers) {
    mods - ModifierBit(key) - GenericBit(key) != {}
  }

  function OnOtherKey(s: Tap): Tap {
    s.(tainted := if s.active.Some? then true else s.tainted, states := map[])
  }

  function OnTransition(s: Tap, key: KeyCode, wasDown: bool, isDown: bool, mods: Modifiers, now: nat):
      (Tap, TapResult) {
    if !wasDown && isDown then
      if OthersHeld(key, mods) then (s.(states := map[], active := None), Nothing)
      else
        var t := if s.active.Some? && s.active.value != key then OnOtherKey(s) else s;
        (t.(states := if key in t.states then map[key := t.states[key]]
            else map[], active := Some(key), tainted := false), Nothing)
    else if wasDown && !isDown && s.active == Some(key) then
      if s.tainted then (s.(active := None, tainted := false), Nothing)
      else
        var counted :=
          if key in s.states && s.states[key].lastTapAt <= now && now - s.states[key].lastTapAt <= s.within
          then (if s.states[key].count < U32_MAX then s.states[key].count + 1 else U32_MAX)
          else 1;
        (s.(active := None, states := s.states[key := TapState(counted, now)]), Tapped(key, counted))
    else (s, Nothing)
  }

  function Step(s: Tap, e: Stimulus): (Tap, TapResult) {
    match e
    case Transition(key, wasDown, isDown, mods, now) => OnTransition(s, key, wasDown, isDown, mods, now)
    case OtherKey => (OnOtherKey(s), Nothing)
  }

  function Run(within: nat, h: seq<Stimulus>): Tap {
    if |h| == 0 then WithWindow(within) else Step(Run(within, h[..|h| - 1]), h[|h| - 1]).0
  }

  /** What the machine reports for the last event of a history. */
  function Report(within: nat, h: seq<Stimulus>): TapResult
    requires |h| > 0
  {
    Step(Run(within, h[..|h| - 1]), h[|h| - 1]).1
  }
}

/** The state machine as an object. */
module TapObject {
  import opened Wrappers
  import opened KeyEvents
  import opened TapMachine

  class TapFsm {
    const within: nat
    var states: map<KeyCode, TapState>
    var activeKey: Option<KeyCode>
    var activeTainted: bool

    ghost function State(): Tap
      reads this
    {
      Tap(within, states, activeKey, activeTainted)
    }

    constructor (within: nat)
      ensures State() == WithWindow(within)
    {
      this.within := within;
      states, activeKey, activeTainted := map[], None, false;
    }

    method OnTransition(key: KeyCode, wasDown: bool, isDown: bool, newMods: Modifiers, now: nat)
        returns (result: TapResult)
      modifies this
      ensures (State(), result) == TapMachine.OnTransition(old(State()), key, wasDown, isDown, newMods, now)
    {
      hide ModifierBit, GenericBit;
      result := Nothing;
      if !wasDown && isDown {
        var otherMods := newMods - ModifierBit(key) - GenericBit(key);
        if otherMods != {} {
          states := map[];
          activeKey := None;
          return;
        }
        if activeKey.Some? && activeKey.value != key { OnOtherKey(); }
        states := if key in states then map[key := states[key]] else map[];
        activeKey := Some(key);
        activeTainted := false;
      } else if wasDown && !isDown {
        if activeKey == Some(key) && !activeTainted {
          activeKey := None;
          var within' := key in states && states[key].lastTapAt <= now && now - states[key].lastTapAt <= within;
          var count := if within' then (if states[key].count < U32_MAX then states[key].count + 1 else U32_MAX) else 1;
          states := states[key := TapState(count, now)];
          return Tapped(key, count);
        }
        if activeKey == Some(key) {
          activeKey := None;
          activeTainted := false;
        }
      }
    }

    method OnOtherKey()
      modifies this
      ensures State() == TapMachine.OnOtherKey(old(State()))
    {
      if activeKey.Some? { activeTainted := true; }
      states := map[];
    }
  }
}

/** What a tap count means. */
module TapHistory {
  import opened Wrappers
  import opened KeyEvents
  import opened TapMachine

  predicate Down(e: Stimulus) {
    e.Transition? && !e.wasDown && e.isDown
  }

  predicate CleanDown(e: Stimulus, k: KeyCode) {
    Down(e) && e.key == k && !OthersHeld(k, e.mods)
  }

  predicate Release(e: Stimulus, k: KeyCode) {
    e.Transition? && e.wasDown && !e.isDown && e.key == k
  }

  /** Ends a press of `k` as a tap candidate: another key, any modifier press, or its own release. */
  predicate Disturbs(e: Stimulus, k: KeyCode) {
    e.OtherKey? || Down(e) || Release(e, k)
  }

  /** Ends a run of taps of `k`: another key, another modifier's press, or a press with others held. */
  predicate Breaks(e: Stimulus, k: KeyCode) {
    e.OtherKey? || (Down(e) && !CleanDown(e, k))
  }

  /** The press of `k` begun at `d` is still a tap candidate. */
  predicate ArmedFrom(h: seq<Stimulus>, d: int, k: KeyCode) {
    0 <= d < |h| && CleanDown(h[d], k) && forall m :: d < m < |h| ==> !Disturbs(h[m], k)
  }

  ghost predicate Armed(h: seq<Stimulus>, k: KeyCode) {
    exists d :: ArmedFrom(h, d, k)
  }

  /** The event at `i` completes a clean tap of `k`. */
  ghost predicate IsTap(h: seq<Stimulus>, i: int, k: KeyCode) {
    0 <= i < |h| && Release(h[i], k) && Armed(h[..i], k)
  }

  /** The last clean tap of `k` before position `n`, or -1. */
  ghost function PreviousTap(h: seq<Stimulus>, k: KeyCode, n: nat): (p: int)
    requires n <= |h|
    ensures -1 <= p < n
  {
    if n == 0 then -1 else if IsTap(h, n - 1, k) then n - 1 else PreviousTap(h, k, n - 1)
  }

  predicate Unbroken(h: seq<Stimulus>, p: int, i: int, k: KeyCode)
    requires 0 <= p && i <= |h|
  {
    forall m :: p < m < i ==> !Breaks(h[m], k)
  }

  /** How many clean taps of `k`, each released at most `within` after the one before and with
      nothing breaking the run, end at `i`. */
  ghost function RunLength(within: nat, h: seq<Stimulus>, i: nat, k: KeyCode): (n: nat)
    requires i < |h|
    ensures n >= 1
    decreases i
  {
    var p := PreviousTap(h, k, i);
    if p >= 0 && h[i].Transition? && h[p].Transition? && Unbroken(h, p, i, k) && h[p].now <= h[i].now
        && h[i].now - h[p].now <= within
    then 1 + RunLength(within, h, p, k) else 1
  }

  function Saturated(n: nat): nat {
    if n > U32_MAX then U32_MAX else n
  }

  // ---- histories grow at the end ------------------------------------------------------

  lemma {:induction false} PreviousTapGrows(h: seq<Stimulus>, e: Stimulus, k: KeyCode, n: nat)
    requires n <= |h|
    ensures PreviousTap(h + [e], k, n) == PreviousTap(h, k, n)
    decreases n
  {
    if n > 0 {
      assert (h + [e])[..n - 1] == h[..n - 1];
      PreviousTapGrows(h, e, k, n - 1);
    }
  }

  lemma UnbrokenGrows(h: seq<Stimulus>, e: Stimulus, p: nat, i: nat, k: KeyCode)
    requires i <= |h|
    ensures Unbroken(h + [e], p, i, k) <==> Unbroken(h, p, i, k)
  {
    assert forall m :: p < m < i ==> (h + [e])[m] == h[m];
  }

  lemma {:induction false} RunLengthGrows(within: nat, h: seq<Stimulus>, e: Stimulus, i: nat, k: KeyCode)
    requires i < |h|
    ensures RunLength(within, h + [e], i, k) == RunLength(within, h, i, k)
    decreases i
  {
    PreviousTapGrows(h, e, k, i);
    var p := PreviousTap(h, k, i);
    if p >= 0 {
      UnbrokenGrows(h, e, p, i, k);
      RunLengthGrows(within, h, e, p, k);
    }
  }

  lemma ArmedGrows(h: seq<Stimulus>, e: Stimulus, k: KeyCode)
    ensures Armed(h + [e], k) <==> CleanDown(e, k) || (Armed(h, k) && !Disturbs(e, k))
  {
    var g := h + [e];
    hide ArmedFrom;
    if CleanDown(e, k) { ArmedNow(h, e, k); }
    if Armed(h, k) && !Disturbs(e, k) {
      var d :| ArmedFrom(h, d, k);
      ArmedLonger(h, e, d, k);
    }
    if Armed(g, k) {
      var d :| ArmedFrom(g, d, k);
      ArmedLonger(h, e, d, k);
    }
  }

  lemma ArmedNow(h: seq<Stimulus>, e: Stimulus, k: KeyCode)
    ensures ArmedFrom(h + [e], |h|, k) <==> CleanDown(e, k)
  {
  }

  lemma ArmedLonger(h: seq<Stimulus>, e: Stimulus, d: int, k: KeyCode)
    ensures ArmedFrom(h + [e], d, k) <==> (d == |h| && CleanDown(e, k)) || (ArmedFrom(h, d, k) && !Disturbs(e, k))
  {
    hide CleanDown, Disturbs;
    var g := h + [e];
    if 0 <= d < |h| {
      assert g[d] == h[d] && g[|h|] == e;
      assert forall m :: d < m < |h| ==> g[m] == h[m];
    }
  }

  /** The last tap of `k`, still open to being continued. */
  ghost predicate Live(h: seq<Stimulus>, k: KeyCode) {
    var p := PreviousTap(h, k, |h|);
    p >= 0 && Unbroken(h, p, |h|, k)
  }

  lemma TapAtEnd(h: seq<Stimulus>, e: Stimulus, k: KeyCode)
    ensures IsTap(h + [e], |h|, k) <==> Release(e, k) && Armed(h, k)
  {
    assert (h + [e])[..|h|] == h;
  }

  lemma LiveGrows(h: seq<Stimulus>, e: Stimulus, k: KeyCode)
    ensures var tap := Release(e, k) && Armed(h, k);
            && PreviousTap(h + [e], k, |h| + 1) == (if tap then |h| else PreviousTap(h, k, |h|))
            && (Live(h + [e], k) <==> tap || (Live(h, k) && !Breaks(e, k)))
  {
    TapAtEnd(h, e, k);
    PreviousTapGrows(h, e, k, |h|);
    var p := PreviousTap(h, k, |h|);
    if p >= 0 {
      UnbrokenGrows(h, e, p, |h|, k);
      assert (h + [e])[|h|] == e;
      assert Unbroken(h + [e], p, |h| + 1, k) <==> Unbroken(h + [e], p, |h|, k) && !Breaks(e, k);
    }
  }

  // ---- the machine's state means what the history says --------------------------------

  ghost predicate ActiveMeans(h: seq<Stimulus>, s: Tap) {
    forall k :: (s.active == Some(k) && !s.tainted) <==> Armed(h, k)
  }

  ghost predicate CountMeans(within: nat, h: seq<Stimulus>, s: Tap, k: KeyCode) {
    && (k in s.states <==> Live(h, k))
    && (k in s.states ==>
          var p := PreviousTap(h, k, |h|);
          && h[p].Transition?
          && s.states[k] == TapState(Saturated(RunLength(within, h, p, k)), h[p].now))
  }

  ghost predicate Tracks(within: nat, h: seq<Stimulus>, s: Tap) {
    && s.within == within
    && ActiveMeans(h, s)
    && (s.active.Some? ==> s.states.Keys <= {s.active.value})
    && forall k :: CountMeans(within, h, s, k)
  }

  lemma ActiveStep(h: seq<Stimulus>, s: Tap, e: Stimulus)
    requires ActiveMeans(h, s)
    ensures ActiveMeans(h + [e], Step(s, e).0)
  {
    var t := Step(s, e).0;
    forall k ensures (t.active == Some(k) && !t.tainted) <==> Armed(h + [e], k) {
      ArmedGrows(h, e, k);
      assert (s.active == Some(k) && !s.tainted) <==> Armed(h, k);
      hide Armed;
    }
  }

  /** A key whose last tap the event neither repeats nor breaks keeps its count. */
  lemma CountKept(within: nat, h: seq<Stimulus>, s: Tap, e: Stimulus, k: KeyCode)
    requires CountMeans(within, h, s, k) && !(Release(e, k) && Armed(h, k)) && !Breaks(e, k)
    requires k in s.states <==> k in Step(s, e).0.states
    requires k in s.states ==> Step(s, e).0.states[k] == s.states[k]
    ensures CountMeans(within, h + [e], Step(s, e).0, k)
  {
    LiveGrows(h, e, k);
    var p := PreviousTap(h, k, |h|);
    if p >= 0 { RunLengthGrows(within, h, e, p, k); }
    hide Armed, Step, Breaks, RunLength, PreviousTap;
  }

  lemma CountBroken(within: nat, h: seq<Stimulus>, s: Tap, e: Stimulus, k: KeyCode)
    requires Breaks(e, k) && k !in Step(s, e).0.states
    ensures CountMeans(within, h + [e], Step(s, e).0, k)
  {
    LiveGrows(h, e, k);
    hide Armed, Step, RunLength, PreviousTap;
  }

  /** A completed tap is counted as the length of the run it ends. */
  lemma CountTapped(within: nat, h: seq<Stimulus>, s: Tap, e: Stimulus, k: KeyCode)
    requires CountMeans(within, h, s, k) && s.within == within && Release(e, k) && Armed(h, k)
    requires s.active == Some(k) && !s.tainted
    ensures CountMeans(within, h + [e], Step(s, e).0, k)
    ensures Step(s, e).1 == Tapped(k, Saturated(RunLength(within, h + [e], |h|, k)))
  {
    var g := h + [e];
    var p := PreviousTap(h, k, |h|);
    LiveGrows(h, e, k);
    PreviousTapGrows(h, e, k, |h|);
    assert PreviousTap(g, k, |h|) == p;
    if p >= 0 {
      RunLengthGrows(within, h, e, p, k);
      UnbrokenGrows(h, e, p, |h|, k);
    }
    assert RunLength(within, g, |h|, k) ==
      if k in s.states && h[p].now <= e.now && e.now - h[p].now <= within then 1 + RunLength(within, g, p, k) else 1;
    assert Unbroken(g, |h|, |h| + 1, k);
  }

  lemma TracksHere(within: nat, h: seq<Stimulus>, s: Tap, k: KeyCode)
    requires Tracks(within, h, s)
    ensures CountMeans(within, h, s, k)
    ensures (s.active == Some(k) && !s.tainted) <==> Armed(h, k)
  {
    hide CountMeans, Armed;
  }

  lemma CountStep(within: nat, h: seq<Stimulus>, s: Tap, e: Stimulus, k: KeyCode)
    requires Tracks(within, h, s)
    ensures CountMeans(within, h + [e], Step(s, e).0, k)
  {
    hide CountMeans, Armed, ActiveMeans, ModifierBit, GenericBit;
    TracksHere(within, h, s, k);
    if Release(e, k) && Armed(h, k) {
      CountTapped(within, h, s, e, k);
    } else if Breaks(e, k) {
      CountBroken(within, h, s, e, k);
    } else {
      CountKept(within, h, s, e, k);
    }
  }

  lemma TracksStep(within: nat, h: seq<Stimulus>, s: Tap, e: Stimulus)
    requires Tracks(within, h, s)
    ensures Tracks(within, h + [e], Step(s, e).0)
  {
    var t := Step(s, e).0;
    ActiveStep(h, s, e);
    forall k ensures CountMeans(within, h + [e], t, k) { CountStep(within, h, s, e, k); }
    hide CountMeans, ActiveMeans;
  }

  lemma {:induction false} MachineTracksHistory(within: nat, h: seq<Stimulus>)
    ensures Tracks(within, h, Run(within, h))
    decreases |h|
  {
    if |h| != 0 {
      var front := h[..|h| - 1];
      MachineTracksHistory(within, front);
      TracksStep(within, front, Run(within, front), h[|h| - 1]);
      assert front + [h[|h| - 1]] == h;
    }
  }

  // ---- runs of taps as sequences -------------------------------------------------------

  /** Two clean taps of `k` in a row: none in between, nothing breaking the run, and the second released
      at most `within` after the first. */
  ghost predicate Linked(within: nat, h: seq<Stimulus>, p: int, i: int, k: KeyCode) {
    && 0 <= p < i < |h| && IsTap(h, p, k) && IsTap(h, i, k)
    && (forall m :: p < m < i ==> !IsTap(h, m, k))
    && Unbroken(h, p, i, k) && h[p].now <= h[i].now <= h[p].now + within
  }

  /** Positions of clean taps of `k`, each linked to the next, the last one at `i`. */
  ghost predicate RunOfTaps(within: nat, h: seq<Stimulus>, taps: seq<int>, i: int, k: KeyCode) {
    && taps != [] && taps[|taps| - 1] == i && IsTap(h, i, k)
    && forall j :: 0 <= j < |taps| - 1 ==> Linked(within, h, taps[j], taps[j + 1], k)
  }

  /** The longest run of taps ending at `i` has length `n`. */
  ghost predicate LongestRun(within: nat, h: seq<Stimulus>, i: int, k: KeyCode, n: nat) {
    && (exists taps :: RunOfTaps(within, h, taps, i, k) && |taps| == n)
    && (forall taps :: RunOfTaps(within, h, taps, i, k) ==> |taps| <= n)
  }

  lemma {:induction false} PreviousTapIs(h: seq<Stimulus>, k: KeyCode, n: nat)
    requires n <= |h|
    ensures var p := PreviousTap(h, k, n);
            (p >= 0 ==> IsTap(h, p, k)) && forall m :: p < m < n ==> !IsTap(h, m, k)
    decreases n
  {
    hide IsTap;
    if n != 0 {
      PreviousTapIs(h, k, n - 1);
    }
  }

  lemma LinkedIsPrevious(within: nat, h: seq<Stimulus>, p: int, i: int, k: KeyCode)
    requires Linked(within, h, p, i, k)
    ensures PreviousTap(h, k, i) == p && RunLength(within, h, i, k) == 1 + RunLength(within, h, p, k)
  {
    PreviousTapIs(h, k, i);
  }

  lemma {:induction false} NoLongerRun(within: nat, h: seq<Stimulus>, taps: seq<int>, i: nat, k: KeyCode)
    requires i < |h| && RunOfTaps(within, h, taps, i, k)
    ensures |taps| <= RunLength(within, h, i, k)
    decreases |taps|
  {
    hide IsTap, RunLength;
    RunLengthPositive(within, h, i, k);
    if |taps| > 1 {
      var front := taps[..|taps| - 1];
      var p := front[|front| - 1];
      assert Linked(within, h, taps[|taps| - 2], taps[|taps| - 2 + 1], k);
      forall j | 0 <= j < |front| - 1 ensures Linked(within, h, front[j], front[j + 1], k) {
        assert Linked(within, h, taps[j], taps[j + 1], k);
      }
      NoLongerRun(within, h, front, p, k);
      LinkedIsPrevious(within, h, p, i, k);
    }
  }

  lemma RunLengthPositive(within: nat, h: seq<Stimulus>, i: nat, k: KeyCode)
    requires i < |h|
    ensures RunLength(within, h, i, k) >= 1
  {
  }

  lemma {:induction false} RunExists(within: nat, h: seq<Stimulus>, i: nat, k: KeyCode) returns (taps: seq<int>)
    requires IsTap(h, i, k)
    ensures RunOfTaps(within, h, taps, i, k) && |taps| == RunLength(within, h, i, k)
    decreases i
  {
    var p := PreviousTap(h, k, i);
    PreviousTapIs(h, k, i);
    if RunLength(within, h, i, k) == 1 {
      taps := [i];
    } else {
      assert Linked(within, h, p, i, k);
      hide IsTap, RunLength;
      LinkedIsPrevious(within, h, p, i, k);
      var front := RunExists(within, h, p, k);
      taps := front + [i];
    }
  }

  /** The count is the length of the longest run of clean taps ending there. */
  lemma RunLengthIsLongest(within: nat, h: seq<Stimulus>, i: nat, k: KeyCode)
    requires IsTap(h, i, k)
    ensures LongestRun(within, h, i, k, RunLength(within, h, i, k))
  {
    hide RunLength, RunOfTaps;
    var taps := RunExists(within, h, i, k);
    forall other | RunOfTaps(within, h, other, i, k) ensures |other| <= RunLength(within, h, i, k) {
      NoLongerRun(within, h, other, i, k);
    }
  }

  /** The online counter equals the history: a release is reported exactly when it completes a clean tap,
      with the length of the longest run of clean taps it ends, saturating at the counter's width. */
  lemma ReportMeansRun(within: nat, h: seq<Stimulus>, k: KeyCode)
    requires |h| > 0
    ensures IsTap(h, |h| - 1, k) ==>
              exists n :: LongestRun(within, h, |h| - 1, k, n) && Report(within, h) == Tapped(k, Saturated(n))
    ensures (exists count :: Report(within, h) == Tapped(k, count)) ==> IsTap(h, |h| - 1, k)
  {
    ReportIsRunLength(within, h, k);
    if IsTap(h, |h| - 1, k) {
      RunLengthIsLongest(within, h, |h| - 1, k);
    }
  }

  lemma ReportIsRunLength(within: nat, h: seq<Stimulus>, k: KeyCode)
    requires |h| > 0
    ensures IsTap(h, |h| - 1, k) ==> Report(within, h) == Tapped(k, Saturated(RunLength(within, h, |h| - 1, k)))
    ensures (exists count :: Report(within, h) == Tapped(k, count)) ==> IsTap(h, |h| - 1, k)
  {
    var front, e := h[..|h| - 1], h[|h| - 1];
    var s := Run(within, front);
    MachineTracksHistory(within, front);
    assert front + [e] == h;
    TapAtEnd(front, e, k);
    assert CountMeans(within, front, s, k);
    assert (s.active == Some(k) && !s.tainted) <==> Armed(front, k);
    if Release(e, k) && Armed(front, k) { CountTapped(within, front, s, e, k); }
  }
}
