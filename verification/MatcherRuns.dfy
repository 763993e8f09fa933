/** Whole runs of the matcher under any interleaving of events, delivery reports, reloads,
    invalidations and resets. */
module MatcherRuns {
  import opened Wrappers
  import opened KeyEvents
  import opened TapMachine
  import opened Matching

  datatype Op =
    | Event(device: DeviceId, event: KeyEvent, app: Option<string>, now: nat)
    | EventWithDelivery(device: DeviceId, event: KeyEvent, app: Option<string>, now: nat)
    | Report(token: Token, delivery: Delivery)
    | Reload(rules: RuleSet)
    | Invalidate
    | Disqualify
    | Observe(device: DeviceId, event: KeyEvent)
    | DeviceLost(device: DeviceId)
    | StreamLost

  datatype Outcome = Outcome(state: Matcher, verdict: Option<Verdict>, token: Option<Token>, accepted: bool)

  function Perform(m: Matcher, op: Op): Outcome {
    match op
    case Event(device, e, app, now) =>
      var (t, verdict) := Dispatch(m, device, e, app, now);
      Outcome(t, Some(verdict), None, false)
    case EventWithDelivery(device, e, app, now) =>
      var (t, verdict, token) := DispatchWithDelivery(m, device, e, app, now);
      Outcome(t, Some(verdict), token, false)
    case Report(token, delivery) =>
      var (t, accepted) := ReportDelivery(m, token, delivery);
      Outcome(t, None, None, accepted)
    case Reload(rules) => Outcome(SwapRules(m, rules), None, None, false)
    case Invalidate => Outcome(InvalidateSpeculation(m), None, None, false)
    case Disqualify => Outcome(DisqualifyTaps(m), None, None, false)
    case Observe(device, e) => Outcome(Settle(m, device, e), None, None, false)
    case DeviceLost(device) => Outcome(ResetDevice(m, device), None, None, false)
    case StreamLost => Outcome(Reset(m), None, None, false)
  }

  function Run(rules: RuleSet, ops: seq<Op>): Matcher {
    if |ops| == 0 then NewMatcher(rules) else Perform(Run(rules, ops[..|ops| - 1]), ops[|ops| - 1]).state
  }

  // ---- the invariant -------------------------------------------------------------------

  /** The cached flag is exact, no press is both consumed and handed back, only plain keys are
      latched, and every outstanding token number has been issued, to one press only. */
  ghost predicate Consistent(m: Matcher) {
    && (m.active <==> m.pending != map[] || m.forwarded != {})
    && m.swallowed !! m.forwarded
    && (forall p :: p in m.swallowed || p in m.forwarded ==> !IsModifier(p.1))
    && TokensIssued(m.pending, m.generation)
  }

  ghost predicate TokensIssued(pending: map<Press, nat>, generation: nat) {
    && (forall p :: p in pending ==> pending[p] <= generation)
    && (forall p, q :: p in pending && q in pending && p != q ==> pending[p] != pending[q])
  }

  /** What matching alone can change. */
  lemma MatchShape(m: Matcher, device: DeviceId, e: KeyEvent, app: Option<string>, now: nat)
    ensures var (t, verdict) := Match(m, device, e, app, now);
            var press := (device, e.code);
            && t.forwarded == m.forwarded && t.pending == m.pending && t.active == m.active
               && t.generation == m.generation
            && (t.swallowed == m.swallowed
                || (e.kind == KeyUp && t.swallowed == m.swallowed - {press})
                || (e.kind == KeyDown && !IsModifier(e.code) && press !in m.swallowed && verdict.Replace?
                   && t.swallowed == m.swallowed + {press}))
            && (press in m.swallowed && e.kind != ModifiersChanged ==> verdict == Swallow)
            && (press in m.swallowed && e.kind != KeyUp ==> press in t.swallowed)
            && (!IsModifier(e.code) && verdict.Replace? ==> press in t.swallowed && e.kind == KeyDown)
  {
    hide StepTaps, FirstHotkey, IsModifier, ModifierBit, OtherModifierDown, Taint, Machines;
  }

  lemma ReconcileConsistent(m: Matcher, press: Press, kind: EventKind)
    requires Consistent(m)
    ensures Consistent(Reconcile(m, press, kind).0)
    ensures !Reconcile(m, press, kind).1 && kind == KeyDown ==> press !in Reconcile(m, press, kind).0.forwarded
  {
  }

  /** Reconciliation is a no-op exactly when the flag says it is: the fast path computes what the
      slow path would. */
  lemma FastPathEqualsSlow(m: Matcher, device: DeviceId, e: KeyEvent, app: Option<string>, now: nat)
    requires Consistent(m)
    ensures Dispatch(m, device, e, app, now) == DispatchReconciled(m, device, e, app, now)
  {
    if !m.active {
      assert m.pending - {(device, e.code)} == m.pending;
      assert m.forwarded - {(device, e.code)} == m.forwarded;
      assert Reconcile(m, (device, e.code), e.kind) == (m, false);
    }
  }

  lemma MatchConsistent(m: Matcher, device: DeviceId, e: KeyEvent, app: Option<string>, now: nat)
    requires Consistent(m) && (e.kind == KeyDown ==> (device, e.code) !in m.forwarded)
    ensures Consistent(Match(m, device, e, app, now).0)
  {
    MatchShape(m, device, e, app, now);
    hide Match;
  }

  lemma DispatchConsistent(m: Matcher, device: DeviceId, e: KeyEvent, app: Option<string>, now: nat)
    requires Consistent(m)
    ensures Consistent(Dispatch(m, device, e, app, now).0)
  {
    hide Match, Consistent;
    FastPathEqualsSlow(m, device, e, app, now);
    var (t, handedBack) := Reconcile(m, (device, e.code), e.kind);
    ReconcileConsistent(m, (device, e.code), e.kind);
    if !handedBack { MatchConsistent(t, device, e, app, now); }
  }

  lemma DeliverConsistent(m: Matcher, device: DeviceId, e: KeyEvent, app: Option<string>, now: nat)
    requires Consistent(m)
    ensures Consistent(DispatchWithDelivery(m, device, e, app, now).0)
  {
    hide Dispatch, IsModifier, TokensIssued;
    DispatchConsistent(m, device, e, app, now);
    var (t, verdict) := Dispatch(m, device, e, app, now);
    if verdict.Replace? { TokenIssued(t.pending, t.generation, (device, e.code)); }
  }

  lemma TokenIssued(pending: map<Press, nat>, generation: nat, press: Press)
    requires TokensIssued(pending, generation)
    ensures var after := pending[press := generation + 1];
            TokensIssued(after, generation + 1) && after != map[]
  {
    assert press in pending[press := generation + 1];
  }

  lemma ReportConsistent(m: Matcher, token: Token, delivery: Delivery)
    requires Consistent(m)
    ensures Consistent(ReportDelivery(m, token, delivery).0)
  {
  }

  lemma PerformConsistent(m: Matcher, op: Op)
    requires Consistent(m)
    ensures Consistent(Perform(m, op).state)
  {
    match op {
      case Event(device, e, app, now) => DispatchConsistent(m, device, e, app, now);
      case EventWithDelivery(device, e, app, now) => DeliverConsistent(m, device, e, app, now);
      case Report(token, delivery) => ReportConsistent(m, token, delivery);
      case _ => OwnerConsistent(m, op);
    }
  }

  lemma OwnerConsistent(m: Matcher, op: Op)
    requires Consistent(m) && !op.Event? && !op.EventWithDelivery? && !op.Report?
    ensures Consistent(Perform(m, op).state)
  {
  }

  lemma {:induction false} AlwaysConsistent(rules: RuleSet, ops: seq<Op>)
    ensures Consistent(Run(rules, ops))
    decreases |ops|
  {
    if |ops| != 0 {
      AlwaysConsistent(rules, ops[..|ops| - 1]);
      PerformConsistent(Run(rules, ops[..|ops| - 1]), ops[|ops| - 1]);
    }
  }

  /** In every reachable state the cached flag may be trusted. */
  lemma CachedFlagIsSafe(rules: RuleSet, ops: seq<Op>, device: DeviceId, e: KeyEvent, app: Option<string>, now: nat)
    ensures var m := Run(rules, ops);
            && Dispatch(m, device, e, app, now) == DispatchReconciled(m, device, e, app, now)
            && (m.active <==> m.pending != map[] || m.forwarded != {}) && m.swallowed !! m.forwarded
  {
    AlwaysConsistent(rules, ops);
    FastPathEqualsSlow(Run(rules, ops), device, e, app, now);
  }

  // ---- consumed presses ----------------------------------------------------------------

  predicate IsEventOf(op: Op, x: Press) {
    (op.Event? || op.EventWithDelivery?) && (op.device, op.event.code) == x
  }

  /** A repeat or the release of the press. */
  predicate Concerns(op: Op, x: Press) {
    IsEventOf(op, x) && op.event.kind != ModifiersChanged
  }

  /** The press is over: released, observed released, or its stream reset. */
  predicate Ends(op: Op, x: Press) {
    || (IsEventOf(op, x) && op.event.kind == KeyUp)
    || (op.Observe? && op.event.kind == KeyUp && (op.device, op.event.code) == x)
    || (op.DeviceLost? && op.device == x.0)
    || op.StreamLost?
  }

  /** A valid report that the press's original was forwarded after all. */
  predicate HandsBack(m: Matcher, op: Op, x: Press) {
    op.Report? && op.delivery == RejectedOriginalForwarded && (op.token.device, op.token.key) == x
        && Current(m, op.token)
  }

  lemma DispatchSwallowed(m: Matcher, device: DeviceId, e: KeyEvent, app: Option<string>, now: nat, x: Press)
    requires Consistent(m) && x in m.swallowed
    ensures var (t, verdict) := Dispatch(m, device, e, app, now);
            && ((device, e.code) == x && e.kind != ModifiersChanged ==> verdict == Swallow)
            && ((device, e.code) == x ==> !verdict.Replace?)
            && ((device, e.code) != x || e.kind != KeyUp ==> x in t.swallowed)
            && (x in t.pending ==> x in m.pending && t.pending[x] == m.pending[x])
            && (x in m.pending && ((device, e.code) != x || e.kind == KeyDown) ==> x in t.pending)
            && ((device, e.code) == x && e.kind == ModifiersChanged ==> x !in t.pending)
  {
    hide Match, IsModifier;
    FastPathEqualsSlow(m, device, e, app, now);
    var (t, handedBack) := Reconcile(m, (device, e.code), e.kind);
    MatchShape(t, device, e, app, now);
    if (device, e.code) == x && e.kind == ModifiersChanged { assert !IsModifier(e.code); }
  }

  lemma SwallowedStep(m: Matcher, op: Op, x: Press)
    requires Consistent(m) && x in m.swallowed && !HandsBack(m, op, x)
    ensures Concerns(op, x) ==> Perform(m, op).verdict == Some(Swallow)
    ensures !Ends(op, x) ==> x in Perform(m, op).state.swallowed
  {
    hide Dispatch;
    if op.Event? || op.EventWithDelivery? { DispatchSwallowed(m, op.device, op.event, op.app, op.now, x); }
  }

  lemma RunExtend(rules: RuleSet, ops: seq<Op>, op: Op)
    ensures Run(rules, ops + [op]) == Perform(Run(rules, ops), op).state
  {
    assert (ops + [op])[..|ops|] == ops;
  }

  /** A plain press answered with a replacement is consumed from then on. */
  lemma ReplacementConsumes(rules: RuleSet, ops: seq<Op>, op: Op)
    requires (op.Event? || op.EventWithDelivery?) && !IsModifier(op.event.code)
    requires Perform(Run(rules, ops), op).verdict.value.Replace?
    ensures (op.device, op.event.code) in Run(rules, ops + [op]).swallowed
  {
    RunExtend(rules, ops, op);
    var m := Run(rules, ops);
    AlwaysConsistent(rules, ops);
    FastPathEqualsSlow(m, op.device, op.event, op.app, op.now);
    var t := Reconcile(m, (op.device, op.event.code), op.event.kind).0;
    MatchShape(t, op.device, op.event, op.app, op.now);
    hide Match, Run;
  }

  // ---- presses handed back -------------------------------------------------------------

  lemma DispatchForwarded(m: Matcher, device: DeviceId, e: KeyEvent, app: Option<string>, now: nat, x: Press)
    requires Consistent(m) && x in m.forwarded
    ensures var (t, verdict) := Dispatch(m, device, e, app, now);
            && ((device, e.code) == x && e.kind != ModifiersChanged ==> verdict == Pass)
            && ((device, e.code) != x || e.kind != KeyUp ==> x in t.forwarded)
  {
    var (t, handedBack) := Reconcile(m, (device, e.code), e.kind);
    MatchShape(t, device, e, app, now);
    hide Match;
  }

  lemma ForwardedStep(m: Matcher, op: Op, x: Press)
    requires Consistent(m) && x in m.forwarded
    ensures Concerns(op, x) ==> Perform(m, op).verdict == Some(Pass)
    ensures !Ends(op, x) ==> x in Perform(m, op).state.forwarded
  {
    hide Dispatch;
    if op.Event? || op.EventWithDelivery? { DispatchForwarded(m, op.device, op.event, op.app, op.now, x); }
  }

  /** After its own rejection report a press passes, repeats and release alike, until it ends. */
  lemma {:induction false} ForwardedUntilRelease(rules: RuleSet, before: seq<Op>, after: seq<Op>, x: Press)
    requires x in Run(rules, before).forwarded
    requires forall i :: 0 <= i < |after| - 1 ==> !Ends(after[i], x)
    ensures forall i :: 0 <= i < |after| && Concerns(after[i], x) ==>
              Perform(Run(rules, before + after[..i]), after[i]).verdict == Some(Pass)
    decreases |after|
  {
    hide Perform, Ends, Concerns;
    if |after| != 0 {
      assert before + after[..0] == before;
      AlwaysConsistent(rules, before);
      ForwardedStep(Run(rules, before), after[0], x);
      RunExtend(rules, before, after[0]);
      if |after| > 1 {
        forall i | 0 <= i < |after| - 1 ensures before + [after[0]] + after[1..][..i] == before + after[..i + 1] {}
        ForwardedUntilRelease(rules, before + [after[0]], after[1..], x);
        forall i | 0 <= i < |after| && Concerns(after[i], x)
          ensures Perform(Run(rules, before + after[..i]), after[i]).verdict == Some(Pass)
        {
          if i > 0 { assert after[1..][i - 1] == after[i]; }
        }
      }
    }
  }

  /** Handing back moves exactly that press from consumed to forwarded. */
  lemma HandBackForwards(m: Matcher, op: Op, x: Press)
    requires HandsBack(m, op, x) && x in m.swallowed
    ensures var t := Perform(m, op).state;
            t.swallowed == m.swallowed - {x} && t.forwarded == m.forwarded + {x} && t.pending == m.pending - {x}
    ensures Perform(m, op).accepted
  {
  }

  /** While a press is consumed, the only report that can hand it back carries the token issued when
      it was consumed. */
  lemma OwnTokenStep(m: Matcher, op: Op, x: Press, generation: nat)
    requires Consistent(m) && x in m.swallowed && (x in m.pending ==> m.pending[x] == generation)
    ensures HandsBack(m, op, x) ==> op.token == Token(x.0, x.1, generation)
    ensures !Ends(op, x) ==> var t := Perform(m, op).state; x in t.pending ==> t.pending[x] == generation
  {
    hide Dispatch;
    if op.Event? || op.EventWithDelivery? { DispatchSwallowed(m, op.device, op.event, op.app, op.now, x); }
  }

  /** The press is consumed, and any token outstanding for it is that one. */
  predicate Latched(m: Matcher, x: Press, generation: nat) {
    x in m.swallowed && (x in m.pending ==> m.pending[x] == generation)
  }

  /** The press's own report that its original was forwarded after all. */
  function OwnReport(x: Press, generation: nat): Op {
    Report(Token(x.0, x.1, generation), RejectedOriginalForwarded)
  }

  /** Which operations withdraw the token of a press that goes on. */
  predicate Withdraws(op: Op, x: Press, generation: nat) {
    || op.Invalidate?
    || (op.Report? && op.token == Token(x.0, x.1, generation))
    || (IsEventOf(op, x) && op.event.kind == ModifiersChanged)
  }

  lemma LatchedStep(m: Matcher, op: Op, x: Press, generation: nat)
    requires Consistent(m) && Latched(m, x, generation) && op != OwnReport(x, generation)
    ensures !HandsBack(m, op, x)
    ensures Concerns(op, x) ==> Perform(m, op).verdict == Some(Swallow)
    ensures !Ends(op, x) ==> Latched(Perform(m, op).state, x, generation)
  {
    OwnTokenStep(m, op, x, generation);
    SwallowedStep(m, op, x);
  }

  lemma TokenStep(m: Matcher, op: Op, x: Press, generation: nat)
    requires Consistent(m) && Latched(m, x, generation) && !Ends(op, x)
    ensures x in Perform(m, op).state.pending <==> x in m.pending && !Withdraws(op, x, generation)
  {
    hide Dispatch;
    if op.Event? || op.EventWithDelivery? { DispatchSwallowed(m, op.device, op.event, op.app, op.now, x); }
  }

  ghost predicate GoesOn(ops: seq<Op>, x: Press) {
    forall i :: 0 <= i < |ops| ==> !Ends(ops[i], x)
  }

  /** Before its own report: the press stays latched, and its token outstanding exactly until withdrawn. */
  lemma {:induction false} LatchedRun(rules: RuleSet, before: seq<Op>, after: seq<Op>, x: Press, generation: nat)
    requires Latched(Run(rules, before), x, generation) && GoesOn(after, x) && OwnReport(x, generation) !in after
    ensures Latched(Run(rules, before + after), x, generation)
    ensures x in Run(rules, before + after).pending <==>
              x in Run(rules, before).pending && forall i :: 0 <= i < |after| ==> !Withdraws(after[i], x, generation)
    decreases |after|
  {
    hide Perform, Ends, Withdraws, Latched;
    if |after| == 0 {
      assert before + after == before;
    } else {
      var front, op := after[..|after| - 1], after[|after| - 1];
      LatchedRun(rules, before, front, x, generation);
      AlwaysConsistent(rules, before + front);
      var m := Run(rules, before + front);
      LatchedStep(m, op, x, generation);
      TokenStep(m, op, x, generation);
      RunExtend(rules, before + front, op);
      assert before + front + [op] == before + after;
    }
  }

  /** The verdict of operation `i` of a continuation. */
  function VerdictAt(rules: RuleSet, before: seq<Op>, after: seq<Op>, i: nat): Option<Verdict>
    requires i < |after|
  {
    Perform(Run(rules, before + after[..i]), after[i]).verdict
  }

  /** A latched press has every repeat and its release swallowed unless its own report comes. */
  lemma LatchedUntilOwnReport(rules: RuleSet, before: seq<Op>, after: seq<Op>, x: Press, generation: nat)
    requires Latched(Run(rules, before), x, generation)
    requires forall i :: 0 <= i < |after| - 1 ==> !Ends(after[i], x)
    requires OwnReport(x, generation) !in after
    ensures forall i :: 0 <= i < |after| && Concerns(after[i], x) ==>
        VerdictAt(rules, before, after, i) == Some(Swallow)
  {
    hide Perform, Ends, Latched, Run;
    forall i | 0 <= i < |after| && Concerns(after[i], x) ensures VerdictAt(rules, before, after, i) == Some(Swallow) {
      LatchedRun(rules, before, after[..i], x, generation);
      AlwaysConsistent(rules, before + after[..i]);
      LatchedStep(Run(rules, before + after[..i]), after[i], x, generation);
    }
  }

  /** The same of any consumed press, with or without a token outstanding. */
  lemma SwallowedUntilRelease(rules: RuleSet, before: seq<Op>, after: seq<Op>, x: Press)
    requires x in Run(rules, before).swallowed
    requires forall i :: 0 <= i < |after| - 1 ==> !Ends(after[i], x)
    requires var m := Run(rules, before); x in m.pending ==> OwnReport(x, m.pending[x]) !in after
    ensures forall i :: 0 <= i < |after| && Concerns(after[i], x) ==>
        VerdictAt(rules, before, after, i) == Some(Swallow)
  {
    hide Perform, Ends, Concerns, Run;
    var m := Run(rules, before);
    if x in m.pending {
      LatchedUntilOwnReport(rules, before, after, x, m.pending[x]);
    } else {
      TokenGone(rules, before, after, x);
    }
  }

  /** A plain press answered with a replacement and a token. */
  predicate Replaced(rules: RuleSet, before: seq<Op>, press: Op, generation: nat) {
    && press.EventWithDelivery? && !IsModifier(press.event.code)
    && Perform(Run(rules, before), press).token == Some(Token(press.device, press.event.code, generation))
  }

  lemma ReplacedIsLatched(rules: RuleSet, before: seq<Op>, press: Op, generation: nat)
    requires Replaced(rules, before, press, generation)
    ensures var x := (press.device, press.event.code);
            Latched(Run(rules, before + [press]), x, generation) && x in Run(rules, before + [press]).pending
  {
    ReplacementConsumes(rules, before, press);
    RunExtend(rules, before, press);
    hide Dispatch, Run;
  }

  /** Consumed-press latching over whole runs: after a plain press is answered with a replacement and a
      token, then under any interleaving of other events, reloads, invalidations, stale reports and reports
      of delivery or uncertainty, every repeat and the release are swallowed. */
  lemma ReplacedUntilRelease(rules: RuleSet, before: seq<Op>, press: Op, generation: nat, after: seq<Op>)
    requires Replaced(rules, before, press, generation)
    requires var x := (press.device, press.event.code);
             (forall i :: 0 <= i < |after| - 1 ==> !Ends(after[i], x)) && OwnReport(x, generation) !in after
    ensures forall i :: 0 <= i < |after| && Concerns(after[i], (press.device, press.event.code)) ==>
              VerdictAt(rules, before + [press], after, i) == Some(Swallow)
  {
    hide Perform, Run, Latched, Ends, Concerns;
    ReplacedIsLatched(rules, before, press, generation);
    LatchedUntilOwnReport(rules, before + [press], after, (press.device, press.event.code), generation);
  }

  /** And from its own report on: if the token has not been withdrawn the report is accepted and every
      repeat and the release pass; otherwise it is refused and they go on being swallowed. */
  lemma OwnReportDecides(rules: RuleSet, before: seq<Op>, press: Op, generation: nat, meanwhile: seq<Op>,
                         after: seq<Op>)
    requires Replaced(rules, before, press, generation)
    requires var x := (press.device, press.event.code);
             && GoesOn(meanwhile, x) && OwnReport(x, generation) !in meanwhile
             && (forall i :: 0 <= i < |after| - 1 ==> !Ends(after[i], x))
    ensures var x := (press.device, press.event.code);
            var report := OwnReport(x, generation);
            var accepted := forall i :: 0 <= i < |meanwhile| ==> !Withdraws(meanwhile[i], x, generation);
            var sofar := before + [press] + meanwhile;
            && Perform(Run(rules, sofar), report).accepted == accepted
            && forall i :: 0 <= i < |after| && Concerns(after[i], x) ==>
                 VerdictAt(rules, sofar + [report], after, i) == Some(if accepted then Pass else Swallow)
  {
    hide Run, Ends, Concerns, Withdraws;
    var x := (press.device, press.event.code);
    var report := OwnReport(x, generation);
    var sofar := before + [press] + meanwhile;
    ReplacedIsLatched(rules, before, press, generation);
    LatchedRun(rules, before + [press], meanwhile, x, generation);
    RunExtend(rules, sofar, report);
    var m := Run(rules, sofar);
    if x in m.pending {
      HandBackForwards(m, report, x);
      ForwardedUntilRelease(rules, sofar + [report], after, x);
    } else {
      StaleReportsAreInert(m, report.token, report.delivery);
      TokenGone(rules, sofar + [report], after, x);
    }
  }

  /** Without a token nothing can hand a consumed press back. */
  lemma TokenGone(rules: RuleSet, before: seq<Op>, after: seq<Op>, x: Press)
    requires var m := Run(rules, before); x in m.swallowed && x !in m.pending
    requires forall i :: 0 <= i < |after| - 1 ==> !Ends(after[i], x)
    ensures forall i :: 0 <= i < |after| && Concerns(after[i], x) ==>
        VerdictAt(rules, before, after, i) == Some(Swallow)
  {
    hide Perform, Ends, Concerns, Run;
    var unused := Unused(after);
    LatchedUntilOwnReport(rules, before, after, x, unused);
  }

  /** A token number that no operation of the sequence carries. */
  lemma {:induction false} Unused(ops: seq<Op>) returns (generation: nat)
    ensures forall i :: 0 <= i < |ops| && ops[i].Report? ==> ops[i].token.generation < generation
  {
    if |ops| == 0 {
      generation := 0;
    } else {
      var front := ops[..|ops| - 1];
      var bound := Unused(front);
      var last := ops[|ops| - 1];
      generation := if last.Report? && last.token.generation >= bound then last.token.generation + 1 else bound;
      forall i | 0 <= i < |ops| && ops[i].Report? ensures ops[i].token.generation < generation {
        if i < |front| { assert front[i] == ops[i]; }
      }
    }
  }

  // ---- tokens --------------------------------------------------------------------------

  ghost predicate Spent(m: Matcher, generation: nat) {
    generation <= m.generation && forall p :: p in m.pending ==> m.pending[p] != generation
  }

  lemma DispatchTokens(m: Matcher, device: DeviceId, e: KeyEvent, app: Option<string>, now: nat)
    ensures var t := Dispatch(m, device, e, app, now).0;
            && t.generation == m.generation
            && forall p :: p in t.pending ==> p in m.pending && t.pending[p] == m.pending[p]
  {
    var t := if m.active then Reconcile(m, (device, e.code), e.kind).0 else m;
    MatchShape(t, device, e, app, now);
    hide Match;
  }

  lemma SpentStaysSpent(m: Matcher, op: Op, generation: nat)
    requires Spent(m, generation)
    ensures Spent(Perform(m, op).state, generation)
    ensures op.Report? && op.token.generation == generation ==> !Perform(m, op).accepted
  {
    hide Dispatch;
    if op.Event? || op.EventWithDelivery? { DispatchTokens(m, op.device, op.event, op.app, op.now); }
  }

  lemma {:induction false} SpentForever(rules: RuleSet, before: seq<Op>, after: seq<Op>, generation: nat)
    requires Spent(Run(rules, before), generation)
    ensures Spent(Run(rules, before + after), generation)
    decreases |after|
  {
    hide Spent, Perform;
    if |after| == 0 {
      assert before + after == before;
    } else {
      var front := after[..|after| - 1];
      SpentForever(rules, before, front, generation);
      assert before + after == before + front + [after[|after| - 1]];
      RunExtend(rules, before + front, after[|after| - 1]);
      SpentStaysSpent(Run(rules, before + front), after[|after| - 1], generation);
    }
  }

  ghost predicate AcceptedAt(rules: RuleSet, ops: seq<Op>, i: int) {
    0 <= i < |ops| && ops[i].Report? && Perform(Run(rules, ops[..i]), ops[i]).accepted
  }

  lemma AcceptanceSpends(m: Matcher, op: Op)
    requires Consistent(m) && op.Report? && Perform(m, op).accepted
    ensures Spent(Perform(m, op).state, op.token.generation)
  {
  }

  /** Each token is accepted at most once ever, across releases, reloads and resets. */
  lemma TokensAreOneShot(rules: RuleSet, ops: seq<Op>, i: int, j: int)
    requires AcceptedAt(rules, ops, i) && AcceptedAt(rules, ops, j) && i < j
    ensures ops[i].token.generation != ops[j].token.generation
  {
    hide Spent, Perform;
    var m := Run(rules, ops[..i]);
    AlwaysConsistent(rules, ops[..i]);
    AcceptanceSpends(m, ops[i]);
    assert ops[..i] + [ops[i]] == ops[..i + 1];
    RunExtend(rules, ops[..i], ops[i]);
    SpentForever(rules, ops[..i + 1], ops[i + 1..j], ops[i].token.generation);
    assert ops[..i + 1] + ops[i + 1..j] == ops[..j];
    SpentStaysSpent(Run(rules, ops[..j]), ops[j], ops[i].token.generation);
  }

  /** A report that is not accepted changes nothing. */
  lemma StaleReportsAreInert(m: Matcher, token: Token, delivery: Delivery)
    requires !Perform(m, Report(token, delivery)).accepted
    ensures Perform(m, Report(token, delivery)).state == m && !Current(m, token)
  {
  }
}
