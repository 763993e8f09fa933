/** What the focused client has seen. The router knows what it asked the output to send and what the
    output confirmed; what reached the client beyond that is open. On every run the keys the client has
    down include those the router announces and exceed them by no more than what was left in doubt; while
    no output is uncertain the two are equal. */
module ClientView {
  import opened Wrappers
  import opened Routing
  import opened RouterRuns
  import opened PressLatch
  import opened Announcement

  // ---- what reached the client ---------------------------------------------------------

  /** What an entry does to the keys the client has down. A lost release leaves the key down, and a
      replacement delivered in part may leave its target down. */
  function Observe(view: set<nat>, entry: Entry): set<nat> {
    match entry
    case ReleasedToClient(keys, _, lost) => view - (keys - lost)
    case ReplacementSent(_, target, _, delivery, stuck) =>
      if delivery == Accepted then view - {target} else if stuck then view + {target} else view
    case _ => Announce(view, entry)
  }

  function View(view: set<nat>, entries: seq<Entry>): set<nat>
    decreases |entries|
  {
    if entries == [] then view else View(Observe(view, entries[0]), entries[1..])
  }

  /** The keys in doubt after an entry, as far as the output's answers tell: unconfirmed releases and
      targets of partial replacements, until the key is released again or a client is entered. */
  function Question(doubt: set<nat>, entry: Entry): set<nat> {
    match entry
    case Delivered(to, key, state) => if to == Client && state == Up then doubt - {key} else doubt
    case ReleasedToClient(keys, doubtful, _) => (doubt - keys) + doubtful
    case ReplacementSent(_, target, _, delivery, _) =>
      if delivery == Accepted then doubt - {target}
      else if delivery == Delivery.PartialFatal then doubt + {target} else doubt
    case ClientEntered(_) => {}
    case _ => doubt
  }

  function Doubt(doubt: set<nat>, entries: seq<Entry>): set<nat>
    decreases |entries|
  {
    if entries == [] then doubt else Doubt(Question(doubt, entries[0]), entries[1..])
  }

  /** Only what was not confirmed can go wrong. */
  predicate Possible(entry: Entry) {
    match entry
    case ReleasedToClient(keys, doubtful, lost) => lost <= doubtful <= keys
    case ReplacementSent(_, _, _, delivery, stuck) => stuck ==> delivery == Delivery.PartialFatal
    case _ => true
  }

  /** Everything that could go wrong did. */
  function Worsen(entry: Entry): Entry {
    match entry
    case ReleasedToClient(keys, doubtful, _) => entry.(lost := doubtful)
    case ReplacementSent(_, _, _, delivery, _) => entry.(stuck := delivery == Delivery.PartialFatal)
    case _ => entry
  }

  lemma EntryBounds(keys: set<nat>, view: set<nat>, doubt: set<nat>, entry: Entry)
    requires Possible(entry) && Fits(keys, entry) && keys <= view <= keys + doubt
    ensures Announce(keys, entry) <= Observe(view, entry) <= Announce(keys, entry) + Question(doubt, entry)
    ensures entry == Worsen(entry) && view == keys + doubt ==>
              Observe(view, entry) == Announce(keys, entry) + Question(doubt, entry)
  {
  }

  lemma {:induction false} EntriesBounds(keys: set<nat>, view: set<nat>, doubt: set<nat>, entries: seq<Entry>)
    requires forall i :: 0 <= i < |entries| ==> Possible(entries[i])
    requires Balanced(keys, entries) && keys <= view <= keys + doubt
    ensures Announced(keys, entries) <= View(view, entries) <= Announced(keys, entries) + Doubt(doubt, entries)
    ensures (forall i :: 0 <= i < |entries| ==> entries[i] == Worsen(entries[i])) && view == keys + doubt ==>
              View(view, entries) == Announced(keys, entries) + Doubt(doubt, entries)
    decreases |entries|
  {
    if entries != [] {
      var entry := entries[0];
      EntryBounds(keys, view, doubt, entry);
      hide Announce, Observe, Question, Fits, Possible, Worsen;
      EntriesBounds(Announce(keys, entry), Observe(view, entry), Question(doubt, entry), entries[1..]);
    }
  }

  lemma {:induction false} ViewAppend(view: set<nat>, doubt: set<nat>, a: seq<Entry>, b: seq<Entry>)
    ensures View(view, a + b) == View(View(view, a), b)
    ensures Doubt(doubt, a + b) == Doubt(Doubt(doubt, a), b)
    decreases |a|
  {
    hide Observe, Question;
    if a == [] {
      assert a + b == b;
    } else {
      assert (a + b)[1..] == a[1..] + b;
      ViewAppend(Observe(view, a[0]), Question(doubt, a[0]), a[1..], b);
    }
  }

  lemma EntriesPossible(s: RouterState, a: Action)
    ensures forall i :: 0 <= i < |Apply(s, a).entries| ==> Possible(Apply(s, a).entries[i])
  {
  }

  /** The keys the client has down, and those in doubt, after a run. */
  ghost function Seen(actions: seq<Action>): set<nat> {
    View({}, Run(actions).log)
  }

  ghost function Doubtful(actions: seq<Action>): set<nat> {
    Doubt({}, Run(actions).log)
  }

  ghost predicate Bounded(actions: seq<Action>) {
    var keys := Run(actions).router.FocusEnterKeys();
    keys <= Seen(actions) <= keys + Doubtful(actions)
  }

  lemma SeenStep(front: seq<Action>, a: Action)
    ensures var entries := Apply(Run(front).router, a).entries;
            && Seen(front + [a]) == View(Seen(front), entries)
            && Doubtful(front + [a]) == Doubt(Doubtful(front), entries)
            && Run(front + [a]).router == Apply(Run(front).router, a).state
  {
    hide Apply;
    RunExtend(front, a);
    ViewAppend({}, {}, Run(front).log, Apply(Run(front).router, a).entries);
  }

  lemma DisciplinedFront(actions: seq<Action>)
    requires DisciplinedRun(actions) && actions != []
    ensures DisciplinedRun(actions[..|actions| - 1])
    ensures Disciplined(Run(actions[..|actions| - 1]).router, actions[|actions| - 1])
    ensures actions == actions[..|actions| - 1] + [actions[|actions| - 1]]
  {
    hide Disciplined, Run;
    var front := actions[..|actions| - 1];
    forall i | 0 <= i < |front| ensures Disciplined(Run(front[..i]).router, front[i]) {
      assert front[..i] == actions[..i];
    }
    assert actions[..|actions| - 1] == front;
  }

  /** On every disciplined run, certain or not: the client has down every announced key, and beyond those
      at most the keys in doubt. */
  lemma {:induction false} ViewBounds(actions: seq<Action>)
    requires DisciplinedRun(actions)
    ensures LockSealed(Run(actions).router) && Bounded(actions)
    decreases |actions|
  {
    if actions != [] {
      hide Apply, DisciplinedRun, Disciplined, LockSealed, View, Doubt, Possible;
      var front, a := actions[..|actions| - 1], actions[|actions| - 1];
      DisciplinedFront(actions);
      ViewBounds(front);
      var s := Run(front).router;
      StepFits(s, a);
      EntriesPossible(s, a);
      EntriesBounds(s.FocusEnterKeys(), Seen(front), Doubtful(front), Apply(s, a).entries);
      SeenStep(front, a);
    } else {
      NothingSeen();
    }
  }

  lemma NothingSeen()
    ensures LockSealed(Run([]).router) && Bounded([])
        && Seen([]) == Doubtful([]) == {} == Run([]).router.FocusEnterKeys()
  {
  }

  // ---- the bound is exact --------------------------------------------------------------

  /** The same call with the same answers, and everything unconfirmed gone wrong. */
  function WorstCase(a: Action): Action {
    match a
    case DoKey(e, ticket, reply, now, answers, admission) =>
      DoKey(e, ticket, reply, now, WorstAnswers(answers), admission)
    case DoFinish(ticket, reply, delivered, now, answers, original) =>
      DoFinish(ticket, reply, delivered, now, WorstAnswers(answers), original)
    case DoRevoke(answers) => DoRevoke(WorstAnswers(answers))
    case DoLock(answers) => DoLock(WorstAnswers(answers))
    case DoRetire(id, answers) => DoRetire(id, WorstAnswers(answers))
    case _ => a
  }

  function WorstAnswers(answers: Answers): Answers {
    answers.(lost := answers.unconfirmed, stuck := true)
  }

  /** Two runs of the same calls whose outputs gave the same answers. */
  predicate SameAnswers(a: seq<Action>, b: seq<Action>) {
    |a| == |b| && forall i :: 0 <= i < |a| ==> WorstCase(a[i]) == WorstCase(b[i])
  }

  function WorstRun(actions: seq<Action>): (worst: seq<Action>)
    ensures |worst| == |actions| && forall i :: 0 <= i < |worst| ==> worst[i] == WorstCase(actions[i])
  {
    if actions == [] then [] else WorstRun(actions[..|actions| - 1]) + [WorstCase(actions[|actions| - 1])]
  }

  function WorsenAll(entries: seq<Entry>): (worst: seq<Entry>)
    ensures |worst| == |entries| && forall i :: 0 <= i < |worst| ==> worst[i] == Worsen(entries[i])
  {
    if entries == [] then [] else [Worsen(entries[0])] + WorsenAll(entries[1..])
  }

  lemma WorsenEach(entries: seq<Entry>, worst: seq<Entry>)
    requires |worst| == |entries| && forall i :: 0 <= i < |entries| ==> worst[i] == Worsen(entries[i])
    ensures worst == WorsenAll(entries)
  {
    hide Worsen;
  }

  lemma WorstSent(ticket: Option<Ticket>, call: Option<ReplaceCall>, now: nat, answers: Answers)
    ensures Sent(ticket, call, now, WorstAnswers(answers)) == WorsenAll(Sent(ticket, call, now, answers))
  {
    WorsenEach(Sent(ticket, call, now, answers), Sent(ticket, call, now, WorstAnswers(answers)));
  }

  lemma WorsenDelivered(sent: seq<Entry>, to: Recipient, key: nat, state: KeyState, delivers: bool)
    ensures var tail := if delivers then [Delivered(to, key, state)] else [];
            WorsenAll(sent + tail) == WorsenAll(sent) + tail
  {
    var tail := if delivers then [Delivered(to, key, state)] else [];
    WorsenEach(sent + tail, WorsenAll(sent) + tail);
  }

  lemma WorstKey(s: RouterState, a: Action)
    requires a.DoKey?
    ensures Apply(s, WorstCase(a)).state == Apply(s, a).state
    ensures Apply(s, WorstCase(a)).entries == WorsenAll(Apply(s, a).entries)
  {
    hide ProcessKey, Sent, WorsenAll;
    var step := ProcessKey(s, a.event, a.ticket, a.reply, a.now, a.answers.delivery, a.admission);
    WorstSent(a.ticket, step.replaced, a.now, a.answers);
    WorsenDelivered(Sent(a.ticket, step.replaced, a.now, a.answers), Listener(s), a.event.key, a.event.state,
                    step.result.deliverClient);
  }

  lemma WorstFinish(s: RouterState, a: Action)
    requires a.DoFinish?
    ensures Apply(s, WorstCase(a)).state == Apply(s, a).state
    ensures Apply(s, WorstCase(a)).entries == WorsenAll(Apply(s, a).entries)
  {
    hide FinishRelease, Sent, WorsenAll;
    var step := FinishRelease(s, a.finished, a.reply, a.deliveredOriginal, a.now, a.answers.delivery, a.original);
    WorstSent(Some(a.finished), step.replaced, a.now, a.answers);
  }

  lemma WorstRelease(s: RouterState, a: Action)
    requires a.DoRevoke? || a.DoLock? || a.DoRetire?
    ensures Apply(s, WorstCase(a)).state == Apply(s, a).state
    ensures Apply(s, WorstCase(a)).entries == WorsenAll(Apply(s, a).entries)
  {
    hide ModifierSides, KeysOwnedBy, SoleKeysIn, Quarantine, DropDevice;
    WorsenEach(Apply(s, a).entries, Apply(s, WorstCase(a)).entries);
  }

  lemma WorstElse(s: RouterState, a: Action)
    requires WorstCase(a) == a && !a.DoKey? && !a.DoFinish? && !a.DoRevoke? && !a.DoLock? && !a.DoRetire?
    ensures Apply(s, a).entries == WorsenAll(Apply(s, a).entries)
  {
    hide Add, Begin, Settlement;
    WorsenEach(Apply(s, a).entries, Apply(s, a).entries);
  }

  /** The router cannot tell the two apart, and the log differs only in what went wrong. */
  lemma WorstStep(s: RouterState, a: Action)
    ensures Apply(s, WorstCase(a)).state == Apply(s, a).state
    ensures Apply(s, WorstCase(a)).entries == WorsenAll(Apply(s, a).entries)
  {
    hide Apply;
    if a.DoKey? {
      WorstKey(s, a);
    } else if a.DoFinish? {
      WorstFinish(s, a);
    } else if a.DoRevoke? || a.DoLock? || a.DoRetire? {
      WorstRelease(s, a);
    } else {
      WorstElse(s, a);
    }
  }

  lemma {:induction false} DoubtIgnoresFate(doubt: set<nat>, entries: seq<Entry>)
    ensures Doubt(doubt, WorsenAll(entries)) == Doubt(doubt, entries)
    decreases |entries|
  {
    if entries != [] {
      assert Question(doubt, Worsen(entries[0])) == Question(doubt, entries[0]);
      hide Question, Worsen;
      DoubtIgnoresFate(Question(doubt, entries[0]), entries[1..]);
      assert WorsenAll(entries)[1..] == WorsenAll(entries[1..]);
    }
  }

  lemma {:induction false} WorstAttains(actions: seq<Action>)
    requires DisciplinedRun(actions)
    ensures Run(WorstRun(actions)).router == Run(actions).router
    ensures Doubtful(WorstRun(actions)) == Doubtful(actions)
    ensures Seen(WorstRun(actions)) == Run(actions).router.FocusEnterKeys() + Doubtful(actions)
    decreases |actions|
  {
    hide Apply, DisciplinedRun, Disciplined, LockSealed, View, Doubt, Possible, Worsen, WorstCase;
    if actions != [] {
      var front, a := actions[..|actions| - 1], actions[|actions| - 1];
      DisciplinedFront(actions);
      WorstAttains(front);
      var s := Run(front).router;
      WorstStep(s, a);
      var entries := Apply(s, a).entries;
      WorsenTwice(entries);
      SeenStep(front, a);
      SeenStep(WorstRun(front), WorstCase(a));
      DoubtIgnoresFate(Doubtful(front), entries);
      ViewBounds(front);
      StepFits(s, a);
      EntriesPossible(s, a);
      WorsenKeeps(s.FocusEnterKeys(), entries);
      EntriesBounds(s.FocusEnterKeys(), Seen(WorstRun(front)), Doubtful(front), WorsenAll(entries));
    } else {
      NothingSeen();
    }
  }

  lemma WorsenTwice(entries: seq<Entry>)
    ensures forall i :: 0 <= i < |entries| ==> WorsenAll(entries)[i] == Worsen(WorsenAll(entries)[i])
  {
  }

  lemma {:induction false} WorsenKeeps(keys: set<nat>, entries: seq<Entry>)
    requires forall i :: 0 <= i < |entries| ==> Possible(entries[i])
    ensures forall i :: 0 <= i < |entries| ==> Possible(WorsenAll(entries)[i])
    ensures Balanced(keys, WorsenAll(entries)) == Balanced(keys, entries)
    ensures Announced(keys, WorsenAll(entries)) == Announced(keys, entries)
    decreases |entries|
  {
    if entries != [] {
      var e := entries[0];
      assert Announce(keys, Worsen(e)) == Announce(keys, e) && Fits(keys, Worsen(e)) == Fits(keys, e);
      assert Possible(Worsen(e));
      hide Announce, Fits, Worsen, Possible;
      WorsenKeeps(Announce(keys, e), entries[1..]);
      assert WorsenAll(entries)[1..] == WorsenAll(entries[1..]);
    }
  }

  lemma {:induction false} SameRouter(a: seq<Action>, b: seq<Action>)
    requires SameAnswers(a, b)
    ensures Run(a).router == Run(b).router && Doubtful(a) == Doubtful(b)
    decreases |a|
  {
    hide Apply, View, Doubt, WorstCase;
    if a != [] {
      var front, other := a[..|a| - 1], b[..|b| - 1];
      var x, y := a[|a| - 1], b[|b| - 1];
      SameRouter(front, other);
      var s := Run(front).router;
      WorstStep(s, x);
      WorstStep(s, y);
      SeenStep(front, x);
      SeenStep(other, y);
      DoubtIgnoresFate(Doubtful(front), Apply(s, x).entries);
      DoubtIgnoresFate(Doubtful(front), Apply(s, y).entries);
      assert a == front + [x] && b == other + [y];
    }
  }

  lemma SameDiscipline(a: seq<Action>, b: seq<Action>)
    requires SameAnswers(a, b) && DisciplinedRun(a)
    ensures DisciplinedRun(b)
  {
    hide Run;
    forall i | 0 <= i < |b| ensures Disciplined(Run(b[..i]).router, b[i]) {
      SameRouter(a[..i], b[..i]);
      assert Disciplined(Run(a[..i]).router, a[i]);
      SameEvent(Run(a[..i]).router, a[i], b[i]);
    }
  }

  lemma SameEvent(s: RouterState, a: Action, b: Action)
    requires WorstCase(a) == WorstCase(b) && Disciplined(s, a)
    ensures Disciplined(s, b)
  {
  }

  /** What the output's answers allow to conclude, exactly: the client is sure to have down precisely the
      announced keys if and only if no key outside them is in doubt. */
  lemma CertainExactlyWhen(actions: seq<Action>)
    requires DisciplinedRun(actions)
    ensures (forall other :: SameAnswers(actions, other) ==> Seen(other) == Run(actions).router.FocusEnterKeys())
       <==> Doubtful(actions) <= Run(actions).router.FocusEnterKeys()
  {
    hide Seen, Doubtful, Run, DisciplinedRun;
    var keys := Run(actions).router.FocusEnterKeys();
    WorstAttains(actions);
    WorstSame(actions);
    if Doubtful(actions) <= keys {
      forall other | SameAnswers(actions, other) ensures Seen(other) == keys {
        SameRouter(actions, other);
        SameDiscipline(actions, other);
        ViewBounds(other);
      }
    }
  }

  lemma WorstSame(actions: seq<Action>)
    ensures SameAnswers(actions, WorstRun(actions))
  {
    forall i | 0 <= i < |actions| ensures WorstCase(actions[i]) == WorstCase(WorstRun(actions)[i]) {
      WorstIdempotent(actions[i]);
    }
  }

  lemma WorstIdempotent(a: Action)
    ensures WorstCase(WorstCase(a)) == WorstCase(a)
  {
  }

  // ---- conservation while the output is certain ----------------------------------------

  ghost predicate UncertainAt(actions: seq<Action>, i: int) {
    0 <= i < |actions| && Uncertain(Run(actions[..i]).router, actions[i])
  }

  /** A client was entered and nothing has been uncertain since. */
  ghost predicate EnteredSince(actions: seq<Action>, q: int) {
    0 <= q < |actions| && actions[q] == DoEnter && forall p :: q < p < |actions| ==> !UncertainAt(actions, p)
  }

  ghost predicate RecoversAt(actions: seq<Action>, i: int) {
    && 0 <= i < |actions| && actions[i].DoRecover?
    && RecoverRetiredOutput(Run(actions[..i]).router, actions[i].proof).1
  }

  /** Every recovery of the run comes after an enter that nothing uncertain followed. */
  ghost predicate FreshlyRecovered(actions: seq<Action>) {
    forall i :: RecoversAt(actions, i) ==> exists q :: EnteredSince(actions[..i], q)
  }

  lemma CertainStep(s: RouterState, a: Action)
    requires !Uncertain(s, a)
    ensures Doubt({}, Apply(s, a).entries) == {}
  {
    var entries := Apply(s, a).entries;
    assert |entries| <= 2 && forall i :: 0 <= i < |entries| ==> Question({}, entries[i]) == {};
    NoQuestion(entries);
  }

  lemma {:induction false} NoQuestion(entries: seq<Entry>)
    requires forall i :: 0 <= i < |entries| ==> Question({}, entries[i]) == {}
    ensures Doubt({}, entries) == {}
    decreases |entries|
  {
    hide Question;
    if entries != [] {
      NoQuestion(entries[1..]);
    }
  }

  lemma EnterSettles(s: RouterState, doubt: set<nat>)
    ensures Doubt(doubt, Apply(s, DoEnter).entries) == {}
  {
    assert Apply(s, DoEnter).entries[1..] == [];
  }

  lemma {:induction false} NothingDoubtedSince(actions: seq<Action>, q: int)
    requires EnteredSince(actions, q)
    ensures Doubtful(actions) == {}
    decreases |actions|
  {
    hide Apply, Doubt, Uncertain;
    var front, a := actions[..|actions| - 1], actions[|actions| - 1];
    assert actions == front + [a];
    SeenStep(front, a);
    if q == |actions| - 1 {
      EnterSettles(Run(front).router, Doubtful(front));
    } else {
      UncertainPrefix(actions, |front|);
      NothingDoubtedSince(front, q);
      assert !UncertainAt(actions, |actions| - 1);
      CertainStep(Run(front).router, a);
    }
  }

  lemma UncertainPrefix(actions: seq<Action>, n: nat)
    requires n <= |actions|
    ensures forall i :: 0 <= i < n ==> UncertainAt(actions[..n], i) == UncertainAt(actions, i)
    ensures forall i :: 0 <= i < n ==> RecoversAt(actions[..n], i) == RecoversAt(actions, i)
  {
    hide Run, Uncertain;
    forall i | 0 <= i < n
      ensures UncertainAt(actions[..n], i) == UncertainAt(actions, i)
      ensures RecoversAt(actions[..n], i) == RecoversAt(actions, i)
    {
      assert actions[..n][..i] == actions[..i];
    }
  }

  lemma FreshFront(actions: seq<Action>)
    requires FreshlyRecovered(actions) && actions != []
    ensures FreshlyRecovered(actions[..|actions| - 1])
  {
    hide EnteredSince, Run;
    var front := actions[..|actions| - 1];
    UncertainPrefix(actions, |front|);
    forall i | 0 <= i < |front| && RecoversAt(front, i) ensures exists q :: EnteredSince(front[..i], q) {
      assert RecoversAt(actions, i) && front[..i] == actions[..i];
    }
  }

  /** While the latch is clear nothing is in doubt. */
  lemma {:induction false} ClearMeansCertain(actions: seq<Action>)
    requires FreshlyRecovered(actions)
    ensures !Run(actions).router.fatal ==> Doubtful(actions) == {}
    decreases |actions|
  {
    hide Apply, Doubt, Uncertain, FreshlyRecovered, EnteredSince;
    if actions != [] {
      var front, a := actions[..|actions| - 1], actions[|actions| - 1];
      assert actions == front + [a];
      FreshFront(actions);
      ClearMeansCertain(front);
      SeenStep(front, a);
      var s := Run(front).router;
      FatalExactly(s, a);
      if RecoversAt(actions, |actions| - 1) {
        LastRecovery(actions);
        var q :| EnteredSince(front, q);
        NothingDoubtedSince(front, q);
        NotUncertain(s, a);
        CertainStep(s, a);
      } else if !Run(actions).router.fatal {
        CertainStep(s, a);
      }
    } else {
      NothingSeen();
    }
  }

  lemma LastRecovery(actions: seq<Action>)
    requires FreshlyRecovered(actions) && RecoversAt(actions, |actions| - 1)
    ensures var front := actions[..|actions| - 1]; exists q :: EnteredSince(front, q)
  {
  }

  lemma NotUncertain(s: RouterState, a: Action)
    requires a.DoRecover?
    ensures !Uncertain(s, a)
  {
  }

  /** Client-view conservation: on every disciplined run whose recoveries are fresh, while no output is
      uncertain, the client has down exactly the announced keys. */
  lemma Conservation(actions: seq<Action>)
    requires DisciplinedRun(actions) && FreshlyRecovered(actions)
    ensures !Run(actions).router.fatal ==> Seen(actions) == Run(actions).router.FocusEnterKeys()
  {
    ViewBounds(actions);
    ClearMeansCertain(actions);
  }

  /** Every call made while the output is certain is balanced against what the client has seen. */
  lemma EveryStepBalanced(actions: seq<Action>, i: nat)
    requires i < |actions| && DisciplinedRun(actions) && FreshlyRecovered(actions[..i])
    requires !Run(actions[..i]).router.fatal
    ensures Balanced(Seen(actions[..i]), Apply(Run(actions[..i]).router, actions[i]).entries)
  {
    hide Apply, Seen, FreshlyRecovered, Balanced;
    var front := actions[..i];
    assert DisciplinedRun(front) by {
      assert forall j :: 0 <= j < |front| ==> front[..j] == actions[..j];
    }
    ViewBounds(front);
    Conservation(front);
    StepFits(Run(front).router, actions[i]);
  }

  // ---- recovering without an enter -----------------------------------------------------

  const PRESS: Event := Event(1, 30, Down, true)
  const LOSSY: Answers := Answers(Accepted, {30}, false, {30}, false)

  ghost predicate Reaches(actions: seq<Action>, r: RouterState, seen: set<nat>) {
    DisciplinedRun(actions) && Run(actions).router == r && Seen(actions) == seen
  }

  lemma ReachesNext(front: seq<Action>, r: RouterState, seen: set<nat>, a: Action, effect: Effect)
    requires Reaches(front, r, seen) && Disciplined(r, a) && effect == Apply(r, a)
    ensures Reaches(front + [a], effect.state, View(seen, effect.entries))
  {
    hide Apply, Disciplined, DisciplinedRun, Run, Observe;
    SeenStep(front, a);
    DisciplinedExtend(front, a);
  }

  function Unplugged(): Action { DoRetire(1, LOSSY) }
  function Pressed(): Action { DoKey(PRESS, None, None, 0, LOSSY, None) }
  function Plugged(): RouterState { UnlockConfirmed(Initial()).(live := {1}, lastGeneration := 1) }
  function Holding(): RouterState { Plugged().(held := map[(1, 30) := Owner.Forwarded]) }

  function Lost(): RouterState {
    Plugged().(live := {}, held := map[], epoch := Plugged().epoch + 1, fatal := true)
  }

  lemma PlugEffects()
    ensures Apply(Initial(), DoUnlock) == Effect(UnlockConfirmed(Initial()), [Unlocked])
    ensures Apply(UnlockConfirmed(Initial()), DoAdd(1)) == Effect(Plugged(), [])
  {
  }

  lemma PressEffect()
    ensures Apply(Plugged(), Pressed()) == Effect(Holding(), [Delivered(Client, 30, Down)])
    ensures Disciplined(Plugged(), Pressed())
  {
    var s := Plugged();
    assert s.held == map[] && !s.OtherForwarded(1, 30);
    var step := Route(s, PRESS, None, None, 0, Accepted);
    assert step.state == Holding() && step.replaced.None? && step.result.deliverClient;
  }

  lemma UnplugEffect()
    ensures Apply(Holding(), Unplugged())
         == Effect(Lost(), [ReleasedToClient({30}, {30}, {30}), DeviceRetired(1)])
  {
    var s := Holding();
    assert SoleKeys(s, 1) == {30} by {
      assert OwnerIn(s.held, 1, 30) == Owner.Forwarded;
    }
    assert WithoutDevice(s, 1).held == map[] && s.live - {1} == {};
    assert Retire(s, 1, LOSSY) == Lost();
    assert {30} * LOSSY.unconfirmed * LOSSY.lost == {30};
  }

  /** A key is pressed, its keyboard is unplugged, and the release is neither confirmed nor received. */
  lemma LostRelease()
    ensures Reaches([] + [DoUnlock] + [DoAdd(1)] + [Pressed()] + [Unplugged()], Lost(), {30})
  {
    hide Apply, Plugged, Holding, Lost;
    NothingSeen();
    PlugEffects();
    ReachesNext([], Initial(), {}, DoUnlock, Effect(UnlockConfirmed(Initial()), [Unlocked]));
    assert View({}, [Unlocked]) == {};
    ReachesNext([] + [DoUnlock], UnlockConfirmed(Initial()), {}, DoAdd(1), Effect(Plugged(), []));
    PressEffect();
    ReachesNext([] + [DoUnlock] + [DoAdd(1)], Plugged(), {}, Pressed(),
        Effect(Holding(), [Delivered(Client, 30, Down)]));
    assert View({}, [Delivered(Client, 30, Down)]) == {30};
    UnplugEffect();
    var entries := [ReleasedToClient({30}, {30}, {30}), DeviceRetired(1)];
    ReachesNext([] + [DoUnlock] + [DoAdd(1)] + [Pressed()], Holding(), {30}, Unplugged(), Effect(Lost(), entries));
    assert entries[1..] == [DeviceRetired(1)] && View({30}, entries) == {30};
  }

  /** Clearing the latch without an enter breaks conservation: the client keeps a key down that nobody
      holds, and the router calls the output certain. */
  lemma BareRecoveryBreaksConservation()
    ensures var actions := [] + [DoUnlock] + [DoAdd(1)] + [Pressed()] + [Unplugged()] + [DoRecover(true)];
            && DisciplinedRun(actions) && !Run(actions).router.fatal
            && Seen(actions) == {30} && Run(actions).router.FocusEnterKeys() == {}
  {
    hide DisciplinedRun, Run, Seen;
    var front := [] + [DoUnlock] + [DoAdd(1)] + [Pressed()] + [Unplugged()];
    LostRelease();
    ReachesNext(front, Lost(), {30}, DoRecover(true), Apply(Lost(), DoRecover(true)));
    assert View({30}, [OutputRecovered]) == {30};
  }
}
