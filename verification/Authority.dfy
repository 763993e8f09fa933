/** A ticket authorises at most one replacement, only before its deadline, and only while nothing
    has happened that could have changed whose keyboard focus or session it was issued for. */
module Authority {
  import opened Wrappers
  import opened Routing
  import opened RouterRuns

  /** Revocation, lock, unlock, focus change, disconnection, device retirement and output recovery all sever
      every decision made before them. */
  predicate Severs(entry: Entry) {
    entry.Revoked? || entry.LockEntered? || entry.Unlocked? || entry.FocusMoved? || entry.Disconnected?
    || entry.DeviceRetired? || entry.OutputRecovered?
  }

  predicate Spends(entry: Entry, ticket: Ticket) {
    entry.ReplacementSent? && entry.ticket == ticket
  }

  /** The ticket was issued at log position `i`, with a budget of at most ten milliseconds. */
  predicate IssuedAt(log: seq<Entry>, i: int, ticket: Ticket) {
    && 0 <= i < |log| && log[i].Began? && log[i].ticket == ticket
    && log[i].budget <= MAX_BUDGET_NS && ticket.deadline == log[i].at + log[i].budget
  }

  ghost predicate Unspent(log: seq<Entry>, ticket: Ticket) {
    forall m :: 0 <= m < |log| ==> !Spends(log[m], ticket)
  }

  ghost predicate UnseveredSince(log: seq<Entry>, i: int) {
    forall m :: i < m < |log| && 0 <= m ==> !Severs(log[m])
  }

  /** Some issue of the ticket with nothing severing since. */
  ghost predicate FreshIssue(log: seq<Entry>, ticket: Ticket) {
    exists i :: IssuedAt(log, i, ticket) && UnseveredSince(log, i)
  }

  /** The replacement at position `j` was authorised by a fresh, unspent, unexpired ticket. */
  ghost predicate AuthorisedAt(log: seq<Entry>, j: int)
    requires 0 <= j < |log| && log[j].ReplacementSent?
  {
    && FreshIssue(log[..j], log[j].ticket)
    && Unspent(log[..j], log[j].ticket)
    && log[j].at < log[j].ticket.deadline
  }

  ghost predicate AllAuthorised(log: seq<Entry>) {
    forall j :: 0 <= j < |log| && log[j].ReplacementSent? ==> AuthorisedAt(log, j)
  }

  /** What the router still remembers about a ticket it might spend. */
  ghost predicate Remembered(w: World, held: Option<Ticket>) {
    held.Some? ==>
      && held.value.sequence <= w.router.sequence
      && held.value.epoch <= w.router.epoch
      && Unspent(w.log, held.value)
      && (held.value.epoch == w.router.epoch ==> FreshIssue(w.log, held.value))
  }

  ghost predicate SequencesBounded(w: World) {
    forall m :: 0 <= m < |w.log| && (w.log[m].Began? || w.log[m].ReplacementSent?) ==>
        w.log[m].ticket.sequence <= w.router.sequence
  }

  ghost predicate Invariant(w: World) {
    && AllAuthorised(w.log)
    && SequencesBounded(w)
    && Remembered(w, w.router.pending)
    && Remembered(w, w.router.released)
    && (w.router.pending.Some? && w.router.released.Some? ==>
          w.router.pending.value.sequence != w.router.released.value.sequence)
  }

  // ---- extending the log -----------------------------------------------------------

  lemma AppendAuthorised(log: seq<Entry>, ext: seq<Entry>)
    requires AllAuthorised(log)
    requires forall m :: 0 <= m < |ext| && ext[m].ReplacementSent? ==> AuthorisedAt(log + ext, |log| + m)
    ensures AllAuthorised(log + ext)
  {
    forall j | 0 <= j < |log + ext| && (log + ext)[j].ReplacementSent? ensures AuthorisedAt(log + ext, j) {
      if j < |log| { assert (log + ext)[..j] == log[..j]; assert AuthorisedAt(log, j); }
      else { assert ext[j - |log|].ReplacementSent?; assert AuthorisedAt(log + ext, |log| + (j - |log|)); }
    }
  }

  lemma AppendFresh(log: seq<Entry>, ext: seq<Entry>, ticket: Ticket)
    requires FreshIssue(log, ticket)
    requires forall m :: 0 <= m < |ext| ==> !Severs(ext[m])
    ensures FreshIssue(log + ext, ticket)
  {
    var i :| IssuedAt(log, i, ticket) && UnseveredSince(log, i);
    assert IssuedAt(log + ext, i, ticket);
  }

  /** A remembered ticket survives a step that neither spends it nor severs it within its epoch. */
  lemma StillRemembered(w: World, w': World, ext: seq<Entry>, held: Option<Ticket>)
    requires Remembered(w, held) && w'.log == w.log + ext
    requires w.router.sequence <= w'.router.sequence
    requires held.Some? ==> forall m :: 0 <= m < |ext| ==> !Spends(ext[m], held.value)
    requires w.router.epoch < w'.router.epoch
        || (w.router.epoch == w'.router.epoch && forall m :: 0 <= m < |ext| ==> !Severs(ext[m]))
    ensures Remembered(w', held)
  {
    if held.Some? && held.value.epoch == w.router.epoch == w'.router.epoch { AppendFresh(w.log, ext, held.value); }
  }

  /** A step that issues and spends nothing. */
  lemma QuietStep(w: World, w': World, ext: seq<Entry>)
    requires Invariant(w) && w'.log == w.log + ext
    requires forall m :: 0 <= m < |ext| ==> !ext[m].ReplacementSent? && !ext[m].Began?
    requires w.router.sequence <= w'.router.sequence
    requires w.router.epoch < w'.router.epoch
        || (w.router.epoch == w'.router.epoch && forall m :: 0 <= m < |ext| ==> !Severs(ext[m]))
    requires w'.router.pending == w.router.pending || w'.router.pending.None?
    requires w'.router.released == w.router.released || w'.router.released.None?
             || (w'.router.released == w.router.pending && w'.router.pending.None?)
    ensures Invariant(w')
  {
    AppendAuthorised(w.log, ext);
    StillRemembered(w, w', ext, w.router.pending);
    StillRemembered(w, w', ext, w.router.released);
  }

  lemma SpendAuthorised(log: seq<Entry>, ext: seq<Entry>, ticket: Ticket)
    requires AllAuthorised(log) && FreshIssue(log, ticket) && Unspent(log, ticket)
    requires ext != [] && ext[0].ReplacementSent? && ext[0].ticket == ticket && ext[0].at < ticket.deadline
    requires forall m :: 1 <= m < |ext| ==> ext[m].Delivered?
    ensures AllAuthorised(log + ext)
  {
    hide FreshIssue, Unspent;
    assert (log + ext)[..|log|] == log;
    AppendAuthorised(log, ext);
  }

  /** A step that spends one remembered ticket and forgets it. */
  lemma SpendingStep(w: World, w': World, ext: seq<Entry>, ticket: Ticket)
    requires Invariant(w) && w'.log == w.log + ext
    requires ext != [] && ext[0].ReplacementSent? && ext[0].ticket == ticket && ext[0].at < ticket.deadline
    requires forall m :: 1 <= m < |ext| ==> ext[m].Delivered?
    requires w'.router.sequence == w.router.sequence && w'.router.epoch == w.router.epoch == ticket.epoch
    requires (w.router.pending == Some(ticket) && w'.router.pending.None? && w'.router.released == w.router.released)
          || (w.router.released == Some(ticket) && w'.router.released.None? && w'.router.pending == w.router.pending)
    ensures Invariant(w')
  {
    SpendAuthorised(w.log, ext, ticket);
    hide AllAuthorised, FreshIssue, Unspent;
    StillRemembered(w, w', ext, w'.router.pending);
    StillRemembered(w, w', ext, w'.router.released);
  }

  lemma IssuingStep(w: World, w': World, ticket: Ticket, at: nat, budget: nat)
    requires Invariant(w) && w.router.pending.None?
    requires w' == World(w.router.(sequence := w.router.sequence + 1, pending := Some(ticket)),
        w.log + [Began(ticket, at, budget)])
    requires ticket.epoch == w.router.epoch && ticket.sequence == w.router.sequence + 1
    requires ticket.deadline == at + budget && budget <= MAX_BUDGET_NS
    ensures Invariant(w')
  {
    var ext := [Began(ticket, at, budget)];
    AppendAuthorised(w.log, ext);
    StillRemembered(w, w', ext, w.router.released);
    assert IssuedAt(w'.log, |w.log|, ticket) && UnseveredSince(w'.log, |w.log|);
  }

  /** What routing an event may do to the two remembered tickets. */
  ghost predicate TicketsAfter(s: RouterState, t: RouterState, ticket: Option<Ticket>, now: nat, replaced: bool) {
    && t.epoch == s.epoch && t.sequence == s.sequence
    && (replaced ==>
          && ticket.Some? && s.pending == ticket && ticket.value.epoch == s.epoch && now < ticket.value.deadline
          && t.pending.None? && t.released == s.released)
    && (t.pending == s.pending || t.pending.None?)
    && (t.released == s.released || t.released.None? || (t.released == s.pending && t.pending.None?))
  }

  lemma RouteTickets(s: RouterState, e: Event, ticket: Option<Ticket>, reply: Option<Decision>, now: nat,
                     answer: Delivery)
    ensures var r := Route(s, e, ticket, reply, now, answer);
            TicketsAfter(s, r.state, ticket, now, r.replaced.Some?)
  {
    hide RoutePress, IsModifier, OtherForwardedIn;
    PressShape(s, e, ticket, reply, now, answer);
  }

  lemma KeyStepAuthority(w: World, a: Action)
    requires Invariant(w) && a.DoKey?
    ensures Invariant(Next(w, a))
  {
    var r := Route(w.router, a.event, a.ticket, a.reply, a.now, a.answers.delivery);
    RouteTickets(w.router, a.event, a.ticket, a.reply, a.now, a.answers.delivery);
    var t := ProcessKey(w.router, a.event, a.ticket, a.reply, a.now, a.answers.delivery, a.admission);
    assert t.replaced == r.replaced && t.state == r.state.(held := t.state.held);
    if r.replaced.Some? {
      SpendingStep(w, Next(w, a), Apply(w.router, a).entries, a.ticket.value);
    } else {
      QuietStep(w, Next(w, a), Apply(w.router, a).entries);
    }
  }

  lemma BeginKeepsAuthority(w: World, a: Action)
    requires Invariant(w) && a.DoBegin?
    ensures Invariant(Next(w, a))
  {
    hide Invariant;
    var (t, ticket) := Begin(w.router, a.event, a.now, a.budget, a.releaseAction);
    if ticket.Some? {
      IssuingStep(w, Next(w, a), ticket.value, a.now, a.budget);
    } else {
      QuietStep(w, Next(w, a), []);
    }
  }

  lemma FinishKeepsAuthority(w: World, a: Action)
    requires Invariant(w) && a.DoFinish?
    ensures Invariant(Next(w, a))
  {
    hide Invariant, TargetRefused, ModifierSides, KeysOwnedBy;
    var step := FinishRelease(w.router, a.finished, a.reply, a.deliveredOriginal, a.now, a.answers.delivery,
        a.original);
    if step.replaced.Some? {
      SpendingStep(w, Next(w, a), Apply(w.router, a).entries, a.finished);
    } else {
      QuietStep(w, Next(w, a), []);
    }
  }

  /** A call that neither issues nor spends, and opens a new epoch whenever it severs. */
  ghost predicate Quiet(s: RouterState, effect: Effect) {
    var t := effect.state;
    && (forall m :: 0 <= m < |effect.entries| ==> !effect.entries[m].ReplacementSent? && !effect.entries[m].Began?)
    && s.sequence <= t.sequence
    && (s.epoch < t.epoch
        || (s.epoch == t.epoch && forall m :: 0 <= m < |effect.entries| ==> !Severs(effect.entries[m])))
    && (t.pending == s.pending || t.pending.None?) && (t.released == s.released || t.released.None?)
  }

  lemma OtherCallsAreQuiet(s: RouterState, a: Action)
    requires !a.DoBegin? && !a.DoKey? && !a.DoFinish?
    ensures Quiet(s, Apply(s, a))
  {
    hide Add, Settlement, ModifierSides, KeysOwnedBy, SoleKeysIn, Quarantine;
    match a {
      case DoAdd(id) => AddKeeps(s, id);
      case DoSettlement(e, now, budget) => SettlementKeeps(s, e, now, budget);
      case _ =>
    }
  }

  lemma StepKeepsAuthority(w: World, a: Action)
    requires Invariant(w)
    ensures Invariant(Next(w, a))
  {
    hide Apply, Invariant;
    match a {
      case DoBegin(_, _, _, _) => BeginKeepsAuthority(w, a);
      case DoKey(_, _, _, _, _, _) => KeyStepAuthority(w, a);
      case DoFinish(_, _, _, _, _, _) => FinishKeepsAuthority(w, a);
      case _ =>
        OtherCallsAreQuiet(w.router, a);
        QuietStep(w, Next(w, a), Apply(w.router, a).entries);
    }
  }

  /** Single-use, fresh authority on every run, whatever tickets and replies the callers present:
      each replacement follows an issue of its ticket at most ten milliseconds before its deadline,
      with nothing severing in between, and no ticket is spent twice. */
  lemma {:induction false} SingleUseAuthority(actions: seq<Action>)
    ensures var log := Run(actions).log;
            && Invariant(Run(actions))
            && AllAuthorised(log)
            && (forall i, j :: 0 <= i < j < |log| && log[i].ReplacementSent? && log[j].ReplacementSent? ==>
                  log[i].ticket != log[j].ticket)
    decreases |actions|
  {
    if actions != [] {
      var front := actions[..|actions| - 1];
      SingleUseAuthority(front);
      StepKeepsAuthority(Run(front), actions[|actions| - 1]);
    }
    var log := Run(actions).log;
    forall i, j | 0 <= i < j < |log| && log[i].ReplacementSent? && log[j].ReplacementSent?
      ensures log[i].ticket != log[j].ticket
    {
      assert AuthorisedAt(log, j);
      assert log[..j][i] == log[i];
    }
  }

  // ---- what the counters count ----------------------------------------------------------

  predicate MovesFocus(entry: Entry) {
    entry.Unlocked? || entry.FocusMoved? || entry.OutputRecovered?
  }

  function Severances(log: seq<Entry>): nat {
    if log == [] then 0 else Severances(log[..|log| - 1]) + if Severs(log[|log| - 1]) then 1 else 0
  }

  function FocusMoves(log: seq<Entry>): nat {
    if log == [] then 0 else FocusMoves(log[..|log| - 1]) + if MovesFocus(log[|log| - 1]) then 1 else 0
  }

  lemma {:induction false} CountsAppend(log: seq<Entry>, more: seq<Entry>)
    ensures Severances(log + more) == Severances(log) + Severances(more)
    ensures FocusMoves(log + more) == FocusMoves(log) + FocusMoves(more)
    decreases |more|
  {
    hide Severs, MovesFocus;
    if more == [] {
      assert log + more == log;
    } else {
      CountsAppend(log, more[..|more| - 1]);
      assert (log + more)[..|log + more| - 1] == log + more[..|more| - 1];
    }
  }

  lemma {:induction false} CountsNothing(entries: seq<Entry>)
    requires forall m :: 0 <= m < |entries| ==> !Severs(entries[m])
    ensures Severances(entries) == 0 && FocusMoves(entries) == 0
    decreases |entries|
  {
    if entries != [] { CountsNothing(entries[..|entries| - 1]); }
  }

  lemma CountsOne(entry: Entry)
    ensures Severances([entry]) == (if Severs(entry) then 1 else 0)
    ensures FocusMoves([entry]) == (if MovesFocus(entry) then 1 else 0)
  {
    assert [entry][..0] == [];
  }

  lemma CountsReleased(release: Entry, entry: Entry)
    requires release.ReleasedToClient?
    ensures Severances([release, entry]) == (if Severs(entry) then 1 else 0)
    ensures FocusMoves([release, entry]) == (if MovesFocus(entry) then 1 else 0)
  {
    hide Severs, MovesFocus;
    assert [release, entry] == [release] + [entry];
    CountsAppend([release], [entry]);
    CountsOne(release);
    CountsOne(entry);
    assert !Severs(release) && !MovesFocus(release) by { PlainRelease(release); }
  }

  lemma PlainRelease(release: Entry)
    requires release.ReleasedToClient?
    ensures !Severs(release) && !MovesFocus(release)
  {
  }

  /** Calls that stay in their epoch and focus. */
  predicate Stays(a: Action) {
    a.DoAdd? || a.DoBegin? || a.DoSettlement? || a.DoKey? || a.DoFinish? || a.DoEnter?
  }

  lemma CountersStay(s: RouterState, a: Action)
    requires Stays(a)
    ensures var effect := Apply(s, a);
            && effect.state.epoch == s.epoch && effect.state.focus == s.focus
            && Severances(effect.entries) == 0 && FocusMoves(effect.entries) == 0
  {
    hide Add, Begin, Settlement, ProcessKey, FinishRelease, KeysOwnedBy, Severances, FocusMoves;
    CountsNothing(Apply(s, a).entries);
    match a {
      case DoAdd(id) => AddKeeps(s, id);
      case DoBegin(e, now, budget, releaseAction) => BeginKeeps(s, e, now, budget, releaseAction);
      case DoSettlement(e, now, budget) => SettlementKeeps(s, e, now, budget);
      case DoKey(e, ticket, reply, now, answers, admission) =>
        KeyKeeps(s, e, ticket, reply, now, answers.delivery, admission);
      case DoFinish(ticket, reply, delivered, now, answers, original) =>
        FinishKeeps(s, ticket, reply, delivered, now, answers.delivery, original);
      case DoEnter =>
    }
  }

  lemma CountersStep(s: RouterState, a: Action)
    ensures var effect := Apply(s, a);
            && effect.state.epoch == s.epoch + Severances(effect.entries)
            && effect.state.focus == s.focus + FocusMoves(effect.entries)
  {
    hide Add, Begin, Settlement, ProcessKey, FinishRelease, ModifierSides, KeysOwnedBy, SoleKeysIn, Quarantine,
         Severances, FocusMoves;
    var entries := Apply(s, a).entries;
    match a {
      case DoFocus => CountsOne(FocusMoved);
      case DoRevoke(answers) => CountsReleased(entries[0], Revoked);
      case DoLock(answers) => CountsReleased(entries[0], LockEntered);
      case DoUnlock => CountsOne(Unlocked);
      case DoDisconnect => CountsOne(Disconnected);
      case DoRetire(id, answers) =>
        if id in s.live { CountsReleased(entries[0], DeviceRetired(id)); } else { CountsNothing(entries); }
      case DoRecover(proof) =>
        if RecoverRetiredOutput(s, proof).1 { CountsOne(OutputRecovered); } else { CountsNothing(entries); }
      case _ => CountersStay(s, a);
    }
  }

  /** Over every run the epoch counts what severs tickets and the focus number what moves the focus, so that no
      ticket issued before either can be mistaken for one issued after. */
  lemma {:induction false} CountersCount(actions: seq<Action>)
    ensures var w := Run(actions);
            w.router.epoch == 1 + Severances(w.log) && w.router.focus == 1 + FocusMoves(w.log)
    decreases |actions|
  {
    hide Apply, Severances, FocusMoves;
    if actions == [] {
      CountsNothing([]);
    } else {
      var front, a := actions[..|actions| - 1], actions[|actions| - 1];
      CountersCount(front);
      CountersStep(Run(front).router, a);
      CountsAppend(Run(front).log, Apply(Run(front).router, a).entries);
    }
  }
}
