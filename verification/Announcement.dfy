/** What the router announces to the focused client: every call sends only entries that fit the key set
    announced so far, and takes it exactly to the key set of the new ownership table. */
module Announcement {
  import opened Wrappers
  import opened Routing
  import opened RouterRuns
  import opened PressLatch

  /** The key set a client should have after an entry: the one it would have if everything arrived. */
  function Announce(view: set<nat>, entry: Entry): set<nat> {
    match entry
    case Delivered(to, key, state) =>
      if to == Locker || state == Repeat then view else if state == Down then view + {key} else view - {key}
    case ReleasedToClient(keys, _, _) => view - keys
    case ClientEntered(keys) => keys
    case _ => view
  }

  function Announced(view: set<nat>, entries: seq<Entry>): set<nat>
    decreases |entries|
  {
    if entries == [] then view else Announced(Announce(view, entries[0]), entries[1..])
  }

  /** Downs only for keys the client has up; ups, repeats and releases only for keys it has down;
      a replacement pair only for a key it has up. */
  predicate Fits(view: set<nat>, entry: Entry) {
    match entry
    case Delivered(to, key, state) => to == Client ==> (state == Down <==> key !in view)
    case ReleasedToClient(keys, _, _) => keys <= view
    case ReplacementSent(_, target, _, _, _) => target !in view
    case _ => true
  }

  predicate Balanced(view: set<nat>, entries: seq<Entry>)
    decreases |entries|
  {
    entries == [] || (Fits(view, entries[0]) && Balanced(Announce(view, entries[0]), entries[1..]))
  }

  /** Physical events alternate: a down only for a press nobody owns, a repeat or release only for
      one that is owned. `PhysicalDevices` produces no other events. */
  predicate Disciplined(s: RouterState, a: Action) {
    a.DoKey? ==>
      && !Bypasses(s, a.event)
      && (a.event.state == Down <==> s.OwnerOf(a.event.device, a.event.key) == Owner.Unowned)
  }

  lemma EnterKey(s: RouterState, k: nat)
    ensures k in s.FocusEnterKeys() <==> exists d: nat :: OwnerIn(s.held, d, k) == Owner.Forwarded
  {
    if k in s.FocusEnterKeys() {
      var p :| p in s.held && s.held[p] == Owner.Forwarded && p.1 == k;
      assert OwnerIn(s.held, p.0, k) == Owner.Forwarded;
    }
    if d: nat :| OwnerIn(s.held, d, k) == Owner.Forwarded { assert (d, k) in s.held; }
  }

  lemma EnterAfterSet(s: RouterState, d: nat, k: nat, o: Owner)
    ensures s.SetOwner(d, k, o).FocusEnterKeys()
         == (s.FocusEnterKeys() - {k}) + (if o == Owner.Forwarded || s.OtherForwarded(d, k) then {k} else {})
  {
    var t := s.SetOwner(d, k, o);
    SetOwnerOf(s, d, k, o);
    forall k' ensures k' in t.FocusEnterKeys() <==>
      k' in (s.FocusEnterKeys() - {k}) + (if o == Owner.Forwarded || s.OtherForwarded(d, k) then {k} else {}) {
      EnterKey(s, k');
      EnterKey(t, k');
      if k' == k && o == Owner.Forwarded { assert OwnerIn(t.held, d, k) == Owner.Forwarded; }
      if k' != k && k' in s.FocusEnterKeys() {
        var d': nat :| OwnerIn(s.held, d', k') == Owner.Forwarded;
        assert OwnerIn(t.held, d', k') == Owner.Forwarded;
      }
      if k' == k && s.OtherForwarded(d, k) {
        var d': nat :| d' != d && OwnerIn(s.held, d', k) == Owner.Forwarded;
        assert OwnerIn(t.held, d', k) == Owner.Forwarded;
      }
    }
  }

  /** Whether the client has a key down is decided by one device's owner and the other devices'. */
  lemma EnterSplit(s: RouterState, d: nat, k: nat)
    ensures k in s.FocusEnterKeys() <==> s.OwnerOf(d, k) == Owner.Forwarded || s.OtherForwarded(d, k)
  {
    EnterKey(s, k);
  }

  lemma OwnedEvent(s: RouterState, e: Event, ticket: Option<Ticket>)
    requires !Bypasses(s, e) && e.state != Down && s.OwnerOf(e.device, e.key) != Owner.Unowned
    requires LockSealed(s)
    ensures var r := RouteOwned(s, e, ticket);
            var entry := Delivered(Listener(s), e.key, e.state);
            && (r.result.deliverClient ==> Fits(s.FocusEnterKeys(), entry)
                                           && Announce(s.FocusEnterKeys(), entry) == r.state.FocusEnterKeys())
            && (!r.result.deliverClient ==> r.state.FocusEnterKeys() == s.FocusEnterKeys())
            && LockSealed(r.state)
  {
    EnterSplit(s, e.device, e.key);
    EnterAfterSet(s, e.device, e.key, Owner.Unowned);
  }

  lemma StockDowngrade(s: RouterState, t: RouterState, e: Event)
    requires t.held == s.SetOwner(e.device, e.key, Owner.Forwarded).held
    ensures t.SetOwner(e.device, e.key, Owner.StockConsumed).held
        == s.SetOwner(e.device, e.key, Owner.StockConsumed).held
  {
  }

  /** The owner a fresh press ends with, after stock's admission is known, decides delivery: the
      client sees the down exactly when it becomes the key's only client-side hold. */
  lemma FreshOwner(s: RouterState, e: Event, ticket: Option<Ticket>, reply: Option<Decision>, now: nat,
                   answer: Delivery, admission: Option<bool>) returns (o: Owner)
    requires !Bypasses(s, e) && e.state == Down && s.OwnerOf(e.device, e.key) == Owner.Unowned && !s.locked
    ensures o == Owner.Forwarded || o == Owner.Consumed || o == Owner.StockConsumed
    ensures var r := ProcessKey(s, e, ticket, reply, now, answer, admission);
            && r.state.held == s.SetOwner(e.device, e.key, o).held
            && (r.result.deliverClient <==> o == Owner.Forwarded && !s.OtherForwarded(e.device, e.key))
            && r.state.locked == s.locked && (s.fatal ==> r.state.fatal)
            && (r.replaced.Some? ==> !s.TargetHeld(r.replaced.value.key))
  {
    hide RoutePress, OtherForwardedIn;
    var routed := RoutePress(s, e, ticket, reply, now, answer);
    PressShape(s, e, ticket, reply, now, answer);
    if routed.result.processStock {
      StockDowngrade(s, routed.state, e);
      o := if admission == Some(false) && (routed.result.outcome == Outcome.Merged || routed.result.deliverClient)
           then Owner.StockConsumed else Owner.Forwarded;
    } else {
      o := Owner.Consumed;
    }
  }

  lemma FreshPress(s: RouterState, e: Event, ticket: Option<Ticket>, reply: Option<Decision>, now: nat,
                   answer: Delivery, admission: Option<bool>)
    requires !Bypasses(s, e) && e.state == Down && s.OwnerOf(e.device, e.key) == Owner.Unowned && !s.locked
    ensures var r := ProcessKey(s, e, ticket, reply, now, answer, admission);
            var entry := Delivered(Client, e.key, e.state);
            && (r.result.deliverClient ==> Fits(s.FocusEnterKeys(), entry)
                                           && Announce(s.FocusEnterKeys(), entry) == r.state.FocusEnterKeys())
            && (!r.result.deliverClient ==> r.state.FocusEnterKeys() == s.FocusEnterKeys())
            && (r.replaced.Some? ==> r.replaced.value.key !in s.FocusEnterKeys())
            && !r.state.locked && (s.fatal ==> r.state.fatal)
  {
    var o := FreshOwner(s, e, ticket, reply, now, answer, admission);
    var call := ProcessKey(s, e, ticket, reply, now, answer, admission).replaced;
    EnterSplit(s, e.device, e.key);
    EnterAfterSet(s, e.device, e.key, o);
    if call.Some? { EnterKey(s, call.value.key); }
  }

  lemma LockedPress(s: RouterState, e: Event, ticket: Option<Ticket>, reply: Option<Decision>, now: nat,
                    answer: Delivery, admission: Option<bool>)
    requires !Bypasses(s, e) && e.state == Down && s.OwnerOf(e.device, e.key) == Owner.Unowned && s.locked
        && LockSealed(s)
    ensures var r := ProcessKey(s, e, ticket, reply, now, answer, admission);
            && r.state.FocusEnterKeys() == s.FocusEnterKeys() == {}
            && r.replaced.None? && LockSealed(r.state) && r.state.fatal == s.fatal
  {
    forall o { EnterAfterSet(s, e.device, e.key, o); }
  }

  lemma KeyStepFits(s: RouterState, a: Action)
    requires a.DoKey? && LockSealed(s) && Disciplined(s, a)
    ensures var effect := Apply(s, a);
            && Balanced(s.FocusEnterKeys(), effect.entries)
            && Announced(s.FocusEnterKeys(), effect.entries) == effect.state.FocusEnterKeys()
            && LockSealed(effect.state) && (s.fatal ==> effect.state.fatal)
  {
    var e := a.event;
    var step := ProcessKey(s, e, a.ticket, a.reply, a.now, a.answers.delivery, a.admission);
    if e.state != Down {
      OwnedEvent(s, e, a.ticket);
      assert step.state == RouteOwned(s, e, a.ticket).state && step.replaced.None?;
    } else if s.locked {
      LockedPress(s, e, a.ticket, a.reply, a.now, a.answers.delivery, a.admission);
    } else {
      FreshPress(s, e, a.ticket, a.reply, a.now, a.answers.delivery, a.admission);
    }
    var sent := Sent(a.ticket, step.replaced, a.now, a.answers);
    var delivered := Delivered(Listener(s), e.key, e.state);
    Single(s.FocusEnterKeys(), delivered);
    if sent != [] {
      Single(s.FocusEnterKeys(), sent[0]);
      Pair(s.FocusEnterKeys(), sent[0], delivered);
      assert sent == [sent[0]] && sent + [] == sent && sent + [delivered] == [sent[0], delivered];
    } else {
      assert sent + [] == [] && sent + [delivered] == [delivered];
    }
  }

  lemma FinishFits(s: RouterState, a: Action)
    requires a.DoFinish?
    ensures var effect := Apply(s, a);
            && Balanced(s.FocusEnterKeys(), effect.entries)
            && Announced(s.FocusEnterKeys(), effect.entries) == effect.state.FocusEnterKeys()
            && (LockSealed(s) ==> LockSealed(effect.state)) && (s.fatal ==> effect.state.fatal)
  {
    var call := FinishRelease(s, a.finished, a.reply, a.deliveredOriginal, a.now, a.answers.delivery,
        a.original).replaced;
    if call.Some? { EnterKey(s, call.value.key); }
  }

  lemma RevokeFits(s: RouterState, answers: Answers)
    ensures Revoke(s, answers).FocusEnterKeys() == {} && LockSealed(Revoke(s, answers))
  {
  }

  lemma LockFits(s: RouterState, answers: Answers)
    ensures Lock(s, answers).FocusEnterKeys() == {} && LockSealed(Lock(s, answers))
  {
  }

  /** Retirement releases exactly the keys that lose their last client-side hold. */
  lemma RetireFits(s: RouterState, id: nat, answers: Answers)
    requires id in s.live
    ensures Retire(s, id, answers).FocusEnterKeys() == s.FocusEnterKeys() - SoleKeys(s, id)
    ensures SoleKeys(s, id) <= s.FocusEnterKeys()
    ensures LockSealed(s) ==> LockSealed(Retire(s, id, answers))
  {
    var t := Retire(s, id, answers);
    forall k ensures k in t.FocusEnterKeys() <==> k in s.FocusEnterKeys() && k !in SoleKeys(s, id) {
      EnterSplit(s, id, k);
      if k in t.FocusEnterKeys() {
        var p :| p in t.held && t.held[p] == Owner.Forwarded && p.1 == k;
        assert OwnerIn(s.held, p.0, k) == Owner.Forwarded && p.0 != id;
      }
      if OtherForwardedIn(s.held, id, k) {
        var d: nat :| d != id && OwnerIn(s.held, d, k) == Owner.Forwarded;
        assert (d, k) in t.held;
      }
    }
  }

  /** One call of any kind: what it sends fits the announced key set, and takes it to the new one. */
  lemma StepFits(s: RouterState, a: Action)
    requires LockSealed(s) && Disciplined(s, a)
    ensures var effect := Apply(s, a);
            && LockSealed(effect.state)
            && Balanced(s.FocusEnterKeys(), effect.entries)
            && Announced(s.FocusEnterKeys(), effect.entries) == effect.state.FocusEnterKeys()
  {
    hide Add, Begin, Settlement, ProcessKey, FinishRelease, Revoke, Retire, KeysOwnedBy, SoleKeysIn;
    var keys := s.FocusEnterKeys();
    match a {
      case DoAdd(id) => AddKeeps(s, id);
      case DoBegin(e, now, budget, releaseAction) =>
        var ticket := Begin(s, e, now, budget, releaseAction).1;
        BeginKeeps(s, e, now, budget, releaseAction);
        if ticket.Some? { Single(keys, Began(ticket.value, now, budget)); }
      case DoSettlement(e, now, budget) => SettlementKeeps(s, e, now, budget);
      case DoKey(_, _, _, _, _, _) => KeyStepFits(s, a);
      case DoFinish(_, _, _, _, _, _) => FinishFits(s, a);
      case DoRevoke(answers) => RevokeFits(s, answers); Pair(keys, Release(keys, answers), Revoked);
      case DoLock(answers) => LockFits(s, answers); Pair(keys, Release(keys, answers), LockEntered);
      case DoRetire(id, answers) =>
        if id in s.live {
          RetireFits(s, id, answers);
          Pair(keys, Release(SoleKeys(s, id), answers), DeviceRetired(id));
        }
      case _ =>
    }
  }

  lemma Single(view: set<nat>, a: Entry)
    ensures Announced(view, [a]) == Announce(view, a)
    ensures Balanced(view, [a]) == Fits(view, a)
  {
    assert [a][1..] == [];
  }

  lemma Pair(view: set<nat>, a: Entry, b: Entry)
    ensures Announced(view, [a, b]) == Announce(Announce(view, a), b)
    ensures Balanced(view, [a, b]) == (Fits(view, a) && Fits(Announce(view, a), b))
  {
    assert [a, b][1..] == [b];
    Single(Announce(view, a), b);
  }

  ghost predicate DisciplinedRun(actions: seq<Action>) {
    forall i :: 0 <= i < |actions| ==> Disciplined(Run(actions[..i]).router, actions[i])
  }

  lemma DisciplinedExtend(actions: seq<Action>, a: Action)
    requires DisciplinedRun(actions) && Disciplined(Run(actions).router, a)
    ensures DisciplinedRun(actions + [a])
  {
    hide Disciplined, Run;
    forall i | 0 <= i < |actions| + 1 ensures Disciplined(Run((actions + [a])[..i]).router, (actions + [a])[i]) {
      if i < |actions| { assert (actions + [a])[..i] == actions[..i]; } else { assert (actions + [a])[..i] == actions; }
    }
  }
}
