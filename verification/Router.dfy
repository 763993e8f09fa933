/** The router as the compositor runs it: a fixed table of sixteen devices by 768 keys, updated in
    place. Every method is proved to take the step `Routing` specifies and to make exactly the
    output calls that step implies. */
module RouterTable {
  import opened Wrappers
  import opened Routing

  datatype OutputCall =
    | ReplaceCalled(call: ReplaceCall)
    | ReleaseCalled(key: nat)
    | ReconcileCalled(sides: Mask)

  /** The compositor-side output during one router call: it records what it is asked and answers
      from a script the environment chose. */
  class Output {
    const script: Answers
    var calls: seq<OutputCall>

    constructor (script: Answers)
      ensures this.script == script && calls == []
    {
      this.script := script;
      calls := [];
    }

    method Replace(key: nat, requested: Mask, restore: Mask) returns (delivery: Delivery)
      modifies this
      ensures delivery == script.delivery
      ensures calls == old(calls) + [ReplaceCalled(ReplaceCall(key, requested, restore))]
    {
      calls := calls + [ReplaceCalled(ReplaceCall(key, requested, restore))];
      delivery := script.delivery;
    }

    method Release(key: nat) returns (confirmed: bool)
      modifies this
      ensures confirmed == (key !in script.unconfirmed)
      ensures calls == old(calls) + [ReleaseCalled(key)]
    {
      calls := calls + [ReleaseCalled(key)];
      confirmed := key !in script.unconfirmed;
    }

    method ReconcileModifiers(sides: Mask) returns (confirmed: bool)
      modifies this
      ensures confirmed == script.modifiersConfirmed
      ensures calls == old(calls) + [ReconcileCalled(sides)]
    {
      calls := calls + [ReconcileCalled(sides)];
      confirmed := script.modifiersConfirmed;
    }
  }

  ghost function LiveOf(ids: seq<nat>): set<nat> {
    set i | 0 <= i < |ids| && ids[i] != 0 :: ids[i]
  }

  ghost predicate Distinct(ids: seq<nat>) {
    forall i, j :: 0 <= i < j < |ids| && ids[i] != 0 ==> ids[i] != ids[j]
  }

  /** The table is full exactly when every slot has a generation. */
  lemma {:induction false} LiveCount(ids: seq<nat>)
    requires Distinct(ids)
    ensures |LiveOf(ids)| <= |ids|
    ensures |LiveOf(ids)| == |ids| <==> 0 !in ids
    decreases |ids|
  {
    if ids != [] {
      var front := ids[..|ids| - 1];
      var last := ids[|ids| - 1];
      LiveCount(front);
      assert ids == front + [last];
      if last == 0 {
        assert LiveOf(ids) == LiveOf(front);
      } else {
        assert LiveOf(ids) == LiveOf(front) + {last};
        assert last !in LiveOf(front);
      }
    }
  }

  /** As many releases as there are keys, each for one of the keys, and every key released: each
      key exactly once, in whatever order the table was scanned. */
  ghost predicate ReleasesEachOnce(calls: seq<OutputCall>, keys: set<nat>) {
    && |calls| == |keys|
    && (forall c :: c in calls ==> c.ReleaseCalled? && c.key in keys)
    && (forall k :: k in keys ==> ReleaseCalled(k) in calls)
  }

  // ---- a scan of the table, row by row -------------------------------------------------

  /** Cells before row `i`, column `key` are done. */
  predicate Before(j: int, k: int, i: int, key: int) {
    j < i || (j == i && k < key)
  }

  /** A flag is set for every scanned cell of the owner, and only for keys the owner has. */
  ghost predicate Marked(flags: seq<bool>, ids: seq<nat>, held: Ownership, owner: Owner, i: int, key: int) {
    && |flags| == KEY_COUNT && |ids| == DEVICE_COUNT
    && (forall k :: 0 <= k < KEY_COUNT && flags[k] ==> k in KeysOwnedBy(held, owner))
    && (forall j, k :: 0 <= j < DEVICE_COUNT && 0 <= k < KEY_COUNT && Before(j, k, i, key) ==>
          OwnerIn(held, ids[j], k) == owner ==> flags[k])
  }

  lemma OwnedKey(held: Ownership, id: nat, key: nat, owner: Owner)
    requires OwnerIn(held, id, key) == owner != Owner.Unowned
    ensures (id, key) in held && key in KeysOwnedBy(held, owner)
  {
    assert (id, key) in held && held[(id, key)] == owner;
  }

  lemma NothingMarked(flags: seq<bool>, ids: seq<nat>, held: Ownership, owner: Owner)
    requires |flags| == KEY_COUNT && |ids| == DEVICE_COUNT && forall k :: 0 <= k < KEY_COUNT ==> !flags[k]
    ensures Marked(flags, ids, held, owner, 0, 0)
  {
    hide KeysOwnedBy, OwnerIn;
  }

  lemma MarkNext(flags: seq<bool>, ids: seq<nat>, held: Ownership, owner: Owner, i: int, key: nat)
    requires Marked(flags, ids, held, owner, i, key) && 0 <= i < DEVICE_COUNT && key < KEY_COUNT
    requires owner != Owner.Unowned
    ensures Marked(flags[key := flags[key] || OwnerIn(held, ids[i], key) == owner], ids, held, owner, i, key + 1)
  {
    hide KeysOwnedBy, OwnerIn;
    if OwnerIn(held, ids[i], key) == owner {
      OwnedKey(held, ids[i], key, owner);
    }
  }

  lemma MarkRowEnd(flags: seq<bool>, ids: seq<nat>, held: Ownership, owner: Owner, i: int)
    requires Marked(flags, ids, held, owner, i, KEY_COUNT)
    ensures Marked(flags, ids, held, owner, i + 1, 0)
  {
    hide KeysOwnedBy, OwnerIn;
  }

  /** Nothing is recorded for the empty generation. */
  ghost predicate Tracked(ids: seq<nat>, held: Ownership) {
    && |ids| == DEVICE_COUNT && Distinct(ids)
    && (forall p :: p in held ==> p.0 != 0 && p.1 < KEY_COUNT && held[p] != Owner.Unowned && p.0 in ids)
  }

  lemma MarkSkip(flags: seq<bool>, ids: seq<nat>, held: Ownership, owner: Owner, i: int)
    requires Marked(flags, ids, held, owner, i, 0) && Tracked(ids, held) && 0 <= i < DEVICE_COUNT && ids[i] == 0
    requires owner != Owner.Unowned
    ensures Marked(flags, ids, held, owner, i + 1, 0)
  {
    hide KeysOwnedBy;
    assert forall k: nat :: OwnerIn(held, 0, k) == Owner.Unowned;
  }

  lemma MarkDone(flags: seq<bool>, ids: seq<nat>, held: Ownership, owner: Owner)
    requires Marked(flags, ids, held, owner, DEVICE_COUNT, 0) && Tracked(ids, held)
    ensures forall k :: 0 <= k < KEY_COUNT ==> (flags[k] <==> k in KeysOwnedBy(held, owner))
  {
    forall k | 0 <= k < KEY_COUNT && k in KeysOwnedBy(held, owner) ensures flags[k] {
      var p :| p in held && held[p] == owner && p.1 == k;
      var j :| 0 <= j < DEVICE_COUNT && ids[j] == p.0;
      assert Before(j, k, DEVICE_COUNT, 0) && OwnerIn(held, ids[j], k) == owner;
    }
  }

  /** Scanned presses are quarantined, the rest as at the start. */
  ghost predicate Sweeping(ids: seq<nat>, held: Ownership, start: Ownership, i: int, key: int) {
    && |ids| == DEVICE_COUNT && held.Keys == start.Keys
    && (forall j, k :: 0 <= j < DEVICE_COUNT && 0 <= k < KEY_COUNT ==>
          OwnerIn(held, ids[j], k) == SweptOwner(start, ids[j], k, Before(j, k, i, key)))
  }

  function SweptOwner(start: Ownership, id: nat, k: nat, done: bool): Owner {
    if done && OwnerIn(start, id, k) != Owner.Unowned then Owner.Quarantined else OwnerIn(start, id, k)
  }

  /** The keys released so far are client keys, and cover the scanned client presses. */
  ghost predicate Covered(ids: seq<nat>, start: Ownership, i: int, key: int, seen: set<nat>) {
    && |ids| == DEVICE_COUNT && seen <= KeysOwnedBy(start, Owner.Forwarded)
    && (forall j, k :: 0 <= j < DEVICE_COUNT && 0 <= k < KEY_COUNT && Before(j, k, i, key) ==>
          OwnerIn(start, ids[j], k) == Owner.Forwarded ==> k in seen)
  }

  lemma SweepingHere(ids: seq<nat>, held: Ownership, start: Ownership, i: int, key: nat)
    requires Sweeping(ids, held, start, i, key) && 0 <= i < DEVICE_COUNT && key < KEY_COUNT
    ensures OwnerIn(held, ids[i], key) == OwnerIn(start, ids[i], key)
  {
    hide OwnerIn;
    assert !Before(i, key, i, key);
  }

  lemma SweepingPast(ids: seq<nat>, held: Ownership, start: Ownership, i: int, key: nat)
    requires Sweeping(ids, held, start, i, key) && 0 <= i < DEVICE_COUNT && key < KEY_COUNT
    requires OwnerIn(start, ids[i], key) == Owner.Unowned
    ensures Sweeping(ids, held, start, i, key + 1)
  {
    hide OwnerIn;
  }

  lemma SweepingWrite(ids: seq<nat>, held: Ownership, start: Ownership, i: int, key: nat)
    requires Sweeping(ids, held, start, i, key) && 0 <= i < DEVICE_COUNT && key < KEY_COUNT && Distinct(ids)
    requires OwnerIn(start, ids[i], key) != Owner.Unowned && ids[i] != 0
    ensures Sweeping(ids, held[(ids[i], key) := Owner.Quarantined], start, i, key + 1)
  {
    SweepingHere(ids, held, start, i, key);
    var after := held[(ids[i], key) := Owner.Quarantined];
    assert (ids[i], key) in held && after.Keys == held.Keys;
    forall j, k | 0 <= j < DEVICE_COUNT && 0 <= k < KEY_COUNT
      ensures OwnerIn(after, ids[j], k) == SweptOwner(start, ids[j], k, Before(j, k, i, key + 1))
    {
      WriteElsewhere(held, ids[i], key, ids[j], k);
      hide OwnerIn;
      if (j, k) != (i, key) && ids[j] == ids[i] { assert j == i; }
    }
  }

  lemma WriteElsewhere(held: Ownership, id: nat, key: nat, id': nat, key': nat)
    ensures var after := held[(id, key) := Owner.Quarantined];
            OwnerIn(after, id', key') ==
              if (id', key') == (id, key) then Owner.Quarantined else OwnerIn(held, id', key')
  {
  }

  lemma SweepingRowEnd(ids: seq<nat>, held: Ownership, start: Ownership, i: int, seen: set<nat>)
    requires Sweeping(ids, held, start, i, KEY_COUNT) && Covered(ids, start, i, KEY_COUNT, seen)
    ensures Sweeping(ids, held, start, i + 1, 0) && Covered(ids, start, i + 1, 0, seen)
  {
    hide OwnerIn, KeysOwnedBy, SweptOwner;
    assert forall j, k :: 0 <= k < KEY_COUNT ==> (Before(j, k, i, KEY_COUNT) <==> Before(j, k, i + 1, 0));
  }

  lemma CoveredNext(ids: seq<nat>, start: Ownership, i: int, key: nat, seen: set<nat>, more: set<nat>)
    requires Covered(ids, start, i, key, seen) && 0 <= i < DEVICE_COUNT && key < KEY_COUNT
    requires more == seen || (more == seen + {key} && OwnerIn(start, ids[i], key) == Owner.Forwarded)
    requires OwnerIn(start, ids[i], key) == Owner.Forwarded ==> key in more
    ensures Covered(ids, start, i, key + 1, more)
  {
    hide OwnerIn, KeysOwnedBy;
    if OwnerIn(start, ids[i], key) == Owner.Forwarded {
      OwnedKey(start, ids[i], key, Owner.Forwarded);
    }
  }

  lemma SweepBegins(ids: seq<nat>, start: Ownership)
    requires |ids| == DEVICE_COUNT
    ensures Sweeping(ids, start, start, 0, 0) && Covered(ids, start, 0, 0, {})
  {
    hide OwnerIn, KeysOwnedBy;
  }

  lemma SweepDone(ids: seq<nat>, held: Ownership, start: Ownership, done: set<nat>)
    requires Tracked(ids, start) && Sweeping(ids, held, start, DEVICE_COUNT, 0)
    requires Covered(ids, start, DEVICE_COUNT, 0, done)
    ensures held == Quarantine(start) && done == KeysOwnedBy(start, Owner.Forwarded)
  {
    forall p | p in start ensures held[p] == Owner.Quarantined && (start[p] == Owner.Forwarded ==> p.1 in done) {
      var j :| 0 <= j < DEVICE_COUNT && ids[j] == p.0;
      assert Before(j, p.1, DEVICE_COUNT, 0);
      assert OwnerIn(start, ids[j], p.1) == start[p] && OwnerIn(held, ids[j], p.1) == held[p];
    }
  }

  class Router {
    const ids: array<nat>
    const owners: array2<Owner>
    var epoch: nat
    var focus: nat
    var sequence: nat
    var lastGeneration: nat
    var locked: bool
    var fatal: bool
    var pending: Option<Ticket>
    var released: Option<Ticket>
    var lastBeginReject: BeginReject
    ghost var held: Ownership

    ghost function Model(): RouterState
      reads this, ids
    {
      RouterState(LiveOf(ids[..]), held, epoch, focus, sequence, lastGeneration, locked, fatal, pending, released)
    }

    ghost predicate Valid()
      reads this, ids, owners
    {
      Sized() && TableAgrees() && Model().WellFormed()
    }

    ghost predicate Sized() {
      ids.Length == DEVICE_COUNT && owners.Length0 == DEVICE_COUNT && owners.Length1 == KEY_COUNT
    }

    /** The table holds what the ghost ownership map says, slot by slot. */
    ghost predicate TableAgrees()
      reads this`held, ids, owners
      requires Sized()
    {
      && Distinct(ids[..])
      && (forall i, k :: 0 <= i < DEVICE_COUNT && 0 <= k < KEY_COUNT ==> owners[i, k] == OwnerIn(held, ids[i], k))
    }

    constructor ()
      ensures Valid() && Model() == Initial() && fresh(ids) && fresh(owners)
    {
      ids := new nat[DEVICE_COUNT](_ => 0);
      owners := new Owner[DEVICE_COUNT, KEY_COUNT]((_, _) => Owner.Unowned);
      epoch, focus, sequence, lastGeneration := 1, 1, 0, 0;
      locked, fatal := true, false;
      pending, released := None, None;
      lastBeginReject := BeginReject.Clear;
      held := map[];
      new;
      assert LiveOf(ids[..]) == {};
    }

    method Find(id: nat) returns (slot: int)
      requires Valid()
      ensures -1 <= slot < DEVICE_COUNT
      ensures slot >= 0 <==> id in Model().live
      ensures slot >= 0 ==> ids[slot] == id && id != 0
    {
      slot := 0;
      while slot < DEVICE_COUNT
        invariant 0 <= slot <= DEVICE_COUNT
        invariant forall i :: 0 <= i < slot ==> !(ids[i] == id && id != 0)
      {
        if ids[slot] == id && id != 0 { return; }
        slot := slot + 1;
      }
      slot := -1;
    }

    method OtherForwarded(id: nat, key: nat) returns (other: bool)
      requires Valid() && key < KEY_COUNT
      ensures other == Model().OtherForwarded(id, key)
    {
      var i := 0;
      while i < DEVICE_COUNT
        invariant 0 <= i <= DEVICE_COUNT
        invariant forall j :: 0 <= j < i ==> ids[j] == id || owners[j, key] != Owner.Forwarded
      {
        if ids[i] != id && ids[i] != 0 && owners[i, key] == Owner.Forwarded {
          assert OwnerIn(held, ids[i], key) == Owner.Forwarded;
          return true;
        }
        i := i + 1;
      }
      forall d: nat | d != id ensures OwnerIn(held, d, key) != Owner.Forwarded {
        if (d, key) in held { assert d in LiveOf(ids[..]); }
      }
      other := false;
    }

    method TargetHeld(key: nat) returns (targetHeld: bool)
      requires Valid()
      ensures targetHeld == Model().TargetHeld(key)
    {
      if key >= KEY_COUNT { return true; }
      var i := 0;
      while i < DEVICE_COUNT
        invariant 0 <= i <= DEVICE_COUNT
        invariant forall j :: 0 <= j < i ==> owners[j, key] == Owner.Unowned
      {
        if ids[i] != 0 && owners[i, key] != Owner.Unowned {
          assert OwnerIn(held, ids[i], key) != Owner.Unowned;
          return true;
        }
        i := i + 1;
      }
      forall d: nat ensures OwnerIn(held, d, key) == Owner.Unowned {
        if (d, key) in held { assert d in LiveOf(ids[..]); }
      }
      targetHeld := false;
    }

    method ForwardedModifiers() returns (sides: Mask)
      requires Valid()
      ensures sides == Model().ForwardedModifiers()
    {
      sides := {};
      var i := 0;
      while i < DEVICE_COUNT
        invariant 0 <= i <= DEVICE_COUNT
        invariant sides <= Model().ForwardedModifiers()
        invariant forall j, k :: 0 <= j < i && 0 <= k < KEY_COUNT && owners[j, k] == Owner.Forwarded ==>
            ModifierBits(k) <= sides
      {
        if ids[i] != 0 {
          var key := 0;
          while key < KEY_COUNT
            invariant 0 <= key <= KEY_COUNT
            invariant sides <= Model().ForwardedModifiers()
            invariant forall j, k :: 0 <= j < i && 0 <= k < KEY_COUNT && owners[j, k] == Owner.Forwarded ==>
                ModifierBits(k) <= sides
            invariant forall k :: 0 <= k < key && owners[i, k] == Owner.Forwarded ==> ModifierBits(k) <= sides
          {
            if owners[i, key] == Owner.Forwarded {
              assert (ids[i], key) in held;
              sides := sides + ModifierBits(key);
            }
            key := key + 1;
          }
        }
        i := i + 1;
      }
      forall b | b in Model().ForwardedModifiers() ensures b in sides {
        var p :| p in held && held[p] == Owner.Forwarded && p.1 == MODIFIER_KEYS[b];
        var j :| 0 <= j < DEVICE_COUNT && ids[j] == p.0;
        assert owners[j, p.1] == Owner.Forwarded;
        assert b in ModifierBits(p.1);
      }
    }

    lemma IsTracked()
      requires Valid()
      ensures Tracked(ids[..], held)
    {
      forall p | p in held ensures p.0 in ids[..] {
        assert p.0 in LiveOf(ids[..]);
      }
    }

    /** Shared by the two enter-key queries, which differ only in the owner they look for. */
    method KeysOf(owner: Owner) returns (keys: array<bool>)
      requires Valid() && owner != Owner.Unowned
      ensures fresh(keys) && keys.Length == KEY_COUNT
      ensures forall k :: 0 <= k < KEY_COUNT ==> (keys[k] <==> k in KeysOwnedBy(held, owner))
      ensures Valid() && Model() == old(Model())
    {
      hide TableAgrees, WellFormedTable, KeysOwnedBy, OwnerIn, Tracked, LiveOf;
      IsTracked();
      keys := new bool[KEY_COUNT](_ => false);
      NothingMarked(keys[..], ids[..], held, owner);
      hide Marked;
      var i := 0;
      while i < DEVICE_COUNT
        invariant 0 <= i <= DEVICE_COUNT && Marked(keys[..], ids[..], held, owner, i, 0)
      {
        if ids[i] != 0 {
          MarkRow(keys, owner, i);
        } else {
          MarkSkip(keys[..], ids[..], held, owner, i);
        }
        i := i + 1;
      }
      MarkDone(keys[..], ids[..], held, owner);
    }

    method MarkRow(keys: array<bool>, owner: Owner, i: int)
      requires Valid() && owner != Owner.Unowned && 0 <= i < DEVICE_COUNT && keys.Length == KEY_COUNT
      requires Marked(keys[..], ids[..], held, owner, i, 0)
      modifies keys
      ensures Marked(keys[..], ids[..], held, owner, i + 1, 0)
    {
      hide TableAgrees, WellFormedTable, KeysOwnedBy, OwnerIn, LiveOf, Marked;
      var key := 0;
      while key < KEY_COUNT
        invariant 0 <= key <= KEY_COUNT && Marked(keys[..], ids[..], held, owner, i, key)
      {
        var here := OwnerAt(i, key);
        ghost var flags := keys[..];
        MarkNext(flags, ids[..], held, owner, i, key);
        keys[key] := keys[key] || here == owner;
        assert keys[..] == flags[key := flags[key] || here == owner];
        key := key + 1;
      }
      MarkRowEnd(keys[..], ids[..], held, owner, i);
    }

    /** Every recorded press sits in some slot of the table. */
    lemma InTable(p: (nat, nat))
      requires Valid() && p in held
      ensures exists j :: 0 <= j < DEVICE_COUNT && ids[j] == p.0 && owners[j, p.1] == held[p]
    {
      var j :| 0 <= j < DEVICE_COUNT && ids[j] == p.0;
      assert owners[j, p.1] == held[p];
    }

    method OwnershipEmpty() returns (empty: bool)
      requires Valid()
      ensures empty == Model().OwnershipEmpty()
    {
      var i := 0;
      while i < DEVICE_COUNT
        invariant 0 <= i <= DEVICE_COUNT
        invariant forall j, k :: 0 <= j < i && 0 <= k < KEY_COUNT ==> owners[j, k] == Owner.Unowned
      {
        var key := 0;
        while key < KEY_COUNT
          invariant 0 <= key <= KEY_COUNT
          invariant forall k :: 0 <= k < key ==> owners[i, k] == Owner.Unowned
        {
          if owners[i, key] != Owner.Unowned {
            assert (ids[i], key) in held;
            return false;
          }
          key := key + 1;
        }
        i := i + 1;
      }
      forall p | p in held ensures false { InTable(p); }
      assert held == map[];
      empty := pending.None?;
    }

    method FreeSlot() returns (slot: int)
      requires Valid()
      ensures -1 <= slot < DEVICE_COUNT && (slot >= 0 ==> ids[slot] == 0)
      ensures slot < 0 <==> |Model().live| >= DEVICE_COUNT
    {
      hide WellFormedTable, LiveOf, OwnerIn;
      LiveCount(ids[..]);
      slot := 0;
      while slot < DEVICE_COUNT
        invariant 0 <= slot <= DEVICE_COUNT
        invariant forall j :: 0 <= j < slot ==> ids[j] != 0
      {
        if ids[slot] == 0 {
          assert ids[..][slot] == 0;
          return;
        }
        slot := slot + 1;
      }
      slot := -1;
    }

    lemma OtherRows(slot: int)
      requires Valid() && 0 <= slot < DEVICE_COUNT && ids[slot] != 0
      ensures forall i :: 0 <= i < DEVICE_COUNT && i != slot ==> ids[i] != ids[slot]
    {
      hide WellFormedTable, LiveOf, OwnerIn;
      forall i | 0 <= i < DEVICE_COUNT && i != slot ensures ids[i] != ids[slot] {
        assert ids[..][i] != ids[..][slot];
      }
    }

    /** Takes a free slot for a fresh generation. */
    method Claim(slot: int, id: nat)
      requires Valid() && 0 <= slot < DEVICE_COUNT && ids[slot] == 0 && id > lastGeneration
      requires |Model().live| < DEVICE_COUNT
      modifies this`lastGeneration, ids
      ensures Valid() && Model() == old(Model()).(live := old(Model()).live + {id}, lastGeneration := id)
    {
      hide WellFormedTable, LiveOf, OwnerIn, Distinct;
      ghost var before := ids[..];
      NeverSeen(id);
      ClaimedWellFormed(Model().live, held, lastGeneration, id);
      ids[slot] := id;
      lastGeneration := id;
      assert ids[..] == before[slot := id];
      AddedLive(before, slot, id);
    }

    /** A generation above every one so far is nowhere in the table. */
    lemma NeverSeen(id: nat)
      requires Valid() && id > lastGeneration
      ensures id !in LiveOf(ids[..])
      ensures forall k: nat :: OwnerIn(held, id, k) == Owner.Unowned && OwnerIn(held, 0, k) == Owner.Unowned
    {
    }

    method Add(id: nat) returns (added: bool)
      requires Valid()
      modifies this, ids
      ensures Valid()
      ensures (Model(), added) == Routing.Add(old(Model()), id)
    {
      hide TableAgrees, WellFormedTable, LiveOf;
      if id == 0 || id <= lastGeneration { return false; }
      var known := Find(id);
      if known >= 0 { return false; }
      var slot := FreeSlot();
      if slot < 0 { return false; }
      Claim(slot, id);
      added := true;
    }

    method OwnerAt(slot: int, key: nat) returns (owner: Owner)
      requires Valid() && 0 <= slot < DEVICE_COUNT && key < KEY_COUNT
      ensures owner == OwnerIn(held, ids[slot], key)
    {
      owner := owners[slot, key];
    }

    method SetCell(slot: int, key: nat, owner: Owner)
      requires Valid() && 0 <= slot < DEVICE_COUNT && key < KEY_COUNT && ids[slot] != 0
      modifies owners, this`held
      ensures Valid() && Model() == old(Model()).SetOwner(ids[slot], key, owner)
    {
      assert ids[slot] in LiveOf(ids[..]);
      owners[slot, key] := owner;
      held := Model().SetOwner(ids[slot], key, owner).held;
    }

    method FocusEnterKeys() returns (keys: array<bool>)
      requires Valid()
      ensures fresh(keys) && keys.Length == KEY_COUNT && Valid() && Model() == old(Model())
      ensures forall k :: 0 <= k < KEY_COUNT ==> (keys[k] <==> k in Model().FocusEnterKeys())
    {
      keys := KeysOf(Owner.Forwarded);
    }

    method LockerEnterKeys() returns (keys: array<bool>)
      requires Valid()
      ensures fresh(keys) && keys.Length == KEY_COUNT && Valid() && Model() == old(Model())
      ensures forall k :: 0 <= k < KEY_COUNT ==> (keys[k] <==> k in Model().LockerEnterKeys())
    {
      keys := KeysOf(Owner.LockerOwned);
    }

    method Begin(e: Event, now: nat, budget: nat, releaseAction: bool) returns (ticket: Option<Ticket>)
      requires Valid()
      modifies this
      ensures Valid() && held == old(held)
      ensures (Model(), ticket) == Routing.Begin(old(Model()), e, now, budget, releaseAction)
      ensures lastBeginReject == BeginRejection(old(Model()), e, now, budget, releaseAction)
    {
      hide TableAgrees, WellFormedTable, LiveOf, OwnerIn;
      var slot := Find(e.device);
      var owner, other := Owner.Unowned, false;
      if slot >= 0 && e.key < KEY_COUNT {
        owner := OwnerAt(slot, e.key);
        other := OtherForwarded(e.device, e.key);
      }
      lastBeginReject :=
        if slot < 0 then BeginReject.Device
        else if pending.Some? then BeginReject.Pending
        else if sequence >= U64_MAX then BeginReject.Sequence
        else if locked then BeginReject.Locked
        else if fatal then BeginReject.Fatal
        else if !e.modeled then BeginReject.Unmodeled
        else if e.key >= KEY_COUNT then BeginReject.Key
        else if !(e.state == Down
            || (releaseAction && e.state == Up && IsModifier(e.key) && owner == Owner.Forwarded && !other))
             then BeginReject.State
        else if e.state == Down && owner != Owner.Unowned then BeginReject.Owned
        else if budget > MAX_BUDGET_NS then BeginReject.Budget
        else if now > U64_MAX - budget then BeginReject.Overflow
        else BeginReject.Clear;
      if lastBeginReject != BeginReject.Clear { return None; }
      sequence := sequence + 1;
      pending := Some(Ticket(e.device, epoch, focus, sequence, now + budget, e.key));
      ticket := pending;
    }

    method Settlement(e: Event, now: nat, budget: nat) returns (ticket: Option<Ticket>)
      requires Valid()
      modifies this`sequence
      ensures Valid() && (Model(), ticket) == Routing.Settlement(old(Model()), e, now, budget)
    {
      var slot := Find(e.device);
      if slot < 0 || locked || !e.modeled || e.key >= KEY_COUNT || e.state == Down
         || sequence >= U64_MAX || budget > MAX_BUDGET_NS || now > U64_MAX - budget { return None; }
      sequence := sequence + 1;
      ticket := Some(Ticket(e.device, epoch, focus, sequence, now + budget, e.key));
    }

    method Route(e: Event, ticket: Option<Ticket>, reply: Option<Decision>, now: nat, output: Output)
      returns (result: RouteResult)
      requires Valid()
      modifies this, owners, output
      ensures Valid()
      ensures var step := Routing.Route(old(Model()), e, ticket, reply, now, output.script.delivery);
              && Model() == step.state && result == step.result
              && output.calls == old(output.calls) + (if step.replaced.Some? then [ReplaceCalled(step.replaced.value)]
                 else [])
    {
      var slot := Find(e.device);
      if slot < 0 || e.key >= KEY_COUNT || !e.modeled {
        return RouteResult(Outcome.Forwarded, true, true, false);
      }
      var owner := owners[slot, e.key];
      if owner != Owner.Unowned {
        result := RouteHeld(slot, e, ticket);
      } else if e.state != Down {
        result := RouteResult(Outcome.Forwarded, true, true, false);
      } else if locked {
        SetCell(slot, e.key, Owner.LockerOwned);
        result := RouteResult(Outcome.LockerOwned, true, true, false);
      } else {
        result := RouteFresh(slot, e, ticket, reply, now, output);
      }
    }

    /** The branch of `Route` for a press that already has an owner. */
    method RouteHeld(slot: int, e: Event, ticket: Option<Ticket>) returns (result: RouteResult)
      requires Valid() && 0 <= slot < DEVICE_COUNT && ids[slot] == e.device != 0 && e.key < KEY_COUNT
      requires owners[slot, e.key] != Owner.Unowned
      modifies this, owners
      ensures Valid()
      ensures Model() == RouteOwned(old(Model()), e, ticket).state
          && result == RouteOwned(old(Model()), e, ticket).result
    {
      hide TableAgrees, WellFormedTable, LiveOf, OwnerIn;
      var previous := OwnerAt(slot, e.key);
      var other := OtherForwarded(e.device, e.key);
      if e.state == Up {
        SetCell(slot, e.key, Owner.Unowned);
        released := None;
        if previous == Owner.Forwarded && IsModifier(e.key) && !other
           && pending.Some? && ticket == pending && ticket.value.device == e.device && ticket.value.key == e.key {
          released := ticket;
        }
        pending := None;
      }
      if previous == Owner.StockConsumed { return RouteResult(Outcome.StockConsumed, true, false, false); }
      if previous == Owner.LockerOwned { return RouteResult(Outcome.LockerOwned, locked, locked, false); }
      if previous == Owner.Quarantined { return RouteResult(Outcome.Quarantined, false, false, false); }
      if previous == Owner.Consumed { return RouteResult(Outcome.Swallowed, false, false, fatal); }
      var merged := e.state == Up && other;
      result := RouteResult(if merged then Outcome.Merged else Outcome.Forwarded, true, !merged, false);
    }

    /** The replacement attempt common to fresh presses and finished releases: refuse the target or
        hand it to the output once. */
    method TryReplace(origin: nat, decision: Decision, output: Output) returns (outcome: Outcome)
      requires Valid()
      modifies this`fatal, output
      ensures Valid()
      ensures var refused := TargetRefused(old(Model()), decision.key, origin);
              && output.calls == old(output.calls) + (if refused then [] else
                   [ReplaceCalled(ReplaceCall(decision.key, decision.modifiers, old(Model()).ForwardedModifiers()))])
              && outcome == (if refused || output.script.delivery == RejectedNoOutput then Outcome.Rejected
                             else if output.script.delivery == Delivery.PartialFatal then Outcome.PartialFatal
                                 else Outcome.Replaced)
              && fatal == (old(fatal) || outcome == Outcome.PartialFatal)
    {
      if decision.key >= KEY_COUNT || decision.key == origin { return Outcome.Rejected; }
      var busy := TargetHeld(decision.key);
      if busy { return Outcome.Rejected; }
      var restore := ForwardedModifiers();
      var delivered := output.Replace(decision.key, decision.modifiers, restore);
      if delivered == RejectedNoOutput { return Outcome.Rejected; }
      if delivered == Delivery.PartialFatal { fatal := true; return Outcome.PartialFatal; }
      outcome := Outcome.Replaced;
    }

    /** Spends the pending ticket: the daemon's verdict counts only if the press was admitted. */
    method TakeVerdict(e: Event, ticket: Option<Ticket>, reply: Option<Decision>, now: nat) returns (verdict: Verdict)
      requires Valid() && !locked
      modifies this`pending
      ensures Valid() && pending == None
      ensures Admitted(old(Model()), e, ticket, reply, now) ==> reply.Some? && verdict == reply.value.verdict && !fatal
      ensures !Admitted(old(Model()), e, ticket, reply, now) ==> verdict == Pass
    {
      hide TableAgrees, WellFormedTable;
      verdict := Pass;
      var admitted := pending.Some? && ticket == pending && pending.value.device == e.device
          && pending.value.key == e.key;
      pending := None;
      if !locked && !fatal && admitted && reply.Some? && now < ticket.value.deadline
         && ticket.value.epoch == epoch && ticket.value.focus == focus && reply.value.ticket == ticket.value {
        verdict := reply.value.verdict;
      }
    }

    /** The branch of `Route` for a fresh press in an unlocked session. */
    method RouteFresh(slot: int, e: Event, ticket: Option<Ticket>, reply: Option<Decision>, now: nat, output: Output)
      returns (result: RouteResult)
      requires Valid() && 0 <= slot < DEVICE_COUNT && ids[slot] == e.device != 0 && e.key < KEY_COUNT && !locked
      modifies this, owners, output
      ensures Valid()
      ensures var step := RoutePress(old(Model()), e, ticket, reply, now, output.script.delivery);
              && Model() == step.state && result == step.result
              && output.calls == old(output.calls) + (if step.replaced.Some? then [ReplaceCalled(step.replaced.value)]
                 else [])
    {
      hide TableAgrees, WellFormedTable, LiveOf, OwnerIn, Admitted;
      var outcome := Outcome.Forwarded;
      var verdict := TakeVerdict(e, ticket, reply, now);
      if verdict == Replace {
        outcome := TryReplace(e.key, reply.value, output);
        if outcome == Outcome.Rejected { verdict := Pass; }
      }
      result := Record(slot, e, verdict, outcome);
    }

    /** Writes the owner a verdict implies and reports it. */
    method Record(slot: int, e: Event, verdict: Verdict, proposed: Outcome) returns (result: RouteResult)
      requires Valid() && 0 <= slot < DEVICE_COUNT && ids[slot] == e.device != 0 && e.key < KEY_COUNT
      modifies this`held, owners
      ensures Valid()
      ensures verdict == Pass ==>
                Model() == Forward(old(Model()), e, proposed, None).state
                    && result == Forward(old(Model()), e, proposed, None).result
      ensures verdict != Pass ==>
                && Model() == old(Model()).SetOwner(e.device, e.key, Owner.Consumed)
                && result == RouteResult(if verdict == Swallow then Outcome.Swallowed
                   else proposed, false, false, fatal)
    {
      var owner := if verdict == Pass then Owner.Forwarded else Owner.Consumed;
      var outcome := if verdict == Swallow then Outcome.Swallowed else proposed;
      var other := OtherForwarded(e.device, e.key);
      SetCell(slot, e.key, owner);
      var merged := owner == Owner.Forwarded && other;
      if merged && outcome == Outcome.Forwarded { outcome := Outcome.Merged; }
      result := RouteResult(outcome, owner == Owner.Forwarded, owner == Owner.Forwarded && !merged, fatal);
    }

    method FinishRelease(ticket: Ticket, reply: Option<Decision>, deliveredOriginal: bool, now: nat, output: Output,
                         original: Outcome) returns (outcome: Outcome)
      requires Valid()
      modifies this, output
      ensures Valid() && held == old(held)
      ensures var step := Routing.FinishRelease(old(Model()), ticket, reply, deliveredOriginal, now,
          output.script.delivery, original);
              && Model() == step.state && outcome == step.outcome
              && output.calls == old(output.calls) + (if step.replaced.Some? then [ReplaceCalled(step.replaced.value)]
                 else [])
    {
      hide TableAgrees, WellFormedTable, LiveOf, OwnerIn, ModifierSides, KeysOwnedBy;
      var eligible := released == Some(ticket);
      released := None;
      if reply.None? || reply.value.verdict != Replace { return original; }
      if !eligible || !deliveredOriginal || locked || fatal || now >= ticket.deadline
         || ticket.epoch != epoch || ticket.focus != focus || reply.value.ticket != ticket { return Outcome.Rejected; }
      outcome := TryReplace(ticket.key, reply.value, output);
    }

    method OriginalOutcome(e: Event, proposal: RouteResult, stockAdmitted: bool) returns (result: RouteResult)
      requires Valid()
      modifies this`held, owners
      ensures Valid() && (Model(), result) == Routing.OriginalOutcome(old(Model()), e, proposal, stockAdmitted)
    {
      var slot := Find(e.device);
      if slot < 0 || e.key >= KEY_COUNT || e.state != Down
          || !(proposal.outcome == Outcome.Merged || proposal.deliverClient) {
        return proposal;
      }
      if (owners[slot, e.key] == Owner.Forwarded || owners[slot, e.key] == Owner.LockerOwned) && !stockAdmitted {
        SetCell(slot, e.key, Owner.StockConsumed);
        return RouteResult(Outcome.StockConsumed, true, false, false);
      }
      result := proposal;
    }

    method FocusChanged()
      requires Valid()
      modifies this`pending, this`focus, this`epoch
      ensures Valid() && Model() == Routing.FocusChanged(old(Model()))
    {
      pending, focus, epoch := None, focus + 1, epoch + 1;
    }

    method UnlockConfirmed()
      requires Valid()
      modifies this`epoch, this`focus, this`locked
      ensures Valid() && Model() == Routing.UnlockConfirmed(old(Model()))
    {
      epoch, focus, locked := epoch + 1, focus + 1, false;
    }

    method Disconnect()
      requires Valid()
      modifies this`pending, this`epoch
      ensures Valid() && Model() == Routing.Disconnect(old(Model()))
    {
      pending, epoch := None, epoch + 1;
    }

    method RecoverRetiredOutput(exactRetirementProof: bool) returns (recovered: bool)
      requires Valid()
      modifies this`fatal, this`epoch, this`focus
      ensures Valid() && (Model(), recovered) == Routing.RecoverRetiredOutput(old(Model()), exactRetirementProof)
    {
      var empty := OwnershipEmpty();
      if !fatal || !exactRetirementProof || !empty || locked { return false; }
      fatal, epoch, focus := false, epoch + 1, focus + 1;
      recovered := true;
    }

    // ---- revocation ----------------------------------------------------------------

    /** One cell of the sweep, first half: a forwarded key is released to the client once. */
    method ReleaseCell(i: int, key: nat, done: set<nat>, output: Output, ghost start: Ownership, ghost from: nat)
      returns (done': set<nat>)
      requires Valid() && 0 <= i < DEVICE_COUNT && key < KEY_COUNT
      requires Sweeping(ids[..], held, start, i, key) && Covered(ids[..], start, i, key, done)
      requires from <= |output.calls| && ReleasesEachOnce(output.calls[from..], done)
      modifies this`fatal, output
      ensures Covered(ids[..], start, i, key + 1, done')
      ensures from <= |output.calls| && output.calls[..from] == old(output.calls[..from])
      ensures ReleasesEachOnce(output.calls[from..], done')
      ensures done' == done || (key !in done && done' == done + {key})
      ensures fatal == (old(fatal) || (done' != done && key in output.script.unconfirmed))
    {
      hide TableAgrees, WellFormedTable, Sweeping, Covered, ReleasesEachOnce, OwnerIn, LiveOf;
      done' := done;
      var owner := OwnerAt(i, key);
      SweepingHere(ids[..], held, start, i, key);
      if owner == Owner.Forwarded && key !in done {
        var confirmed := ReleaseOnce(key, output, done, from);
        if !confirmed { fatal := true; }
        done' := done + {key};
      }
      CoveredNext(ids[..], start, i, key, done, done');
    }

    lemma OwnedIsLive(slot: int, key: nat)
      requires Valid() && 0 <= slot < DEVICE_COUNT && OwnerIn(held, ids[slot], key) != Owner.Unowned
      ensures ids[slot] != 0 && Distinct(ids[..])
    {
      assert (ids[slot], key) in held;
    }

    /** One cell of the sweep, second half: an owned press becomes quarantined. */
    method QuarantineCell(i: int, key: nat, ghost start: Ownership)
      requires Valid() && 0 <= i < DEVICE_COUNT && key < KEY_COUNT && Sweeping(ids[..], held, start, i, key)
      modifies this`held, owners
      ensures Valid() && Sweeping(ids[..], held, start, i, key + 1)
    {
      hide TableAgrees, WellFormedTable, Sweeping, OwnerIn, LiveOf, Distinct;
      var owner := OwnerAt(i, key);
      SweepingHere(ids[..], held, start, i, key);
      if owner != Owner.Unowned {
        OwnedIsLive(i, key);
        SweepingWrite(ids[..], held, start, i, key);
        SetCell(i, key, Owner.Quarantined);
      } else {
        SweepingPast(ids[..], held, start, i, key);
      }
    }

    /** How far the sweep of `Revoke` has come. */
    ghost predicate Swept(start: RouterState, before: seq<OutputCall>, i: int, key: int, done: set<nat>, output: Output)
      reads this, ids, owners, output
    {
      && Valid() && Model() == start.(held := held, fatal := fatal)
      && Sweeping(ids[..], held, start.held, i, key) && Covered(ids[..], start.held, i, key, done)
      && before <= output.calls && ReleasesEachOnce(output.calls[|before|..], done)
      && fatal == (start.fatal || done * output.script.unconfirmed != {})
    }

    method SweepCell(i: int, key: nat, done: set<nat>, output: Output, ghost start: RouterState,
                     ghost before: seq<OutputCall>)
      returns (done': set<nat>)
      requires 0 <= i < DEVICE_COUNT && key < KEY_COUNT && Swept(start, before, i, key, done, output)
      modifies this`held, this`fatal, owners, output
      ensures Swept(start, before, i, key + 1, done', output)
    {
      hide TableAgrees, WellFormedTable, Sweeping, Covered, ReleasesEachOnce, OwnerIn, LiveOf;
      done' := ReleaseCell(i, key, done, output, start.held, |before|);
      OneMoreUnconfirmed(done, key, output.script.unconfirmed);
      QuarantineCell(i, key, start.held);
      assert before == output.calls[..|before|];
    }

    method SweepRow(i: int, done: set<nat>, output: Output, ghost start: RouterState, ghost before: seq<OutputCall>)
      returns (done': set<nat>)
      requires 0 <= i < DEVICE_COUNT && Swept(start, before, i, 0, done, output)
      modifies this`held, this`fatal, owners, output
      ensures Swept(start, before, i + 1, 0, done', output)
    {
      hide TableAgrees, WellFormedTable, Sweeping, Covered, ReleasesEachOnce, OwnerIn, LiveOf;
      done' := done;
      var key := 0;
      while key < KEY_COUNT
        invariant 0 <= key <= KEY_COUNT && Swept(start, before, i, key, done', output)
      {
        done' := SweepCell(i, key, done', output, start, before);
        key := key + 1;
      }
      SweepingRowEnd(ids[..], held, start.held, i, done');
    }

    /** The whole table: every client-held key released once, every owned press quarantined. */
    method SweepTable(output: Output) returns (ghost releases: seq<OutputCall>)
      requires Valid()
      modifies this`held, this`fatal, owners, output
      ensures Valid() && held == Quarantine(old(held))
      ensures ReleasesEachOnce(releases, old(Model()).FocusEnterKeys()) && output.calls == old(output.calls) + releases
      ensures fatal == (old(fatal) || old(Model()).FocusEnterKeys() * output.script.unconfirmed != {})
    {
      hide TableAgrees, WellFormedTable, Sweeping, Covered, ReleasesEachOnce, OwnerIn, LiveOf, Tracked, Quarantine;
      ghost var start, before := Model(), output.calls;
      var done: set<nat> := {};
      var i := 0;
      IsTracked();
      SweepBegins(ids[..], held);
      NoReleases(done);
      assert output.calls[|before|..] == [];
      while i < DEVICE_COUNT
        invariant 0 <= i <= DEVICE_COUNT && Swept(start, before, i, 0, done, output)
      {
        done := SweepRow(i, done, output, start, before);
        i := i + 1;
      }
      SweepDone(ids[..], held, start.held, done);
      releases := output.calls[|before|..];
    }

    method Revoke(output: Output) returns (ghost releases: seq<OutputCall>)
      requires Valid()
      modifies this`pending, this`epoch, this`held, this`fatal, owners, output
      ensures Valid() && Model() == Routing.Revoke(old(Model()), output.script)
      ensures ReleasesEachOnce(releases, old(Model()).FocusEnterKeys())
      ensures output.calls == old(output.calls) + releases + (if old(Model()).ForwardedModifiers() != {}
          then [ReconcileCalled({})] else [])
    {
      hide ReleasesEachOnce, TableAgrees, WellFormedTable, Quarantine, KeysOwnedBy, ModifierSides, LiveOf;
      pending := None;
      epoch := epoch + 1;
      var beforeModifiers := ForwardedModifiers();
      releases := SweepTable(output);
      if beforeModifiers != {} {
        Reconcile({}, output);
      }
    }

    /** Asks the output to settle on a modifier mask; an unconfirmed answer latches the fault. */
    method Reconcile(sides: Mask, output: Output)
      requires Valid()
      modifies this`fatal, output
      ensures Valid() && fatal == (old(fatal) || !output.script.modifiersConfirmed)
      ensures output.calls == old(output.calls) + [ReconcileCalled(sides)]
    {
      hide TableAgrees, WellFormedTable, LiveOf;
      var confirmed := output.ReconcileModifiers(sides);
      if !confirmed { fatal := true; }
    }

    method Lock(output: Output) returns (ghost releases: seq<OutputCall>)
      requires Valid()
      modifies this`locked, this`pending, this`epoch, this`held, this`fatal, owners, output
      ensures Valid() && Model() == Routing.Lock(old(Model()), output.script)
      ensures ReleasesEachOnce(releases, old(Model()).FocusEnterKeys())
      ensures output.calls == old(output.calls) + releases + (if old(Model()).ForwardedModifiers() != {}
          then [ReconcileCalled({})] else [])
    {
      locked := true;
      releases := Revoke(output);
    }

    // ---- retirement ----------------------------------------------------------------

    /** Releases the retiring device's keys that no other device still holds for the client. */
    method ReleaseDevice(slot: int, output: Output) returns (ghost releases: seq<OutputCall>, releasedOutput: bool)
      requires Valid() && 0 <= slot < DEVICE_COUNT && ids[slot] != 0
      modifies this`fatal, output
      ensures Valid()
      ensures ReleasesEachOnce(releases, SoleKeysIn(held, ids[slot])) && output.calls == old(output.calls) + releases
      ensures releasedOutput == (SoleKeysIn(held, ids[slot]) != {})
      ensures fatal == (old(fatal) || SoleKeysIn(held, ids[slot]) * output.script.unconfirmed != {})
    {
      hide TableAgrees, WellFormedTable, ReleasesEachOnce, SoleKeysIn, Below, LiveOf, OwnerIn, OtherForwardedIn;
      var id := ids[slot];
      ghost var sole := SoleKeysIn(held, id);
      ghost var before := output.calls;
      releases := [];
      NoReleases(sole);
      releasedOutput := false;
      var key := 0;
      while key < KEY_COUNT
        invariant 0 <= key <= KEY_COUNT && Valid()
        invariant output.calls == before + releases && ReleasesEachOnce(releases, Below(sole, key))
        invariant releasedOutput == (Below(sole, key) != {})
        invariant fatal == (old(fatal) || Below(sole, key) * output.script.unconfirmed != {})
      {
        var owner := OwnerAt(slot, key);
        var other := OtherForwarded(id, key);
        BelowNext(held, id, key, releases);
        if owner == Owner.Forwarded && !other {
          releasedOutput := true;
          var confirmed := output.Release(key);
          if !confirmed { fatal := true; }
          releases := releases + [ReleaseCalled(key)];
        }
        key := key + 1;
      }
      AllBelow(sole, id);
    }

    lemma AllBelow(sole: set<nat>, id: nat)
      requires Valid() && sole == SoleKeysIn(held, id)
      ensures Below(sole, KEY_COUNT) == sole
    {
    }

    /** Empties one slot: no generation and no owners, as a device that was never added. */
    method ClearSlot(slot: int)
      requires Valid() && 0 <= slot < DEVICE_COUNT && ids[slot] != 0
      modifies this`held, ids, owners
      ensures Valid() && Model() == WithoutDevice(old(Model()), old(ids[slot]))
    {
      hide WellFormedTable, LiveOf, Distinct, OwnerIn;
      var id := ids[slot];
      ghost var before := ids[..];
      DroppedRow(held, id);
      DroppedWellFormed(LiveOf(before), held, lastGeneration, id);
      OtherRows(slot);
      forall k | 0 <= k < KEY_COUNT { owners[slot, k] := Owner.Unowned; }
      ids[slot] := 0;
      held := DropDevice(held, id);
      assert ids[..] == before[slot := 0];
      RemovedLive(before, slot);
      LiveCount(before[slot := 0]);
    }

    method Retire(id: nat, output: Output) returns (ghost releases: seq<OutputCall>)
      requires Valid()
      modifies this, ids, owners, output
      ensures Valid() && Model() == Routing.Retire(old(Model()), id, output.script)
      ensures id !in old(Model()).live ==> output.calls == old(output.calls)
      ensures id in old(Model()).live ==>
                && ReleasesEachOnce(releases, SoleKeys(old(Model()), id))
                && output.calls == old(output.calls) + releases +
                     (if SoleKeys(old(Model()), id) != {}
                         || old(Model()).ForwardedModifiers() != Model().ForwardedModifiers()
                      then [ReconcileCalled(Model().ForwardedModifiers())] else [])
    {
      hide ReleasesEachOnce, TableAgrees, WellFormedTable, KeysOwnedBy, ModifierSides, DropDevice, SoleKeysIn;
      releases := [];
      var slot := Find(id);
      if slot < 0 { return; }
      epoch := epoch + 1;
      pending := None;
      var beforeModifiers := ForwardedModifiers();
      var releasedOutput;
      releases, releasedOutput := DropSlot(slot, output);
      var afterModifiers := ForwardedModifiers();
      if releasedOutput || beforeModifiers != afterModifiers {
        Reconcile(afterModifiers, output);
      }
    }

    method DropSlot(slot: int, output: Output) returns (ghost releases: seq<OutputCall>, releasedOutput: bool)
      requires Valid() && 0 <= slot < DEVICE_COUNT && ids[slot] != 0
      modifies this`fatal, this`held, ids, owners, output
      ensures Valid()
      ensures var sole := SoleKeysIn(old(held), old(ids[slot]));
              && Model() == WithoutDevice(old(Model()), old(ids[slot])).(fatal := old(fatal)
                 || sole * output.script.unconfirmed != {})
              && ReleasesEachOnce(releases, sole) && output.calls == old(output.calls) + releases
              && releasedOutput == (sole != {})
    {
      hide ReleasesEachOnce, TableAgrees, WellFormedTable, KeysOwnedBy, DropDevice, SoleKeysIn;
      releases, releasedOutput := ReleaseDevice(slot, output);
      ClearSlot(slot);
    }
  }

  ghost function Below(keys: set<nat>, n: nat): set<nat> {
    set k | k in keys && k < n
  }

  lemma BelowNext(held: Ownership, id: nat, n: nat, releases: seq<OutputCall>)
    requires ReleasesEachOnce(releases, Below(SoleKeysIn(held, id), n))
    ensures var sole := SoleKeysIn(held, id);
            if OwnerIn(held, id, n) == Owner.Forwarded && !OtherForwardedIn(held, id, n)
            then Below(sole, n + 1) == Below(sole, n) + {n}
                && ReleasesEachOnce(releases + [ReleaseCalled(n)], Below(sole, n + 1))
            else Below(sole, n + 1) == Below(sole, n)
  {
    var sole := SoleKeysIn(held, id);
    assert n in sole <==> SoleHold(held, id, n) by {
      if SoleHold(held, id, n) { assert (id, n) in held; }
    }
    if n in sole {
      assert Below(sole, n + 1) == Below(sole, n) + {n};
      ReleaseOneMore(releases, Below(sole, n), n);
    } else {
      assert Below(sole, n + 1) == Below(sole, n);
    }
  }

  lemma NoReleases(sole: set<nat>)
    ensures Below(sole, 0) == {} && ReleasesEachOnce([], Below(sole, 0))
  {
  }

  lemma RemovedLive(ids: seq<nat>, i: nat)
    requires i < |ids| && ids[i] != 0 && Distinct(ids)
    ensures LiveOf(ids[i := 0]) == LiveOf(ids) - {ids[i]} && Distinct(ids[i := 0])
  {
    var after := ids[i := 0];
    forall x | x in LiveOf(ids) - {ids[i]} ensures x in LiveOf(after) {
      var j :| 0 <= j < |ids| && ids[j] == x && x != 0;
      assert after[j] == x;
    }
  }

  lemma OneMoreUnconfirmed(keys: set<nat>, key: nat, unconfirmed: set<nat>)
    ensures (keys + {key}) * unconfirmed != {} <==> keys * unconfirmed != {} || key in unconfirmed
  {
    if key in unconfirmed {
      assert key in (keys + {key}) * unconfirmed;
    } else {
      assert (keys + {key}) * unconfirmed == keys * unconfirmed;
    }
  }

  lemma ClaimedWellFormed(live: set<nat>, held: Ownership, lastGeneration: nat, id: nat)
    requires WellFormedTable(live, held, lastGeneration) && id > lastGeneration && |live| < DEVICE_COUNT
    ensures WellFormedTable(live + {id}, held, id)
  {
  }

  lemma DroppedRow(held: Ownership, id: nat)
    ensures forall d: nat, k: nat ::
              OwnerIn(DropDevice(held, id), d, k) == if d == id then Owner.Unowned else OwnerIn(held, d, k)
  {
  }

  lemma DroppedWellFormed(live: set<nat>, held: Ownership, lastGeneration: nat, id: nat)
    requires WellFormedTable(live, held, lastGeneration)
    ensures WellFormedTable(live - {id}, DropDevice(held, id), lastGeneration)
    ensures forall k: nat :: OwnerIn(held, 0, k) == Owner.Unowned
  {
  }

  /** Asks the output to release a key not released yet in this sweep. */
  method ReleaseOnce(key: nat, output: Output, ghost done: set<nat>, ghost from: nat) returns (confirmed: bool)
    requires key !in done
    requires from <= |output.calls| && ReleasesEachOnce(output.calls[from..], done)
    modifies output
    ensures from <= |output.calls| && output.calls[..from] == old(output.calls[..from])
    ensures ReleasesEachOnce(output.calls[from..], done + {key})
    ensures confirmed == (key !in output.script.unconfirmed)
  {
    ghost var calls := output.calls[from..];
    confirmed := output.Release(key);
    assert output.calls[from..] == calls + [ReleaseCalled(key)];
    ReleaseOneMore(calls, done, key);
  }

  lemma ReleaseOneMore(calls: seq<OutputCall>, seen: set<nat>, key: nat)
    requires ReleasesEachOnce(calls, seen) && key !in seen
    ensures ReleasesEachOnce(calls + [ReleaseCalled(key)], seen + {key})
  {
  }

  lemma AddedLive(ids: seq<nat>, i: nat, id: nat)
    requires i < |ids| && ids[i] == 0 && id != 0 && id !in LiveOf(ids) && Distinct(ids)
    ensures LiveOf(ids[i := id]) == LiveOf(ids) + {id} && Distinct(ids[i := id])
  {
    var after := ids[i := id];
    forall x | x in LiveOf(ids) ensures x in LiveOf(after) {
      var j :| 0 <= j < |ids| && ids[j] == x && x != 0;
      assert after[j] == x;
    }
    assert after[i] == id;
  }
}
