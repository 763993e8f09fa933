/** The device registry as the compositor keeps it: sixteen slots updated in place, each method
    proved to take the step `PhysicalDevices` specifies, the router's included. */
module DeviceRegistry {
  import opened Wrappers
  import opened Routing
  import opened RouterTable
  import opened PhysicalDevices

  /** The registration-time check that no two raw keys share a router key. */
  method CheckInjective(translation: seq<nat>) returns (ok: bool)
    ensures ok <==> Injective(translation)
  {
    var seen: set<nat> := {};
    var i := 0;
    while i < |translation|
      invariant 0 <= i <= |translation|
      invariant Injective(translation[..i])
      invariant forall k :: k in seen <==> k != UNMAPPED && k in translation[..i]
    {
      var key := translation[i];
      if key != UNMAPPED {
        if key >= KEY_COUNT || key in seen {
          if key in seen {
            var j :| 0 <= j < i && translation[..i][j] == key;
            assert translation[j] == translation[i];
          }
          return false;
        }
        seen := seen + {key};
      }
      assert translation[..i + 1] == translation[..i] + [key];
      i := i + 1;
    }
    assert translation[..i] == translation;
    ok := true;
  }

  class DeviceTable {
    const identities: array<nat>
    const generations: array<nat>
    const physical: array2<nat>
    const down: array2<bool>
    var next: nat
    ghost var attached: map<nat, Attachment>

    ghost function Model(): DeviceState
      reads this
    {
      DeviceState(attached, next)
    }

    ghost predicate Valid()
      reads this`attached, identities, generations, physical, down
    {
      && identities.Length == DEVICE_COUNT && generations.Length == DEVICE_COUNT && identities != generations
      && physical.Length0 == DEVICE_COUNT && physical.Length1 == KEY_COUNT
      && down.Length0 == DEVICE_COUNT && down.Length1 == KEY_COUNT
      && Distinct(identities[..])
      && attached.Keys == LiveOf(identities[..])
      && (forall i :: 0 <= i < DEVICE_COUNT && identities[i] != 0 ==> SlotHolds(i, attached[identities[i]]))
    }

    ghost predicate SlotHolds(i: int, a: Attachment)
      reads generations, physical, down
      requires 0 <= i < generations.Length && generations.Length <= physical.Length0
          && generations.Length <= down.Length0
      requires physical.Length1 == KEY_COUNT && down.Length1 == KEY_COUNT
    {
      && a.generation == generations[i] && |a.translation| == KEY_COUNT
      && (forall k :: 0 <= k < KEY_COUNT ==> a.translation[k] == physical[i, k])
      && (forall k :: 0 <= k < KEY_COUNT ==> (k in a.held <==> down[i, k]))
      && (forall k :: k in a.held ==> k < KEY_COUNT)
    }

    constructor ()
      ensures Valid() && Model() == NoDevices()
      ensures fresh(identities) && fresh(generations) && fresh(physical) && fresh(down)
    {
      identities := new nat[DEVICE_COUNT](_ => 0);
      generations := new nat[DEVICE_COUNT](_ => 0);
      physical := new nat[DEVICE_COUNT, KEY_COUNT]((_, _) => 0);
      down := new bool[DEVICE_COUNT, KEY_COUNT]((_, _) => false);
      next := 1;
      attached := map[];
      new;
      assert LiveOf(identities[..]) == {};
    }

    method Find(identity: nat) returns (slot: int)
      requires Valid()
      ensures -1 <= slot < DEVICE_COUNT
      ensures slot >= 0 <==> identity in attached
      ensures slot >= 0 ==> identities[slot] == identity && identity != 0
    {
      slot := 0;
      while slot < DEVICE_COUNT
        invariant 0 <= slot <= DEVICE_COUNT
        invariant forall i :: 0 <= i < slot ==> !(identities[i] == identity && identity != 0)
      {
        if identities[slot] == identity && identity != 0 { return; }
        slot := slot + 1;
      }
      slot := -1;
    }

    /** `KeyTransition`: at most one held flag changes, and the event carries the device generation. */
    method Strike(identity: nat, raw: nat, isDown: bool) returns (e: Option<Event>)
      requires Valid()
      modifies this`attached, down
      ensures Valid()
      ensures (forall i :: i in old(attached) ==> |old(attached)[i].translation| == KEY_COUNT)
      ensures (Model(), e) == KeyTransition(old(Model()), identity, raw, isDown)
    {
      Sizes();
      var slot := Find(identity);
      if slot < 0 || raw >= KEY_COUNT { return None; }
      var key := physical[slot, raw];
      if key == UNMAPPED { return None; }
      var state := if isDown then (if down[slot, raw] then Repeat else Down) else Up;
      if !isDown && !down[slot, raw] { return None; }
      e := Some(Event(generations[slot], key, state, true));
      Flag(slot, raw, isDown);
    }

    method Flag(slot: int, raw: nat, isDown: bool)
      requires Valid() && 0 <= slot < DEVICE_COUNT && identities[slot] != 0 && identities[slot] in attached
          && raw < KEY_COUNT
      modifies this`attached, down
      ensures Valid()
      ensures var a := old(attached)[identities[slot]];
              attached == old(attached)[identities[slot] :=
                  a.(held := if isDown then a.held + {raw} else a.held - {raw})]
    {
      ghost var a := attached[identities[slot]];
      down[slot, raw] := isDown;
      attached := attached[identities[slot] := a.(held := if isDown then a.held + {raw} else a.held - {raw})];
    }

    lemma Sizes()
      requires Valid()
      ensures forall i :: i in attached ==> |attached[i].translation| == KEY_COUNT
    {
      forall i | i in attached ensures |attached[i].translation| == KEY_COUNT {
        assert i in LiveOf(identities[..]);
      }
    }

    /** The registry and the router keep their tables in different arrays. */
    predicate Apart(router: Router) {
      router.ids != identities && router.ids != generations
    }

    method Attach(identity: nat, verifiedEvdev: bool, virtualDevice: bool, translation: seq<nat>, router: Router)
      returns (generation: nat)
      requires Valid() && router.Valid() && Apart(router) && |translation| == KEY_COUNT
      modifies this, identities, generations, physical, down, router, router.ids
      ensures Valid() && router.Valid()
      ensures (Model(), router.Model(), generation)
           == PhysicalDevices.Attach(old(Model()), old(router.Model()), identity, verifiedEvdev, virtualDevice,
               translation)
    {
      hide Valid, Injective, Router.Valid, Routing.Add;
      if identity == 0 || !verifiedEvdev || virtualDevice || next >= U64_MAX { return 0; }
      var known := Find(identity);
      if known >= 0 { return 0; }
      var injective := CheckInjective(translation);
      if !injective { return 0; }
      var free := FreeSlot();
      if free < 0 { return 0; }
      generation := next;
      next := next + 1;
      var added := router.Add(generation);
      if !added { return 0; }
      Fill(free, identity, generation, translation);
    }

    method FreeSlot() returns (slot: int)
      requires Valid()
      ensures -1 <= slot < DEVICE_COUNT
      ensures slot >= 0 ==> identities[slot] == 0
      ensures slot < 0 <==> |attached| >= DEVICE_COUNT
    {
      LiveCount(identities[..]);
      assert |attached| == |attached.Keys|;
      slot := 0;
      while slot < DEVICE_COUNT
        invariant 0 <= slot <= DEVICE_COUNT
        invariant forall i :: 0 <= i < slot ==> identities[i] != 0
      {
        if identities[slot] == 0 { assert identities[..][slot] == 0; return; }
        slot := slot + 1;
      }
      slot := -1;
    }

    /** Writes the contents of a slot that no identity names. */
    method Rewrite(slot: int, generation: nat, translation: seq<nat>)
      requires Valid() && 0 <= slot < DEVICE_COUNT && identities[slot] == 0 && |translation| == KEY_COUNT
      modifies generations, physical, down
      ensures Valid() && SlotHolds(slot, Attachment(generation, translation, {}))
      ensures identities[..] == old(identities[..])
    {
      generations[slot] := generation;
      forall k | 0 <= k < KEY_COUNT { physical[slot, k] := translation[k]; }
      forall k | 0 <= k < KEY_COUNT { down[slot, k] := false; }
      assert identities[..] == old(identities[..]);
    }

    /** Publishes a free slot. */
    method Fill(slot: int, identity: nat, generation: nat, translation: seq<nat>)
      requires Valid() && 0 <= slot < DEVICE_COUNT && identities[slot] == 0 && identity != 0 && identity !in attached
      requires |translation| == KEY_COUNT
      modifies this`attached, identities, generations, physical, down
      ensures Valid() && attached == old(attached)[identity := Attachment(generation, translation, {})]
    {
      Rewrite(slot, generation, translation);
      Publish(slot, identity, Attachment(generation, translation, {}));
    }

    method Publish(slot: int, identity: nat, ghost a: Attachment)
      requires Valid() && 0 <= slot < DEVICE_COUNT && identities[slot] == 0 && identity != 0 && identity !in attached
      requires SlotHolds(slot, a)
      modifies this`attached, identities
      ensures Valid() && attached == old(attached)[identity := a]
    {
      hide SlotHolds;
      ghost var before := identities[..];
      identities[slot] := identity;
      attached := attached[identity := a];
      assert identities[..] == before[slot := identity];
      AddedLive(before, slot, identity);
    }

    method Detach(identity: nat, router: Router, output: Output) returns (detached: bool)
      requires Valid() && router.Valid() && Apart(router)
      modifies this`attached, identities, generations, physical, down, router, router.ids, router.owners, output
      ensures Valid() && router.Valid()
      ensures (Model(), router.Model(), detached)
           == PhysicalDevices.Detach(old(Model()), old(router.Model()), identity, output.script)
    {
      var slot := Find(identity);
      if slot < 0 { return false; }
      var generation := generations[slot];
      ghost var releases := router.Retire(generation, output);
      Empty(slot);
      detached := true;
    }

    method Empty(slot: int)
      requires Valid() && 0 <= slot < DEVICE_COUNT && identities[slot] != 0
      modifies this`attached, identities, generations, physical, down
      ensures Valid() && attached == old(attached) - {old(identities[slot])}
    {
      Withdraw(slot);
      Rewrite(slot, 0, seq(KEY_COUNT, _ => 0));
    }

    method Withdraw(slot: int)
      requires Valid() && 0 <= slot < DEVICE_COUNT && identities[slot] != 0
      modifies this`attached, identities
      ensures Valid() && attached == old(attached) - {old(identities[slot])} && identities[slot] == 0
    {
      hide SlotHolds;
      ghost var before := identities[..];
      attached := attached - {identities[slot]};
      identities[slot] := 0;
      assert identities[..] == before[slot := 0];
      RemovedLive(before, slot);
    }
  }
}
