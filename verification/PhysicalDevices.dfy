/** Registered physical keyboards: which raw keys each one holds down, and the router events their
    raw transitions become. */
module PhysicalDevices {
  import opened Wrappers
  import opened Routing
  import opened RouterTable

  const UNMAPPED: nat := KEY_COUNT

  datatype Attachment = Attachment(generation: nat, translation: seq<nat>, held: set<nat>)

  /** Keyboards by identity (an address; zero is the null pointer) and the next generation. */
  datatype DeviceState = DeviceState(attached: map<nat, Attachment>, next: nat)

  function NoDevices(): DeviceState {
    DeviceState(map[], 1)
  }

  /** No two raw keys share a router key, and every raw key is mapped inside the table or unmapped. */
  ghost predicate Injective(translation: seq<nat>) {
    && (forall i :: 0 <= i < |translation| ==> translation[i] <= UNMAPPED)
    && (forall i, j :: 0 <= i < j < |translation| && translation[i] != UNMAPPED ==> translation[i] != translation[j])
  }

  ghost function Attach(s: DeviceState, r: RouterState, identity: nat, verifiedEvdev: bool, virtualDevice: bool,
                        translation: seq<nat>): (DeviceState, RouterState, nat)
  {
    if identity == 0 || !verifiedEvdev || virtualDevice || s.next >= U64_MAX || identity in s.attached
       || !Injective(translation) || |s.attached| >= DEVICE_COUNT then (s, r, 0)
    else
      var (r', added) := Add(r, s.next);
      if !added then (s.(next := s.next + 1), r', 0)
      else (DeviceState(s.attached[identity := Attachment(s.next, translation, {})], s.next + 1), r', s.next)
  }

  function KeyTransition(s: DeviceState, identity: nat, raw: nat, down: bool): (DeviceState, Option<Event>)
    requires forall i :: i in s.attached ==> |s.attached[i].translation| == KEY_COUNT
  {
    if identity !in s.attached || raw >= KEY_COUNT then (s, None)
    else
      var a := s.attached[identity];
      var key := a.translation[raw];
      if key == UNMAPPED || (!down && raw !in a.held) then (s, None)
      else
        var state := if !down then Up else if raw in a.held then Repeat else Down;
        (s.(attached := s.attached[identity := a.(held := if down then a.held + {raw} else a.held - {raw})]),
         Some(Event(a.generation, key, state, true)))
  }

  ghost function Detach(s: DeviceState, r: RouterState, identity: nat, answers: Answers):
      (DeviceState, RouterState, bool) {
    if identity !in s.attached then (s, r, false)
    else (s.(attached := s.attached - {identity}), Retire(r, s.attached[identity].generation, answers), true)
  }

  // ---- agreement with the router ---------------------------------------------------

  /** One keyboard and the router agree: a raw key is held exactly while the router has an owner
      for the key it translates to. */
  ghost predicate AttachmentAgrees(a: Attachment, held: Ownership) {
    && |a.translation| == KEY_COUNT && Injective(a.translation)
    && (forall raw :: raw in a.held ==> raw < KEY_COUNT && a.translation[raw] != UNMAPPED)
    && (forall raw :: 0 <= raw < KEY_COUNT && a.translation[raw] != UNMAPPED ==>
          (raw in a.held <==> OwnerIn(held, a.generation, a.translation[raw]) != Owner.Unowned))
  }

  ghost predicate Agrees(s: DeviceState, r: RouterState) {
    && r.WellFormed()
    && 0 !in s.attached
    && |r.live| <= |s.attached|
    && r.lastGeneration < s.next
    && AllAgree(s.attached, r.live, r.held)
    && Separate(s.attached)
  }

  ghost predicate AllAgree(attached: map<nat, Attachment>, live: set<nat>, held: Ownership) {
    forall i :: i in attached ==> attached[i].generation in live && AttachmentAgrees(attached[i], held)
  }

  lemma OneAgrees(attached: map<nat, Attachment>, live: set<nat>, held: Ownership, i: nat)
    requires AllAgree(attached, live, held) && i in attached
    ensures attached[i].generation in live && AttachmentAgrees(attached[i], held)
  {
  }

  lemma AllAttached(attached: map<nat, Attachment>, live: set<nat>, held: Ownership)
    requires AllAgree(attached, live, held)
    ensures forall i :: i in attached ==> attached[i].generation in live && |attached[i].translation| == KEY_COUNT
  {
  }

  ghost predicate Separate(attached: map<nat, Attachment>) {
    forall i, j :: i in attached && j in attached && i != j ==> attached[i].generation != attached[j].generation
  }

  /** Attaching can fail only for the reasons the caller can see: the router never refuses a fresh
      generation while a slot is free. */
  lemma AttachAgrees(s: DeviceState, r: RouterState, identity: nat, verifiedEvdev: bool, virtualDevice: bool,
                     translation: seq<nat>)
    requires Agrees(s, r) && |translation| == KEY_COUNT
    ensures var (s', r', generation) := Attach(s, r, identity, verifiedEvdev, virtualDevice, translation);
            && Agrees(s', r')
            && (generation == 0 <==>
                  || identity == 0 || !verifiedEvdev || virtualDevice || s.next >= U64_MAX
                  || identity in s.attached || !Injective(translation) || |s.attached| >= DEVICE_COUNT)
            && (generation != 0 ==> generation !in r.live && generation == s.next)
  {
    hide AttachmentAgrees, WellFormedTable, Separate, Injective, AllAgree;
    if !(identity == 0 || identity in s.attached || !Injective(translation) || |s.attached| >= DEVICE_COUNT) {
      FreshAttachment(r, s.next, translation);
      AttachedOne(s, r, identity, translation);
    }
  }

  lemma AttachedOne(s: DeviceState, r: RouterState, identity: nat, translation: seq<nat>)
    requires Agrees(s, r) && identity != 0 && identity !in s.attached && |s.attached| < DEVICE_COUNT
    requires AttachmentAgrees(Attachment(s.next, translation, {}), r.held)
    ensures s.next !in r.live
    ensures Agrees(DeviceState(s.attached[identity := Attachment(s.next, translation, {})], s.next + 1),
                   r.(live := r.live + {s.next}, lastGeneration := s.next))
  {
    hide AttachmentAgrees, WellFormedTable, Separate, AllAgree;
    var a := Attachment(s.next, translation, {});
    AddWellFormed(r, s.next);
    AllAgreeWith(s.attached, r.live, r.held, identity, a);
    AllAttached(s.attached, r.live, r.held);
    SeparateAfter(s.attached, identity, a);
    OneMore(s.attached, identity, a);
  }

  lemma AllAgreeWith(attached: map<nat, Attachment>, live: set<nat>, held: Ownership, identity: nat, a: Attachment)
    requires AllAgree(attached, live, held) && AttachmentAgrees(a, held)
    ensures AllAgree(attached[identity := a], live + {a.generation}, held)
  {
    hide AttachmentAgrees;
  }

  lemma OneMore(attached: map<nat, Attachment>, identity: nat, a: Attachment)
    requires identity !in attached
    ensures |attached[identity := a]| == |attached| + 1
  {
    assert attached[identity := a].Keys == attached.Keys + {identity};
  }

  lemma SeparateAfter(attached: map<nat, Attachment>, identity: nat, a: Attachment)
    requires Separate(attached) && forall i :: i in attached && i != identity ==> attached[i].generation != a.generation
    ensures Separate(attached[identity := a])
  {
  }

  lemma AddWellFormed(r: RouterState, id: nat)
    requires r.WellFormed() && id > r.lastGeneration && |r.live| < DEVICE_COUNT
    ensures WellFormedTable(r.live + {id}, r.held, id) && (forall g :: g in r.live ==> g < id)
        && |r.live + {id}| == |r.live| + 1
  {
  }

  lemma FreshAttachment(r: RouterState, generation: nat, translation: seq<nat>)
    requires r.WellFormed() && generation > r.lastGeneration
    requires |translation| == KEY_COUNT && Injective(translation)
    ensures AttachmentAgrees(Attachment(generation, translation, {}), r.held)
  {
  }

  /** An event the devices report is one the router can take at face value: a down only for a press
      nobody owns, a repeat or release only for an owned one, never a bypass. */
  lemma EventIsDisciplined(s: DeviceState, r: RouterState, identity: nat, raw: nat, down: bool)
    requires Agrees(s, r)
    ensures var (s', e) := KeyTransition(s, identity, raw, down);
            e.Some? ==> && !Bypasses(r, e.value)
                        && (e.value.state == Down <==> r.OwnerOf(e.value.device, e.value.key) == Owner.Unowned)
  {
  }

  /** Routing the event restores agreement for the keyboard it came from. */
  lemma SourceAgrees(a: Attachment, raw: nat, down: bool, held: Ownership, held': Ownership)
    requires AttachmentAgrees(a, held) && raw < KEY_COUNT && a.translation[raw] != UNMAPPED
    requires OwnerIn(held', a.generation, a.translation[raw]) != Owner.Unowned <==> down
    requires forall k: nat :: k != a.translation[raw] ==>
        OwnerIn(held', a.generation, k) == OwnerIn(held, a.generation, k)
    ensures AttachmentAgrees(a.(held := if down then a.held + {raw} else a.held - {raw}), held')
  {
  }

  lemma OthersAgree(a: Attachment, held: Ownership, held': Ownership)
    requires AttachmentAgrees(a, held)
    requires forall k: nat :: OwnerIn(held', a.generation, k) == Owner.Unowned <==>
        OwnerIn(held, a.generation, k) == Owner.Unowned
    ensures AttachmentAgrees(a, held')
  {
  }
}
