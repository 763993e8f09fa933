/** Pages of the evidence ring: what one bounded status query reports. */
module CausalPages {
  import opened CausalRing

  datatype Record = Record(id: nat, evidence: Evidence)

  datatype Look = Seen(record: Record) | Unseen

  /** One read of a slot: refused while its flag is up, and empty until something was stored. */
  function Read(r: Ring, slot: nat): Look
    requires |r.slots| == CAPACITY
  {
    if slot >= CAPACITY || !r.slots[slot].holder.Free? || r.slots[slot].id == 0 then Unseen
    else Seen(Record(r.slots[slot].id, r.slots[slot].value))
  }

  datatype Cut = Cut(start: nat, end: nat, cursor: nat, limit: nat)

  datatype Page =
    | Invalid
    | Page(start: nat, end: nat, cursor: nat, next: nat, observed: nat, overwritten: nat, dropped: nat, done: bool,
           records: seq<Record>, missing: seq<nat>, complete: bool)

  predicate ValidCut(cut: Cut, observed: nat) {
    cut.start <= cut.cursor <= cut.end <= observed && cut.end - cut.start <= CAPACITY && 1 <= cut.limit <= 12
  }

  function Stop(cut: Cut): nat
    requires cut.cursor <= cut.end
  {
    cut.cursor + if cut.limit < cut.end - cut.cursor then cut.limit else cut.end - cut.cursor
  }

  function Overwritten(observed: nat): nat {
    if observed > CAPACITY then observed - CAPACITY else 0
  }

  /** What was read at an index counts only if it is the evidence of that very reservation. */
  predicate Hit(look: nat -> Look, i: nat) {
    look(i).Seen? && look(i).record.id == i + 1
  }

  function Found(look: nat -> Look, lo: nat, hi: nat): seq<Record>
    requires lo <= hi
    decreases hi
  {
    if lo == hi then []
    else Found(look, lo, hi - 1) + if Hit(look, hi - 1) then [look(hi - 1).record] else []
  }

  function Absent(look: nat -> Look, lo: nat, hi: nat): seq<nat>
    requires lo <= hi
    decreases hi
  {
    if lo == hi then []
    else Absent(look, lo, hi - 1) + if Hit(look, hi - 1) then [] else [hi]
  }

  function PageOf(look: nat -> Look, cut: Cut, observed: nat, dropped: nat): Page {
    if !ValidCut(cut, observed) then Invalid
    else
      var stop := Stop(cut);
      var missing := Absent(look, cut.cursor, stop);
      Page(cut.start, cut.end, cut.cursor, stop, observed, Overwritten(observed), dropped, stop == cut.end,
           Found(look, cut.cursor, stop), missing, missing == [])
  }

  /** Builds a page; `look(i)` is whatever reading the slot of index i gave when the loop reached it. */
  method BuildPage(look: nat -> Look, cut: Cut, observed: nat, dropped: nat) returns (page: Page)
    ensures page == PageOf(look, cut, observed, dropped)
  {
    if cut.start > cut.cursor || cut.cursor > cut.end || cut.end > observed || cut.end - cut.start > CAPACITY
       || cut.limit < 1 || cut.limit > 12 {
      return Invalid;
    }
    var stop := Stop(cut);
    var records, missing := [], [];
    var i := cut.cursor;
    while i < stop
      invariant cut.cursor <= i <= stop
      invariant records == Found(look, cut.cursor, i) && missing == Absent(look, cut.cursor, i)
    {
      var seen := look(i);
      if seen.Unseen? || seen.record.id != i + 1 {
        missing := missing + [i + 1];
      } else {
        records := records + [seen.record];
      }
      i := i + 1;
    }
    page := Page(cut.start, cut.end, cut.cursor, stop, observed, Overwritten(observed), dropped, stop == cut.end,
                 records, missing, missing == []);
  }

  // ---- what a page covers --------------------------------------------------------------

  function Ids(records: seq<Record>): (ids: seq<nat>)
    ensures |ids| == |records| && forall k :: 0 <= k < |ids| ==> ids[k] == records[k].id
  {
    if records == [] then [] else Ids(records[..|records| - 1]) + [records[|records| - 1].id]
  }

  function Range(lo: nat, hi: nat): (r: seq<nat>)
    requires lo <= hi
    ensures |r| == hi - lo && forall k :: 0 <= k < |r| ==> r[k] == lo + k
  {
    seq(hi - lo, k requires 0 <= k => lo + k)
  }

  lemma IdsAppend(records: seq<Record>, record: Record)
    ensures Ids(records + [record]) == Ids(records) + [record.id]
  {
    assert (records + [record])[..|records|] == records;
  }

  lemma CountAppend(s: seq<nat>, x: nat, id: nat)
    ensures multiset(s + [x])[id] == multiset(s)[id] + if x == id then 1 else 0
  {
  }

  lemma NothingFound(look: nat -> Look, lo: nat)
    ensures Found(look, lo, lo) == [] && Ids([]) == [] && Absent(look, lo, lo) == []
  {
  }

  lemma FoundStep(look: nat -> Look, lo: nat, hi: nat)
    requires lo < hi
    ensures Hit(look, hi - 1) ==>
      && look(hi - 1).Seen?
      && Found(look, lo, hi) == Found(look, lo, hi - 1) + [look(hi - 1).record]
      && Ids(Found(look, lo, hi)) == Ids(Found(look, lo, hi - 1)) + [hi]
      && Absent(look, lo, hi) == Absent(look, lo, hi - 1)
    ensures !Hit(look, hi - 1) ==>
      && Found(look, lo, hi) == Found(look, lo, hi - 1)
      && Absent(look, lo, hi) == Absent(look, lo, hi - 1) + [hi]
  {
    hide Ids;
    if Hit(look, hi - 1) {
      IdsAppend(Found(look, lo, hi - 1), look(hi - 1).record);
    }
  }

  /** Every index of the range is listed exactly once, as a record or as missing, and nothing else is. */
  lemma {:induction false} EachListedOnce(look: nat -> Look, lo: nat, hi: nat, id: nat)
    requires lo <= hi
    ensures multiset(Ids(Found(look, lo, hi)))[id] + multiset(Absent(look, lo, hi))[id]
            == if lo < id <= hi then 1 else 0
    decreases hi
  {
    hide Ids, Found, Absent, Hit;
    if lo == hi {
      NothingFound(look, lo);
    } else {
      EachListedOnce(look, lo, hi - 1, id);
      FoundStep(look, lo, hi);
      CountAppend(Ids(Found(look, lo, hi - 1)), hi, id);
      CountAppend(Absent(look, lo, hi - 1), hi, id);
    }
  }

  ghost predicate AllHit(look: nat -> Look, lo: nat, hi: nat) {
    forall i :: lo <= i < hi ==> Hit(look, i)
  }

  lemma {:induction false} AbsentIffMissed(look: nat -> Look, lo: nat, hi: nat)
    requires lo <= hi
    ensures Absent(look, lo, hi) == [] <==> AllHit(look, lo, hi)
    ensures |Found(look, lo, hi)| + |Absent(look, lo, hi)| == hi - lo
    decreases hi
  {
    hide Ids, Hit;
    if lo != hi {
      AbsentIffMissed(look, lo, hi - 1);
      FoundStep(look, lo, hi);
      hide Found, Absent;
      assert AllHit(look, lo, hi) <==> AllHit(look, lo, hi - 1) && Hit(look, hi - 1);
    }
  }

  lemma {:induction false} FoundWhenAllHit(look: nat -> Look, lo: nat, hi: nat)
    requires lo <= hi && AllHit(look, lo, hi)
    ensures Ids(Found(look, lo, hi)) == Range(lo + 1, hi + 1)
    decreases hi
  {
    hide Ids, Found, Absent, Hit, AllHit;
    if lo == hi {
      NothingFound(look, lo);
    } else {
      AllHitLast(look, lo, hi);
      FoundWhenAllHit(look, lo, hi - 1);
      FoundStep(look, lo, hi);
      assert Range(lo + 1, hi + 1) == Range(lo + 1, hi) + [hi];
    }
  }

  /** Each record found is what was read at its index. */
  lemma {:induction false} FoundAt(look: nat -> Look, lo: nat, hi: nat, i: nat)
    requires lo <= i < hi && AllHit(look, lo, hi)
    ensures |Found(look, lo, hi)| == hi - lo && Hit(look, i) && look(i) == Seen(Found(look, lo, hi)[i - lo])
    decreases hi
  {
    hide Ids, Found, Absent, AllHit, Hit;
    AllHitLast(look, lo, hi);
    FoundStep(look, lo, hi);
    AbsentIffMissed(look, lo, hi - 1);
    if i < hi - 1 {
      FoundAt(look, lo, hi - 1, i);
    }
  }

  lemma AllHitLast(look: nat -> Look, lo: nat, hi: nat)
    requires lo < hi && AllHit(look, lo, hi)
    ensures AllHit(look, lo, hi - 1) && Hit(look, hi - 1) && look(hi - 1).Seen?
  {
  }

  /** Nothing is missing exactly when the records are the whole range in order. */
  lemma CompleteIff(look: nat -> Look, lo: nat, hi: nat)
    requires lo <= hi
    ensures Absent(look, lo, hi) == [] <==> Ids(Found(look, lo, hi)) == Range(lo + 1, hi + 1)
  {
    hide Found, Absent, AllHit;
    AbsentIffMissed(look, lo, hi);
    if AllHit(look, lo, hi) {
      FoundWhenAllHit(look, lo, hi);
    }
  }

  /** The same of a served page, which also stays within its limit and moves on unless it is done. */
  lemma PageCovers(look: nat -> Look, cut: Cut, observed: nat, dropped: nat, id: nat)
    requires ValidCut(cut, observed)
    ensures var p := PageOf(look, cut, observed, dropped);
            && p.Page? && p.cursor <= p.next <= p.end && p.next - p.cursor <= cut.limit
            && (p.done <==> p.next == p.end) && (!p.done ==> p.cursor < p.next)
            && multiset(Ids(p.records))[id] + multiset(p.missing)[id] == (if p.cursor < id <= p.next then 1 else 0)
            && (p.complete <==> Ids(p.records) == Range(p.cursor + 1, p.next + 1))
  {
    hide Found, Absent, Ids, Range;
    EachListedOnce(look, cut.cursor, Stop(cut), id);
    CompleteIff(look, cut.cursor, Stop(cut));
  }
}
