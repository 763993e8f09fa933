/** The collector that follows the cursor of a causal cut, page by page, through any server. */
module Collector {
  import opened CausalRing
  import opened CausalPages

  const TURNS: nat := 172

  datatype Command = Latest | Continue(start: nat, end: nat, cursor: nat)

  /** An element of a page's records: an object with a numeric id, another object, or something else. */
  datatype Entry = Row(record: Record) | OddRow | Junk

  /** What one query gave: `Unusable` stands for a failed call, an oversized reply or a bad schema;
      `lists` says whether records and missing ids were lists at all. */
  datatype Response =
    | Unusable
    | Answer(start: nat, end: nat, cursor: nat, next: nat, observed: nat, overwritten: nat, dropped: nat,
             done: bool, complete: bool, lists: bool, records: seq<Entry>, missing: seq<nat>)

  datatype CutSeen = NoCut | CutAt(start: nat, end: nat)

  datatype Outcome =
    | Complete(start: nat, end: nat, pages: seq<Response>, records: seq<Entry>)
    | Incomplete(cut: CutSeen, pages: seq<Response>, records: seq<Entry>)

  /** The ids the collector compares: those of the objects. An id that is no number equals none. */
  function IdList(entries: seq<Entry>): seq<int> {
    if entries == [] then []
    else
      var init := IdList(entries[..|entries| - 1]);
      match entries[|entries| - 1]
      case Row(record) => init + [record.id]
      case OddRow => init + [-1]
      case Junk => init
  }

  predicate SameIds(ids: seq<int>, range: seq<nat>) {
    |ids| == |range| && forall k :: 0 <= k < |ids| ==> ids[k] == range[k]
  }

  // ---- one turn of the loop ------------------------------------------------------------

  datatype Progress =
    | Going(cut: CutSeen, cursor: nat, command: Command, pages: seq<Response>, records: seq<Entry>)
    | Done(outcome: Outcome)

  function Start(): Progress {
    Going(NoCut, 0, Latest, [], [])
  }

  function Cursor(g: Progress, a: Response): nat
    requires g.Going? && a.Answer?
  {
    if g.cut.NoCut? then a.start else g.cursor
  }

  /** The reply continues the cut and says nothing inconsistent about it. */
  predicate Follows(g: Progress, a: Response)
    requires g.Going? && a.Answer?
  {
    && (g.cut.NoCut? || g.cut == CutAt(a.start, a.end))
    && a.start <= Cursor(g, a) <= a.next <= a.end <= a.observed && a.end - a.start <= CAPACITY
    && a.cursor == Cursor(g, a) && a.next - a.cursor <= 12 && a.done == (a.next == a.end)
  }

  /** The reply lists exactly the ids from the cursor to its next cursor. */
  predicate Whole(a: Response)
    requires a.Answer?
  {
    a.lists && a.cursor <= a.next && SameIds(IdList(a.records), Range(a.cursor + 1, a.next + 1)) && a.missing == []
        && a.complete
  }

  function Turn(g: Progress, a: Response): Progress
    requires g.Going?
  {
    if a.Unusable? then Done(Incomplete(g.cut, g.pages, g.records))
    else
      var cut := if g.cut.NoCut? then CutAt(a.start, a.end) else g.cut;
      if !Follows(g, a) then Done(Incomplete(cut, g.pages, g.records))
      else
        var pages := g.pages + [a];
        if !Whole(a) then Done(Incomplete(cut, pages, g.records))
        else
          var records := g.records + a.records;
          if a.dropped != 0 || a.overwritten != 0 then Done(Incomplete(cut, pages, records))
          else if a.done then Done(Complete(a.start, a.end, pages, records))
          else if a.next == a.cursor then Done(Incomplete(cut, pages, records))
          else Going(cut, a.next, Continue(a.start, a.end, a.next), pages, records)
  }

  function Turns(invoke: (nat, Command) -> Response, g: Progress, k: nat, n: nat): Progress
    requires k <= n
    decreases n - k
  {
    if k == n || g.Done? then g else Turns(invoke, Turn(g, invoke(k, g.command)), k + 1, n)
  }

  function Result(g: Progress): Outcome {
    match g
    case Done(outcome) => outcome
    case Going(cut, _, _, pages, records) => Incomplete(cut, pages, records)
  }

  /** What the collector returns when query k with command c is answered by `invoke(k, c)`. */
  function Collected(invoke: (nat, Command) -> Response): Outcome {
    Result(Turns(invoke, Start(), 0, TURNS))
  }

  method Collect(invoke: (nat, Command) -> Response) returns (outcome: Outcome)
    ensures outcome == Collected(invoke)
  {
    hide Whole, Turns, Clean;
    var pages: seq<Response>, records: seq<Entry> := [], [];
    var cut: CutSeen, cursor: nat, command: Command := NoCut, 0, Latest;
    for k := 0 to TURNS
      invariant Turns(invoke, Going(cut, cursor, command, pages, records), k, TURNS)
                == Turns(invoke, Start(), 0, TURNS)
    {
      ghost var g := Going(cut, cursor, command, pages, records);
      var a := invoke(k, command);
      TurnsStep(invoke, g, k, TURNS);
      if a.Unusable? { return Incomplete(cut, pages, records); }
      if cut.NoCut? { cut, cursor := CutAt(a.start, a.end), a.start; }
      if cut != CutAt(a.start, a.end) || !(a.start <= cursor <= a.next <= a.end <= a.observed)
         || a.end - a.start > CAPACITY {
        return Incomplete(cut, pages, records);
      }
      if a.cursor != cursor || a.next - cursor > 12 { return Incomplete(cut, pages, records); }
      if a.done != (a.next == a.end) { return Incomplete(cut, pages, records); }
      pages := pages + [a];
      if !Whole(a) { return Incomplete(cut, pages, records); }
      records := records + a.records;
      if a.dropped != 0 || a.overwritten != 0 { return Incomplete(cut, pages, records); }
      cursor := a.next;
      if a.done { return Complete(a.start, a.end, pages, records); }
      if cursor == a.cursor { return Incomplete(cut, pages, records); }
      command := Continue(a.start, a.end, cursor);
    }
    TurnsEnd(invoke, Going(cut, cursor, command, pages, records), TURNS);
    outcome := Incomplete(cut, pages, records);
  }

  lemma TurnsEnd(invoke: (nat, Command) -> Response, g: Progress, n: nat)
    ensures Turns(invoke, g, n, n) == g
  {
  }

  lemma TurnsStep(invoke: (nat, Command) -> Response, g: Progress, k: nat, n: nat)
    requires k < n && g.Going?
    ensures Turns(invoke, g, k, n) == Turns(invoke, Turn(g, invoke(k, g.command)), k + 1, n)
    ensures Turn(g, invoke(k, g.command)).Done? ==>
      Turns(invoke, g, k, n) == Turn(g, invoke(k, g.command))
  {
  }

  // ---- what any server can make it believe ---------------------------------------------

  ghost predicate Clean(pages: seq<Response>) {
    forall k :: 0 <= k < |pages| ==>
      var a := pages[k]; a.Answer? && a.dropped == 0 && a.overwritten == 0 && a.missing == [] && a.complete
  }

  /** The ids collected so far are the unbroken range from the start of the cut to some point of it. */
  ghost predicate Unbroken(cut: CutSeen, point: nat, records: seq<Entry>) {
    match cut
    case NoCut => records == []
    case CutAt(start, end) =>
      start <= point <= end && end - start <= CAPACITY && SameIds(IdList(records), Range(start + 1, point + 1))
  }

  ghost predicate Sound(g: Progress) {
    match g
    case Going(cut, cursor, _, pages, records) => Unbroken(cut, cursor, records) && Clean(pages)
    case Done(Complete(start, end, pages, records)) =>
      start <= end && Unbroken(CutAt(start, end), end, records) && Clean(pages)
    case Done(Incomplete(cut, pages, records)) => records == [] || exists point :: Unbroken(cut, point, records)
  }

  lemma {:induction false} IdListConcat(a: seq<Entry>, b: seq<Entry>)
    ensures IdList(a + b) == IdList(a) + IdList(b)
    decreases |b|
  {
    if b == [] {
      assert a + b == a;
    } else {
      var init := b[..|b| - 1];
      assert (a + b)[..|a + b| - 1] == a + init;
      assert (a + b)[|a + b| - 1] == b[|b| - 1];
      IdListConcat(a, init);
    }
  }

  lemma Extend(cut: CutSeen, from: nat, upto: nat, records: seq<Entry>, more: seq<Entry>)
    requires cut.CutAt? && Unbroken(cut, from, records) && from <= upto <= cut.end
    requires SameIds(IdList(more), Range(from + 1, upto + 1))
    ensures Unbroken(cut, upto, records + more)
  {
    hide IdList;
    IdListConcat(records, more);
    var first, second := Range(cut.start + 1, from + 1), Range(from + 1, upto + 1);
    assert Range(cut.start + 1, upto + 1) == first + second;
  }

  lemma TurnSound(g: Progress, a: Response)
    requires g.Going? && Sound(g)
    ensures Sound(Turn(g, a))
  {
    hide SameIds, IdList, Range;
    if a.Answer? && Follows(g, a) {
      var cut := CutAt(a.start, a.end);
      if g.cut.NoCut? {
        NothingYet(cut);
      }
      assert Unbroken(cut, a.cursor, g.records);
      if Whole(a) {
        Extend(cut, a.cursor, a.next, g.records, a.records);
      }
    }
  }

  lemma NothingYet(cut: CutSeen)
    requires cut.CutAt? && cut.start <= cut.end && cut.end - cut.start <= CAPACITY
    ensures Unbroken(cut, cut.start, [])
  {
    assert IdList([]) == [];
  }

  lemma StartSound()
    ensures Sound(Start())
  {
  }

  lemma {:induction false} TurnsSound(invoke: (nat, Command) -> Response, g: Progress, k: nat, n: nat)
    requires k <= n && Sound(g)
    ensures Sound(Turns(invoke, g, k, n))
    decreases n - k
  {
    hide Sound, Turn;
    if k != n && g.Going? {
      TurnSound(g, invoke(k, g.command));
      TurnsSound(invoke, Turn(g, invoke(k, g.command)), k + 1, n);
    }
  }

  /** Whatever the server answers: a complete collection has the ids start+1 to end in order, from pages
      that report nothing missing, dropped or overwritten; an incomplete one never has a gap. */
  lemma CompleteIsExact(invoke: (nat, Command) -> Response)
    ensures match Collected(invoke)
            case Complete(start, end, pages, records) =>
              && start <= end <= start + CAPACITY && Clean(pages)
              && SameIds(IdList(records), Range(start + 1, end + 1))
            case Incomplete(cut, _, records) =>
              records == [] || (cut.CutAt? && exists point :: Unbroken(cut, point, records))
  {
    hide Turns, SameIds, IdList, Range, Clean, Turn;
    StartSound();
    TurnsSound(invoke, Start(), 0, TURNS);
  }

  // ---- an honest server ----------------------------------------------------------------

  function Rows(records: seq<Record>): (rows: seq<Entry>)
    ensures |rows| == |records| && forall k :: 0 <= k < |rows| ==> rows[k] == Row(records[k])
  {
    seq(|records|, k requires 0 <= k < |records| => Row(records[k]))
  }

  /** A page as the collector decodes it. */
  function Decoded(p: Page): Response {
    match p
    case Invalid => Unusable
    case Page(start, end, cursor, next, observed, overwritten, dropped, done, records, missing, complete) =>
      Answer(start, end, cursor, next, observed, overwritten, dropped, done, complete, true, Rows(records), missing)
  }

  /** What the ring shows while one query is answered: the calls begun when its cut was chosen and those
      observed when its page was started, the drop counter, and for each index whatever reading its slot gave
      when the page got there. */
  datatype Moment = Moment(look: nat -> Look, begun: nat, observed: nat, dropped: nat)

  /** The counter of calls only grows, within a query and from one to the next. */
  ghost predicate Orderly(at: nat -> Moment) {
    && (forall k :: at(k).begun <= at(k).observed)
    && (forall i, j :: i <= j ==> at(i).observed <= at(j).observed)
  }

  /** The query handler. */
  function Serve(m: Moment, c: Command): Response {
    match c
    case Latest =>
      var start := Overwritten(m.begun);
      Decoded(PageOf(m.look, Cut(start, m.begun, start, 12), m.observed, m.dropped))
    case Continue(start, end, cursor) => Decoded(PageOf(m.look, Cut(start, end, cursor, 12), m.observed, m.dropped))
  }

  lemma {:induction false} RowIds(records: seq<Record>)
    ensures SameIds(IdList(Rows(records)), Ids(records))
    decreases |records|
  {
    if records != [] {
      var init := records[..|records| - 1];
      RowIds(init);
      assert Rows(records)[..|records| - 1] == Rows(init);
    }
  }

  /** A served page is whole exactly when every index of it was found. */
  lemma ServedWhole(look: nat -> Look, cut: Cut, observed: nat, dropped: nat)
    requires ValidCut(cut, observed)
    ensures var a := Decoded(PageOf(look, cut, observed, dropped));
            a.Answer? && (Whole(a) <==> AllHit(look, cut.cursor, Stop(cut)))
  {
    hide IdList, Ids, Found, Absent, AllHit, Rows;
    RowIds(Found(look, cut.cursor, Stop(cut)));
    AbsentIffMissed(look, cut.cursor, Stop(cut));
    CompleteIff(look, cut.cursor, Stop(cut));
  }

  lemma RowsConcat(a: seq<Record>, b: seq<Record>)
    ensures Rows(a + b) == Rows(a) + Rows(b)
  {
  }

  // ---- collecting from a ring that moves on ---------------------------------------------

  /** Query i is answered by the handler from what the ring shows then. */
  ghost predicate Serves(invoke: (nat, Command) -> Response, at: nat -> Moment) {
    forall i, c :: invoke(i, c) == Serve(at(i), c)
  }

  lemma ServedAt(invoke: (nat, Command) -> Response, at: nat -> Moment, i: nat, c: Command)
    requires Serves(invoke, at)
    ensures invoke(i, c) == Serve(at(i), c)
  {
  }

  ghost predicate Ahead(at: nat -> Moment, k: nat, end: nat) {
    forall j :: k <= j ==> end <= at(j).observed
  }

  lemma AheadNow(at: nat -> Moment, k: nat, end: nat)
    requires Ahead(at, k, end)
    ensures end <= at(k).observed && Ahead(at, k + 1, end)
  {
  }

  lemma OrderlyAhead(at: nat -> Moment)
    requires Orderly(at)
    ensures at(0).begun <= at(0).observed && Ahead(at, 1, at(0).begun)
  {
    forall j: nat | 1 <= j ensures at(0).begun <= at(j).observed {
      assert at(0).observed <= at(j).observed;
    }
  }

  /** The end of page `j` of a history of `end` calls. */
  function PageEnd(j: nat, end: nat): nat {
    if 12 * (j + 1) < end then 12 * (j + 1) else end
  }

  predicate Unmarred(m: Moment) {
    m.dropped == 0 && m.observed <= CAPACITY
  }

  /** At its own turn the page found nothing dropped or overwritten and every index of its range. */
  ghost predicate PageGood(m: Moment, lo: nat, hi: nat) {
    Unmarred(m) && AllHit(m.look, lo, hi)
  }

  ghost predicate PagesGood(at: nat -> Moment, k: nat, end: nat) {
    forall j :: k <= j && (j == 0 || 12 * j < end) ==> PageGood(at(j), 12 * j, PageEnd(j, end))
  }

  /** What the pages from the k-th on hold. */
  function Gathered(at: nat -> Moment, k: nat, end: nat): seq<Record>
    requires 12 * k <= end
    decreases end - 12 * k
  {
    var page := Found(at(k).look, 12 * k, PageEnd(k, end));
    if PageEnd(k, end) == end then page else page + Gathered(at, k + 1, end)
  }

  /** One turn against an honest server inside the cut. */
  lemma HonestTurn(m: Moment, k: nat, end: nat, g: Progress, a: Response)
    requires 12 * k < end <= CAPACITY && end <= m.observed
    requires g.Going? && g.cut == CutAt(0, end) && g.cursor == 12 * k && g.command == Continue(0, end, 12 * k)
    requires a == Serve(m, g.command)
    ensures var stop := PageEnd(k, end);
            var records := g.records + Rows(Found(m.look, 12 * k, stop));
            var t := Turn(g, a);
            if !PageGood(m, 12 * k, stop) then t.Done? && t.outcome.Incomplete?
            else if stop == end then t == Done(Complete(0, end, g.pages + [a], records))
            else t == Going(g.cut, stop, Continue(0, end, stop), g.pages + [a], records)
  {
    hide Whole, AllHit, Found, Absent, Rows;
    ServedWhole(m.look, Cut(0, end, 12 * k, 12), m.observed, m.dropped);
    assert Stop(Cut(0, end, 12 * k, 12)) == PageEnd(k, end);
  }

  lemma PagesSplit(at: nat -> Moment, k: nat, end: nat)
    requires k == 0 || 12 * k < end
    ensures PagesGood(at, k, end) <==> PageGood(at(k), 12 * k, PageEnd(k, end)) && PagesGood(at, k + 1, end)
  {
    hide PageGood;
  }

  lemma NoMorePages(at: nat -> Moment, k: nat, end: nat)
    requires PageEnd(k, end) == end
    ensures PagesGood(at, k + 1, end)
  {
  }

  /** With enough turns left the collection ends, and completely exactly when each page to come is good. */
  lemma {:induction false} HonestTurns(at: nat -> Moment, end: nat, invoke: (nat, Command) -> Response, g: Progress,
                                       k: nat)
    requires Serves(invoke, at)
    requires Ahead(at, k, end)
    requires k < TURNS && 12 * k < end <= CAPACITY
    requires g.Going? && g.cut == CutAt(0, end) && g.cursor == 12 * k && g.command == Continue(0, end, 12 * k)
    ensures var t := Turns(invoke, g, k, TURNS);
            && t.Done? && (t.outcome.Complete? <==> PagesGood(at, k, end))
            && (t.outcome.Complete? ==> && t.outcome.start == 0 && t.outcome.end == end
                                        && t.outcome.records == g.records + Rows(Gathered(at, k, end)))
    decreases TURNS - k
  {
    hide AllHit, Found, Rows, Serve, Turns, Turn, PageGood, PagesGood, Gathered, Serves, Ahead;
    var a := invoke(k, g.command);
    ServedAt(invoke, at, k, g.command);
    AheadNow(at, k, end);
    HonestTurn(at(k), k, end, g, a);
    TurnsStep(invoke, g, k, TURNS);
    PagesSplit(at, k, end);
    GatheredStep(at, k, end);
    if PageEnd(k, end) == end {
      NoMorePages(at, k, end);
    } else if PageGood(at(k), 12 * k, PageEnd(k, end)) {
      HonestTurns(at, end, invoke, Turn(g, a), k + 1);
      RowsConcat(Found(at(k).look, 12 * k, PageEnd(k, end)), Gathered(at, k + 1, end));
    }
  }

  lemma GatheredStep(at: nat -> Moment, k: nat, end: nat)
    requires 12 * k <= end
    ensures var page := Found(at(k).look, 12 * k, PageEnd(k, end));
            Gathered(at, k, end) == if PageEnd(k, end) == end then page else page + Gathered(at, k + 1, end)
  {
  }

  /** The first turn against an honest server. */
  lemma HonestStart(m: Moment, a: Response)
    requires a == Serve(m, Latest) && m.begun <= m.observed
    ensures var end := m.begun;
            var stop := PageEnd(0, end);
            var records := Rows(Found(m.look, 0, stop));
            var t := Turn(Start(), a);
            if !PageGood(m, 0, stop) then t.Done? && t.outcome.Incomplete?
            else if stop == end then t == Done(Complete(0, end, [a], records))
            else t == Going(CutAt(0, end), stop, Continue(0, end, stop), [a], records)
  {
    hide Whole, AllHit, Found, Absent, Rows;
    var start := Overwritten(m.begun);
    ServedWhole(m.look, Cut(start, m.begun, start, 12), m.observed, m.dropped);
    assert Start().pages + [a] == [a] && Start().records + a.records == a.records;
  }

  /** An honest server over a ring that keeps recording between queries and during them: the collection always
      ends within the turns allowed, and completely if and only if at each page's own turn nothing had been
      dropped or overwritten and every index of that page could be read. */
  lemma CollectedExactlyWhen(at: nat -> Moment, invoke: (nat, Command) -> Response)
    requires Serves(invoke, at)
    requires Orderly(at)
    ensures var end := at(0).begun;
            var t := Turns(invoke, Start(), 0, TURNS);
            && t.Done? && (t.outcome.Complete? <==> PagesGood(at, 0, end))
            && (t.outcome.Complete? ==> && t.outcome.start == 0 && t.outcome.end == end <= CAPACITY
                                        && t.outcome.records == Rows(Gathered(at, 0, end)))
  {
    hide AllHit, Found, Rows, Serve, Turns, Turn, PageGood, PagesGood, Gathered, Serves, Ahead, Orderly;
    var end := at(0).begun;
    var a := invoke(0, Latest);
    ServedAt(invoke, at, 0, Latest);
    OrderlyAhead(at);
    HonestStart(at(0), a);
    TurnsStep(invoke, Start(), 0, TURNS);
    PagesSplit(at, 0, end);
    GatheredStep(at, 0, end);
    if PageGood(at(0), 0, PageEnd(0, end)) {
      GoodIsShort(at(0), 0, PageEnd(0, end));
      if PageEnd(0, end) == end {
        NoMorePages(at, 0, end);
      } else {
        HonestTurns(at, end, invoke, Turn(Start(), a), 1);
        RowsConcat(Found(at(0).look, 0, PageEnd(0, end)), Gathered(at, 1, end));
      }
    }
  }

  lemma GoodIsShort(m: Moment, lo: nat, hi: nat)
    requires PageGood(m, lo, hi)
    ensures m.observed <= CAPACITY
  {
  }

  /** Each record gathered is what its own page read at its index. */
  lemma {:induction false} GatheredAt(at: nat -> Moment, k: nat, end: nat)
    requires 12 * k <= end && (k == 0 || 12 * k < end) && PagesGood(at, k, end)
    ensures |Gathered(at, k, end)| == end - 12 * k
    ensures forall i :: 12 * k <= i < end ==>
              Hit(at(PageOn(i)).look, i) && at(PageOn(i)).look(i) == Seen(Gathered(at, k, end)[i - 12 * k])
    decreases end - 12 * k
  {
    hide PageGood, PagesGood, Gathered, Found, Hit, PageOn;
    PagesSplit(at, k, end);
    GatheredStep(at, k, end);
    PageReads(at(k), k, end);
    if PageEnd(k, end) != end {
      GatheredAt(at, k + 1, end);
    }
  }

  /** The page an index is on. */
  function PageOn(i: nat): nat {
    i / 12
  }

  lemma PageOnIs(i: nat, k: nat)
    requires 12 * k <= i < 12 * (k + 1)
    ensures PageOn(i) == k
  {
  }

  lemma GoodPage(m: Moment, lo: nat, hi: nat)
    requires PageGood(m, lo, hi)
    ensures AllHit(m.look, lo, hi)
  {
  }

  lemma PageRead(m: Moment, k: nat, end: nat, i: nat)
    requires 12 * k <= i < PageEnd(k, end) && PageGood(m, 12 * k, PageEnd(k, end))
    ensures var page := Found(m.look, 12 * k, PageEnd(k, end));
            && PageOn(i) == k && |page| == PageEnd(k, end) - 12 * k
            && Hit(m.look, i) && m.look(i) == Seen(page[i - 12 * k])
  {
    hide PageGood, AllHit, Found, Hit, PageOn;
    PageOnIs(i, k);
    GoodPage(m, 12 * k, PageEnd(k, end));
    FoundAt(m.look, 12 * k, PageEnd(k, end), i);
  }

  lemma PageReads(m: Moment, k: nat, end: nat)
    requires 12 * k <= end && PageGood(m, 12 * k, PageEnd(k, end))
    ensures var page := Found(m.look, 12 * k, PageEnd(k, end));
            && |page| == PageEnd(k, end) - 12 * k
            && forall i :: 12 * k <= i < PageEnd(k, end) ==>
                 PageOn(i) == k && Hit(m.look, i) && m.look(i) == Seen(page[i - 12 * k])
  {
    hide PageGood, AllHit, Found, Absent, Hit, PageOn;
    var stop := PageEnd(k, end);
    GoodPage(m, 12 * k, stop);
    AbsentIffMissed(m.look, 12 * k, stop);
    forall i | 12 * k <= i < stop
      ensures PageOn(i) == k && Hit(m.look, i) && m.look(i) == Seen(Found(m.look, 12 * k, stop)[i - 12 * k])
    {
      PageRead(m, k, end, i);
    }
  }

  /** Every index a page read was copied out of its slot by a reader of the ring. */
  ghost predicate ReadFrom(look: nat -> Look, r: Ring) {
    forall i :: look(i).Seen? ==> Copy(SlotOf(i), look(i).record.id, look(i).record.evidence) in r.copies
  }

  /** End to end over a ring in motion: whatever the writers and readers did meanwhile, a complete collection
      holds the evidence of every call from the first to the last of its cut, in order. */
  lemma MovingRingIsCollected(states: seq<Ring>, steps: seq<Step>, n: nat, at: nat -> Moment,
                              invoke: (nat, Command) -> Response)
    requires Run(states, steps) && n < |states| && forall k :: ReadFrom(at(k).look, states[n])
    requires Serves(invoke, at)
    requires Orderly(at)
    ensures var out := Collected(invoke);
            var r := states[n];
            out.Complete? ==>
              && |out.records| == at(0).begun <= r.next == |r.log|
              && forall i :: 0 <= i < |out.records| ==> out.records[i] == Row(Record(i + 1, r.log[i]))
  {
    hide *;
    CollectedExactlyWhen(at, invoke);
    CollectedIs(invoke);
    SafeLog(states, steps, n);
    if Collected(invoke).Complete? {
      var end := at(0).begun;
      GatheredAt(at, 0, end);
      RowsAre(Gathered(at, 0, end));
      forall i | 0 <= i < end
        ensures i < states[n].next && Collected(invoke).records[i] == Row(Record(i + 1, states[n].log[i]))
      {
        GenuineHit(states, steps, n, at(PageOn(i)).look, i);
      }
      if end > 0 {
        GenuineHit(states, steps, n, at(PageOn(end - 1)).look, end - 1);
      }
    }
  }

  lemma GenuineHit(states: seq<Ring>, steps: seq<Step>, n: nat, look: nat -> Look, i: nat)
    requires Run(states, steps) && n < |states| && ReadFrom(look, states[n]) && Hit(look, i)
    ensures var r := states[n];
            i < r.next == |r.log| && look(i) == Seen(Record(i + 1, r.log[i]))
  {
    hide Run, SlotOf;
    ReadIsGenuine(states, steps, n, Copy(SlotOf(i), look(i).record.id, look(i).record.evidence));
  }

  lemma CollectedIs(invoke: (nat, Command) -> Response)
    ensures Turns(invoke, Start(), 0, TURNS).Done? ==> Collected(invoke) == Turns(invoke, Start(), 0, TURNS).outcome
  {
    hide Turns;
  }

  lemma RowsAre(records: seq<Record>)
    ensures |Rows(records)| == |records| && forall i :: 0 <= i < |records| ==> Rows(records)[i] == Row(records[i])
  {
  }

  lemma SafeLog(states: seq<Ring>, steps: seq<Step>, n: nat)
    requires Run(states, steps) && n < |states|
    ensures |states[n].log| == states[n].next && |states[n].slots| == CAPACITY
  {
    hide Run;
    AlwaysSafe(states, steps, n);
  }

  // ---- collecting from a ring at rest --------------------------------------------------

  /** What a page reads off a ring that is at rest while the page is built. */
  function LookAt(r: Ring): nat -> Look {
    (i: nat) => if |r.slots| == CAPACITY then Read(r, SlotOf(i)) else Unseen
  }

  function Resting(r: Ring): nat -> Moment {
    (k: nat) => Moment(LookAt(r), r.next, r.next, r.dropped)
  }

  lemma RestingIs(r: Ring, k: nat)
    ensures Resting(r)(k) == Moment(LookAt(r), r.next, r.next, r.dropped)
  {
  }

  lemma RestingOrderly(r: Ring)
    ensures Orderly(Resting(r))
  {
  }

  lemma LookAtSlot(r: Ring, i: nat)
    requires |r.slots| == CAPACITY && r.slots[SlotOf(i)].id == i + 1 && r.slots[SlotOf(i)].holder.Free?
    ensures LookAt(r)(i) == Seen(Record(i + 1, r.slots[SlotOf(i)].value)) && Hit(LookAt(r), i)
  {
    hide SlotOf;
  }

  /** Each of the last 2048 calls can be read off a ring at rest. */
  lemma RestingHit(states: seq<Ring>, steps: seq<Step>, n: nat, i: nat)
    requires Run(states, steps) && n < |states| && AtRest(states[n]) && i < states[n].next <= i + CAPACITY
    ensures var r := states[n];
            |r.log| == r.next && Hit(LookAt(r), i) && LookAt(r)(i) == Seen(Record(i + 1, r.log[i]))
  {
    hide Run, SlotOf, Safe, Hit, LookAt;
    QuietRingIsComplete(states, steps, n, i);
    LookAtSlot(states[n], i);
  }

  /** After any interleaving that came to rest with nothing dropped and no more than a ring of evidence,
      collecting yields the evidence of every call in order. */
  lemma QuietRingIsCollected(states: seq<Ring>, steps: seq<Step>, n: nat, invoke: (nat, Command) -> Response)
    requires Run(states, steps) && n < |states| && AtRest(states[n]) && states[n].next <= CAPACITY
    requires Serves(invoke, Resting(states[n]))
    ensures var out := Collected(invoke);
            var r := states[n];
            && out.Complete? && |out.records| == r.next == |r.log|
            && forall i :: 0 <= i < r.next ==> out.records[i] == Row(Record(i + 1, r.log[i]))
  {
    hide *;
    var r := states[n];
    var at := Resting(r);
    SafeLog(states, steps, n);
    NothingDropped(r);
    forall k ensures at(k) == Moment(LookAt(r), r.next, r.next, r.dropped) { RestingIs(r, k); }
    forall i: nat | i < r.next ensures Hit(LookAt(r), i) && LookAt(r)(i) == Seen(Record(i + 1, r.log[i])) {
      RestingHit(states, steps, n, i);
    }
    EveryPageGood(at, LookAt(r), r.next);
    RestingOrderly(r);
    CollectedExactlyWhen(at, invoke);
    CollectedIs(invoke);
    GatheredAt(at, 0, r.next);
    RowsAre(Gathered(at, 0, r.next));
    forall i | 0 <= i < r.next ensures Collected(invoke).records[i] == Row(Record(i + 1, r.log[i])) {
      assert at(PageOn(i)).look(i) == Seen(Gathered(at, 0, r.next)[i]);
      assert at(PageOn(i)).look == LookAt(r);
    }
  }

  lemma NothingDropped(r: Ring)
    requires AtRest(r)
    ensures r.dropped == 0
  {
  }

  lemma EveryPageGood(at: nat -> Moment, look: nat -> Look, end: nat)
    requires end <= CAPACITY && forall k :: at(k) == Moment(look, end, end, 0)
    requires forall i: nat :: i < end ==> Hit(look, i)
    ensures PagesGood(at, 0, end)
  {
    hide Hit;
  }

  /** A history one call longer than the ring is refused, although every index the first query offers is there
      to be read. */
  lemma LongHistoryIsRefused(e: Evidence) returns (states: seq<Ring>, steps: seq<Step>)
    ensures Run(states, steps)
    ensures var r := states[|states| - 1];
            && AtRest(r) && r.next == CAPACITY + 1
            && AllHit(LookAt(r), Overwritten(r.next), r.next)
            && Collected(Server(Resting(r))).Incomplete?
  {
    hide *;
    states, steps := RestingRun(CAPACITY + 1, e);
    var n := |states| - 1;
    var r := states[n];
    forall i: nat | Overwritten(r.next) <= i < r.next ensures Hit(LookAt(r), i) {
      OverwrittenIs(r.next);
      RestingHit(states, steps, n, i);
    }
    AllHitIntro(LookAt(r), Overwritten(r.next), r.next);
    forall k ensures Resting(r)(k) == Moment(LookAt(r), r.next, r.next, r.dropped) { RestingIs(r, k); }
    TooLong(Resting(r), r.next);
    ServerServes(Resting(r));
    RestingOrderly(r);
    CollectedExactlyWhen(Resting(r), Server(Resting(r)));
    CollectedIs(Server(Resting(r)));
  }

  function Server(at: nat -> Moment): (nat, Command) -> Response {
    (i: nat, c: Command) => Serve(at(i), c)
  }

  lemma ServerServes(at: nat -> Moment)
    ensures Serves(Server(at), at)
  {
  }

  lemma OverwrittenIs(observed: nat)
    ensures observed >= CAPACITY ==> Overwritten(observed) == observed - CAPACITY
  {
  }

  lemma AllHitIntro(look: nat -> Look, lo: nat, hi: nat)
    requires forall i: nat :: lo <= i < hi ==> Hit(look, i)
    ensures AllHit(look, lo, hi)
  {
  }

  lemma TooLong(at: nat -> Moment, end: nat)
    requires at(0).observed > CAPACITY
    ensures !PagesGood(at, 0, end)
  {
  }
}
