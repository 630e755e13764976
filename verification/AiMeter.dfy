/** Charging for AI tokens: cumulative reports become deltas above stored marks,
    priced, rounded and posted together with the marks in one commit. */
module AiMeter {
  import opened Common
  import opened Ledger
  import opened AiPricing

  datatype Service = Claude | Codex

  function KindOf(s: Service): Kind {
    match s
    case Claude => ChargeAi
    case Codex => ChargeCodex
  }

  datatype MarkKey = MarkKey(workspace: int, service: Service, session: string, model: string)

  datatype Mark = Mark(tokens: Tokens, billed: int)

  const UNMARKED := Mark(BLANK, 0)

  function MarkOf(marks: map<MarkKey, Mark>, k: MarkKey): Mark {
    if k in marks then marks[k] else UNMARKED
  }

  /** One (session, model) pair of a report, with its cumulative totals. */
  datatype Entry = Entry(session: string, model: string, totals: Tokens)

  /** Everything one pass reads: the report, the price table and the settings. */
  datatype Request = Request(
    user: int, workspace: int, service: Service, bucket: int,
    report: seq<Entry>, prices: seq<Price>, rate: real, discount: real)

  function KeyOf(req: Request, e: Entry): MarkKey {
    MarkKey(req.workspace, req.service, e.session, e.model)
  }

  /** A report is a dict of dicts: each (session, model) pair occurs once. */
  predicate DistinctEntries(req: Request) {
    forall i, j :: 0 <= i < j < |req.report| ==> KeyOf(req, req.report[i]) != KeyOf(req, req.report[j])
  }

  /** One mark about to move, and the charge that moves it. */
  datatype Touch = Touch(
    key: MarkKey, newest: Tokens, delta: Tokens, micro: int,
    price: Price, rate: real, discount: real)

  function TouchOf(marks: map<MarkKey, Mark>, req: Request, e: Entry): Option<Touch> {
    var price := Resolved(e.model, req.prices);
    if price.None? then None
    else
      var mark := MarkOf(marks, KeyOf(req, e)).tokens;
      var delta := Delta(e.totals, mark);
      if delta == BLANK then None
      else Some(Touch(KeyOf(req, e), Rise(e.totals, mark), delta,
                      TomanMicro(delta, price.value, req.rate, req.discount),
                      price.value, req.rate, req.discount))
  }

  function Touches(marks: map<MarkKey, Mark>, req: Request, report: seq<Entry>): seq<Touch> {
    if report == [] then []
    else
      var before := Touches(marks, req, report[..|report| - 1]);
      var touch := TouchOf(marks, req, report[|report| - 1]);
      if touch.Some? then before + [touch.value] else before
  }

  function TotalMicro(touches: seq<Touch>): int {
    if touches == [] then 0
    else TotalMicro(touches[..|touches| - 1]) + touches[|touches| - 1].micro
  }

  function MoveMark(marks: map<MarkKey, Mark>, t: Touch): map<MarkKey, Mark> {
    marks[t.key := Mark(t.newest, MarkOf(marks, t.key).billed + t.micro)]
  }

  function MarksAfter(marks: map<MarkKey, Mark>, touches: seq<Touch>): map<MarkKey, Mark> {
    if touches == [] then marks
    else MoveMark(MarksAfter(marks, touches[..|touches| - 1]), touches[|touches| - 1])
  }

  function ChargePosting(req: Request, micro: int): Posting {
    Posting(req.user, Some(req.workspace), KindOf(req.service), -micro, Some(req.bucket), None)
  }

  /** The committed tables a pass reads and writes. */
  datatype Tables = Tables(marks: map<MarkKey, Mark>, db: Db)

  datatype Outcome = Nothing | Skipped | Charged

  /** A pass as one transaction. */
  function Pass(t: Tables, req: Request): (Tables, Outcome) {
    var touches := Touches(t.marks, req, req.report);
    if touches == [] then (t, Nothing)
    else
      var (db, posted) := Post(t.db, ChargePosting(req, TotalMicro(touches)));
      if !posted then (t, Skipped) else (Tables(MarksAfter(t.marks, touches), db), Charged)
  }

  lemma NothingTouched(marks: map<MarkKey, Mark>, req: Request)
    ensures Touches(marks, req, []) == [] && TotalMicro([]) == 0
  {
  }

  lemma OneMoreEntry(marks: map<MarkKey, Mark>, req: Request, report: seq<Entry>, e: Entry)
    ensures var before, touch := Touches(marks, req, report), TouchOf(marks, req, e);
            && (touch.None? ==> Touches(marks, req, report + [e]) == before)
            && (touch.Some? ==>
                  && Touches(marks, req, report + [e]) == before + [touch.value]
                  && TotalMicro(before + [touch.value]) == TotalMicro(before) + touch.value.micro)
  {
    hide TouchOf;
    assert (report + [e])[..|report|] == report;
    var before := Touches(marks, req, report);
    if TouchOf(marks, req, e).Some? {
      assert (before + [TouchOf(marks, req, e).value])[..|before|] == before;
    }
  }

  class Meter {
    var marks: map<MarkKey, Mark>
    var db: Db

    ghost function Committed(): Tables
      reads this
    {
      Tables(marks, db)
    }

    constructor ()
      ensures Committed() == Tables(map[], EMPTY)
    {
      marks, db := map[], EMPTY;
    }

    /** The loop over the report: what is new above the marks, and its price. */
    method Gather(req: Request) returns (total: int, touched: seq<Touch>)
      ensures touched == Touches(marks, req, req.report) && total == TotalMicro(touched)
    {
      hide Delta, Rise, TomanMicro, Resolved, Touches, TotalMicro;
      NothingTouched(marks, req);
      total, touched := 0, [];
      var report := req.report;
      for i := 0 to |report|
        invariant touched == Touches(marks, req, report[..i])
        invariant total == TotalMicro(touched)
      {
        assert report[..i + 1] == report[..i] + [report[i]];
        OneMoreEntry(marks, req, report[..i], report[i]);
        var price := Resolve(report[i].model, req.prices);
        if price.Some? {
          var mark := MarkOf(marks, KeyOf(req, report[i])).tokens;
          var delta := Delta(report[i].totals, mark);
          if delta != BLANK {
            var micro := TomanMicro(delta, price.value, req.rate, req.discount);
            touched := touched + [Touch(KeyOf(req, report[i]), Rise(report[i].totals, mark), delta, micro,
                                        price.value, req.rate, req.discount)];
            total := total + micro;
          }
        }
      }
      assert report[..|report|] == report;
    }

    /** The loop over what was touched: every mark moves to its newest total. */
    method Moved(touched: seq<Touch>) returns (newest: map<MarkKey, Mark>)
      ensures newest == MarksAfter(marks, touched)
    {
      newest := marks;
      for i := 0 to |touched|
        invariant newest == MarksAfter(marks, touched[..i])
      {
        assert touched[..i + 1][..i] == touched[..i];
        newest := MoveMark(newest, touched[i]);
      }
      assert touched[..|touched|] == touched;
    }

    /** One metering pass. `crash` is a process that dies before its commit. */
    method MeterAiUsage(req: Request, crash: bool) returns (charged: int)
      modifies this
      ensures Committed() == if crash then old(Committed()) else Pass(old(Committed()), req).0
      ensures !crash ==>
        charged == if Pass(old(Committed()), req).1.Charged?
                   then TotalMicro(Touches(old(marks), req, req.report)) else 0
    {
      hide Post, Touches, TotalMicro, MarksAfter;
      var total, touched := Gather(req);
      if touched == [] {
        return 0;
      }
      var (posting, posted) := Post(db, ChargePosting(req, total));
      if !posted {
        return 0;
      }
      var newest := Moved(touched);
      if crash {
        return 0;
      }
      // The charge and the marks land in the same commit.
      db, marks := posting, newest;
      charged := total;
    }
  }

  // ------------------------------------------------------------------- any run

  /** `Other` is any posting made elsewhere: grants, hourly charges, OpenRouter. */
  datatype Event =
    | MeterPass(req: Request, crash: bool)
    | Other(posting: Posting)

  predicate IsAiKind(k: Kind) {
    k == ChargeAi || k == ChargeCodex
  }

  predicate Wellformed(e: Event) {
    match e
    case MeterPass(req, _) => DistinctEntries(req)
    case Other(p) => !IsAiKind(p.kind)
  }

  /** The committed tables, with every charge ever committed and every request
      that was counted: not crashed, and not skipped for its bucket. */
  datatype World = World(t: Tables, charges: seq<Touch>, counted: seq<Request>)

  const BEGINNING := World(Tables(map[], EMPTY), [], [])

  function Step(w: World, e: Event): World {
    match e
    case Other(p) => w.(t := w.t.(db := Post(w.t.db, p).0))
    case MeterPass(req, crash) =>
      var (t, outcome) := Pass(w.t, req);
      if crash || outcome.Skipped? then w
      else World(t, w.charges + Touches(w.t.marks, req, req.report), w.counted + [req])
  }

  function Run(events: seq<Event>): World {
    if events == [] then BEGINNING else Step(Run(events[..|events| - 1]), events[|events| - 1])
  }

  // ------------------------------------------------------- what history says of a key

  function DeltaSum(charges: seq<Touch>, k: MarkKey): Tokens {
    if charges == [] then BLANK
    else
      var last := charges[|charges| - 1];
      var before := DeltaSum(charges[..|charges| - 1], k);
      if last.key == k then Plus(before, last.delta) else before
  }

  function MicroSum(charges: seq<Touch>, k: MarkKey): int {
    if charges == [] then 0
    else
      var last := charges[|charges| - 1];
      MicroSum(charges[..|charges| - 1], k) + (if last.key == k then last.micro else 0)
  }

  function ChargeCount(charges: seq<Touch>, k: MarkKey): nat {
    if charges == [] then 0
    else
      ChargeCount(charges[..|charges| - 1], k) + (if charges[|charges| - 1].key == k then 1 else 0)
  }

  /** The totals a report gives for `k`, provided its model has a price. */
  function PricedTotal(req: Request, report: seq<Entry>, k: MarkKey): Option<Tokens> {
    if report == [] then None
    else
      var last := report[|report| - 1];
      if KeyOf(req, last) == k && Resolved(last.model, req.prices).Some? then Some(last.totals)
      else PricedTotal(req, report[..|report| - 1], k)
  }

  function Readings(counted: seq<Request>, k: MarkKey): seq<Tokens> {
    if counted == [] then []
    else
      var last := counted[|counted| - 1];
      var total := PricedTotal(last, last.report, k);
      var before := Readings(counted[..|counted| - 1], k);
      if total.Some? then before + [total.value] else before
  }

  function Largest(readings: seq<Tokens>): Tokens {
    if readings == [] then BLANK
    else Rise(readings[|readings| - 1], Largest(readings[..|readings| - 1]))
  }

  function KindSum(rows: seq<Posting>, workspace: int, kind: Kind): int {
    if rows == [] then 0
    else
      var last := rows[|rows| - 1];
      KindSum(rows[..|rows| - 1], workspace, kind)
        + (if last.workspace == Some(workspace) && last.kind == kind then last.amount else 0)
  }

  function BilledOf(marks: map<MarkKey, Mark>, workspace: int, service: Service): map<MarkKey, int> {
    map k | k in marks && k.workspace == workspace && k.service == service :: marks[k].billed
  }

  ghost predicate MarksMatchCharges(w: World) {
    forall k :: MarkOf(w.t.marks, k) == Mark(DeltaSum(w.charges, k), MicroSum(w.charges, k))
  }

  ghost predicate MarksAreLargest(w: World) {
    forall k :: MarkOf(w.t.marks, k).tokens == Largest(Readings(w.counted, k))
  }

  ghost predicate LedgerMatchesMarks(w: World) {
    forall ws, s :: MapSum(BilledOf(w.t.marks, ws, s)) == -KindSum(w.t.db.rows, ws, KindOf(s))
  }

  ghost predicate PricedRight(charges: seq<Touch>) {
    forall i :: 0 <= i < |charges| ==>
      && Counts(charges[i].delta)
      && charges[i].micro == TomanMicro(charges[i].delta, charges[i].price, charges[i].rate, charges[i].discount)
  }

  ghost predicate Inv(w: World) {
    && MarksMatchCharges(w) && MarksAreLargest(w) && LedgerMatchesMarks(w)
    && PricedRight(w.charges) && Consistent(w.t.db)
  }

  // ---------------------------------------------------------------- one pass, by key

  predicate KeyIn(req: Request, report: seq<Entry>, k: MarkKey) {
    exists i :: 0 <= i < |report| && KeyOf(req, report[i]) == k
  }

  /** A key that no entry names has neither a priced total nor a charge. */
  lemma {:induction false} AbsentKeyIsUntouched(marks: map<MarkKey, Mark>, req: Request, report: seq<Entry>, k: MarkKey)
    requires forall i :: 0 <= i < |report| ==> KeyOf(req, report[i]) != k
    ensures PricedTotal(req, report, k).None?
    ensures DeltaSum(Touches(marks, req, report), k) == BLANK
  {
    hide Resolved, Delta, TomanMicro, Plus;
    if report != [] {
      var front, e := report[..|report| - 1], report[|report| - 1];
      AbsentKeyIsUntouched(marks, req, front, k);
      TouchStep(Touches(marks, req, front), TouchOf(marks, req, e), k);
    }
  }

  lemma {:induction false} TouchStep(before: seq<Touch>, touch: Option<Touch>, k: MarkKey)
    ensures touch.Some? && touch.value.key == k ==>
      DeltaSum(before + [touch.value], k) == Plus(DeltaSum(before, k), touch.value.delta)
    ensures touch.Some? && touch.value.key != k ==>
      DeltaSum(before + [touch.value], k) == DeltaSum(before, k)
  {
    if touch.Some? {
      assert (before + [touch.value])[..|before|] == before;
    }
  }

  /** The deltas a pass charges to `k` are what its priced total adds to the mark. */
  lemma {:induction false} TouchesOfKey(marks: map<MarkKey, Mark>, req: Request, n: nat, k: MarkKey)
    requires DistinctEntries(req) && n <= |req.report|
    ensures PricedTotal(req, req.report[..n], k).Some? ==>
      DeltaSum(Touches(marks, req, req.report[..n]), k)
        == Delta(PricedTotal(req, req.report[..n], k).value, MarkOf(marks, k).tokens)
    ensures PricedTotal(req, req.report[..n], k).None? ==>
      DeltaSum(Touches(marks, req, req.report[..n]), k) == BLANK
  {
    hide Resolved, Delta, TomanMicro, Plus, Rise;
    if n > 0 {
      var e := req.report[n - 1];
      var front := req.report[..n - 1];
      assert req.report[..n][..n - 1] == front;
      TouchStep(Touches(marks, req, front), TouchOf(marks, req, e), k);
      if KeyOf(req, e) == k {
        AbsentKeyIsUntouched(marks, req, front, k);
        PlusBlank(Delta(e.totals, MarkOf(marks, k).tokens));
      } else {
        TouchesOfKey(marks, req, n - 1, k);
      }
    }
  }

  /** Touches of one pass: distinct keys of this workspace and service, each lifting
      the mark it found by its delta. */
  ghost predicate LiftsMarks(marks: map<MarkKey, Mark>, touches: seq<Touch>) {
    forall i :: 0 <= i < |touches| ==>
      touches[i].newest == Plus(MarkOf(marks, touches[i].key).tokens, touches[i].delta)
  }

  ghost predicate DistinctKeys(touches: seq<Touch>) {
    forall i, j :: 0 <= i < j < |touches| ==> touches[i].key != touches[j].key
  }

  lemma {:induction false} TouchesLift(marks: map<MarkKey, Mark>, req: Request, n: nat)
    requires DistinctEntries(req) && n <= |req.report|
    ensures var touches := Touches(marks, req, req.report[..n]);
            && LiftsMarks(marks, touches) && DistinctKeys(touches) && PricedRight(touches)
            && forall i :: 0 <= i < |touches| ==> KeyIn(req, req.report[..n], touches[i].key)
  {
    hide Resolved, TomanMicro, Delta, Rise, Plus, Counts;
    if n > 0 {
      TouchesLift(marks, req, n - 1);
      var e := req.report[n - 1];
      assert req.report[..n][..n - 1] == req.report[..n - 1];
      var before := Touches(marks, req, req.report[..n - 1]);
      var touches := Touches(marks, req, req.report[..n]);
      DeltaRaisesMark(e.totals, MarkOf(marks, KeyOf(req, e)).tokens);
      forall i | 0 <= i < |touches| ensures KeyIn(req, req.report[..n], touches[i].key) {
        if i < |before| {
          var j :| 0 <= j < n - 1 && KeyOf(req, req.report[..n - 1][j]) == before[i].key;
          assert KeyOf(req, req.report[..n][j]) == before[i].key;
        } else {
          assert KeyOf(req, req.report[..n][n - 1]) == touches[i].key;
        }
      }
    }
  }

  lemma {:induction false} AbsentKeyHasNoDelta(touches: seq<Touch>, k: MarkKey)
    requires forall i :: 0 <= i < |touches| ==> touches[i].key != k
    ensures DeltaSum(touches, k) == BLANK && MicroSum(touches, k) == 0
  {
    if touches != [] {
      AbsentKeyHasNoDelta(touches[..|touches| - 1], k);
    }
  }

  lemma {:induction false} TokensAfterAt(marks: map<MarkKey, Mark>, touches: seq<Touch>, k: MarkKey)
    requires LiftsMarks(marks, touches) && DistinctKeys(touches)
    ensures MarkOf(MarksAfter(marks, touches), k).tokens
         == Plus(MarkOf(marks, k).tokens, DeltaSum(touches, k))
  {
    if touches == [] {
      PlusBlank(MarkOf(marks, k).tokens);
    } else {
      var front, t := touches[..|touches| - 1], touches[|touches| - 1];
      if t.key == k {
        AbsentKeyHasNoDelta(front, k);
        PlusBlank(t.delta);
      } else {
        TokensAfterAt(marks, front, k);
      }
    }
  }

  lemma {:induction false} MicroAfterAt(marks: map<MarkKey, Mark>, touches: seq<Touch>, k: MarkKey)
    ensures MarkOf(MarksAfter(marks, touches), k).billed
         == MarkOf(marks, k).billed + MicroSum(touches, k)
  {
    if touches != [] {
      MicroAfterAt(marks, touches[..|touches| - 1], k);
    }
  }

  lemma {:induction false} BilledUpdate(marks: map<MarkKey, Mark>, k: MarkKey, m: Mark, ws: int, s: Service)
    ensures MapSum(BilledOf(marks[k := m], ws, s))
         == MapSum(BilledOf(marks, ws, s))
            + (if k.workspace == ws && k.service == s then m.billed - MarkOf(marks, k).billed else 0)
  {
    var was, now := BilledOf(marks, ws, s), BilledOf(marks[k := m], ws, s);
    if k.workspace == ws && k.service == s {
      assert now == was[k := m.billed];
      MapSumUpdate(was, k, m.billed);
    } else {
      assert now == was;
    }
  }

  ghost predicate AllOf(touches: seq<Touch>, workspace: int, service: Service) {
    forall i :: 0 <= i < |touches| ==>
      touches[i].key.workspace == workspace && touches[i].key.service == service
  }

  lemma {:induction false} BilledAfter(
    marks: map<MarkKey, Mark>, touches: seq<Touch>, workspace: int, service: Service, ws: int, s: Service)
    requires AllOf(touches, workspace, service)
    ensures MapSum(BilledOf(MarksAfter(marks, touches), ws, s))
         == MapSum(BilledOf(marks, ws, s))
            + (if workspace == ws && service == s then TotalMicro(touches) else 0)
  {
    hide MapSum, BilledOf;
    if touches != [] {
      var front, t := touches[..|touches| - 1], touches[|touches| - 1];
      BilledAfter(marks, front, workspace, service, ws, s);
      var before := MarksAfter(marks, front);
      BilledUpdate(before, t.key, Mark(t.newest, MarkOf(before, t.key).billed + t.micro), ws, s);
      assert t.key.workspace == workspace && t.key.service == service;
    }
  }

  lemma {:induction false} KindSumAppend(rows: seq<Posting>, p: Posting, ws: int, kind: Kind)
    ensures KindSum(rows + [p], ws, kind)
         == KindSum(rows, ws, kind) + (if p.workspace == Some(ws) && p.kind == kind then p.amount else 0)
  {
    assert (rows + [p])[..|rows|] == rows;
  }

  lemma {:induction false} DeltaSumConcat(a: seq<Touch>, b: seq<Touch>, k: MarkKey)
    ensures DeltaSum(a + b, k) == Plus(DeltaSum(a, k), DeltaSum(b, k))
  {
    if b == [] {
      assert a + b == a;
      PlusBlank(DeltaSum(a, k));
    } else {
      var front, last := b[..|b| - 1], b[|b| - 1];
      DeltaSumConcat(a, front, k);
      assert (a + b)[..|a + b| - 1] == a + front;
      PlusAssociates(DeltaSum(a, k), DeltaSum(front, k), last.delta);
    }
  }

  lemma {:induction false} MicroSumConcat(a: seq<Touch>, b: seq<Touch>, k: MarkKey)
    ensures MicroSum(a + b, k) == MicroSum(a, k) + MicroSum(b, k)
  {
    if b == [] {
      assert a + b == a;
    } else {
      MicroSumConcat(a, b[..|b| - 1], k);
      assert (a + b)[..|a + b| - 1] == a + b[..|b| - 1];
    }
  }

  // ---------------------------------------------------------------- invariant proof

  /** A pass that was counted leaves every mark at the larger of its old value and
      the priced total reported for it. */
  lemma {:induction false} CountedPassRaisesMarks(t: Tables, req: Request, k: MarkKey)
    requires DistinctEntries(req) && !Pass(t, req).1.Skipped?
    ensures PricedTotal(req, req.report, k).Some? ==>
      MarkOf(Pass(t, req).0.marks, k).tokens
        == Rise(PricedTotal(req, req.report, k).value, MarkOf(t.marks, k).tokens)
    ensures PricedTotal(req, req.report, k).None? ==>
      MarkOf(Pass(t, req).0.marks, k).tokens == MarkOf(t.marks, k).tokens
  {
    var n := |req.report|;
    var mark, total := MarkOf(t.marks, k).tokens, PricedTotal(req, req.report, k);
    var touches := Touches(t.marks, req, req.report);
    assert Pass(t, req).0.marks == MarksAfter(t.marks, touches);
    assert req.report[..n] == req.report;
    TouchesOfKey(t.marks, req, n, k);
    TouchesLift(t.marks, req, n);
    TokensAfterAt(t.marks, touches, k);
    if total.Some? {
      DeltaRaisesMark(total.value, mark);
    } else {
      PlusBlank(mark);
    }
  }

  lemma {:induction false} CountedPassMatchesCharges(w: World, req: Request)
    requires MarksMatchCharges(w) && DistinctEntries(req) && !Pass(w.t, req).1.Skipped?
    ensures MarksMatchCharges(Step(w, MeterPass(req, false)))
  {
    var r := Step(w, MeterPass(req, false));
    var touches := Touches(w.t.marks, req, req.report);
    assert r.t.marks == MarksAfter(w.t.marks, touches) && r.charges == w.charges + touches;
    assert req.report[..|req.report|] == req.report;
    TouchesLift(w.t.marks, req, |req.report|);
    forall k ensures MarkOf(r.t.marks, k) == Mark(DeltaSum(r.charges, k), MicroSum(r.charges, k)) {
      DeltaSumConcat(w.charges, touches, k);
      MicroSumConcat(w.charges, touches, k);
      TokensAfterAt(w.t.marks, touches, k);
      MicroAfterAt(w.t.marks, touches, k);
    }
  }

  lemma {:induction false} CountedPassStaysLargest(w: World, req: Request)
    requires MarksAreLargest(w) && DistinctEntries(req) && !Pass(w.t, req).1.Skipped?
    ensures MarksAreLargest(Step(w, MeterPass(req, false)))
  {
    var r := Step(w, MeterPass(req, false));
    assert r.counted[..|w.counted|] == w.counted;
    forall k ensures MarkOf(r.t.marks, k).tokens == Largest(Readings(r.counted, k)) {
      CountedPassRaisesMarks(w.t, req, k);
      var before := Readings(w.counted, k);
      var total := PricedTotal(req, req.report, k);
      if total.Some? {
        assert (before + [total.value])[..|before|] == before;
      }
    }
  }

  lemma {:induction false} CountedPassKeepsLedger(w: World, req: Request)
    requires Inv(w) && DistinctEntries(req) && !Pass(w.t, req).1.Skipped?
    ensures LedgerMatchesMarks(Step(w, MeterPass(req, false)))
    ensures Consistent(Step(w, MeterPass(req, false)).t.db)
  {
    var r := Step(w, MeterPass(req, false));
    var touches := Touches(w.t.marks, req, req.report);
    assert req.report[..|req.report|] == req.report;
    TouchesLift(w.t.marks, req, |req.report|);
    if touches != [] {
      var p := ChargePosting(req, TotalMicro(touches));
      PostKeepsConsistent(w.t.db, p);
      assert AllOf(touches, req.workspace, req.service) by {
        assert forall i :: 0 <= i < |touches| ==> KeyIn(req, req.report, touches[i].key);
      }
      forall ws, s
        ensures MapSum(BilledOf(r.t.marks, ws, s)) == -KindSum(r.t.db.rows, ws, KindOf(s))
      {
        BilledAfter(w.t.marks, touches, req.workspace, req.service, ws, s);
        KindSumAppend(w.t.db.rows, p, ws, KindOf(s));
      }
    }
  }

  lemma {:induction false} StepKeepsInv(w: World, e: Event)
    requires Inv(w) && Wellformed(e)
    ensures Inv(Step(w, e))
  {
    match e
    case Other(p) =>
      PostKeepsConsistent(w.t.db, p);
      forall ws, s
        ensures KindSum(Post(w.t.db, p).0.rows, ws, KindOf(s)) == KindSum(w.t.db.rows, ws, KindOf(s))
      {
        KindSumAppend(w.t.db.rows, p, ws, KindOf(s));
      }
    case MeterPass(req, crash) =>
      if !crash && !Pass(w.t, req).1.Skipped? {
        CountedPassMatchesCharges(w, req);
        CountedPassStaysLargest(w, req);
        CountedPassKeepsLedger(w, req);
        assert req.report[..|req.report|] == req.report;
        TouchesLift(w.t.marks, req, |req.report|);
      }
  }

  lemma {:induction false} RunKeepsInv(events: seq<Event>)
    requires forall i :: 0 <= i < |events| ==> Wellformed(events[i])
    ensures Inv(Run(events))
  {
    if events == [] {
      forall ws, s ensures MapSum(BilledOf(BEGINNING.t.marks, ws, s)) == 0 {
        assert BilledOf(BEGINNING.t.marks, ws, s) == map[];
      }
    } else {
      RunKeepsInv(events[..|events| - 1]);
      StepKeepsInv(Run(events[..|events| - 1]), events[|events| - 1]);
    }
  }

  // ---------------------------------------------------------------------- results

  /** Over every run, for every session, model and counter: the deltas of all
      committed charges add up to the mark, and the mark is the largest total seen in
      a counted pass. So nothing is billed twice, refunded or given away. */
  lemma {:induction false} TokensAreBilledOnce(events: seq<Event>, k: MarkKey)
    requires forall i :: 0 <= i < |events| ==> Wellformed(events[i])
    ensures var w := Run(events);
            && DeltaSum(w.charges, k) == MarkOf(w.t.marks, k).tokens
            && MarkOf(w.t.marks, k).tokens == Largest(Readings(w.counted, k))
            && MarkOf(w.t.marks, k).billed == MicroSum(w.charges, k)
  {
    RunKeepsInv(events);
  }

  /** Over every run, the money recorded on the marks of one workspace and service is
      the money its ledger rows of that kind took, and balances match the ledger. */
  lemma {:induction false} MarksAgreeWithLedger(events: seq<Event>, ws: int, s: Service)
    requires forall i :: 0 <= i < |events| ==> Wellformed(events[i])
    ensures var w := Run(events);
            && MapSum(BilledOf(w.t.marks, ws, s)) == -KindSum(w.t.db.rows, ws, KindOf(s))
            && Consistent(w.t.db)
  {
    RunKeepsInv(events);
  }

  // ------------------------------------------------------------------- who pays what

  /** The money that the marks of one workspace and service gained. */
  ghost function Gained(before: map<MarkKey, Mark>, after: map<MarkKey, Mark>, workspace: int, service: Service): int {
    MapSum(BilledOf(after, workspace, service)) - MapSum(BilledOf(before, workspace, service))
  }

  /** A charged pass adds one row and takes exactly the money that its marks gained from its
      customer, and nothing from anybody else. */
  lemma {:induction false} ChargedPassBillsItsCustomer(t: Tables, req: Request)
    requires Consistent(t.db) && DistinctEntries(req) && Pass(t, req).1.Charged?
    ensures var after := Pass(t, req).0;
            var micro := Gained(t.marks, after.marks, req.workspace, req.service);
            && after.db.rows == t.db.rows + [Posting(
                 req.user, Some(req.workspace), if req.service == Claude then ChargeAi else ChargeCodex,
                 -micro, Some(req.bucket), None)]
            && Balance(after.db, req.user) == Balance(t.db, req.user) - micro
            && forall u :: u != req.user ==> Balance(after.db, u) == Balance(t.db, u)
  {
    hide MapSum, BilledOf, Consistent, Taken, Touches, TotalMicro, MarksAfter;
    var touches := Touches(t.marks, req, req.report);
    assert req.report[..|req.report|] == req.report;
    TouchesLift(t.marks, req, |req.report|);
    assert AllOf(touches, req.workspace, req.service) by {
      assert forall i :: 0 <= i < |touches| ==> KeyIn(req, req.report, touches[i].key);
    }
    BilledAfter(t.marks, touches, req.workspace, req.service, req.workspace, req.service);
    PostKeepsConsistent(t.db, ChargePosting(req, TotalMicro(touches)));
  }

  /** A pass that has something to charge is skipped exactly when its workspace was charged
      for its service in its bucket before. */
  lemma {:induction false} SkippedIff(t: Tables, req: Request)
    ensures Pass(t, req).1.Skipped? <==>
      && Touches(t.marks, req, req.report) != []
      && exists r :: r in t.db.rows && r.workspace == Some(req.workspace) && r.period == Some(req.bucket)
                     && r.kind == if req.service == Claude then ChargeAi else ChargeCodex
  {
    hide Touches;
    RefusedIff(t.db, ChargePosting(req, TotalMicro(Touches(t.marks, req, req.report))));
  }

  /** Each reported session and model with a price is charged for what is new above its own
      mark, at the price of its model, at the rate and the discount of the pass. */
  lemma {:induction false} EntryIsChargedAtItsOwnPrice(t: Tables, req: Request, i: nat)
    requires DistinctEntries(req) && i < |req.report| && Pass(t, req).1.Charged?
    ensures var e := req.report[i];
            var k := MarkKey(req.workspace, req.service, e.session, e.model);
            var before, after := MarkOf(t.marks, k), MarkOf(Pass(t, req).0.marks, k);
            match Resolved(e.model, req.prices)
            case None => after == before
            case Some(price) =>
              && after.tokens == Rise(e.totals, before.tokens)
              && after.billed == before.billed
                 + (if AtMost(e.totals, before.tokens) then 0
                    else TomanMicro(Delta(e.totals, before.tokens), price, req.rate, req.discount))
  {
    hide Resolved, TomanMicro, Delta, Rise, Plus, AtMost;
    var e := req.report[i];
    var k := KeyOf(req, e);
    var touches := Touches(t.marks, req, req.report);
    OnlyEntryOfKey(t.marks, req, |req.report|, i);
    assert req.report[..|req.report|] == req.report;
    CountedPassRaisesMarks(t, req, k);
    MicroAfterAt(t.marks, touches, k);
    DeltaRaisesMark(e.totals, MarkOf(t.marks, k).tokens);
  }

  lemma {:induction false} OnlyEntryOfKey(marks: map<MarkKey, Mark>, req: Request, n: nat, i: nat)
    requires DistinctEntries(req) && i < n <= |req.report|
    ensures var e := req.report[i];
            && PricedTotal(req, req.report[..n], KeyOf(req, e))
                 == (if Resolved(e.model, req.prices).Some? then Some(e.totals) else None)
            && MicroSum(Touches(marks, req, req.report[..n]), KeyOf(req, e))
                 == (var touch := TouchOf(marks, req, e); if touch.Some? then touch.value.micro else 0)
  {
    hide Resolved, TomanMicro, Delta, Rise;
    var e, last := req.report[i], req.report[n - 1];
    assert req.report[..n][..n - 1] == req.report[..n - 1];
    MicroStep(Touches(marks, req, req.report[..n - 1]), TouchOf(marks, req, last), KeyOf(req, e));
    if i == n - 1 {
      NoMicroWithoutEntry(marks, req, req.report[..n - 1], KeyOf(req, e));
      AbsentKeyIsUntouched(marks, req, req.report[..n - 1], KeyOf(req, e));
    } else {
      OnlyEntryOfKey(marks, req, n - 1, i);
    }
  }

  lemma {:induction false} MicroStep(before: seq<Touch>, touch: Option<Touch>, k: MarkKey)
    ensures touch.Some? ==>
      MicroSum(before + [touch.value], k) == MicroSum(before, k) + (if touch.value.key == k then touch.value.micro else 0)
  {
    if touch.Some? {
      assert (before + [touch.value])[..|before|] == before;
    }
  }

  lemma {:induction false} NoMicroWithoutEntry(marks: map<MarkKey, Mark>, req: Request, report: seq<Entry>, k: MarkKey)
    requires forall i :: 0 <= i < |report| ==> KeyOf(req, report[i]) != k
    ensures MicroSum(Touches(marks, req, report), k) == 0
  {
    hide Resolved, Delta, TomanMicro, Rise;
    if report != [] {
      var front, e := report[..|report| - 1], report[|report| - 1];
      NoMicroWithoutEntry(marks, req, front, k);
      MicroStep(Touches(marks, req, front), TouchOf(marks, req, e), k);
    }
  }

  /** The money that one customer's committed passes put on marks. */
  ghost function MeteredFor(events: seq<Event>, user: int): int {
    if events == [] then 0
    else
      var front, e := events[..|events| - 1], events[|events| - 1];
      MeteredFor(front, user)
        + (if e.MeterPass? && e.req.user == user
           then Gained(Run(front).t.marks, Run(events).t.marks, e.req.workspace, e.req.service) else 0)
  }

  /** What the ledger took from `user` for AI tokens. */
  function AiSum(rows: seq<Posting>, user: int): int {
    if rows == [] then 0
    else
      var last := rows[|rows| - 1];
      AiSum(rows[..|rows| - 1], user)
        + (if last.user == user && (last.kind == ChargeAi || last.kind == ChargeCodex) then last.amount else 0)
  }

  lemma {:induction false} AiSumAppend(rows: seq<Posting>, p: Posting, user: int)
    ensures AiSum(rows + [p], user)
         == AiSum(rows, user)
            + (if p.user == user && (p.kind == ChargeAi || p.kind == ChargeCodex) then p.amount else 0)
  {
    assert (rows + [p])[..|rows|] == rows;
  }

  lemma {:induction false} OneStepPays(w: World, e: Event, user: int)
    requires Inv(w) && Wellformed(e)
    ensures var after := Step(w, e);
            AiSum(after.t.db.rows, user) == AiSum(w.t.db.rows, user)
              - (if e.MeterPass? && e.req.user == user
                 then Gained(w.t.marks, after.t.marks, e.req.workspace, e.req.service) else 0)
  {
    hide AiSum, Touches, TotalMicro, MarksAfter, Consistent, MarksMatchCharges, MarksAreLargest, LedgerMatchesMarks, PricedRight;
    match e
    case Other(p) => AiSumAppend(w.t.db.rows, p, user);
    case MeterPass(req, crash) =>
      if !crash && Pass(w.t, req).1.Charged? {
        ChargedPassBillsItsCustomer(w.t, req);
        var micro := Gained(w.t.marks, Pass(w.t, req).0.marks, req.workspace, req.service);
        AiSumAppend(w.t.db.rows, Posting(req.user, Some(req.workspace),
          if req.service == Claude then ChargeAi else ChargeCodex, -micro, Some(req.bucket), None), user);
      }
  }

  /** Over every run each customer paid exactly what the customer's own passes put on
      marks. */
  lemma {:induction false} EveryCustomerPaysTheirOwn(events: seq<Event>, user: int)
    requires forall i :: 0 <= i < |events| ==> Wellformed(events[i])
    ensures AiSum(Run(events).t.db.rows, user) == -MeteredFor(events, user)
  {
    hide Step, Inv, Gained;
    if events != [] {
      var front, e := events[..|events| - 1], events[|events| - 1];
      EveryCustomerPaysTheirOwn(front, user);
      RunKeepsInv(front);
      OneStepPays(Run(front), e, user);
    }
  }

  ghost predicate PriceFixed(charges: seq<Touch>, k: MarkKey, p: Price, rate: real, discount: real) {
    forall i :: 0 <= i < |charges| && charges[i].key == k ==>
      charges[i].price == p && charges[i].rate == rate && charges[i].discount == discount
  }

  lemma {:induction false} RoundingOfCharges(
    charges: seq<Touch>, k: MarkKey, p: Price, rate: real, discount: real)
    requires PricedRight(charges) && PriceFixed(charges, k, p, rate, discount)
    requires Sane(p) && rate >= 0.0
    ensures Counts(DeltaSum(charges, k))
    ensures AbsReal(MicroSum(charges, k) as real - ExactMicro(DeltaSum(charges, k), p, rate, discount))
         <= ChargeCount(charges, k) as real * 0.5
  {
    hide ExactMicro, TomanMicro, Sane;
    if charges == [] {
      BlankIsFree(p, rate, discount);
    } else {
      var front, last := charges[..|charges| - 1], charges[|charges| - 1];
      RoundingOfCharges(front, k, p, rate, discount);
      if last.key == k {
        ChargeIsNearest(last.delta, p, rate, discount);
        ExactAdds(DeltaSum(front, k), last.delta, p, rate, discount);
      }
    }
  }

  lemma BlankIsFree(p: Price, rate: real, discount: real)
    ensures ExactMicro(BLANK, p, rate, discount) == 0.0
  {
    assert Usd(BLANK, p) == 0.0;
  }

  /** Over every run with a fixed price, rate and discount, a mark charged in n passes
      has taken within n/2 micro-Toman of the exact price of its final counts. */
  lemma {:induction false} RoundingNeverDrifts(events: seq<Event>, k: MarkKey, p: Price, rate: real, discount: real)
    requires forall i :: 0 <= i < |events| ==> Wellformed(events[i])
    requires PriceFixed(Run(events).charges, k, p, rate, discount) && Sane(p) && rate >= 0.0
    ensures var w := Run(events);
            AbsReal(MarkOf(w.t.marks, k).billed as real
                    - ExactMicro(MarkOf(w.t.marks, k).tokens, p, rate, discount))
              <= ChargeCount(w.charges, k) as real * 0.5
  {
    RunKeepsInv(events);
    RoundingOfCharges(Run(events).charges, k, p, rate, discount);
  }

  /** Running the same request again at once charges nothing, in any bucket. */
  lemma {:induction false} SecondPassChargesNothing(t: Tables, req: Request, bucket: int)
    requires DistinctEntries(req) && Pass(t, req).1.Charged?
    ensures Pass(Pass(t, req).0, req.(bucket := bucket)) == (Pass(t, req).0, Nothing)
  {
    var after := Pass(t, req).0;
    var again := req.(bucket := bucket);
    forall k ensures PricedTotal(req, req.report, k).Some? ==>
      AtMost(PricedTotal(req, req.report, k).value, MarkOf(after.marks, k).tokens)
    {
      CountedPassRaisesMarks(t, req, k);
    }
    NothingAboveMarks(after.marks, req, again, |req.report|);
    assert req.report[..|req.report|] == req.report;
  }

  lemma {:induction false} NothingAboveMarks(marks: map<MarkKey, Mark>, req: Request, again: Request, n: nat)
    requires DistinctEntries(req) && n <= |req.report| && again == req.(bucket := again.bucket)
    requires forall k :: PricedTotal(req, req.report, k).Some? ==>
      AtMost(PricedTotal(req, req.report, k).value, MarkOf(marks, k).tokens)
    ensures Touches(marks, again, req.report[..n]) == []
  {
    if n > 0 {
      NothingAboveMarks(marks, req, again, n - 1);
      assert req.report[..n][..n - 1] == req.report[..n - 1];
      EntryIsPricedTotal(req, |req.report|, n - 1);
      assert req.report[..|req.report|] == req.report;
    }
  }

  lemma {:induction false} EntryIsPricedTotal(req: Request, n: nat, i: nat)
    requires DistinctEntries(req) && i < n <= |req.report|
    ensures Resolved(req.report[i].model, req.prices).Some? ==>
      PricedTotal(req, req.report[..n], KeyOf(req, req.report[i])) == Some(req.report[i].totals)
  {
    assert req.report[..n][..n - 1] == req.report[..n - 1];
    if i < n - 1 {
      EntryIsPricedTotal(req, n - 1, i);
    }
  }

  /** A pass skipped for its bucket loses nothing: the next counted pass that reports
      at least as much leaves the same marks as if the skipped one had counted. */
  lemma {:induction false} SkippedTokensRollOver(t: Tables, req: Request, later: Request, k: MarkKey)
    requires DistinctEntries(req) && DistinctEntries(later)
    requires !Pass(t, req).1.Skipped? && !Pass(Pass(t, req).0, later).1.Skipped? && !Pass(t, later).1.Skipped?
    requires PricedTotal(req, req.report, k).Some? ==>
      && PricedTotal(later, later.report, k).Some?
      && AtMost(PricedTotal(req, req.report, k).value, PricedTotal(later, later.report, k).value)
    ensures MarkOf(Pass(t, later).0.marks, k).tokens
         == MarkOf(Pass(Pass(t, req).0, later).0.marks, k).tokens
  {
    CountedPassRaisesMarks(t, req, k);
    CountedPassRaisesMarks(t, later, k);
    CountedPassRaisesMarks(Pass(t, req).0, later, k);
  }
}
