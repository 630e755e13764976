/** The metrics registry of one process, and folding another process's snapshot into a
    rendering without touching the live registry. */
module Metrics {
  import opened Common

  /** A metric's name and its sorted labels. */
  datatype Series = Series(name: string, labels: seq<(string, string)>)

  const EDGES: seq<real> :=
    [0.005, 0.025, 0.05, 0.1, 0.25, 0.5, 1.0, 2.5, 5.0, 10.0, 30.0, 60.0, 300.0, 900.0]

  datatype Hist = Hist(buckets: seq<nat>, sum: real, count: nat)

  datatype Data = Data(counters: map<Series, real>, gauges: map<Series, real>, hists: map<Series, Hist>)

  const EMPTY := Data(map[], map[], map[])

  /** The three lists a process writes for another to read, in no particular order. */
  datatype Snapshot = Snapshot(
    counters: seq<(Series, real)>, gauges: seq<(Series, real)>, hists: seq<(Series, Hist)>)

  datatype Event =
    | Inc(k: Series, value: real)
    | Set(k: Series, value: real)
    | Observe(k: Series, seconds: real)

  function Zeros(): seq<nat> {
    seq(|EDGES|, i requires 0 <= i < |EDGES| => 0)
  }

  function Bumped(b: seq<nat>, seconds: real): seq<nat>
    requires |b| == |EDGES|
  {
    seq(|b|, i requires 0 <= i < |b| => if seconds <= EDGES[i] then b[i] + 1 else b[i])
  }

  function Value(m: map<Series, real>, k: Series): real {
    if k in m then m[k] else 0.0
  }

  function HistOf(m: map<Series, Hist>, k: Series): Hist {
    if k in m then m[k] else Hist(Zeros(), 0.0, 0)
  }

  predicate Proper(m: map<Series, Hist>) {
    forall k :: k in m ==> |m[k].buckets| == |EDGES|
  }

  function Observed(h: Hist, seconds: real): Hist
    requires |h.buckets| == |EDGES|
  {
    Hist(Bumped(h.buckets, seconds), h.sum + seconds, h.count + 1)
  }

  function Step(d: Data, e: Event): Data
    requires Proper(d.hists)
  {
    match e
    case Inc(k, value) => d.(counters := d.counters[k := Value(d.counters, k) + value])
    case Set(k, value) => d.(gauges := d.gauges[k := value])
    case Observe(k, seconds) => d.(hists := d.hists[k := Observed(HistOf(d.hists, k), seconds)])
  }

  /** The registry of a process after these events. */
  function Record(events: seq<Event>): (d: Data)
    ensures Proper(d.hists)
  {
    if events == [] then EMPTY else Step(Record(events[..|events| - 1]), events[|events| - 1])
  }

  // ------------------------------------------------------------------------- merging

  function AddBuckets(cur: seq<nat>, more: seq<nat>): seq<nat> {
    seq(|cur|, i requires 0 <= i < |cur| => if i < |more| then cur[i] + more[i] else cur[i])
  }

  function AddHist(h: Hist, more: Hist): Hist {
    Hist(AddBuckets(h.buckets, more.buckets), h.sum + more.sum, h.count + more.count)
  }

  function MergeCounters(m: map<Series, real>, list: seq<(Series, real)>): map<Series, real> {
    if list == [] then m
    else
      var front, (k, v) := MergeCounters(m, list[..|list| - 1]), list[|list| - 1];
      front[k := Value(front, k) + v]
  }

  function MergeGauges(m: map<Series, real>, list: seq<(Series, real)>): map<Series, real> {
    if list == [] then m
    else MergeGauges(m, list[..|list| - 1])[list[|list| - 1].0 := list[|list| - 1].1]
  }

  function MergeHists(m: map<Series, Hist>, list: seq<(Series, Hist)>): map<Series, Hist> {
    if list == [] then m
    else
      var front, (k, h) := MergeHists(m, list[..|list| - 1]), list[|list| - 1];
      front[k := if k in front then AddHist(front[k], h) else h]
  }

  function Merged(d: Data, extra: Snapshot): Data {
    Data(MergeCounters(d.counters, extra.counters), MergeGauges(d.gauges, extra.gauges),
         MergeHists(d.hists, extra.hists))
  }

  /** `list` has one entry for every entry of `m`, and no other. */
  predicate Lists<V(==)>(m: map<Series, V>, list: seq<(Series, V)>) {
    && (forall i, j :: 0 <= i < j < |list| ==> list[i].0 != list[j].0)
    && (forall i :: 0 <= i < |list| ==> list[i].0 in m && m[list[i].0] == list[i].1)
    && (forall k :: k in m ==> exists i :: 0 <= i < |list| && list[i].0 == k)
  }

  predicate SnapshotOf(d: Data, snap: Snapshot) {
    Lists(d.counters, snap.counters) && Lists(d.gauges, snap.gauges) && Lists(d.hists, snap.hists)
  }

  /** The histogram of one series, updated in place. */
  class Tally {
    var buckets: seq<nat>
    var sum: real
    var count: nat

    function Now(): Hist
      reads this
    {
      Hist(buckets, sum, count)
    }

    /** A tally of its own that starts from these figures. */
    constructor (start: Hist)
      ensures Now() == start
    {
      buckets, sum, count := start.buckets, start.sum, start.count;
    }

    /** Count one observation in every bucket whose edge it does not exceed. */
    method Add(seconds: real)
      requires |buckets| == |EDGES|
      modifies this
      ensures Now() == Observed(old(Now()), seconds)
    {
      ghost var was := buckets;
      for i := 0 to |EDGES|
        invariant |buckets| == |EDGES| && sum == old(sum) && count == old(count)
        invariant forall j :: 0 <= j < i ==> buckets[j] == Bumped(was, seconds)[j]
        invariant forall j :: i <= j < |EDGES| ==> buckets[j] == was[j]
      {
        if seconds <= EDGES[i] {
          buckets := buckets[i := buckets[i] + 1];
        }
      }
      assert buckets == Bumped(was, seconds);
      sum, count := sum + seconds, count + 1;
    }

    /** Add another process's figures, bucket by bucket as far as both lists go. */
    method Accumulate(more: Hist)
      modifies this
      ensures Now() == AddHist(old(Now()), more)
    {
      ghost var was := buckets;
      for i := 0 to |more.buckets|
        invariant |buckets| == |was| && sum == old(sum) && count == old(count)
        invariant forall j :: 0 <= j < |was| ==>
          buckets[j] == if j < i then AddBuckets(was, more.buckets)[j] else was[j]
      {
        if i < |buckets| {
          buckets := buckets[i := buckets[i] + more.buckets[i]];
        }
      }
      assert buckets == AddBuckets(was, more.buckets);
      sum, count := sum + more.sum, count + more.count;
    }
  }

  type Tallies = map<Series, Tally>

  /** No two series share a tally. */
  ghost predicate Separate(ts: Tallies) {
    forall j, k :: j in ts && k in ts && j != k ==> ts[j] != ts[k]
  }

  function View(ts: Tallies): map<Series, Hist>
    reads ts.Values
  {
    map k | k in ts :: ts[k].Now()
  }

  /** The entries of a table as a list. */
  method ListOf<V(==)>(m: map<Series, V>) returns (list: seq<(Series, V)>)
    ensures Lists(m, list)
  {
    list := [];
    var todo := m.Keys;
    while todo != {}
      invariant todo <= m.Keys
      invariant Lists(map k | k in m && k !in todo :: m[k], list)
      decreases |todo|
    {
      var k :| k in todo;
      ghost var done := map j | j in m && j !in todo :: m[j];
      todo := todo - {k};
      ListsAppend(done, list, k, m[k]);
      list := list + [(k, m[k])];
      assert done[k := m[k]] == map j | j in m && j !in todo :: m[j];
    }
    assert m == map j | j in m && j !in todo :: m[j];
  }

  lemma {:induction false} ListsAppend<V>(m: map<Series, V>, list: seq<(Series, V)>, k: Series, v: V)
    requires Lists(m, list) && k !in m
    ensures Lists(m[k := v], list + [(k, v)])
  {
    var more, wide := list + [(k, v)], m[k := v];
    forall j | j in wide ensures exists i :: 0 <= i < |more| && more[i].0 == j {
      if j == k {
        assert more[|list|].0 == k;
      } else {
        var i :| 0 <= i < |list| && list[i].0 == j;
        assert more[i].0 == j;
      }
    }
  }

  /** The live registry. */
  class Registry {
    var counters: map<Series, real>
    var gauges: map<Series, real>
    var hists: Tallies

    ghost predicate Valid()
      reads this, hists.Values
    {
      Separate(hists) && Proper(View(hists))
    }

    ghost function Contents(): Data
      reads this, hists.Values
    {
      Data(counters, gauges, View(hists))
    }

    constructor ()
      ensures Valid() && Contents() == EMPTY && hists == map[]
    {
      counters, gauges, hists := map[], map[], map[];
    }

    method Increment(k: Series, value: real)
      requires Valid()
      modifies this`counters
      ensures Valid() && Contents() == Step(old(Contents()), Inc(k, value))
    {
      counters := counters[k := (if k in counters then counters[k] else 0.0) + value];
    }

    method SetGauge(k: Series, value: real)
      requires Valid()
      modifies this`gauges
      ensures Valid() && Contents() == Step(old(Contents()), Set(k, value))
    {
      gauges := gauges[k := value];
    }

    method ObserveSeconds(k: Series, seconds: real)
      requires Valid()
      modifies this`hists, hists.Values
      ensures Valid() && fresh(hists.Values - old(hists.Values))
      ensures Contents() == Step(old(Contents()), Observe(k, seconds))
    {
      ghost var before := View(hists);
      if k !in hists {
        var t := new Tally(Hist(Zeros(), 0.0, 0));
        hists := hists[k := t];
      } else {
        assert before[k] == hists[k].Now();
      }
      var tally := hists[k];
      assert tally.Now() == HistOf(before, k);
      tally.Add(seconds);
      assert View(hists) == before[k := Observed(HistOf(before, k), seconds)];
    }

    /** What this process writes for the exporter to read. */
    method TakeSnapshot() returns (snap: Snapshot)
      requires Valid()
      ensures SnapshotOf(Contents(), snap)
    {
      var c := ListOf(counters);
      var g := ListOf(gauges);
      var h := ListOf(View(hists));
      snap := Snapshot(c, g, h);
    }

    /** The figures a rendering shows. Nothing of the live registry is modified: the
        snapshot is added in place, but to copies. */
    method Render(extra: Option<Snapshot>) returns (shown: Data)
      requires Valid()
      ensures extra.None? ==> shown == Contents()
      ensures extra.Some? ==> shown == Merged(Contents(), extra.value)
    {
      hide View, Separate, Valid, MergeCounters, MergeGauges, MergeHists;
      if extra.None? {
        return Data(counters, gauges, View(hists));
      }
      var live := View(hists);
      var copies := Copies(live);
      var cs := FoldCounters(counters, extra.value.counters);
      var gs := FoldGauges(gauges, extra.value.gauges);
      var hs := FoldHists(copies, extra.value.hists);
      shown := Data(cs, gs, hs);
    }
  }

  method FoldCounters(live: map<Series, real>, list: seq<(Series, real)>) returns (m: map<Series, real>)
    ensures m == MergeCounters(live, list)
  {
    m := live;
    for i := 0 to |list|
      invariant m == MergeCounters(live, list[..i])
    {
      assert list[..i + 1][..i] == list[..i];
      var (k, v) := list[i];
      m := m[k := (if k in m then m[k] else 0.0) + v];
    }
    assert list[..|list|] == list;
  }

  method FoldGauges(live: map<Series, real>, list: seq<(Series, real)>) returns (m: map<Series, real>)
    ensures m == MergeGauges(live, list)
  {
    m := live;
    for i := 0 to |list|
      invariant m == MergeGauges(live, list[..i])
    {
      assert list[..i + 1][..i] == list[..i];
      m := m[list[i].0 := list[i].1];
    }
    assert list[..|list|] == list;
  }

  method Copies(live: map<Series, Hist>) returns (ts: Tallies)
    ensures fresh(ts.Values) && Separate(ts) && View(ts) == live
  {
    ts := map[];
    var todo := live.Keys;
    while todo != {}
      invariant todo <= live.Keys && ts.Keys == live.Keys - todo
      invariant Separate(ts)
      invariant forall k :: k in ts ==> fresh(ts[k]) && ts[k].Now() == live[k]
      decreases |todo|
    {
      var k :| k in todo;
      todo := todo - {k};
      var t := new Tally(live[k]);
      ts := ts[k := t];
    }
  }

  method FoldHists(copies: Tallies, list: seq<(Series, Hist)>) returns (m: map<Series, Hist>)
    requires Separate(copies)
    modifies copies.Values
    ensures m == MergeHists(old(View(copies)), list)
  {
    hide AddHist;
    var ts := copies;
    ghost var live := View(copies);
    for i := 0 to |list|
      invariant Separate(ts) && fresh(ts.Values - copies.Values)
      invariant View(ts) == MergeHists(live, list[..i])
    {
      assert list[..i + 1][..i] == list[..i];
      var (k, h) := list[i];
      ghost var before := View(ts);
      if k in ts {
        ts[k].Accumulate(h);
        assert View(ts) == before[k := AddHist(before[k], h)];
      } else {
        var t := new Tally(h);
        ts := ts[k := t];
        assert View(ts) == before[k := h];
      }
    }
    assert list[..|list|] == list;
    m := View(ts);
  }

  // ------------------------------------------------------------------------- results

  function PlusCounters(a: map<Series, real>, b: map<Series, real>): map<Series, real> {
    map k | k in a.Keys + b.Keys :: Value(a, k) + Value(b, k)
  }

  function PlusHists(a: map<Series, Hist>, b: map<Series, Hist>): map<Series, Hist> {
    map k | k in a.Keys + b.Keys ::
      if k !in a then b[k] else if k !in b then a[k] else AddHist(a[k], b[k])
  }

  /** One registry's figures and another's, series by series; a gauge of the other
      process replaces one's own. */
  function Plus(a: Data, b: Data): Data {
    Data(PlusCounters(a.counters, b.counters), a.gauges + b.gauges, PlusHists(a.hists, b.hists))
  }

  lemma {:induction false} FrontLists<V>(m: map<Series, V>, list: seq<(Series, V)>)
    requires Lists(m, list) && list != []
    ensures var (k, v) := list[|list| - 1];
            k in m && m[k] == v && Lists(m - {k}, list[..|list| - 1])
  {
    var n := |list| - 1;
    var less, front := m - {list[n].0}, list[..n];
    forall k | k in less ensures exists i :: 0 <= i < |front| && front[i].0 == k {
      var i :| 0 <= i < |list| && list[i].0 == k;
      assert front[i].0 == k;
    }
  }

  lemma NoneListed<V>(m: map<Series, V>)
    requires Lists(m, [])
    ensures m == map[]
  {
  }

  lemma PlusCountersStep(a: map<Series, real>, b: map<Series, real>, k: Series)
    requires k in b
    ensures var less := PlusCounters(a, b - {k});
            PlusCounters(a, b) == less[k := Value(less, k) + b[k]]
  {
  }

  lemma {:induction false} PlusHistsStep(a: map<Series, Hist>, b: map<Series, Hist>, k: Series)
    requires k in b
    ensures var less := PlusHists(a, b - {k});
            PlusHists(a, b) == less[k := if k in less then AddHist(less[k], b[k]) else b[k]]
  {
    hide AddHist;
  }

  lemma {:induction false} CountersAdd(a: map<Series, real>, b: map<Series, real>, list: seq<(Series, real)>)
    requires Lists(b, list)
    ensures MergeCounters(a, list) == PlusCounters(a, b)
  {
    hide Lists, PlusCounters;
    if list == [] {
      NoneListed(b);
      PlusNoCounters(a);
    } else {
      var (k, v) := list[|list| - 1];
      FrontLists(b, list);
      CountersAdd(a, b - {k}, list[..|list| - 1]);
      PlusCountersStep(a, b, k);
    }
  }

  lemma PlusNoCounters(a: map<Series, real>)
    ensures PlusCounters(a, map[]) == a
  {
  }

  lemma PlusNoHists(a: map<Series, Hist>)
    ensures PlusHists(a, map[]) == a
  {
  }

  lemma {:induction false} GaugesReplace(a: map<Series, real>, b: map<Series, real>, list: seq<(Series, real)>)
    requires Lists(b, list)
    ensures MergeGauges(a, list) == a + b
  {
    hide Lists;
    if list == [] {
      NoneListed(b);
    } else {
      var (k, v) := list[|list| - 1];
      FrontLists(b, list);
      GaugesReplace(a, b - {k}, list[..|list| - 1]);
      assert a + b == (a + (b - {k}))[k := v];
    }
  }

  lemma {:induction false} HistsAdd(a: map<Series, Hist>, b: map<Series, Hist>, list: seq<(Series, Hist)>)
    requires Lists(b, list)
    ensures MergeHists(a, list) == PlusHists(a, b)
  {
    hide Lists, PlusHists, AddHist;
    if list == [] {
      NoneListed(b);
      PlusNoHists(a);
    } else {
      var (k, h) := list[|list| - 1];
      FrontLists(b, list);
      HistsAdd(a, b - {k}, list[..|list| - 1]);
      PlusHistsStep(a, b, k);
    }
  }

  /** Whatever order a snapshot lists its series in, folding it in adds series by series. */
  lemma {:induction false} MergedIsPlus(a: Data, b: Data, snap: Snapshot)
    requires SnapshotOf(b, snap)
    ensures Merged(a, snap) == Plus(a, b)
  {
    CountersAdd(a.counters, b.counters, snap.counters);
    GaugesReplace(a.gauges, b.gauges, snap.gauges);
    HistsAdd(a.hists, b.hists, snap.hists);
  }

  /** `all` is some interleaving of the events of two processes. */
  predicate Interleaves(all: seq<Event>, a: seq<Event>, b: seq<Event>) {
    if all == [] then a == [] && b == []
    else
      var front, last := all[..|all| - 1], all[|all| - 1];
      || (a != [] && a[|a| - 1] == last && Interleaves(front, a[..|a| - 1], b))
      || (b != [] && b[|b| - 1] == last && Interleaves(front, a, b[..|b| - 1]))
  }

  /** Equal but for the gauges, of which a registry keeps only the last value. */
  predicate SameTotals(a: Data, b: Data) {
    a.counters == b.counters && a.hists == b.hists
  }

  lemma {:induction false} AddObserved(h: Hist, g: Hist, seconds: real)
    requires |h.buckets| == |g.buckets| == |EDGES|
    ensures AddHist(Observed(h, seconds), g) == Observed(AddHist(h, g), seconds) == AddHist(h, Observed(g, seconds))
  {
    assert AddBuckets(Bumped(h.buckets, seconds), g.buckets) == Bumped(AddBuckets(h.buckets, g.buckets), seconds);
    assert AddBuckets(h.buckets, Bumped(g.buckets, seconds)) == Bumped(AddBuckets(h.buckets, g.buckets), seconds);
  }

  lemma {:induction false} AddToNothing(h: Hist)
    requires |h.buckets| == |EDGES|
    ensures var none := Hist(Zeros(), 0.0, 0); AddHist(none, h) == h == AddHist(h, none)
  {
    assert AddBuckets(Zeros(), h.buckets) == h.buckets;
    assert AddBuckets(h.buckets, Zeros()) == h.buckets;
  }

  lemma ZerosFit()
    ensures |Zeros()| == |EDGES|
  {
  }

  /** Where a series is missing on one side, it is as if nothing had been observed. */
  lemma {:induction false} PlusAt(a: map<Series, Hist>, b: map<Series, Hist>, k: Series)
    requires Proper(a) && Proper(b)
    ensures HistOf(PlusHists(a, b), k) == AddHist(HistOf(a, k), HistOf(b, k))
    ensures |HistOf(a, k).buckets| == |HistOf(b, k).buckets| == |EDGES|
    ensures |HistOf(PlusHists(a, b), k).buckets| == |EDGES|
  {
    hide AddHist, Zeros;
    ZerosFit();
    PlusProper(a, b);
    if k !in a { AddToNothing(HistOf(b, k)); }
    if k !in b { AddToNothing(HistOf(a, k)); }
  }

  lemma {:induction false} SameHists(a: map<Series, Hist>, b: map<Series, Hist>)
    requires a.Keys == b.Keys && forall k :: k in a ==> HistOf(a, k) == HistOf(b, k)
    ensures a == b
  {
    forall k | k in a ensures a[k] == b[k] {
      assert HistOf(a, k) == HistOf(b, k);
    }
  }

  lemma PlusProper(a: map<Series, Hist>, b: map<Series, Hist>)
    requires Proper(a) && Proper(b)
    ensures Proper(PlusHists(a, b))
  {
  }

  lemma {:induction false} ObserveEither(a: map<Series, Hist>, b: map<Series, Hist>, k: Series, seconds: real)
    requires Proper(a) && Proper(b)
    ensures Proper(PlusHists(a, b))
    ensures PlusHists(a[k := Observed(HistOf(a, k), seconds)], b)
         == PlusHists(a, b)[k := Observed(HistOf(PlusHists(a, b), k), seconds)]
         == PlusHists(a, b[k := Observed(HistOf(b, k), seconds)])
  {
    hide AddHist, Observed;
    PlusProper(a, b);
    PlusAt(a, b, k);
    var left, right := a[k := Observed(HistOf(a, k), seconds)], b[k := Observed(HistOf(b, k), seconds)];
    var both := PlusHists(a, b)[k := Observed(HistOf(PlusHists(a, b), k), seconds)];
    ObservedIsProper(a, k, seconds);
    ObservedIsProper(b, k, seconds);
    AddObserved(HistOf(a, k), HistOf(b, k), seconds);
    PlusAt(left, b, k);
    PlusAt(a, right, k);
    SameHists(PlusHists(left, b), both);
    SameHists(PlusHists(a, right), both);
  }

  lemma ObservedIsProper(m: map<Series, Hist>, k: Series, seconds: real)
    requires Proper(m)
    ensures Proper(m[k := Observed(HistOf(m, k), seconds)])
  {
  }

  lemma {:induction false} CountEither(a: map<Series, real>, b: map<Series, real>, k: Series, value: real)
    ensures PlusCounters(a[k := Value(a, k) + value], b)
         == PlusCounters(a, b)[k := Value(PlusCounters(a, b), k) + value]
         == PlusCounters(a, b[k := Value(b, k) + value])
  {
    var both := PlusCounters(a, b)[k := Value(PlusCounters(a, b), k) + value];
    SameCounters(PlusCounters(a[k := Value(a, k) + value], b), both);
    SameCounters(PlusCounters(a, b[k := Value(b, k) + value]), both);
  }

  lemma {:induction false} SameCounters(a: map<Series, real>, b: map<Series, real>)
    requires a.Keys == b.Keys && forall k :: k in a ==> Value(a, k) == Value(b, k)
    ensures a == b
  {
    forall k | k in a ensures a[k] == b[k] {
      assert Value(a, k) == Value(b, k);
    }
  }

  lemma {:induction false} StepOnEitherSide(a: Data, b: Data, e: Event)
    requires Proper(a.hists) && Proper(b.hists)
    ensures Proper(Plus(a, b).hists)
    ensures SameTotals(Plus(Step(a, e), b), Step(Plus(a, b), e))
    ensures Plus(a, Step(b, e)) == Step(Plus(a, b), e)
  {
    hide PlusHists, PlusCounters, Proper, Observed;
    PlusProper(a.hists, b.hists);
    match e
    case Inc(k, value) => CountEither(a.counters, b.counters, k, value);
    case Set(k, value) => assert a.gauges + b.gauges[k := value] == (a.gauges + b.gauges)[k := value];
    case Observe(k, seconds) => ObserveEither(a.hists, b.hists, k, seconds);
  }

  lemma {:induction false} TotalsOfAnInterleaving(all: seq<Event>, a: seq<Event>, b: seq<Event>)
    requires Interleaves(all, a, b)
    ensures SameTotals(Record(all), Plus(Record(a), Record(b)))
  {
    hide Plus, Step;
    if all == [] {
      PlusNothing();
    } else {
      var front, e := all[..|all| - 1], all[|all| - 1];
      if a != [] && a[|a| - 1] == e && Interleaves(front, a[..|a| - 1], b) {
        var less := a[..|a| - 1];
        TotalsOfAnInterleaving(front, less, b);
        StepOnEitherSide(Record(less), Record(b), e);
        SameTotalsStep(Record(front), Plus(Record(less), Record(b)), e);
      } else {
        var less := b[..|b| - 1];
        TotalsOfAnInterleaving(front, a, less);
        StepOnEitherSide(Record(a), Record(less), e);
        SameTotalsStep(Record(front), Plus(Record(a), Record(less)), e);
      }
    }
  }

  lemma PlusNothing()
    ensures Plus(EMPTY, EMPTY) == EMPTY
  {
  }

  lemma SameTotalsStep(a: Data, b: Data, e: Event)
    requires Proper(a.hists) && SameTotals(a, b)
    ensures SameTotals(Step(a, e), Step(b, e))
  {
  }

  /** Rendering one process's registry with another's snapshot shows the counters and
      histograms of a single registry that recorded both streams, interleaved in any
      way; the gauges too, if the other process's events came last. */
  lemma {:induction false} RenderingIsOneRegistry(all: seq<Event>, a: seq<Event>, b: seq<Event>, snap: Snapshot)
    requires Interleaves(all, a, b) && SnapshotOf(Record(b), snap)
    ensures SameTotals(Merged(Record(a), snap), Record(all))
    ensures Merged(Record(a), snap) == Record(a + b)
  {
    MergedIsPlus(Record(a), Record(b), snap);
    TotalsOfAnInterleaving(all, a, b);
    RecordConcat(a, b);
  }

  lemma {:induction false} RecordConcat(a: seq<Event>, b: seq<Event>)
    ensures Record(a + b) == Plus(Record(a), Record(b))
  {
    hide Plus, Step;
    if b == [] {
      assert a + b == a;
      PlusNone(Record(a));
    } else {
      var front, e := b[..|b| - 1], b[|b| - 1];
      RecordConcat(a, front);
      assert (a + b)[..|a + b| - 1] == a + front;
      StepOnEitherSide(Record(a), Record(front), e);
    }
  }

  lemma PlusNone(a: Data)
    ensures Plus(a, EMPTY) == a
  {
  }

  /** The observations of one series that do not exceed an edge. */
  function AtMost(events: seq<Event>, k: Series, edge: real): nat {
    if events == [] then 0
    else
      var e := events[|events| - 1];
      AtMost(events[..|events| - 1], k, edge) + (if e.Observe? && e.k == k && e.seconds <= edge then 1 else 0)
  }

  function Observations(events: seq<Event>, k: Series): nat {
    if events == [] then 0
    else
      var e := events[|events| - 1];
      Observations(events[..|events| - 1], k) + (if e.Observe? && e.k == k then 1 else 0)
  }

  /** Every bucket holds the number of observations up to its edge, and the count holds
      them all. */
  lemma {:induction false} HistogramsAreExact(events: seq<Event>, k: Series)
    ensures var hists := Record(events).hists;
            && (k in hists <==> Observations(events, k) > 0)
            && HistOf(hists, k).count == Observations(events, k)
            && |HistOf(hists, k).buckets| == |EDGES|
            && forall i :: 0 <= i < |EDGES| ==> HistOf(hists, k).buckets[i] == AtMost(events, k, EDGES[i])
  {
    if events == [] {
    } else {
      var front, e := events[..|events| - 1], events[|events| - 1];
      HistogramsAreExact(front, k);
      if e.Observe? && e.k == k {
        assert HistOf(Record(events).hists, k) == Observed(HistOf(Record(front).hists, k), e.seconds);
      } else {
        assert HistOf(Record(events).hists, k) == HistOf(Record(front).hists, k);
      }
    }
  }

  function Increments(events: seq<Event>, k: Series): real {
    if events == [] then 0.0
    else
      var e := events[|events| - 1];
      Increments(events[..|events| - 1], k) + (if e.Inc? && e.k == k then e.value else 0.0)
  }

  function Seconds(events: seq<Event>, k: Series): real {
    if events == [] then 0.0
    else
      var e := events[|events| - 1];
      Seconds(events[..|events| - 1], k) + (if e.Observe? && e.k == k then e.seconds else 0.0)
  }

  /** A counter is the sum of its increments and exists once it had one, a gauge is what it
      was last set to, and a histogram's sum is that of its observations. */
  lemma {:induction false} FiguresAreSums(events: seq<Event>, k: Series)
    ensures var d := Record(events);
            && Value(d.counters, k) == Increments(events, k)
            && (k in d.counters <==> exists i :: 0 <= i < |events| && events[i].Inc? && events[i].k == k)
            && HistOf(d.hists, k).sum == Seconds(events, k)
    ensures match LastSet(events, k)
            case None => k !in Record(events).gauges
            case Some(value) => k in Record(events).gauges && Record(events).gauges[k] == value
  {
    if events != [] {
      var n := |events| - 1;
      var front, e := events[..n], events[n];
      FiguresAreSums(front, k);
      assert forall i :: 0 <= i < n ==> front[i] == events[i];
      if e.Observe? && e.k == k {
        assert HistOf(Record(events).hists, k) == Observed(HistOf(Record(front).hists, k), e.seconds);
      } else {
        assert HistOf(Record(events).hists, k) == HistOf(Record(front).hists, k);
      }
    }
  }

  function LastSet(events: seq<Event>, k: Series): Option<real> {
    if events == [] then None
    else
      var e := events[|events| - 1];
      if e.Set? && e.k == k then Some(e.value) else LastSet(events[..|events| - 1], k)
  }

  lemma {:induction false} AtMostIsMonotone(events: seq<Event>, k: Series, low: real, high: real)
    requires low <= high
    ensures AtMost(events, k, low) <= AtMost(events, k, high) <= Observations(events, k)
  {
    if events != [] {
      AtMostIsMonotone(events[..|events| - 1], k, low, high);
    }
  }

  /** In any rendering the buckets do not decrease and stay within the count. */
  lemma {:induction false} RenderedBucketsAreCumulative(
    a: seq<Event>, b: seq<Event>, snap: Snapshot, k: Series, i: nat, j: nat)
    requires SnapshotOf(Record(b), snap) && i <= j < |EDGES|
    requires k in Merged(Record(a), snap).hists
    ensures var h := Merged(Record(a), snap).hists[k];
            |h.buckets| == |EDGES| && h.buckets[i] <= h.buckets[j] <= h.count
  {
    hide Record, Merged, EDGES;
    MergedIsPlus(Record(a), Record(b), snap);
    RecordConcat(a, b);
    HistogramsAreExact(a + b, k);
    EdgesAscend(i, j);
    AtMostIsMonotone(a + b, k, EDGES[i], EDGES[j]);
  }

  lemma EdgesAscend(i: nat, j: nat)
    requires i <= j < |EDGES|
    ensures EDGES[i] <= EDGES[j]
  {
  }
}
