/** Counting Codex token usage: the last running total of a session file, mapped
    onto the counters that billing prices. */
module CodexScan {
  import opened Common
  import opened AiPricing

  /** `total_token_usage` of one record; absent and non-numeric fields are zero. */
  datatype RawTotal = RawTotal(input: int, cached: int, cacheWrite: int, output: int)

  /** A decoded line with a payload. `total` is present on token counts only. */
  datatype Line =
    | Noise
    | Payload(model: string, total: Option<RawTotal>)

  function Positive(v: int): int {
    if v > 0 then v else 0
  }

  function MapUsage(u: RawTotal): Tokens {
    var cached := Positive(u.cached);
    Tokens(Max(Positive(u.input) - cached, 0), Positive(u.cacheWrite), 0, cached, Positive(u.output))
  }

  /** Cached input is part of the input figure: the two counters together are the
      larger of the two claims, and nothing is ever negative. */
  lemma MapUsageSplitsInput(u: RawTotal)
    ensures Counts(MapUsage(u))
    ensures MapUsage(u).input + MapUsage(u).read == Max(Positive(u.input), Positive(u.cached))
    ensures u.cached >= 0 ==> MapUsage(u).read == u.cached
    ensures u.output >= 0 ==> MapUsage(u).output == u.output
    ensures u.cacheWrite >= 0 ==> MapUsage(u).write5m == u.cacheWrite
    ensures MapUsage(u).write1h == 0
  {
  }

  ghost predicate IsLastModel(lines: seq<Line>, model: string) {
    if model == "" then forall i :: 0 <= i < |lines| && lines[i].Payload? ==> lines[i].model == ""
    else exists i :: 0 <= i < |lines| && lines[i].Payload? && lines[i].model == model
           && forall j :: i < j < |lines| && lines[j].Payload? ==> lines[j].model == ""
  }

  ghost predicate IsLastTotal(lines: seq<Line>, total: Option<RawTotal>) {
    if total.None? then forall i :: 0 <= i < |lines| && lines[i].Payload? ==> lines[i].total.None?
    else exists i :: 0 <= i < |lines| && lines[i].Payload? && lines[i].total == total
           && forall j :: i < j < |lines| && lines[j].Payload? ==> lines[j].total.None?
  }

  function LastTotal(lines: seq<Line>): Option<RawTotal> {
    if lines == [] then None
    else
      var last := lines[|lines| - 1];
      if last.Payload? && last.total.Some? then last.total else LastTotal(lines[..|lines| - 1])
  }

  function LastModel(lines: seq<Line>): string {
    if lines == [] then ""
    else
      var last := lines[|lines| - 1];
      if last.Payload? && last.model != "" then last.model else LastModel(lines[..|lines| - 1])
  }

  function Turns(lines: seq<Line>): nat {
    if lines == [] then 0
    else
      var last := lines[|lines| - 1];
      Turns(lines[..|lines| - 1]) + (if last.Payload? && last.total.Some? then 1 else 0)
  }

  function Report(lines: seq<Line>): Option<(string, Tokens)> {
    if LastTotal(lines).None? || LastModel(lines) == "" then None
    else Some((LastModel(lines), MapUsage(LastTotal(lines).value)))
  }

  /** Nothing is reported exactly when no record carries a total or none names a model. */
  lemma {:induction false} NoReportIff(lines: seq<Line>)
    ensures Report(lines).None? <==>
      || (forall i :: 0 <= i < |lines| && lines[i].Payload? ==> lines[i].total.None?)
      || (forall i :: 0 <= i < |lines| && lines[i].Payload? ==> lines[i].model == "")
  {
    LastsAreLast(lines);
  }

  method ScanFile(lines: seq<Line>) returns (result: Option<(string, Tokens)>, turns: nat)
    ensures result == Report(lines) && turns == Turns(lines)
  {
    var model := "";
    var latest: Option<RawTotal> := None;
    turns := 0;
    for i := 0 to |lines|
      invariant model == LastModel(lines[..i])
      invariant latest == LastTotal(lines[..i])
      invariant turns == Turns(lines[..i])
    {
      ghost var front := lines[..i];
      assert lines[..i + 1] == front + [lines[i]] && lines[..i + 1][..i] == front;
      if lines[i].Payload? {
        if lines[i].model != "" {
          model := lines[i].model;
        }
        if lines[i].total.Some? {
          latest := lines[i].total;
          turns := turns + 1;
        }
      }
    }
    assert lines[..|lines|] == lines;
    result := if latest.None? || model == "" then None else Some((model, MapUsage(latest.value)));
  }

  /** The session's figures never go down from one token count to the next. */
  predicate NeverFalls(u: RawTotal, v: RawTotal) {
    u.input <= v.input && u.cached <= v.cached && u.cacheWrite <= v.cacheWrite && u.output <= v.output
  }

  /** When a session's figures have grown, no billed counter is lower exactly when
      the uncached part of the input has not shrunk. */
  lemma GrowthIsMonotoneIff(u: RawTotal, v: RawTotal)
    requires NeverFalls(u, v)
    ensures AtMost(MapUsage(u), MapUsage(v)) <==>
      Positive(u.input) - Positive(u.cached) <= Positive(v.input) - Positive(v.cached)
      || Positive(u.input) <= Positive(u.cached)
  {
  }

  /** Input that is reclassified as cached later lowers one counter and raises
      another, so figures that never fall can still lower a total. */
  lemma ReclassifiedInputLowersATotal()
    ensures var u, v := RawTotal(10, 0, 0, 0), RawTotal(12, 10, 0, 0);
            NeverFalls(u, v) && !AtMost(MapUsage(u), MapUsage(v))
  {
  }

  /** Lines after the last token count that carry no model change nothing. */
  lemma {:induction false} SilentLinesChangeNothing(lines: seq<Line>, more: seq<Line>)
    requires forall i :: 0 <= i < |more| && more[i].Payload? ==> more[i].model == "" && more[i].total.None?
    ensures Report(lines + more) == Report(lines) && Turns(lines + more) == Turns(lines)
  {
    if more == [] {
      assert lines + more == lines;
    } else {
      SilentLinesChangeNothing(lines, more[..|more| - 1]);
      assert (lines + more)[..|lines + more| - 1] == lines + more[..|more| - 1];
    }
  }

  predicate OneModel(lines: seq<Line>, model: string) {
    forall i :: 0 <= i < |lines| && lines[i].Payload? && lines[i].model != "" ==> lines[i].model == model
  }

  /** The running totals of a file, in order. */
  function Totals(lines: seq<Line>): seq<RawTotal> {
    if lines == [] then []
    else
      var front, last := Totals(lines[..|lines| - 1]), lines[|lines| - 1];
      if last.Payload? && last.total.Some? then front + [last.total.value] else front
  }

  lemma {:induction false} LastOfTotals(lines: seq<Line>)
    ensures |Totals(lines)| == Turns(lines)
    ensures LastTotal(lines) == if Totals(lines) == [] then None else Some(Totals(lines)[|Totals(lines)| - 1])
  {
    if lines != [] {
      LastOfTotals(lines[..|lines| - 1]);
    }
  }

  lemma {:induction false} TotalsOfPrefix(lines: seq<Line>, more: seq<Line>)
    ensures Totals(lines) <= Totals(lines + more)
  {
    if more == [] {
      assert lines + more == lines;
    } else {
      TotalsOfPrefix(lines, more[..|more| - 1]);
      assert (lines + more)[..|lines + more| - 1] == lines + more[..|more| - 1];
    }
  }

  /** The raw figures never fall from one token count to the next. */
  predicate RawNeverFalls(totals: seq<RawTotal>) {
    forall i :: 0 < i < |totals| ==> NeverFalls(totals[i - 1], totals[i])
  }

  function Uncached(u: RawTotal): int {
    Max(Positive(u.input) - Positive(u.cached), 0)
  }

  /** The part of the input that was not cached does not shrink between token counts. */
  predicate UncachedNeverShrinks(totals: seq<RawTotal>) {
    forall i :: 0 < i < |totals| ==> Uncached(totals[i - 1]) <= Uncached(totals[i])
  }

  /** No later reading of the session is below an earlier one in any billed counter. */
  predicate ReadingsNeverFall(totals: seq<RawTotal>) {
    forall i, j :: 0 <= i <= j < |totals| ==> AtMost(MapUsage(totals[i]), MapUsage(totals[j]))
  }

  lemma {:induction false} Ordered(totals: seq<RawTotal>, i: nat, j: nat)
    requires RawNeverFalls(totals) && i <= j < |totals|
    ensures NeverFalls(totals[i], totals[j])
    ensures UncachedNeverShrinks(totals) ==> Uncached(totals[i]) <= Uncached(totals[j])
    decreases j - i
  {
    if i < j {
      Ordered(totals, i, j - 1);
      assert NeverFalls(totals[j - 1], totals[j]);
    }
  }

  /** For a session whose raw figures never fall: no reading is ever below an earlier one
      exactly when the uncached part of the input never shrinks from one count to the next. */
  lemma {:induction false} SessionNeverFallsIff(totals: seq<RawTotal>)
    requires RawNeverFalls(totals)
    ensures ReadingsNeverFall(totals) <==> UncachedNeverShrinks(totals)
  {
    hide MapUsage;
    if ReadingsNeverFall(totals) {
      forall i | 0 < i < |totals| ensures Uncached(totals[i - 1]) <= Uncached(totals[i]) {
        assert AtMost(MapUsage(totals[i - 1]), MapUsage(totals[i]));
        MonotoneIsUncached(totals[i - 1], totals[i]);
      }
    }
    if UncachedNeverShrinks(totals) {
      forall i, j | 0 <= i <= j < |totals| ensures AtMost(MapUsage(totals[i]), MapUsage(totals[j])) {
        Ordered(totals, i, j);
        MonotoneIsUncached(totals[i], totals[j]);
      }
    }
  }

  lemma MonotoneIsUncached(u: RawTotal, v: RawTotal)
    requires NeverFalls(u, v)
    ensures AtMost(MapUsage(u), MapUsage(v)) <==> Uncached(u) <= Uncached(v)
  {
  }

  /** A one-model session whose raw figures and uncached input never fall from one token
      count to the next: a longer log reports the same model and no smaller counter. */
  lemma {:induction false} GrowingSessionNeverFalls(lines: seq<Line>, more: seq<Line>, model: string)
    requires OneModel(lines + more, model)
    requires RawNeverFalls(Totals(lines + more)) && UncachedNeverShrinks(Totals(lines + more))
    requires Report(lines).Some?
    ensures Report(lines + more).Some?
    ensures Report(lines + more).value.0 == Report(lines).value.0
    ensures AtMost(Report(lines).value.1, Report(lines + more).value.1)
  {
    hide MapUsage, Totals, OneModel, NeverFalls, LastTotal;
    var all := Totals(lines + more);
    TotalsOfPrefix(lines, more);
    LastOfTotals(lines);
    LastOfTotals(lines + more);
    SessionNeverFallsIff(all);
    assert Totals(lines)[|Totals(lines)| - 1] == all[|Totals(lines)| - 1];
    OneModelStays(lines, more, model);
  }

  lemma {:induction false} OneModelStays(lines: seq<Line>, more: seq<Line>, model: string)
    requires OneModel(lines + more, model) && LastModel(lines) != ""
    ensures LastModel(lines) == LastModel(lines + more) == model
  {
    var all := lines + more;
    LastsAreLast(lines);
    LastsAreLast(all);
    assert forall k :: 0 <= k < |lines| ==> all[k] == lines[k];
    var m :| 0 <= m < |lines| && lines[m].Payload? && lines[m].model == LastModel(lines);
    assert all[m] == lines[m];
  }

  lemma {:induction false} LastsAreLast(lines: seq<Line>)
    ensures IsLastModel(lines, LastModel(lines)) && IsLastTotal(lines, LastTotal(lines))
  {
    if lines != [] {
      var before, last := lines[..|lines| - 1], lines[|lines| - 1];
      LastsAreLast(before);
      LastStep(before, last, LastModel(before), LastTotal(before));
      assert lines == before + [last];
    }
  }

  lemma {:induction false} LastStep(before: seq<Line>, last: Line, model: string, total: Option<RawTotal>)
    requires IsLastModel(before, model) && IsLastTotal(before, total)
    ensures IsLastModel(before + [last], if last.Payload? && last.model != "" then last.model else model)
    ensures IsLastTotal(before + [last], if last.Payload? && last.total.Some? then last.total else total)
  {
    var lines := before + [last];
    assert lines[|before|] == last;
    if model != "" {
      var i :| 0 <= i < |before| && before[i].Payload? && before[i].model == model
            && forall j :: i < j < |before| && before[j].Payload? ==> before[j].model == "";
      assert lines[i] == before[i];
    }
    if total.Some? {
      var i :| 0 <= i < |before| && before[i].Payload? && before[i].total == total
            && forall j :: i < j < |before| && before[j].Payload? ==> before[j].total.None?;
      assert lines[i] == before[i];
    }
  }
}
