/** Counting Claude token usage in session logs: cumulative totals per model,
    with every API response counted once however many lines repeat it. */
module UsageScan {
  import opened Common
  import opened AiPricing

  /** The `usage` object of a record. `split` is the newer form that separates the
      two cache-write durations; without it the combined figure counts as 5-minute. */
  datatype RawUsage = RawUsage(
    input: int, split: Option<(int, int)>, combined: int, read: int, output: int)

  /** A log line after JSON decoding. Absent ids and models are empty strings. */
  datatype Line =
    | Noise
    | Assistant(id: string, model: string, usage: Option<RawUsage>)

  /** One API response as it is billed. */
  datatype Use = Use(id: string, model: string, tokens: Tokens)

  function UsageOf(line: Line): Option<Use> {
    match line
    case Noise => None
    case Assistant(id, model, usage) =>
      if model == "" || model == "<synthetic>" || usage.None? then None
      else
        var u := usage.value;
        var (w5, w1) := if u.split.Some? then u.split.value else (u.combined, 0);
        Some(Use(id, model, Tokens(u.input, w5, w1, u.read, u.output)))
  }

  /** A line that can be counted: billable, and carrying a message id. */
  function Countable(line: Line): Option<Use> {
    var use := UsageOf(line);
    if use.Some? && use.value.id != "" then use else None
  }

  // --------------------------------------------------------------- one log file

  function Seen(lines: seq<Line>): set<string> {
    if lines == [] then {}
    else
      var use := Countable(lines[|lines| - 1]);
      Seen(lines[..|lines| - 1]) + (if use.Some? then {use.value.id} else {})
  }

  /** What the last line adds to `model`: nothing when its message was counted before. */
  function Contribution(before: seq<Line>, line: Line, model: string): Tokens {
    if Contributes(before, line, model) then Countable(line).value.tokens else BLANK
  }

  predicate Contributes(before: seq<Line>, line: Line, model: string) {
    var use := Countable(line);
    use.Some? && use.value.id !in Seen(before) && use.value.model == model
  }

  function Total(lines: seq<Line>, model: string): Tokens {
    if lines == [] then BLANK
    else
      var before := lines[..|lines| - 1];
      Plus(Total(before, model), Contribution(before, lines[|lines| - 1], model))
  }

  function Models(lines: seq<Line>): set<string> {
    if lines == [] then {}
    else
      var before := lines[..|lines| - 1];
      var use := Countable(lines[|lines| - 1]);
      Models(before)
        + (if use.Some? && use.value.id !in Seen(before) then {use.value.model} else {})
  }

  method ScanFile(lines: seq<Line>) returns (perModel: map<string, Tokens>, messages: nat)
    ensures perModel.Keys == Models(lines)
    ensures forall m :: m in perModel ==> perModel[m] == Total(lines, m)
    ensures messages == |Seen(lines)|
  {
    hide Plus, UsageOf;
    perModel := map[];
    var seen: set<string> := {};
    for i := 0 to |lines|
      invariant seen == Seen(lines[..i])
      invariant perModel.Keys == Models(lines[..i])
      invariant forall m :: m in perModel ==> perModel[m] == Total(lines[..i], m)
    {
      ghost var front, more := lines[..i], lines[..i + 1];
      assert more[..i] == front && more[i] == lines[i];
      ModelsAreThoseCounted(front);
      forall m {
        PlusBlank(Total(front, m));
      }
      var got := UsageOf(lines[i]);
      if got.Some? && got.value.id != "" && got.value.id !in seen {
        var use := got.value;
        seen := seen + {use.id};
        var bucket := if use.model in perModel then perModel[use.model] else BLANK;
        perModel := perModel[use.model := Plus(bucket, use.tokens)];
      }
    }
    assert lines[..|lines|] == lines;
    messages := |seen|;
  }

  /** A model without a counted message has no usage. */
  lemma {:induction false} ModelsAreThoseCounted(lines: seq<Line>)
    ensures forall m :: m !in Models(lines) ==> Total(lines, m) == BLANK
  {
    if lines != [] {
      ModelsAreThoseCounted(lines[..|lines| - 1]);
    }
  }

  /** A file of one record: which records count at all, and where each of their figures
      goes. Cache writes of unknown duration count as the five-minute ones. */
  lemma {:induction false} OneRecord(line: Line, model: string)
    ensures (if Bills(line) then Seen([line]) == {line.id} else Seen([line]) == {})
    ensures !Bills(line) || line.model != model ==> Total([line], model) == BLANK
    ensures Bills(line) && line.model == model ==>
      var u := line.usage.value;
      && Total([line], model).input == u.input
      && Total([line], model).write5m == (if u.split.Some? then u.split.value.0 else u.combined)
      && Total([line], model).write1h == (if u.split.Some? then u.split.value.1 else 0)
      && Total([line], model).read == u.read
      && Total([line], model).output == u.output
  {
    hide Total, Seen, Contribution, Plus, Countable;
    assert [] + [line] == [line];
    NothingTotalled(model);
    TotalStep([], line, model);
    SeenStep([], line);
    PlusBlank(Contribution([], line, model));
    FirstContribution(line, model);
  }

  lemma FirstContribution(line: Line, model: string)
    ensures Countable(line).Some? <==> Bills(line)
    ensures Seen([]) == {} && (Bills(line) ==> Countable(line).value.id == line.id)
    ensures !Bills(line) || line.model != model ==> Contribution([], line, model) == BLANK
    ensures Bills(line) && line.model == model ==>
      Contribution([], line, model) ==
        if line.usage.value.split.Some? then
          Tokens(line.usage.value.input, line.usage.value.split.value.0, line.usage.value.split.value.1,
                 line.usage.value.read, line.usage.value.output)
        else
          Tokens(line.usage.value.input, line.usage.value.combined, 0, line.usage.value.read, line.usage.value.output)
  {
  }

  predicate Bills(line: Line) {
    && line.Assistant? && line.id != ""
    && line.model != "" && line.model != "<synthetic>" && line.usage.Some?
  }

  // ------------------------------------- the reference: distinct messages, once each

  /** The record that is billed for `id`: its first countable one. */
  function FirstUse(lines: seq<Line>, id: string): Use
    requires id in Seen(lines)
  {
    var before := lines[..|lines| - 1];
    if id in Seen(before) then FirstUse(before, id) else Countable(lines[|lines| - 1]).value
  }

  lemma {:induction false} FirstUseIsFirst(lines: seq<Line>, id: string)
    requires id in Seen(lines)
    ensures exists i :: 0 <= i < |lines| && Countable(lines[i]) == Some(FirstUse(lines, id))
                     && FirstUse(lines, id).id == id
                     && forall j :: 0 <= j < i && Countable(lines[j]).Some? ==>
                          Countable(lines[j]).value.id != id
  {
    var before := lines[..|lines| - 1];
    if id in Seen(before) {
      FirstUseIsFirst(before, id);
      var i :| 0 <= i < |before| && Countable(before[i]) == Some(FirstUse(before, id))
            && FirstUse(before, id).id == id
            && forall j :: 0 <= j < i && Countable(before[j]).Some? ==>
                 Countable(before[j]).value.id != id;
      assert lines[i] == before[i];
      assert forall j :: 0 <= j < i ==> lines[j] == before[j];
    } else {
      SeenIsExact(before, id);
      assert forall j :: 0 <= j < |before| ==> lines[j] == before[j];
    }
  }

  lemma {:induction false} SeenIsExact(lines: seq<Line>, id: string)
    ensures id in Seen(lines) <==>
      exists i :: 0 <= i < |lines| && Countable(lines[i]).Some? && Countable(lines[i]).value.id == id
  {
    if lines != [] {
      var before := lines[..|lines| - 1];
      SeenIsExact(before, id);
      assert forall j :: 0 <= j < |before| ==> lines[j] == before[j];
    }
  }

  datatype Counter = Input | Write5m | Write1h | Read | Output

  function Pick(t: Tokens, c: Counter): int {
    match c
    case Input => t.input
    case Write5m => t.write5m
    case Write1h => t.write1h
    case Read => t.read
    case Output => t.output
  }

  /** The distinct messages of a log that used `model`, each with its figure. */
  function Messages(lines: seq<Line>, model: string, c: Counter): map<string, int> {
    map id | id in Seen(lines) && FirstUse(lines, id).model == model
      :: Pick(FirstUse(lines, id).tokens, c)
  }

  lemma {:induction false} MessagesStep(before: seq<Line>, line: Line, model: string, c: Counter)
    ensures Contributes(before, line, model) ==>
      Messages(before + [line], model, c)
        == Messages(before, model, c)[Countable(line).value.id := Pick(Countable(line).value.tokens, c)]
    ensures !Contributes(before, line, model) ==>
      Messages(before + [line], model, c) == Messages(before, model, c)
  {
    hide Countable;
    var lines := before + [line];
    assert lines[..|before|] == before;
    forall id | id in Seen(before) ensures FirstUse(lines, id) == FirstUse(before, id) {}
  }

  /** The running total is the sum over distinct messages, each taken once at its
      first countable record. */
  lemma {:induction false} TotalsAreDistinctMessages(lines: seq<Line>, model: string, c: Counter)
    ensures Pick(Total(lines, model), c) == MapSum(Messages(lines, model, c))
  {
    hide Total, Messages, Seen, Countable, MapSum, FirstUse;
    if lines == [] {
      NoMessages(model, c);
    } else {
      var before, line := lines[..|lines| - 1], lines[|lines| - 1];
      assert lines == before + [line];
      TotalsAreDistinctMessages(before, model, c);
      TotalStep(before, line, model);
      MessagesStep(before, line, model, c);
      if Contributes(before, line, model) {
        NewMessage(before, line, model, c);
        MapSumUpdate(Messages(before, model, c), Countable(line).value.id, Pick(Countable(line).value.tokens, c));
      }
    }
  }

  lemma NoMessages(model: string, c: Counter)
    ensures Pick(Total([], model), c) == MapSum(Messages([], model, c)) == 0
  {
    assert Messages([], model, c) == map[];
  }

  lemma NewMessage(before: seq<Line>, line: Line, model: string, c: Counter)
    requires Contributes(before, line, model)
    ensures Countable(line).value.id !in Messages(before, model, c)
  {
  }

  // ----------------------------------------------------------- repeats and growth

  /** A line whose message was counted before can be deleted, wherever it stands. */
  lemma {:induction false} RepeatedLineChangesNothing(
    before: seq<Line>, line: Line, after: seq<Line>, model: string)
    requires Countable(line).None? || Countable(line).value.id in Seen(before)
    ensures Seen(before + [line] + after) == Seen(before + after)
    ensures Total(before + [line] + after, model) == Total(before + after, model)
  {
    hide Seen, Total, Countable;
    var long, short := before + [line] + after, before + after;
    if after == [] {
      assert long == before + [line] && short == before;
      SeenStep(before, line);
      TotalStep(before, line, model);
      PlusBlank(Total(before, model));
    } else {
      var shorter, last := after[..|after| - 1], after[|after| - 1];
      RepeatedLineChangesNothing(before, line, shorter, model);
      var l, s := before + [line] + shorter, before + shorter;
      assert long == l + [last] && short == s + [last];
      SeenStep(l, last);
      SeenStep(s, last);
      TotalStep(l, last, model);
      TotalStep(s, last, model);
    }
  }

  lemma SeenStep(before: seq<Line>, line: Line)
    ensures Seen(before + [line])
         == Seen(before) + (if Countable(line).Some? then {Countable(line).value.id} else {})
  {
    assert (before + [line])[..|before|] == before;
  }

  /** Every countable record reports figures that are not negative. */
  predicate Sound(lines: seq<Line>) {
    forall i :: 0 <= i < |lines| && Countable(lines[i]).Some? ==>
      Counts(Countable(lines[i]).value.tokens)
  }

  lemma {:induction false} TotalStep(before: seq<Line>, line: Line, model: string)
    ensures Total(before + [line], model) == Plus(Total(before, model), Contribution(before, line, model))
  {
    assert (before + [line])[..|before|] == before;
  }

  /** Appending to a sound log never lowers a total. */
  lemma {:induction false} GrowingLogNeverFalls(lines: seq<Line>, more: seq<Line>, model: string)
    requires Sound(more)
    ensures AtMost(Total(lines, model), Total(lines + more, model))
  {
    hide Total, Contribution, Sound;
    if more == [] {
      assert lines + more == lines;
    } else {
      var shorter, line := more[..|more| - 1], more[|more| - 1];
      SoundFront(more);
      GrowingLogNeverFalls(lines, shorter, model);
      TotalStep(lines + shorter, line, model);
      assert lines + more == lines + shorter + [line];
      SoundAdds(lines + shorter, line, model);
    }
  }

  lemma SoundFront(lines: seq<Line>)
    requires Sound(lines) && lines != []
    ensures Sound(lines[..|lines| - 1])
    ensures Countable(lines[|lines| - 1]).Some? ==> Counts(Countable(lines[|lines| - 1]).value.tokens)
  {
    hide Countable, Counts;
    var front := lines[..|lines| - 1];
    assert forall i :: 0 <= i < |front| ==> front[i] == lines[i];
  }

  lemma SoundAdds(before: seq<Line>, line: Line, model: string)
    requires Countable(line).Some? ==> Counts(Countable(line).value.tokens)
    ensures Counts(Contribution(before, line, model))
  {
  }

  lemma {:induction false} SoundTotalCounts(lines: seq<Line>, model: string)
    requires Sound(lines)
    ensures Counts(Total(lines, model))
  {
    hide Total, Sound;
    GrowingLogNeverFalls([], lines, model);
    assert [] + lines == lines;
    NothingTotalled(model);
  }

  /** The scanner does not clamp what a log claims: one appended line lowers some
      total exactly when it is a first record with a negative figure. */
  lemma {:induction false} AppendedLineLowersIff(lines: seq<Line>, line: Line)
    ensures (exists m :: !AtMost(Total(lines, m), Total(lines + [line], m)))
       <==> (&& Countable(line).Some?
             && Countable(line).value.id !in Seen(lines)
             && !Counts(Countable(line).value.tokens))
  {
    var use := Countable(line);
    if use.Some? && use.value.id !in Seen(lines) && !Counts(use.value.tokens) {
      TotalStep(lines, line, use.value.model);
      assert !AtMost(Total(lines, use.value.model), Total(lines + [line], use.value.model));
    } else {
      forall m ensures AtMost(Total(lines, m), Total(lines + [line], m)) {
        TotalStep(lines, line, m);
        assert Counts(Contribution(lines, line, m));
      }
    }
  }

  // --------------------------------------------------------------- several files

  /** A readable log file; its stem names the session. */
  datatype File = File(session: string, lines: seq<Line>)

  function SessionTotal(files: seq<File>, session: string, model: string): Tokens {
    if files == [] then BLANK
    else
      var last := files[|files| - 1];
      var before := SessionTotal(files[..|files| - 1], session, model);
      if last.session == session then Plus(before, Total(last.lines, model)) else before
  }

  /** Merge of one file's per-model totals into the session table. */
  method AddInto(into: map<string, Tokens>, perModel: map<string, Tokens>)
    returns (r: map<string, Tokens>)
    ensures r.Keys == into.Keys + perModel.Keys
    ensures forall m :: m in r ==>
      r[m] == Plus(if m in into then into[m] else BLANK, if m in perModel then perModel[m] else BLANK)
  {
    r := into;
    var left := perModel.Keys;
    while left != {}
      invariant left <= perModel.Keys
      invariant r.Keys == into.Keys + (perModel.Keys - left)
      invariant forall m :: m in r ==>
        r[m] == Plus(if m in into then into[m] else BLANK,
                     if m in perModel && m !in left then perModel[m] else BLANK)
      decreases left
    {
      var m :| m in left;
      r := r[m := Plus(if m in r then r[m] else BLANK, perModel[m])];
      left := left - {m};
    }
  }

  function TotalIn(sessions: map<string, map<string, Tokens>>, session: string, model: string): Tokens {
    if session in sessions && model in sessions[session] then sessions[session][model] else BLANK
  }

  /** `sessions` holds the totals of `files`. */
  ghost predicate Tallies(sessions: map<string, map<string, Tokens>>, files: seq<File>) {
    forall s, m :: TotalIn(sessions, s, m) == SessionTotal(files, s, m)
  }

  lemma {:induction false} SessionTotalStep(files: seq<File>, file: File, session: string, model: string)
    ensures SessionTotal(files + [file], session, model)
         == if file.session == session
            then Plus(SessionTotal(files, session, model), Total(file.lines, model))
            else SessionTotal(files, session, model)
  {
    assert (files + [file])[..|files|] == files;
  }

  /** One file's models added to the table of its session. */
  method AddFile(
    sessions: map<string, map<string, Tokens>>, ghost files: seq<File>, file: File, perModel: map<string, Tokens>)
    returns (now: map<string, map<string, Tokens>>)
    requires Tallies(sessions, files)
    requires perModel.Keys == Models(file.lines)
    requires forall m :: m in perModel ==> perModel[m] == Total(file.lines, m)
    ensures Tallies(now, files + [file])
  {
    hide SessionTotal, Total, Models;
    ModelsAreThoseCounted(file.lines);
    if perModel == map[] {
      assert forall m :: m !in perModel;
      now := sessions;
    } else {
      var into := if file.session in sessions then sessions[file.session] else map[];
      var merged := AddInto(into, perModel);
      now := sessions[file.session := merged];
    }
    forall s, m ensures TotalIn(now, s, m) == SessionTotal(files + [file], s, m) {
      SessionTotalStep(files, file, s, m);
      assert TotalIn(sessions, s, m) == SessionTotal(files, s, m);
    }
  }

  lemma NothingTallied()
    ensures Tallies(map[], [])
  {
  }

  /** The messages recognised in each file, added up. */
  function MessageCount(files: seq<File>): nat {
    if files == [] then 0 else MessageCount(files[..|files| - 1]) + |Seen(files[|files| - 1].lines)|
  }

  method ScanAll(files: seq<File>) returns (sessions: map<string, map<string, Tokens>>, messages: nat)
    ensures Tallies(sessions, files)
    ensures messages == MessageCount(files)
  {
    hide Tallies, Seen, Total, Models;
    NothingTallied();
    sessions := map[];
    messages := 0;
    for i := 0 to |files|
      invariant Tallies(sessions, files[..i])
      invariant messages == MessageCount(files[..i])
    {
      ghost var front := files[..i];
      assert files[..i + 1] == front + [files[i]] && files[..i + 1][..i] == front;
      var perModel, n := ScanFile(files[i].lines);
      messages := messages + n;
      sessions := AddFile(sessions, front, files[i], perModel);
    }
    assert files[..|files|] == files;
  }

  /** What `b` counts again although `a` already counted it. */
  function Overlap(a: seq<Line>, b: seq<Line>, model: string): Tokens {
    if b == [] then BLANK
    else
      var before := b[..|b| - 1];
      var last := b[|b| - 1];
      var use := Countable(last);
      if use.Some? && use.value.id in Seen(a)
      then Plus(Overlap(a, before, model), Contribution(before, last, model))
      else Overlap(a, before, model)
  }

  lemma {:induction false} SeenConcat(a: seq<Line>, b: seq<Line>)
    ensures Seen(a + b) == Seen(a) + Seen(b)
  {
    if b == [] {
      assert a + b == a;
    } else {
      assert (a + b)[..|a + b| - 1] == a + b[..|b| - 1];
      SeenConcat(a, b[..|b| - 1]);
    }
  }

  /** Messages are recognised within one file only: two files of one session
      count their common messages twice, by exactly the overlap. */
  lemma {:induction false} TwoFilesOvercountTheOverlap(a: seq<Line>, b: seq<Line>, model: string)
    ensures Plus(Total(a, model), Total(b, model)) == Plus(Total(a + b, model), Overlap(a, b, model))
  {
    if b == [] {
      assert a + b == a;
    } else {
      var before := b[..|b| - 1];
      assert (a + b)[..|a + b| - 1] == a + before;
      TwoFilesOvercountTheOverlap(a, before, model);
      SeenConcat(a, before);
    }
  }

  /** Every countable record reports at least one output token. */
  predicate Answered(lines: seq<Line>) {
    && Sound(lines)
    && forall i :: 0 <= i < |lines| && Countable(lines[i]).Some? ==>
         Countable(lines[i]).value.tokens.output > 0
  }

  lemma {:induction false} AnsweredFront(b: seq<Line>)
    requires Answered(b) && b != []
    ensures Answered(b[..|b| - 1])
    ensures Countable(b[|b| - 1]).Some? ==>
      Counts(Countable(b[|b| - 1]).value.tokens) && Countable(b[|b| - 1]).value.tokens.output > 0
  {
    hide Countable, Counts;
    var front := b[..|b| - 1];
    assert forall i :: 0 <= i < |front| ==> front[i] == b[i];
  }

  lemma {:induction false} NoOverlap(a: seq<Line>, b: seq<Line>, model: string)
    requires Seen(a) !! Seen(b)
    ensures Overlap(a, b, model) == BLANK
  {
    hide Countable, Contribution;
    if b != [] {
      NoOverlap(a, b[..|b| - 1], model);
    }
  }

  /** The overlap is never negative, and has output once a message of `model` is shared. */
  lemma {:induction false} OverlapCounts(a: seq<Line>, b: seq<Line>, model: string)
    requires Answered(b)
    ensures Counts(Overlap(a, b, model))
    ensures forall id :: id in Seen(a) && id in Seen(b) && FirstUse(b, id).model == model ==>
              Overlap(a, b, model).output > 0
  {
    hide Countable, Answered;
    if b != [] {
      AnsweredFront(b);
      OverlapCounts(a, b[..|b| - 1], model);
    }
  }

  // -------------------------------------------------------- sessions of many files

  /** All lines of a session, file after file. */
  function SessionLines(files: seq<File>, session: string): seq<Line> {
    if files == [] then []
    else
      var front, last := SessionLines(files[..|files| - 1], session), files[|files| - 1];
      if last.session == session then front + last.lines else front
  }

  /** What the session's files count more than once. */
  function Excess(files: seq<File>, session: string, model: string): Tokens {
    if files == [] then BLANK
    else
      var front, last := files[..|files| - 1], files[|files| - 1];
      if last.session == session
      then Plus(Excess(front, session, model), Overlap(SessionLines(front, session), last.lines, model))
      else Excess(front, session, model)
  }

  /** No two files of the session share a message. */
  predicate Disjoint(files: seq<File>, session: string) {
    if files == [] then true
    else
      var front, last := files[..|files| - 1], files[|files| - 1];
      && Disjoint(front, session)
      && (last.session == session ==> Seen(SessionLines(front, session)) !! Seen(last.lines))
  }

  lemma {:induction false} SeenInSession(files: seq<File>, session: string, id: string)
    ensures id in Seen(SessionLines(files, session))
       <==> exists i :: 0 <= i < |files| && files[i].session == session && id in Seen(files[i].lines)
  {
    hide Seen;
    if files == [] {
      NothingSeen();
    } else {
      var front, last := files[..|files| - 1], files[|files| - 1];
      SeenInSession(front, session, id);
      SeenConcat(SessionLines(front, session), last.lines);
      assert forall i :: 0 <= i < |front| ==> front[i] == files[i];
    }
  }

  lemma NothingSeen()
    ensures Seen([]) == {}
  {
  }

  /** `Disjoint` is what its name says. */
  lemma {:induction false} DisjointIsPairwise(files: seq<File>, session: string)
    ensures Disjoint(files, session) <==>
      forall i, j :: 0 <= i < j < |files| && files[i].session == session && files[j].session == session ==>
        Seen(files[i].lines) !! Seen(files[j].lines)
  {
    hide Seen, SessionLines;
    if files != [] {
      var n := |files| - 1;
      var front, last := files[..n], files[n];
      DisjointIsPairwise(front, session);
      assert forall i :: 0 <= i < n ==> front[i] == files[i];
      forall id
        ensures id in Seen(SessionLines(front, session))
           <==> exists i :: 0 <= i < |front| && front[i].session == session && id in Seen(front[i].lines)
      {
        SeenInSession(front, session, id);
      }
    }
  }

  lemma PlusSwaps(a: Tokens, b: Tokens, c: Tokens)
    ensures Plus(Plus(a, b), c) == Plus(Plus(a, c), b)
  {
  }

  /** A session's total is that of its lines read as one file, and the excess. */
  lemma {:induction false} SessionOvercountsTheExcess(files: seq<File>, session: string, model: string)
    ensures SessionTotal(files, session, model)
         == Plus(Total(SessionLines(files, session), model), Excess(files, session, model))
  {
    hide Plus, Total, Overlap;
    if files == [] {
      NothingTotalled(model);
    } else {
      var front, last := files[..|files| - 1], files[|files| - 1];
      SessionOvercountsTheExcess(front, session, model);
      if last.session == session {
        var lines, more := SessionLines(front, session), last.lines;
        TwoFilesOvercountTheOverlap(lines, more, model);
        PlusSwaps(Total(lines, model), Excess(front, session, model), Total(more, model));
        PlusAssociates(Total(lines + more, model), Overlap(lines, more, model), Excess(front, session, model));
        PlusCommutes(Overlap(lines, more, model), Excess(front, session, model));
      }
    }
  }

  lemma PlusCommutes(a: Tokens, b: Tokens)
    ensures Plus(a, b) == Plus(b, a)
  {
  }

  lemma NothingTotalled(model: string)
    ensures Total([], model) == Plus(Total([], model), BLANK) == BLANK
  {
  }

  lemma {:induction false} DisjointHasNoExcess(files: seq<File>, session: string, model: string)
    requires Disjoint(files, session)
    ensures Excess(files, session, model) == BLANK
  {
    hide Seen, Overlap;
    if files != [] {
      var front, last := files[..|files| - 1], files[|files| - 1];
      DisjointHasNoExcess(front, session, model);
      if last.session == session {
        NoOverlap(SessionLines(front, session), last.lines, model);
      }
    }
  }

  predicate AllAnswered(files: seq<File>) {
    forall i :: 0 <= i < |files| ==> Answered(files[i].lines)
  }

  lemma {:induction false} ExcessCounts(files: seq<File>, session: string, model: string)
    requires AllAnswered(files)
    ensures Counts(Excess(files, session, model))
  {
    hide Answered, Overlap;
    if files != [] {
      var front, last := files[..|files| - 1], files[|files| - 1];
      assert forall i :: 0 <= i < |front| ==> front[i] == files[i];
      ExcessCounts(front, session, model);
      OverlapCounts(SessionLines(front, session), last.lines, model);
    }
  }

  /** A shared message is an excess of its model. */
  lemma {:induction false} SharedIsExcess(files: seq<File>, session: string) returns (model: string)
    requires AllAnswered(files) && !Disjoint(files, session)
    ensures Excess(files, session, model).output > 0
  {
    hide Answered, Overlap, Seen, FirstUse;
    var front, last := files[..|files| - 1], files[|files| - 1];
    assert forall i :: 0 <= i < |front| ==> front[i] == files[i];
    if !Disjoint(front, session) {
      model := SharedIsExcess(front, session);
      OverlapCounts(SessionLines(front, session), last.lines, model);
    } else {
      var id :| id in Seen(SessionLines(front, session)) && id in Seen(last.lines);
      model := FirstUse(last.lines, id).model;
      OverlapCounts(SessionLines(front, session), last.lines, model);
      ExcessCounts(front, session, model);
    }
  }

  /** For logs in which every response produced output, any number of files of a session
      bill each message once, in every model, exactly when no two share a message. */
  lemma {:induction false} ManyFilesAreExactIff(files: seq<File>, session: string)
    requires AllAnswered(files)
    ensures (forall m :: SessionTotal(files, session, m) == Total(SessionLines(files, session), m))
       <==> Disjoint(files, session)
  {
    hide SessionTotal, Total, Excess, Disjoint, AllAnswered;
    if Disjoint(files, session) {
      forall m ensures SessionTotal(files, session, m) == Total(SessionLines(files, session), m) {
        SessionOvercountsTheExcess(files, session, m);
        DisjointHasNoExcess(files, session, m);
        PlusBlank(Total(SessionLines(files, session), m));
      }
    } else {
      var m := SharedIsExcess(files, session);
      SessionOvercountsTheExcess(files, session, m);
      assert SessionTotal(files, session, m) != Total(SessionLines(files, session), m);
    }
  }

  /** A log without its last line when that does not parse: it may be half written. */
  function Complete(lines: seq<Line>): seq<Line> {
    if lines != [] && lines[|lines| - 1].Noise? then lines[..|lines| - 1] else lines
  }

  /** `b` is `a` after more was written, the half-written end of `a` finished first. */
  predicate Extends(a: seq<Line>, b: seq<Line>) {
    Complete(a) <= b
  }

  /** A half-written end counts for nothing. */
  lemma {:induction false} CompleteIsAll(lines: seq<Line>, model: string)
    ensures Total(Complete(lines), model) == Total(lines, model) && Seen(Complete(lines)) == Seen(lines)
  {
    if Complete(lines) != lines {
      var front, last := lines[..|lines| - 1], lines[|lines| - 1];
      assert lines == front + [last];
      TotalStep(front, last, model);
      SeenStep(front, last);
      PlusBlank(Total(front, model));
    }
  }

  /** The files of a later scan: each known one has grown, and there may be new ones. */
  predicate GrowsInto(a: seq<File>, b: seq<File>) {
    |a| <= |b| && forall i :: 0 <= i < |a| ==> a[i].session == b[i].session && Extends(a[i].lines, b[i].lines)
  }

  predicate AllSound(files: seq<File>) {
    forall i :: 0 <= i < |files| ==> Sound(files[i].lines)
  }

  lemma {:induction false} GrowingFileNeverFalls(a: seq<Line>, b: seq<Line>, model: string)
    requires Extends(a, b) && Sound(b)
    ensures AtMost(Total(a, model), Total(b, model)) && Counts(Total(b, model))
  {
    hide Sound, Total, Counts, AtMost;
    var whole := Complete(a);
    CompleteIsAll(a, model);
    SoundTotalCounts(b, model);
    SoundSuffix(b, |whole|);
    GrowingLogNeverFalls(whole, b[|whole|..], model);
    assert whole + b[|whole|..] == b;
  }

  lemma {:induction false} SoundSuffix(lines: seq<Line>, n: nat)
    requires n <= |lines| && Sound(lines)
    ensures Sound(lines[n..])
  {
    hide Countable, Counts;
    var more := lines[n..];
    assert forall i :: 0 <= i < |more| ==> more[i] == lines[n + i];
  }

  /** A session whose files grow, whichever of them, never falls in any counter. */
  lemma {:induction false} GrowingFilesNeverFall(a: seq<File>, b: seq<File>, session: string, model: string)
    requires GrowsInto(a, b) && AllSound(b)
    ensures AtMost(SessionTotal(a, session, model), SessionTotal(b, session, model))
    ensures Counts(SessionTotal(b, session, model))
    decreases |b|
  {
    hide Total, Sound, Complete;
    if b != [] {
      var front, last := b[..|b| - 1], b[|b| - 1];
      assert forall i :: 0 <= i < |front| ==> front[i] == b[i];
      if |a| == |b| {
        var less := a[..|a| - 1];
        assert forall i :: 0 <= i < |less| ==> less[i] == a[i];
        GrowingFilesNeverFall(less, front, session, model);
        GrowingFileNeverFalls(a[|a| - 1].lines, last.lines, model);
      } else {
        GrowingFilesNeverFall(a, front, session, model);
        SoundTotalCounts(last.lines, model);
      }
    }
  }
}
