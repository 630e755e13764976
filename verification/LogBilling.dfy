/** From log lines to money: the scanner's totals read by the metering passes. */
module LogBilling {
  import opened Common
  import opened AiPricing
  import opened AiMeter
  import Scan = UsageScan

  /** Each reading is at least the one before it. */
  ghost predicate Ascending(readings: seq<Tokens>) {
    && (forall i :: 0 <= i < |readings| ==> Counts(readings[i]))
    && (forall i, j :: 0 <= i < j < |readings| ==> AtMost(readings[i], readings[j]))
  }

  lemma {:induction false} LargestIsLast(readings: seq<Tokens>)
    requires Ascending(readings) && readings != []
    ensures Largest(readings) == readings[|readings| - 1]
  {
    var front := readings[..|readings| - 1];
    if front != [] {
      LargestIsLast(front);
      assert AtMost(front[|front| - 1], readings[|readings| - 1]);
    }
  }

  /** The log as it stood at each counted pass: every state extends the ones before, but
      for a last line that was only half written. */
  ghost predicate Grows(logs: seq<seq<Scan.Line>>) {
    && (forall i :: 0 <= i < |logs| ==> Scan.Sound(logs[i]))
    && (forall i, j :: 0 <= i < j < |logs| ==> Scan.Extends(logs[i], logs[j]))
  }

  lemma {:induction false} GrowingLogReadsAscend(logs: seq<seq<Scan.Line>>, model: string, readings: seq<Tokens>)
    requires Grows(logs) && |readings| == |logs|
    requires forall i :: 0 <= i < |logs| ==> readings[i] == Scan.Total(logs[i], model)
    ensures Ascending(readings)
  {
    forall i | 0 <= i < |readings| ensures Counts(readings[i]) {
      Scan.SoundTotalCounts(logs[i], model);
    }
    forall i, j | 0 <= i < j < |readings| ensures AtMost(readings[i], readings[j]) {
      Scan.GrowingFileNeverFalls(logs[i], logs[j], model);
    }
  }

  /** A log that only grows is billed once per message, over every run: when the
      counted passes read it as it grew, half-written ends and all, the tokens in all committed charges are the
      sum over the distinct messages of the log at the last of those passes. */
  lemma {:induction false} GrowingLogIsBilledOncePerMessage(
    events: seq<Event>, k: MarkKey, logs: seq<seq<Scan.Line>>, c: Scan.Counter)
    requires forall i :: 0 <= i < |events| ==> Wellformed(events[i])
    requires Grows(logs) && logs != []
    requires |Readings(Run(events).counted, k)| == |logs|
    requires forall i :: 0 <= i < |logs| ==>
      Readings(Run(events).counted, k)[i] == Scan.Total(logs[i], k.model)
    ensures Scan.Pick(DeltaSum(Run(events).charges, k), c)
         == MapSum(Scan.Messages(logs[|logs| - 1], k.model, c))
  {
    var readings := Readings(Run(events).counted, k);
    TokensAreBilledOnce(events, k);
    GrowingLogReadsAscend(logs, k.model, readings);
    LargestIsLast(readings);
    Scan.TotalsAreDistinctMessages(logs[|logs| - 1], k.model, c);
  }

  /** The session's files as they stood at each counted pass. */
  ghost predicate FilesGrow(scans: seq<seq<Scan.File>>) {
    && (forall i :: 0 <= i < |scans| ==> Scan.AllSound(scans[i]))
    && (forall i, j :: 0 <= i < j < |scans| ==> Scan.GrowsInto(scans[i], scans[j]))
  }

  lemma {:induction false} GrowingFilesReadAscending(
    scans: seq<seq<Scan.File>>, session: string, model: string, readings: seq<Tokens>)
    requires FilesGrow(scans) && |readings| == |scans|
    requires forall i :: 0 <= i < |scans| ==> readings[i] == Scan.SessionTotal(scans[i], session, model)
    ensures Ascending(readings)
  {
    forall i | 0 <= i < |readings| ensures Counts(readings[i]) {
      Scan.GrowingFilesNeverFall(scans[i], scans[i], session, model);
    }
    forall i, j | 0 <= i < j < |readings| ensures AtMost(readings[i], readings[j]) {
      Scan.GrowingFilesNeverFall(scans[i], scans[j], session, model);
    }
  }

  /** The same for a session logged in any number of files that grow, appear and share no
      message: the tokens in all committed charges are the sum over the distinct messages
      of all its files, once each. */
  lemma {:induction false} GrowingSessionIsBilledOncePerMessage(
    events: seq<Event>, k: MarkKey, scans: seq<seq<Scan.File>>, c: Scan.Counter)
    requires forall i :: 0 <= i < |events| ==> Wellformed(events[i])
    requires FilesGrow(scans) && scans != [] && Scan.Disjoint(scans[|scans| - 1], k.session)
    requires |Readings(Run(events).counted, k)| == |scans|
    requires forall i :: 0 <= i < |scans| ==>
      Readings(Run(events).counted, k)[i] == Scan.SessionTotal(scans[i], k.session, k.model)
    ensures Scan.Pick(DeltaSum(Run(events).charges, k), c)
         == MapSum(Scan.Messages(Scan.SessionLines(scans[|scans| - 1], k.session), k.model, c))
  {
    hide Run, Readings, DeltaSum, FilesGrow;
    var readings, last := Readings(Run(events).counted, k), scans[|scans| - 1];
    TokensAreBilledOnce(events, k);
    GrowingFilesReadAscending(scans, k.session, k.model, readings);
    LargestIsLast(readings);
    Scan.SessionOvercountsTheExcess(last, k.session, k.model);
    Scan.DisjointHasNoExcess(last, k.session, k.model);
    PlusBlank(Scan.Total(Scan.SessionLines(last, k.session), k.model));
    Scan.TotalsAreDistinctMessages(Scan.SessionLines(last, k.session), k.model, c);
  }

  /** A machine rebuilt from scratch that reports less than its mark is neither
      charged nor refunded, whatever the pass does with its other sessions. */
  lemma {:induction false} RebuiltMachineIsNotCharged(t: Tables, req: Request, k: MarkKey)
    requires DistinctEntries(req) && !Pass(t, req).1.Skipped?
    requires PricedTotal(req, req.report, k).Some?
    requires AtMost(PricedTotal(req, req.report, k).value, MarkOf(t.marks, k).tokens)
    ensures MarkOf(Pass(t, req).0.marks, k).tokens == MarkOf(t.marks, k).tokens
    ensures DeltaSum(Touches(t.marks, req, req.report), k) == BLANK
  {
    hide Pass, Touches, PricedTotal, DeltaSum, Delta, MarkOf;
    CountedPassRaisesMarks(t, req, k);
    assert req.report[..|req.report|] == req.report;
    TouchesOfKey(t.marks, req, |req.report|, k);
    DeltaRaisesMark(PricedTotal(req, req.report, k).value, MarkOf(t.marks, k).tokens);
  }
}
