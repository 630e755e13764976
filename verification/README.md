# The MMD-DEV control plane, modelled and proved

MMD-DEV rents out cloud machines and bills them, and the AI tokens used on them, against prepaid
credit. An API process and a worker process share one PostgreSQL database; a privileged provisioner
owns the host. This project models the parts that must stay right across retries, crashes, two
processes at once, rebuilt machines and outside calls that fail, and proves what those parts are for.

One module per component:

- `Ledger`, `LedgerConcurrency` - postings, idempotency keys and balances; first one process at a
  time, then any number of them interleaving statement by statement.
- `AiPricing`, `UsageScan`, `CodexScan`, `AiMeter`, `LogBilling` - from session logs to cumulative
  totals, from totals to deltas above stored marks, from deltas to money, and the whole chain.
- `Hermes` - billing the OpenRouter supplier's own cumulative figure, and its spending cap.
- `Machines`, `Worker` - the database row and the real instance as two facts that can disagree, one
  turn at a time, then every run of passes, power requests, crashes and reboots.
- `Ports`, `PortRace`, `Firewall`, `RuleFile`, `Publishing` - reserving external ports, racing for
  them, the firewall rules rewritten from them, several calls at once over the one rule file, and every
  interleaving of the requests that publish, unpublish, create and delete with the readings and
  loadings of those rules.
- `Bale`, `SmsCodes`, `Vhosts`, `Metrics`, `Router` - contact links with replay, one-time codes, the
  nginx file reconciler, the metrics registry and its merge, the asynchronous page router.
- `SshKeys`, `Paths` - parsers and printers that must agree.
- `Common` - optional values, Python's `round`, decimal text, sums over tables.

Code that changes state is a class or a loop, proved against a function of the old state; the
results are lemmas over those functions, mostly over every run of a state machine. Outside calls are
outcomes chosen freely: done, refused, or done with the reply lost. Money is in integer micro-Toman;
Python floats are reals, and `round` is the nearest integer with ties to even. Prices, gates,
admission and decoding are arbitrary values or functions. A crash may fall between any two commits.
What the small computations mean is said once more in plain figures and rows, by lemmas that do not
go through them: who pays what, what a number spells, which code is right, where an address leads.

## Where the code falls short of what it says

Each of these is a lemma below, with the exact condition under which the promise does hold.

- A power-off request for a row that already says off is answered at once, even if the instance
  runs; `control/mmd/worker.py:244-251` produces that state when archiving is refused (`PowerOffOk`,
  `RefusedArchiveLeavesItRunning`, `CompletedPowerOffIsFinal`).
- A power-off whose stop call is refused is not remembered: reconciliation adopts the machine as on,
  and starts it again after a reboot (`PowerOffIsCalmIff`, `ReconcileForgetsIff`,
  `FailedPowerOffIsForgottenIff`).
- `control/mmd/service.py:255` says the automatic stop is armed on every way into on; adoption does
  not arm it (`ArmedUnlessAdopted`, `RunStaysArmedIff`).
- The limit of five ports is checked before the draw with no constraint behind it
  (`CommitKeepsLimitIff`, `LimitHoldsIff`, `LimitAtRiskIff`, `OverlapBreaksLimit`).
- A publish that loses its reply and its repair, a full push between another request's push and its
  removal of rows, and a push that loads what was removed since it was read each leave a rule without
  an owner (`EverySerialRunIsCoveredIff`, `PushInTheWindowIff`, `LoadIsCoveredIff`,
  `EveryMomentIsCoveredIff`).
- Two calls of the provisioner share one rule file without a lock, so a call can report success
  when another one's rules took effect (`OwnRulesTakeEffectIff`).
- `control/mmd/smscode.py:80-81` says two live codes never exist at once, and the limiter allows five
  codes an hour, a minute apart; `issue` takes no lock (`OneLiveIff`, `HourLimitIff`, `MinuteApartIff`,
  `RaceLeavesTwoLiveCodes`, `RaceFillsTheHour`).
- The OpenRouter mark follows the supplier's figure down, so a dip that recovers is billed twice
  (`BilledOnceIffNoFall`).
- Growing Codex figures can lower a billed counter, two files of one session count shared messages
  twice, and the scanner passes on negative figures (`SessionNeverFallsIff`, `ManyFilesAreExactIff`,
  `AppendedLineLowersIff`).
- After a failed nginx reload, or a death between the last write and the test, the next pass publishes
  addresses the server never loaded, in the second case without ever testing the configuration
  (`FailedReloadIsForgotten`, `PublishedIsServedIff`, `PassLoadsFilesIff`,
  `DeathBeforeTheTestIsForgottenIff`, `EveryMomentIsGoodIff`).
- The breadcrumb text loses a slash for a path that ends in a line break and a slash
  (`TrailIsThePathIff`); a bare phone number that begins with 98 is not recognised (`SpellingsAgree`).

## Model

| member | source | states |
|---|---|---|
| Ledger.PostKeepsConsistent | control/mmd/service.py:69-144 | A posting whose key is free adds one row and moves exactly one balance by its amount; one whose key is used changes nothing; either way every balance stays the sum of its rows and no key repeats. |
| Ledger.RetryIsNoOp | control/mmd/service.py:69-144 | Posting a keyed charge again, after any other postings, is refused and changes nothing. |
| Ledger.TakenForEver | control/mmd/service.py:69-144 | A key once used stays used through every later sequence of postings. |
| Ledger.RefusedIff | control/mmd/service.py:69-117 | A posting is refused exactly when it carries a period and an earlier row of its kind and period has its workspace or its scope. |
| Ledger.Session.PostTransaction | control/mmd/service.py:69-144 | Run by one process, the statements in their order do what one posting should: same rows, balances and answer. |
| LedgerConcurrency.EveryInterleavingIsConsistent | control/mmd/service.py:69-144 | Over every interleaving of any number of posters, with crashes anywhere, committed balances equal the sums of committed rows and no key has two rows. |
| LedgerConcurrency.EveryInterleavingIsSerial | control/mmd/service.py:69-144 | Tables and answers are those of the finished postings executed one after another in the order they finished; each finished poster answers once. |
| LedgerConcurrency.RefusedPosterLeavesNoTrace | control/mmd/service.py:69-144 | Take a refused poster out of any run, with all its statements wherever they fell: every row, balance, other poster and its answers is the same. |
| LedgerConcurrency.SecondUpdateFindsTheAccount | control/mmd/service.py:118-144 | The error after the second balance UPDATE is unreachable: who lost the race to open an account finds it there. |
| LedgerConcurrency.NoDeadlock | control/mmd/service.py:69-144 | While a posting is unfinished, some poster has an enabled statement, with nobody new arriving or crashing. |
| LedgerConcurrency.SixStatementsFinish | control/mmd/service.py:69-144 | Whatever the others do, a poster is finished after at most six statements of its own that were not waits. |
| AiPricing.Resolve | control/mmd/billing/aipricing.py:131-146 | Finds the longest prefix that matches a model name; finds none exactly when the name is empty or nothing matches. |
| AiPricing.ResolveIgnoresOrder | control/mmd/billing/aipricing.py:131-146 | With distinct prefixes, the answer does not depend on the order of the price table. |
| AiPricing.DiscountMultiplier | control/mmd/billing/aipricing.py:155-158 | Every percentage gives a factor between 0 and 1: 1 up to nought, 0 from a hundred. |
| AiPricing.ChargeIsNearest | control/mmd/billing/aipricing.py:149-170 | A charge is never negative and within half a micro-Toman of the exact price. |
| AiPricing.BillSpelledOut | control/mmd/billing/aipricing.py:149-170 | The exact price is the sum over the five counters of tokens times that counter's own rate, times the Toman rate, times one minus the discount, in micro-Toman. |
| AiPricing.EachCounterAtItsOwnRate | control/mmd/billing/aipricing.py:149-170 | Tokens of one counter alone cost their number times that counter's own rate, converted and discounted. |
| AiPricing.ChargeSpelledOut | control/mmd/billing/aipricing.py:161-170 | What is charged is within half a micro-Toman of that sum. |
| AiPricing.ExactAdds | control/mmd/billing/aipricing.py:149-170 | Exact prices of token counts add, so splitting a bill over passes can lose only rounding. |
| UsageScan.ScanFile | control/provisioner/scan_ai_usage.py:74-108 | The loop computes, per model, the total over first records of each message, and the number of distinct messages. |
| UsageScan.ScanAll | control/provisioner/scan_ai_usage.py:111-140 | Over all files, each session holds the sum of its files' totals for every model, and the message count is the sum of theirs. |
| UsageScan.OneRecord | control/provisioner/scan_ai_usage.py:42-108 | Which single records count, and which figure of the log goes to which counter, combined cache writes as five-minute ones. |
| UsageScan.FirstUseIsFirst | control/provisioner/scan_ai_usage.py:88-104 | The record billed for a message is its first billable one in the file. |
| UsageScan.TotalsAreDistinctMessages | control/provisioner/scan_ai_usage.py:74-108 | Each running counter equals the sum, over the distinct messages of the model, of that message's first figure. |
| UsageScan.RepeatedLineChangesNothing | control/provisioner/scan_ai_usage.py:88-104 | A line whose message was counted earlier can be deleted from anywhere in the log without changing a total. |
| UsageScan.GrowingLogNeverFalls | control/provisioner/scan_ai_usage.py:74-108 | Appending lines with non-negative figures never lowers any counter of any model. |
| UsageScan.AppendedLineLowersIff | control/provisioner/scan_ai_usage.py:42-108 | One appended line lowers a total exactly when it is the first record of its message and carries a negative figure. |
| UsageScan.TwoFilesOvercountTheOverlap | control/provisioner/scan_ai_usage.py:111-140 | Two files of one session count what they share twice: by exactly the overlap. |
| UsageScan.SessionOvercountsTheExcess | control/provisioner/scan_ai_usage.py:111-140 | A session over any number of files is its lines read as one file, plus an excess that counts what later files share with earlier ones. |
| UsageScan.ManyFilesAreExactIff | control/provisioner/scan_ai_usage.py:111-140 | For logs whose responses produced output, any number of files of a session bill each message once in every model exactly when no two of them share a message. |
| UsageScan.GrowingFilesNeverFall | control/provisioner/scan_ai_usage.py:74-140 | A session whose files grow or appear, with non-negative figures, never falls in any counter, whether or not a last line was half written when it was read. |
| CodexScan.ScanFile | control/provisioner/scan_codex_usage.py:80-121 | The loop reports the last model and the last running total of the file, mapped, or nothing if either is missing, and counts the turns. |
| CodexScan.LastsAreLast | control/provisioner/scan_codex_usage.py:80-121 | The reported model and total are those of the last record that carries one. |
| CodexScan.NoReportIff | control/provisioner/scan_codex_usage.py:80-121 | Nothing is reported exactly when no record carries a total or none names a model. |
| CodexScan.MapUsageSplitsInput | control/provisioner/scan_codex_usage.py:56-77 | No counter is negative; uncached plus cached input is the larger of the two figures the log claims; cached, output and cache-write figures that are not negative are taken over. |
| CodexScan.GrowthIsMonotoneIff | control/provisioner/scan_codex_usage.py:56-77 | When raw figures have not fallen, no billed counter is lower exactly when the uncached input has not shrunk. |
| CodexScan.ReclassifiedInputLowersATotal | control/provisioner/scan_codex_usage.py:56-77 | An input with growing figures for which a billed counter falls: input reported as cached later. |
| CodexScan.SilentLinesChangeNothing | control/provisioner/scan_codex_usage.py:80-121 | Appending lines with no model and no token count leaves report and turn count as they are. |
| CodexScan.SessionNeverFallsIff | control/provisioner/scan_codex_usage.py:56-121 | When raw figures never fall from one count to the next, no reading is below any earlier one exactly when the uncached input never shrinks from one count to the next. |
| CodexScan.GrowingSessionNeverFalls | control/provisioner/scan_codex_usage.py:80-121 | A one-model session with such consecutive counts reports, when its log is longer, the same model and no smaller counter. |
| AiMeter.Meter.MeterAiUsage | control/mmd/service.py:408-510 | The two loops, the posting and the mark updates do one pass as one transaction; a crash before the commit leaves no trace; the amount returned is what was charged. |
| AiMeter.Meter.Gather | control/mmd/service.py:430-480 | The loop over the report finds what is new above the marks, bucket by bucket, and its price. |
| AiMeter.Meter.Moved | control/mmd/service.py:493-506 | The loop over what was charged moves each mark to its newest total and leaves the others. |
| AiMeter.TokensAreBilledOnce | control/mmd/service.py:408-510 | Over every run of passes with any reports, prices, duplicate buckets and crashes: per session, model and counter the committed deltas sum to the mark, and the mark is the largest total of any counted, priced reading. |
| AiMeter.MarksAgreeWithLedger | control/mmd/service.py:408-510 | Over every run the money on the marks of a workspace and service is minus the sum of its ledger rows of that kind, and balances match the ledger. |
| AiMeter.ChargedPassBillsItsCustomer | control/mmd/service.py:481-510 | A charged pass adds one row, for its customer, workspace, service's kind and bucket, lowers that customer's balance by exactly what its marks gained, and moves no other balance. |
| AiMeter.EveryCustomerPaysTheirOwn | control/mmd/service.py:408-510 | Over every run the ledger took from each customer for AI tokens exactly what the customer's own passes put on marks. |
| AiMeter.EntryIsChargedAtItsOwnPrice | control/mmd/service.py:430-480 | Each reported session and model adds to its own mark the charge for what is new above it, at its model's price and the pass's rate and discount, or nothing if there is no price. |
| AiMeter.SkippedIff | control/mmd/service.py:481-495 | A pass with something to charge is skipped exactly when its workspace was charged for its service in its bucket before. |
| AiMeter.RoundingNeverDrifts | control/mmd/service.py:457-506 | With price, rate and discount fixed, a mark charged in n passes has taken within n/2 micro-Toman of the exact price of its final counts. |
| AiMeter.CountedPassRaisesMarks | control/mmd/service.py:430-506 | A counted pass leaves each mark at the larger of its old value and the priced total reported for it, and the others alone. |
| AiMeter.SecondPassChargesNothing | control/mmd/service.py:408-510 | The same request again, in any bucket, finds nothing to charge and changes nothing. |
| AiMeter.SkippedTokensRollOver | control/mmd/service.py:481-510 | A pass refused for its bucket loses nothing: a later reading at least as large gives the same marks as if it had counted. |
| LogBilling.GrowingLogIsBilledOncePerMessage | control/mmd/service.py:408-510 | From log lines to ledger: for a log that only grows between counted passes, any of which may meet a half-written last line, the tokens in all committed charges are the sum over its distinct messages, once each. |
| LogBilling.GrowingSessionIsBilledOncePerMessage | control/mmd/service.py:408-510 | The same for a session in any number of files that grow and appear, half-written ends included, and share no message: once for each message of all its files. |
| LogBilling.RebuiltMachineIsNotCharged | control/mmd/service.py:430-470 | A report below the mark, as a rebuilt machine makes, is neither charged nor refunded. |
| Hermes.HeadroomIsAffordable | control/mmd/hermes.py:140-158 | Headroom lies between the two caps, and above the ten-cent floor spending all of it never costs more than the balance. |
| Hermes.HeadroomIsTheBalance | control/mmd/hermes.py:140-158 | Between the caps spending the headroom costs exactly the balance; it is ten cents exactly when the balance buys no more, and five hundred dollars exactly when it buys as much or everything is free. |
| Hermes.NoRateNoHeadroom | control/mmd/hermes.py:140-158 | Without a rate the headroom is ten cents. |
| Hermes.SpendSpelledOut | control/mmd/hermes.py:229-232 | What dollars cost: times the rate, times one minus the discount, in micro-Toman. |
| Hermes.Account.EnsureKey | control/mmd/hermes.py:161-178 | Mints a key only for an account without one, with the cap given, and with the mark at the figure the supplier reports for it; changes nothing otherwise. |
| Hermes.Account.Meter | control/mmd/hermes.py:208-259 | One charging pass: the mark and the ledger move together or not at all, a crash before the commit leaves no trace. |
| Hermes.Account.Reconcile | control/mmd/worker.py:415-468 | After every full pass the key is disabled exactly when the balance is not positive, and the supplier's limit is within a cent of usage plus headroom exactly when the pass did not mint a key whose reported usage exceeds a cent; a pass with nothing to do changes nothing. |
| Hermes.SpendIsBilledToHalfAUnit | control/mmd/hermes.py:208-259 | Over every run at a fixed rate, n committed charges total within n/2 micro-Toman of the exact price of the dollars they were for, and the ledger holds that total. |
| Hermes.SpendIsChargedToItsCustomer | control/mmd/hermes.py:229-259 | A charging pass adds one row for its customer and takes what it returns from that customer alone; any other pass moves no money. |
| Hermes.ScopeIsUser | control/mmd/hermes.py:241-246 | No two customers share the scope of a charge. |
| Hermes.BilledOnceIffNoFall | control/mmd/hermes.py:208-259 | The dollars billed are the dollars by which the mark moved exactly when the supplier's figure never dipped below the mark. |
| Hermes.RemainderIsSmall | control/mmd/hermes.py:208-259 | After a pass that was not a duplicate, what is still unbilled is worth at most half a micro-Toman. |
| Machines.CalmStays | control/mmd/worker.py:114-257 | No worker turn, whatever its calls and crashes, starts a machine whose row does not ask for it, or makes its row ask. |
| Machines.PowerOffIsCalmIff | control/mmd/app.py:1247-1263 | A power-off leaves a machine that can be started again without its customer exactly when the stop was refused while it ran and its row, not yet off, asked for it. |
| Machines.ReconcileForgetsIff | control/mmd/worker.py:1217-1297 | A failed power-off is forgotten by the next working reconciliation exactly when the stop was refused while the instance ran and its row asked for it, for every machine, database and outcome. |
| Machines.WorkerStartsOnlyWanted | control/mmd/worker.py:1217-1297 | The only turn that starts an instance is reconciliation, for a row that is on and wanted on, with credit for the next hour and room on the host. |
| Machines.PowerOffOk | control/mmd/app.py:1183-1263 | A power-off answered with success leaves a row the worker will not start; the instance still runs exactly when the row already said off while it ran. |
| Machines.ReconcileConverges | control/mmd/worker.py:1217-1297 | For one workspace: from any mix of states one reconciliation with working calls makes row and instance agree, and a second changes nothing. |
| Machines.RefusedArchiveLeavesItRunning | control/mmd/worker.py:238-252 | With no credit and the archive call refused, a running machine ends up running under a row that says off, and only then. |
| Machines.EveryStopIsBilled | control/mmd/service.py:208-250 | A stop that works, by the customer, the deadline or the pool guard, charges the owner once for the part-hour, from 1.8 seconds, as an hour from 0.999 of one; nothing else of these turns moves money. |
| Machines.SettlementBillsTheHour | control/mmd/worker.py:114-155 | A settlement charges the owner once for the hour in which the unpaid time begins, when that hour is over, moves the cursor to the current hour, and stops what is on with less left than the gate. |
| Machines.NothingUnpaid | control/mmd/worker.py:114-155 | A row that was neither opened nor created has nothing to settle. |
| Machines.PowerOnSpelledOut | control/mmd/app.py:1187-1245 | Every reply to switching on, with its conditions, and the row and instance each leaves. |
| Machines.PowerOffSpelledOut | control/mmd/app.py:1247-1263 | Every reply to switching off, and the row and instance each leaves, deaths included. |
| Machines.DeadlineStopsIff | control/mmd/worker.py:159-205 | The deadline stops exactly the machines that are on when it has come, and what a stop leaves. |
| Machines.GuardStopsChosen | control/mmd/worker.py:635-665 | What the pool guard does to a chosen machine that is on, and that it leaves the others alone. |
| Machines.ReconcileSpelledOut | control/mmd/worker.py:1217-1297 | What reconciliation does to every mix of row, instance, outcome and death. |
| Machines.LifecycleSpelledOut | control/mmd/worker.py:209-257 | Who is archived and until when, who is purged, and what refused calls leave. |
| Machines.ArmedUnlessAdopted | control/mmd/worker.py:1235-1297 | A worker turn leaves an armed machine armed exactly when it does not adopt an instance that runs without a deadline. |
| Machines.StartsArm | control/mmd/worker.py:1270-1297 | Every other way into on, by the customer or by reconciliation, arms the automatic stop afresh. |
| Worker.Host.SettleOnce | control/mmd/worker.py:114-155 | The loop over workspaces, with its two commits each and a crash anywhere, has the effect of the turns one after another up to the crash. |
| Worker.Host.SettleOne | control/mmd/worker.py:114-155 | One workspace's settlement: charge, cursor and credit gate as its turn says; nothing else changes. |
| Worker.Host.AutoStopOnce | control/mmd/worker.py:159-205 | The pass over armed machines is the sequence of their turns up to a crash. |
| Worker.Host.LifecycleOnce | control/mmd/worker.py:209-257 | The pass that archives and purges is the sequence of its turns up to a crash. |
| Worker.Host.ReconcileOnce | control/mmd/worker.py:1217-1297 | The pass that makes rows and instances agree is the sequence of its turns, up to a crash between any call and its commit. |
| Worker.Host.DiskOne | control/mmd/worker.py:635-665 | One machine stopped by the pool guard: stop, settle the part-hour, write the row, as its turn says. |
| Worker.Host.RunningBySize | control/mmd/worker.py:635-650 | The machines that are on, each once, largest first. |
| Worker.Host.DiskOnce | control/mmd/worker.py:635-665 | The pool guard stops the largest machines first and re-reads the free space after each, and goes no further once there is room. |
| Worker.GuardSpelledOut | control/mmd/worker.py:635-665 | With room in the pool nothing is stopped; without it the largest is, if its stop works. |
| Worker.Host.PressedOn | control/mmd/app.py:1187-1245 | The switch-on request: every refusal, both outside calls, a crash between the commits, and the reply. |
| Worker.Host.PressedOff | control/mmd/app.py:1247-1263 | The switch-off request: early answer for a row already off, the stop call, the part-hour, the row, and the reply. |
| Worker.CalmIsFinal | control/mmd/worker.py:114-257 | Through any run of worker passes, reboots, crashes, failing calls, other customers' requests and power-off requests for it, a machine whose row does not ask for it is never started, until its customer presses on or a stop is refused while it runs. |
| Worker.CompletedPowerOffIsFinal | control/mmd/app.py:1247-1263 | After a successful power-off the machine runs at no later moment before its customer's next power-on, whatever power-offs, passes, failures and reboots follow; the one exception is an instance that already ran under a row saying off. |
| Worker.FailedPowerOffIsForgottenIff | control/mmd/worker.py:1217-1297 | After a failed power-off some run without any request for the machine starts it again from a standstill, exactly when the stop was refused while it ran and its row asked for it. |
| Worker.FailedPowerOffIsForgotten | control/mmd/worker.py:1217-1297 | A concrete run of that kind: failed power-off, adoption, reboot, start. |
| Worker.RunStaysArmedIff | control/mmd/service.py:252-275 | Over every run, every machine that is on has a deadline at every moment exactly when no reconciliation adopts an instance that runs without one. |
| Worker.ReconcileMakesThemAgree | control/mmd/worker.py:1217-1297 | One pass whose calls succeed makes every reconcilable row on exactly when its instance runs, each on row wanted on; a second pass, with any balances and answers, changes nothing. |
| Worker.SettlementIsIdempotentInTheHour | control/mmd/worker.py:114-155 | After a completed settlement pass, any further one in the same clock hour leaves ledger, balances and rows exactly as they are. |
| Worker.CrashSafeHour | control/mmd/worker.py:114-155 | However many tries die between the charge's commit and the cursor's, and whatever else is posted, the hour under the cursor ends with one row, for the price of the first try, and the cursor on the current hour. |
| Worker.EveryRunKeepsLedger | control/mmd/worker.py:114-257 | Over every run of passes, power requests, reboots and other postings, balances stay the sums of their rows and no key is charged twice. |
| Ports.PortTable.Allocate | control/mmd/ports.py:127-183 | The draw loop computes the specified table and result; success is one new row, as asked, on a number that was free in the table and on the host. |
| Ports.AllocationSpelledOut | control/mmd/ports.py:127-183 | Which refusal a request gets, and otherwise that the row asked for is on the first drawn number that is usable. |
| Ports.DrawnIff | control/mmd/ports.py:127-183 | Forty draws from 20000 to 29999. |
| Ports.PortTable.Release | control/mmd/ports.py:186-192 | Removes the row of a customer's port and refuses the two reserved kinds. |
| Ports.PortTable.ReserveServices | control/mmd/ports.py:195-214 | Adds what is missing, keeps every row there was, and returns the addresses of both services. |
| Ports.ServicedIsComplete | control/mmd/ports.py:195-214 | Adds only TCP rows on 22 and 3389, and leaves one out only when its allocation was refused. |
| Ports.AddressIsItsRow | control/mmd/ports.py:195-214 | An address is the external port of a row of that workspace and service, and is missing exactly when there is none. |
| Ports.SequentialRunsKeepLaws | control/mmd/ports.py:127-214 | Over every sequential run: external ports distinct and in range, no (internal port, kind) pair twice in a workspace, at most five customer ports each. |
| Ports.AllocatedIsSound | control/mmd/ports.py:127-183 | One allocation keeps the laws of the table and the internal range, changes no existing row, and adds at most the row asked for. |
| Ports.ServiceAddressStays | control/mmd/ports.py:186-214 | Over every sequential run that does not delete the machine, an SSH or RDP address once given stays. |
| Ports.NextFreeIdx | control/mmd/service.py:315-320 | The smallest positive slot that is not in use, and at most one above the number in use. |
| PortRace.EveryInterleavingIsSound | control/mmd/ports.py:127-192 | In every interleaving of allocators, releases and deletions, committed external ports are pairwise distinct and in range and no (internal port, kind) pair repeats. |
| PortRace.EveryRequestDrawsForty | control/mmd/ports.py:154-183 | A request fails at its check or at its fortieth draw, and draws no more. |
| PortRace.DrawIsSpent | control/mmd/ports.py:160-183 | A draw commits the row asked for or is one of the forty, whether taken, in use on the host or refused by the table. |
| PortRace.ServiceAddressStays | control/mmd/ports.py:186-214 | In every interleaving that does not delete the machine, a committed SSH or RDP address stays. |
| PortRace.CommitKeepsLimitIff | control/mmd/ports.py:154-177 | A customer's commit keeps the limit of five exactly when the workspace has fewer than five at that moment. |
| PortRace.LimitHoldsIff | control/mmd/ports.py:154-177 | Over every interleaving: no workspace is ever over five exactly when every customer's commit finds fewer than five at its own moment. |
| PortRace.LimitAtRiskIff | control/mmd/ports.py:154-177 | After any run, with enough numbers left: some further draws take a workspace over five exactly when its ports plus the distinct requests it has between check and commit are more than five. |
| PortRace.OverlapBreaksLimit | control/mmd/ports.py:154-177 | From the empty table, for any workspace, a run whose overlapping requests end with six ports. |
| PortRace.LimitHoldsWithoutOverlap | control/mmd/ports.py:154-177 | In particular it holds in every run in which a workspace's own requests do not overlap. |
| Firewall.Nftables.SyncPortRules | control/provisioner/provisioner.py:344-400 | With one call at a time, both chains become exactly the given mappings, all or none: one bad mapping or a failed load leaves the old rules, and success is reported exactly when the new ones took effect. |
| RuleFile.OwnRulesTakeEffectIff | control/provisioner/provisioner.py:385-396 | With calls interleaving over the one rule file: a good call whose load takes effect is answered accordingly, but its own rules are the live ones exactly when the last write of any other call between its write and its load, if any, had the same rules. |
| RuleFile.BadMappingIsRefused | control/provisioner/provisioner.py:344-370 | A call with a bad mapping is answered with failure and leaves file and rules as they were. |
| Firewall.AddressIsSlot | control/mmd/service.py:282-284 | Two slots never have the same address. |
| Firewall.AddressSpelledOut | control/mmd/service.py:282-284 | The address is 10.42.0 and ten more than the slot. |
| Firewall.ExpandIsCovers | control/mmd/ports.py:58-60 | A row for both protocols stands for TCP and UDP, any other for its own. |
| Firewall.ValidMappingIff | control/provisioner/provisioner.py:344-368 | Which mappings the privileged side accepts: external ports of the range, internal ones from 1 to 65535, addresses on the bridge. |
| Firewall.RulesAreReservations | control/mmd/service.py:287-312 | A rule is in a sync's set exactly when some reservation that was not excluded covers its protocol and has its ports and address. |
| Firewall.SyncedRoutesToOwner | control/provisioner/provisioner.py:344-400 | After a successful full sync, a packet is forwarded exactly when a reservation has its port and covers its protocol, TCP by tcp or both and UDP by udp or both, and then to that reservation's owner and internal port. |
| Firewall.RoutedAddressHasOneOwner | control/mmd/service.py:282-284 | The address a packet is forwarded to belongs to one workspace. |
| Firewall.ValidRowsMakeAValidSync | control/provisioner/provisioner.py:344-400 | Whatever a sync leaves out, reservations in range on slots in range make mappings that the privileged side accepts. |
| Publishing.ControlPlane.SyncPublishedPorts | control/mmd/service.py:287-312 | The loop sends the join of ports and workspaces, both protocols expanded, less what it was told to leave out. |
| Publishing.ControlPlane.CreatePort | control/mmd/app.py:1417-1445 | Publishing: reserve, push, and on failure take the reservation back and push once more; it succeeds exactly when the row was reserved and the first push was. |
| Publishing.ControlPlane.DeletePort | control/mmd/app.py:1448-1467 | Unpublishing a customer's port: push without it, and its row goes only if that worked. |
| Publishing.ControlPlane.RemoveMachine | control/mmd/worker.py:1148-1167 | Deleting a machine: push without it, destroy it, then remove its rows; any failure leaves the rows. |
| Publishing.ControlPlane.CreateMachine | control/mmd/worker.py:1125-1145 | A new machine gets the smallest free slot and its two service ports, and everything is pushed. |
| Publishing.ControlPlane.EnsureServices | control/mmd/app.py:1483-1500 | Reading the addresses of a machine reserves the service ports it lacks and pushes; with both there it changes nothing; it returns what the table then has. |
| Publishing.AfterServicesIff | control/mmd/ports.py:195-214 | Reserving services goes on to a push exactly when both rows are there. |
| Publishing.EveryRunKeepsWf | control/mmd/app.py:1417-1467 | Over every interleaving of the steps of publishing, unpublishing, creating, deleting and refreshing, with deaths: ports distinct and in range, internal ports in range, every row of an existing machine, slots distinct. |
| Publishing.RemovalIsCoveredIff | control/mmd/app.py:1436-1467 | Removing rows, in a repair, an unpublish or a deletion, keeps every live rule owned exactly when none of these rows has a live rule. |
| Publishing.LoadIsCoveredIff | control/mmd/service.py:287-312 | A load that takes effect keeps every live rule owned exactly when the tables still have all that was read for it. |
| Publishing.EveryMomentIsCoveredIff | control/mmd/app.py:1417-1467 | Over every interleaving: every live rule belongs to an existing reservation at every moment exactly when every removal and every load meets its condition. |
| Publishing.PushInTheWindowIff | control/mmd/app.py:1436-1467 | A full push by another request between the push and the removal of a repair, an unpublish or a deletion leaves a rule without owner exactly when that push takes effect. |
| Publishing.PublishAloneIsCoveredIff | control/mmd/app.py:1431-1441 | A publish with nothing in between ends with every rule owned exactly when its reply was not lost or its repair takes effect. |
| Publishing.DeletionAloneIsCovered | control/mmd/app.py:1456-1467 | An unpublish or a deletion with nothing in between leaves every rule owned however its calls end. |
| Publishing.EverySerialRunIsCoveredIff | control/mmd/app.py:1417-1467 | Over every sequence of whole requests: every live rule is owned after each exactly when no publish loses both its reply and its repair. |
| Publishing.FullPushHeals | control/mmd/service.py:287-312 | From any rules at all, a full push that takes effect leaves exactly the owned ones. |
| Publishing.SlotsStayWithin | control/mmd/service.py:315-320 | Smallest-free allocation keeps slots as small as the largest number of machines there ever was. |
| Publishing.EveryReadingIsValid | control/provisioner/provisioner.py:344-400 | With never more than 245 machines, everything read after any run is accepted by the privileged side. |
| Publishing.PublishedPortsReachTheirOwner | control/mmd/service.py:282-320 | End to end, after every run with never more than 245 machines: a full push that takes effect forwards each port and protocol exactly when a reservation covers it, to its owner's address and internal port, and no other machine has that address. |
| Publishing.ForwardedGoesToAnOwner | control/provisioner/provisioner.py:344-400 | Whenever every rule is owned, what is forwarded goes to the owner of a reservation for it. |
| Bale.SpellingsAgree | control/mmd/bale.py:111-128 | A number is accepted exactly when its digits, less one access code, spell a subscriber with country code, trunk zero or bare, and all spellings are stored alike. |
| Bale.ProofIff | control/mmd/bale.py:161-211 | An update proves a link exactly when it has a chat not known to be shared and the sender's own card on which the digits spell a subscriber; the link is that subscriber with a trunk zero, the chat and the card's name. |
| Bale.DigitsOfParts | control/mmd/bale.py:111-128 | The digits of a text are its digit characters in order. |
| Bale.Bot.Relink | control/mmd/bale.py:161-211 | Links exactly when the update proves a link, and displaces exactly the rows with its number or chat. |
| Bale.Bot.Handle | control/mmd/bale.py:214-232 | An update changes the table only through the link it proves. |
| Bale.Bot.Poll | control/mmd/bale.py:235-256 | A batch is handled in order and acknowledged only when all of it was handled; a death before that leaves the offset. |
| Bale.LinksStayOneToOne | control/mmd/bale.py:161-211 | Over every run no two rows have the same number, and no two the same chat. |
| Bale.LinkIsTheLastWord | control/mmd/bale.py:161-211 | A link is in the table exactly when an update proves it and no later one proves a link with its number or chat, or it was there and none does. |
| Bale.ReplayIsHarmless | control/mmd/bale.py:235-256 | A batch cut short after any prefix and then handled whole gives, row for row, the table of handling it once. |
| Bale.CaughtUpMeansExactlyOnce | control/mmd/bale.py:235-256 | For any arrivals, batch sizes, deaths and retries: once nothing is pending, the table is that of handling every update exactly once. |
| SmsCodes.CodeTable.Throttle | control/mmd/smscode.py:58-73 | Refuses exactly when five or more codes are from the last hour, or one of them is younger than a minute. |
| SmsCodes.ThrottledSpelledOut | control/mmd/smscode.py:58-73 | Refuses for five codes in 3600 seconds, or else for one within 60, and for nothing else. |
| SmsCodes.CodeTable.Retire | control/mmd/smscode.py:82-85 | The loop uses up every live code of the key and touches no other row. |
| SmsCodes.CodeTable.Issue | control/mmd/smscode.py:76-90 | A refusal changes nothing; otherwise every live code of the key is used up and one fresh code added that expires after 180 seconds. |
| SmsCodes.CodeTable.Verify | control/mmd/smscode.py:93-129 | Judges a newest live code: right exactly when its hash is the guess's, it has not expired and it has fewer than five wrong guesses; counts a guess exactly when only the hash differs; uses the code up on success and changes nothing else. |
| SmsCodes.EveryInterleavingCounts | control/mmd/smscode.py:93-129 | Under every interleaving of requests each code's attempts are the wrong guesses made at it, at most five, and it admits at most one caller. |
| SmsCodes.EveryAnswerIsDeserved | control/mmd/smscode.py:93-129 | Under every interleaving each admitted guess had the hash of a code of its own key, within 180 seconds of its asking, and each counted one did not. |
| SmsCodes.DecisionSpelledOut | control/mmd/smscode.py:108-129 | A decision under the lock admits, counts or does neither, by hash, expiry and earlier guesses. |
| SmsCodes.LockPicksTheNewest | control/mmd/smscode.py:99-112 | Under its lock a verification picks a newest live code of its key, or none if none is live. |
| SmsCodes.VerificationKeepsItsMoment | control/mmd/smscode.py:93-129 | Waiting for the lock changes neither key, hash nor moment of a verification. |
| SmsCodes.SendLeavesOneLiveIff | control/mmd/smscode.py:76-90 | After an insert its key has one live code exactly when the request had read every code that was live at that moment. |
| SmsCodes.OneLiveIff | control/mmd/smscode.py:76-90 | Over every interleaving: no key ever has two live codes exactly when no insert finds a live code of its key that its request had not read. |
| SmsCodes.MinuteApartIff | control/mmd/smscode.py:58-90 | Over every interleaving: the codes of every key are always a minute apart exactly when no insert finds a code from the last minute that came after its request looked. |
| SmsCodes.HourLimitIff | control/mmd/smscode.py:58-90 | Over every interleaving: no hour ever sees more than five codes of a key exactly when no insert finds an hour around its own moment that has five already, one of them from after its request looked. |
| SmsCodes.RaceFillsTheHour | control/mmd/smscode.py:58-90 | From the empty table, for any key and any n, a run whose n requests leave n codes of one moment. |
| SmsCodes.UnracedRunsAreOrderly | control/mmd/smscode.py:58-90 | In particular, when no insert finds a code of its key that came after its request looked: codes a minute apart, five in any hour, and all but the newest used up. |
| SmsCodes.RaceLeavesTwoLiveCodes | control/mmd/smscode.py:76-90 | From the empty table, for any key, a run whose two requests leave two live codes of one moment. |
| Vhosts.Reconciler.Apply | host/mmd-vhosts.py:489-539 | The write, remove, test, restore and reload steps have the specified effect, and the files written or removed are exactly those that differ. |
| Vhosts.Reconciler.Rewrite | host/mmd-vhosts.py:493-511 | After both loops the directory is as wanted and the snapshot remembers exactly what differed. |
| Vhosts.Reconciler.Restore | host/mmd-vhosts.py:520-526 | Undoing the snapshot gives back the directory as it was. |
| Vhosts.PassDecidesTheDirectory | host/mmd-vhosts.py:489-539 | A refused test leaves the directory as it was; any other pass leaves exactly the wanted managed files; nobody else's file changes. |
| Vhosts.SecondPassWritesNothing | host/mmd-vhosts.py:489-539 | An immediate second pass writes nothing, or is refused again if the first was. |
| Vhosts.PublishedIsServedIff | host/mmd-vhosts.py:513-539 | With the unmanaged files loaded, links are published for a configuration the server runs exactly when this pass reloaded it or the server runs what the directory held. |
| Vhosts.PassLoadsFilesIff | host/mmd-vhosts.py:489-539 | For each outcome of a pass, exactly when the server runs what the directory holds afterwards. |
| Vhosts.RunServesWhatItPublishes | host/mmd-vhosts.py:489-539 | Over every run without a failed reload or a half-done pass that starts with the server running its directory, it goes on doing so, and every set of links published is served. |
| Vhosts.FailedReloadIsForgotten | host/mmd-vhosts.py:513-539 | After a failed reload the next pass publishes the links without reloading; if directory and server agreed before, they are not served. |
| Vhosts.EveryRunLeavesAGoodConfigurationIff | host/mmd-vhosts.py:489-539 | Over every run, passes dying anywhere: the directory passes the test at the end exactly when the last turn that wrote to it for good left one that does, and other files stay as they were. |
| Vhosts.EveryMomentIsGoodIff | host/mmd-vhosts.py:489-539 | From a good directory, it passes the test after every turn exactly when each pass that died left one that passes. |
| Vhosts.DeathBeforeTheTestIsForgottenIff | host/mmd-vhosts.py:493-516 | After a pass that died among its file operations, the next one publishes the links with no test and no reload exactly when every file was in place. |
| Vhosts.RestoringMayLeave | host/mmd-vhosts.py:520-526 | Wherever the restoring loop stops, each managed file is as it was or as wanted, and no other is touched. |
| Metrics.Tally.Add | control/mmd/metrics.py:69-79 | The loop over the edges counts one observation in every bucket whose edge it does not exceed. |
| Metrics.Registry.ObserveSeconds | control/mmd/metrics.py:69-79 | One observation changes the histogram of its series and nothing else. |
| Metrics.Registry.Increment | control/mmd/metrics.py:59-61 | One increment changes its counter and nothing else. |
| Metrics.Registry.TakeSnapshot | control/mmd/metrics.py:181-192 | The snapshot lists every series of each kind once, and no other. |
| Metrics.Registry.Render | control/mmd/metrics.py:111-152 | The merged figures, computed in place on copies, with nothing of the live registry modified. |
| Metrics.MergedIsPlus | control/mmd/metrics.py:128-148 | Folding a snapshot in, in whatever order it lists its series, adds counters and histograms series by series. |
| Metrics.RenderingIsOneRegistry | control/mmd/metrics.py:111-192 | The rendered counters and histograms are those of a single registry that recorded both event streams, in any interleaving. |
| Metrics.HistogramsAreExact | control/mmd/metrics.py:69-79 | Each bucket holds the number of observations up to its edge, the count all of them, and a series exists exactly when it was observed. |
| Metrics.FiguresAreSums | control/mmd/metrics.py:59-79 | A counter is the sum of its increments, a gauge what it was last set to, a histogram's sum that of its observations. |
| Metrics.RenderedBucketsAreCumulative | control/mmd/metrics.py:111-160 | In any rendering buckets do not decrease and stay within the count. |
| Router.App.Resolve | web/js/router.js:39-65 | One resolution up to its first await: counter, first matching route, unknown addresses, undecodable parameters. |
| Router.CurrentPathSpelledOut | web/js/router.js:35-37 | The current path is the address without the slashes at its end, or the root. |
| Router.StepGoesThere | web/js/router.js:29-65 | Where each step leaves the address. |
| Router.App.NavigateTo | web/js/router.js:29-33 | A navigation changes the address if it differs and resolves in either case. |
| Router.App.AfterGuard | web/js/router.js:47-49 | After the guard: an overtaken resolution ends, a redirect replaces the address, otherwise the view begins. |
| Router.App.AfterView | web/js/router.js:52-62 | After the view, painted or not: an overtaken one resolves the current address once more. |
| Router.App.AfterFailure | web/js/router.js:52-62 | After a view that threw: the handler paints if it is current, and otherwise the current address is resolved. |
| Router.StepKeepsInv | web/js/router.js:29-65 | Every step keeps: one current resolution at most, for the current address, and if it has painted the screen is right or an overtaken view is still at work. |
| Router.SettledScreenIsCurrent | web/js/router.js:29-65 | Over every run, when nothing is in flight the screen shows the current address, unless the newest resolution ended without a page. |
| Router.OnlyTheNewestIsLost | web/js/router.js:39-65 | That takes a path that does not decode, a guard that throws, a view that throws without a handler or a view that returns without painting, and only in the newest resolution. |
| SshKeys.Normalise | control/mmd/sshkeys.py:94-121 | The filter, the limit of ten, the parse and the removal of repeated bodies, with the first bad line deciding the error. |
| SshKeys.CheckAuthorizedKeys | control/provisioner/provisioner.py:451-470 | The privileged side's loop finds the first complaint, if any. |
| SshKeys.ParsedIsClean | control/mmd/sshkeys.py:49-86 | A line that parses has clean fields, an allowed type and a matching blob, and passes the other side's line check, for all the differences between the two patterns. |
| SshKeys.ParsesIff | control/mmd/sshkeys.py:49-86 | A line parses as a key exactly when it reads as its type, body and comment with white space around and between them, on one line of at most 8192 characters, and type, encoding, blob and comment are accepted. |
| SshKeys.LineErrorIff | control/mmd/sshkeys.py:49-86 | When a line is refused for its type, and that it is otherwise a bad key. |
| SshKeys.TextErrorIff | control/mmd/sshkeys.py:94-121 | When a text is refused for having no key or too many, and that otherwise its first bad line decides. |
| SshKeys.NamesIff | control/mmd/sshkeys.py:74-80 | The blob names a type exactly when it begins with four bytes of its length, most significant first, and its characters. |
| SshKeys.RelevantIff | control/mmd/sshkeys.py:94-98 | A line counts exactly when its first character that is not white space is not a number sign. |
| SshKeys.SplitRejoins | control/mmd/sshkeys.py:94-98 | The lines of a text, with their breaks between them, are the text; a carriage return and its line feed are one break. |
| SshKeys.CleanReparses | control/mmd/sshkeys.py:49-127 | Any clean key with an allowed type and a matching blob, printed, parses to the same type, body and comment. |
| SshKeys.PrintedKeysParseBack | control/mmd/sshkeys.py:94-127 | The printed file of one to ten such keys with distinct bodies normalises to that list. |
| SshKeys.AcceptedListsIff | control/mmd/sshkeys.py:94-127 | A list is the outcome of some text exactly when it is such a list, and then its printed file is such a text. |
| SshKeys.AcceptedTextPassesTheCheck | control/provisioner/provisioner.py:451-470 | Whatever text the control plane accepts, the privileged side accepts. |
| SshKeys.CheckPassesIff | control/provisioner/provisioner.py:451-470 | The privileged side passes a file exactly when one to ten lines count and each is plain. |
| SshKeys.LinePassesIff | control/provisioner/provisioner.py:458-470 | A line passes exactly when it is laid out from an allowed type, an encoded body and perhaps a comment of allowed characters. |
| SshKeys.PrintedKeysPassTheCheck | control/provisioner/provisioner.py:451-470 | So the printed file of an accepted list passes it. |
| SshKeys.CheckedLinesHaveNoOptions | control/provisioner/provisioner.py:451-470 | Every line that counts in a file that passes begins with an allowed type and white space, hence with no options. |
| Paths.Crumbs | web/js/paths.js:27-43 | The loop builds the trail of the normalised path's names, each linked to the path up to it. |
| Paths.EscapedReadsBack | web/js/paths.js:10-12 | An escaped text reads as the text. |
| Paths.EscapedIsPlain | web/js/paths.js:10-12 | An escaped text can neither open a tag nor end an attribute. |
| Paths.NormalizeTwice | web/js/paths.js:13-17 | Normalising is idempotent on every path, and leaves alone exactly the normal ones. |
| Paths.NormalizeKeepsParts | web/js/paths.js:13-17 | Normalising keeps the names of a path. |
| Paths.JoinAddsParts | web/js/paths.js:19-26 | Joining appends the child's names to the directory's. |
| Paths.JoinDoublesIff | web/js/paths.js:19-26 | A joined path has a doubled slash exactly when the child has one of its own or the directory ends in a line break and a slash. |
| Paths.TrailIsThePathIff | web/js/paths.js:27-46 | The trail without its tags is the escaped normalised path exactly when the path does not end in a line break and a slash; otherwise it lacks that slash. |

## Left out

- Incus, nft, ZFS, certbot, nginx, systemd, Telegram, Bale and OpenRouter transport, sockets and HTTP: each call is an outcome.
- Routing, cookies, pages, translations, charts, the terminal bridge, the file manager's own calls, MCP, backups and exports: they decide nothing modelled here.
- The hour price and the admission rule: arbitrary values per turn, so nothing here depends on them.
- Float rounding: reals stand for floats, and rounding is modelled only where the code calls `round`.
- HMAC, base64 decoding, word characters and digit characters: parameters of the functions that use them, so every result holds for any of them that meets the stated conditions.
- Exact time coverage of compute billing: settlement charges one hour per pass and jumps the cursor after downtime, so only exactly-once per key and idempotence are claimed.
- API writes inside a workspace's turn in a worker pass: no lock is taken there, and a turn is one step.
- The metering runs do not include deleting a workspace, which deletes its marks and detaches its ledger rows, nor erasing an account.
- The audit log, notifications and text messages that accompany state changes.
- Reset, factory reset, resize and creation as steps of a machine's run: their states occur in rows, but no step enters them.
- The rendered text of metrics: the merged figures are modelled, the exposition format is not.
- One histogram is one object with its buckets, sum and count, where the code keeps three dictionaries with the same keys.
- The time a contact was linked, which a replay refreshes, and answers sent to the chat.
- The nginx file bodies and certificates: the wanted set is given, with names that carry the prefix.
- `created_at` of a code is the moment its request passed the limiter; the database clock is not separate.
- Equally new codes may be verified in any order, as in the query; the sequential method picks one of them.
- Session and model names beyond 96 characters, which the code truncates.
- The customer's switch that removes a machine's deadline is not a step of the machine runs.
- Rows in Publishing are identified by their contents, where the code uses their ids; what else a request does to its database session between its own commits is not modelled.
- A write of the rule file is one step in RuleFile, so a load that meets a half-written file is not modelled; in Publishing the write and the load of one push are one step, so one push loading another's file is not part of its runs.
- A push reads the tables in one step and its rules are loaded in one step; the sixty-second limit of that call is one of its outcomes.
- PublishedPortsReachTheirOwner: covers at most 245 machines at a time, the slots whose addresses lie within one byte; EveryMomentIsCoveredIff and the others need no such bound.
- DiskOne: one machine of the pool guard's pass; DiskOnce is the pass in its own order, and the machine runs let it take any order.
- LimitHoldsWithoutOverlap: sufficient only; LimitHoldsIff is the exact condition.
- CompletedPowerOffIsFinal: runs up to the customer's next power-on; a reset, which ends the promise too, is not a step.
- GrowingSessionNeverFalls: needs one model, because a session's whole total goes to its last model.
- GrowingLogIsBilledOncePerMessage: one file; GrowingSessionIsBilledOncePerMessage covers any number.
- RenderingIsOneRegistry: gauges are claimed only when the other process's events come last, because the merge lets its gauges win whenever they were set.
- SyncPortRules: one call at a time; OwnRulesTakeEffectIff is the exact form for several.
- SettledScreenIsCurrent: assumes that the handler for unknown addresses redirects only to registered ones.
- CaughtUpMeansExactlyOnce: assumes that the messenger numbers its updates upwards and returns the pending ones in order.
