/** A workspace as two facts that can disagree: the database row and the real
    instance. Every function is one pass of the worker, or one power request, over
    one workspace, with the failures its outside calls can have. */
module Machines {
  import opened Common
  import opened Ledger

  datatype WsState =
    | Provisioning | Off | Starting | On | Stopping | Resetting
    | Archiving | Archived | Deleting | Deleted | Error

  /** The columns of the row that billing and power read. Instants are in seconds. */
  datatype Row = Row(
    user: int,
    state: WsState,
    desiredOn: bool,
    createdAt: Option<int>,
    periodStart: Option<int>,
    autoStopAt: Option<int>,
    purgeAfter: Option<int>)

  datatype Machine = Machine(row: Row, running: bool)

  /** How an outside call can end: it works, it is refused without effect, or it
      takes effect while the caller only sees an error. */
  datatype Call = Done | Refused | LostReply

  /** Where a process can die inside one workspace's turn. */
  datatype Crash = NoCrash | AfterCharge | AfterCommit

  /** What the outside world answers during one turn. `hourPrice`, `partPrice` and
      `gate` are the pricing module's answers for this workspace at this moment. */
  datatype Env = Env(
    hourPrice: int, partPrice: int, gate: int, admitted: bool, chosen: bool,
    reachable: bool, start: Call, stop: Call, archive: Call, destroy: Call, crash: Crash)

  datatype Config = Config(autoStopHours: nat, retentionDays: nat)

  const HOUR := 3600

  function HourFloor(t: int): int {
    t - t % HOUR
  }

  function Stopped(running: bool, call: Call): bool {
    if call == Refused then running else false
  }

  function Started(running: bool, call: Call): bool {
    if call == Refused then running else true
  }

  /** A turn's result. `died` says that the process crashed and the pass ended. */
  datatype Turn = Turn(machine: Machine, db: Db, died: bool)

  // --------------------------------------------------------------------- settlement

  function HourPosting(id: int, row: Row, period: int, price: int): Posting {
    Posting(row.user, Some(id), ChargeHour, -price, Some(period), None)
  }

  /** Where the row's unpaid time begins. */
  function CursorOf(row: Row, now: int): int {
    match row.periodStart
    case Some(t) => t
    case None => match row.createdAt case Some(t) => HourFloor(t) case None => HourFloor(now)
  }

  predicate Settles(row: Row, now: int) {
    row.state in {On, Off, Archived} && HourFloor(CursorOf(row, now)) < HourFloor(now)
  }

  function ChargeHourOf(id: int, row: Row, db: Db, now: int, price: int): Db {
    if price <= 0 then db
    else Post(db, HourPosting(id, row, HourFloor(CursorOf(row, now)), price)).0
  }

  /** Charge the hour under the cursor in one commit, move the cursor in a second,
      then apply the credit gate to a machine that is on. */
  function SettleTurn(id: int, m: Machine, db: Db, now: int, env: Env): Turn {
    if !Settles(m.row, now) then Turn(m, db, false)
    else
      var charged := ChargeHourOf(id, m.row, db, now, env.hourPrice);
      if env.crash == AfterCharge then Turn(m, charged, true)
      else
        var moved := m.(row := m.row.(periodStart := Some(HourFloor(now))));
        if env.crash == AfterCommit then Turn(moved, charged, true)
        else if m.row.state == On && Balance(charged, m.row.user) < env.gate then
          var running := Stopped(m.running, env.stop);
          if env.stop == Done
          then Turn(Machine(moved.row.(state := Off, desiredOn := false), running), charged, false)
          else Turn(moved.(running := running), charged, false)
        else Turn(moved, charged, false)
  }

  /** The part-hour running now, closed off. Under 1.8 seconds nothing is due, and
      from 0.999 of an hour it is posted as a whole hour. */
  function SettleElapsed(id: int, row: Row, db: Db, now: int, price: int): Db {
    if row.periodStart.None? then db
    else
      var elapsed := (now - row.periodStart.value) as real / HOUR as real;
      if elapsed <= 0.0005 || price <= 0 then db
      else
        var kind := if MinReal(elapsed, 1.0) >= 0.999 then ChargeHour else ChargePartial;
        Post(db, Posting(row.user, Some(id), kind, -price, row.periodStart, None)).0
  }

  // ------------------------------------------------------------- stops by the worker

  /** The end of a stop that worked: settle, then write the row. A crash can fall
      between the settlement's commit and the row's. */
  function FinishStop(id: int, m: Machine, db: Db, now: int, env: Env): Turn {
    var charged := SettleElapsed(id, m.row, db, now, env.partPrice);
    if env.crash != NoCrash then Turn(m.(running := false), charged, true)
    else
      Turn(Machine(m.row.(state := Off, desiredOn := false, periodStart := None, autoStopAt := None), false),
           charged, false)
  }

  function AutoStopTurn(id: int, m: Machine, db: Db, now: int, env: Env): Turn {
    if m.row.state != On || m.row.autoStopAt.None? || m.row.autoStopAt.value > now then Turn(m, db, false)
    else if env.stop != Done then Turn(m.(running := Stopped(m.running, env.stop)), db, false)
    else FinishStop(id, m, db, now, env)
  }

  /** The pool guard. `chosen` is its choice of the largest consumers while space is low. */
  function DiskTurn(id: int, m: Machine, db: Db, now: int, env: Env): Turn {
    if m.row.state != On || !env.chosen then Turn(m, db, false)
    else if env.stop != Done then Turn(m.(running := Stopped(m.running, env.stop)), db, false)
    else FinishStop(id, m, db, now, env)
  }

  function LifecycleTurn(m: Machine, db: Db, now: int, env: Env, config: Config): Turn {
    var due := m.row.state in {Off, On} && Balance(db, m.row.user) <= 0;
    var archiving := Machine(m.row.(state := Archiving), Stopped(m.running, env.archive));
    if due && env.crash != NoCrash then Turn(archiving, db, true)
    else
      var kept :=
        if !due then m
        else if env.archive == Done then
          Machine(m.row.(state := Archived, purgeAfter := Some(now + config.retentionDays * 24 * HOUR)), false)
        else
          Machine(m.row.(state := Off), Stopped(m.running, env.archive));
      if kept.row.state == Archived && kept.row.purgeAfter.Some? && now > kept.row.purgeAfter.value then
        var running := Stopped(kept.running, env.destroy);
        if env.destroy == Done
        then Turn(Machine(kept.row.(state := Deleted), running), db, false)
        else Turn(kept.(running := running), db, false)
      else Turn(kept, db, false)
  }

  // ------------------------------------------------------------------ reconciliation

  /** A row parked by a failed power change takes the state the instance has. */
  function Adopt(m: Machine, now: int): Machine {
    if m.row.state !in {Error, Starting, Stopping} then m
    else if m.running then
      m.(row := m.row.(state := On,
                       periodStart := if m.row.periodStart.None? then Some(now) else m.row.periodStart))
    else m.(row := m.row.(state := Off, periodStart := None))
  }

  /** Reconciliation stops what should not run, and starts or writes off what should.
      A crash falls between the call and its commit;
      an adoption is committed before either. */
  function ReconcileTurn(m: Machine, db: Db, now: int, env: Env, config: Config): Turn {
    if m.row.state !in {On, Off, Error, Starting, Stopping} || !env.reachable then Turn(m, db, false)
    else
      var seen := Adopt(m, now);
      if m.running && (seen.row.state == Off || !seen.row.desiredOn) then
        var running := Stopped(true, env.stop);
        if env.crash != NoCrash then Turn(seen.(running := running), db, true)
        else if env.stop == Done
        then Turn(Machine(seen.row.(state := Off, periodStart := None, autoStopAt := None), running), db, false)
        else Turn(seen.(running := running), db, false)
      else if !m.running && seen.row.state == On then
        if seen.row.desiredOn && Balance(db, m.row.user) >= env.gate && env.admitted then
          var running := Started(false, env.start);
          if env.crash != NoCrash then Turn(seen.(running := running), db, true)
          else if env.start == Done
          then Turn(Machine(seen.row.(autoStopAt := Some(now + config.autoStopHours * HOUR)), running), db, false)
          else Turn(Machine(seen.row.(state := Off), running), db, false)
        else if env.crash != NoCrash then Turn(seen, db, true)
        else Turn(seen.(row := seen.row.(state := Off)), db, false)
      else Turn(seen, db, false)
  }

  // ------------------------------------------------------------- the customer's switch

  datatype Reply = Ok | Conflict | NoCredit | NoCapacity | Failed

  /** Press "on". `patch` is the call that applies the size before starting. */
  function PowerOn(m: Machine, db: Db, now: int, env: Env, patch: Call, config: Config): (Machine, Reply) {
    if m.row.state == On then (m, Ok)
    else if m.row.state !in {Off, Error} then (m, Conflict)
    else if Balance(db, m.row.user) < env.gate then (m, NoCredit)
    else if !env.admitted then (m, NoCapacity)
    else if env.crash != NoCrash then
      (Machine(m.row.(state := Starting), if patch == Done then Started(m.running, env.start) else m.running), Failed)
    else if patch != Done then (m.(row := m.row.(state := Error)), Failed)
    else
      var running := Started(m.running, env.start);
      if env.start != Done then (Machine(m.row.(state := Error), running), Failed)
      else
        (Machine(m.row.(state := On, desiredOn := true, periodStart := Some(now),
                        autoStopAt := Some(now + config.autoStopHours * HOUR)), running), Ok)
  }

  /** Press "off". A row that is already off is answered without looking further. */
  function PowerOff(id: int, m: Machine, db: Db, now: int, env: Env): (Turn, Reply) {
    if m.row.state == Off then (Turn(m, db, false), Ok)
    else if env.crash == AfterCommit then
      (Turn(Machine(m.row.(state := Stopping), Stopped(m.running, env.stop)), db, true), Failed)
    else
      var running := Stopped(m.running, env.stop);
      if env.stop != Done then (Turn(Machine(m.row.(state := Error), running), db, false), Failed)
      else
        var charged := SettleElapsed(id, m.row, db, now, env.partPrice);
        if env.crash == AfterCharge then
          (Turn(Machine(m.row.(state := Stopping), running), charged, true), Failed)
        else
          (Turn(Machine(m.row.(state := Off, desiredOn := false, periodStart := None, autoStopAt := None), running),
                charged, false), Ok)
  }

  // ------------------------------------------------------------------ per-turn laws

  /** Only these turns belong to the worker. */
  datatype Pass = Settle | AutoStop | Disk | Lifecycle | Reconcile

  function TurnOf(pass: Pass, id: int, m: Machine, db: Db, now: int, env: Env, config: Config): Turn {
    match pass
    case Settle => SettleTurn(id, m, db, now, env)
    case AutoStop => AutoStopTurn(id, m, db, now, env)
    case Disk => DiskTurn(id, m, db, now, env)
    case Lifecycle => LifecycleTurn(m, db, now, env, config)
    case Reconcile => ReconcileTurn(m, db, now, env, config)
  }

  /** A row from which no worker pass can start an instance. */
  predicate Grounded(row: Row) {
    !row.desiredOn || row.state in {Off, Archiving, Archived, Deleted}
  }

  /** A machine that nobody but its customer will start: while it runs its row is
      grounded, and once it does not run its row does not ask for it. */
  predicate Calm(m: Machine) {
    if m.running then Grounded(m.row) else !(m.row.state == On && m.row.desiredOn)
  }

  /** No worker turn, whatever its calls and crashes, starts a calm machine or makes it
      one that could be started. */
  lemma CalmStays(pass: Pass, id: int, m: Machine, db: Db, now: int, env: Env, config: Config)
    requires Calm(m)
    ensures Calm(TurnOf(pass, id, m, db, now, env, config).machine)
    ensures TurnOf(pass, id, m, db, now, env, config).machine.running ==> m.running
  {
  }

  /** A power-off leaves a machine that is not calm exactly when the instance keeps
      running because the stop was refused, and its row asks for it. */
  lemma PowerOffIsCalmIff(id: int, m: Machine, db: Db, now: int, env: Env)
    ensures Calm(PowerOff(id, m, db, now, env).0.machine) <==>
      !(m.running && m.row.desiredOn && m.row.state != Off && env.stop == Refused)
    ensures PowerOff(id, m, db, now, env).0.machine.running <==>
      m.running && (m.row.state == Off || env.stop == Refused)
  {
  }

  /** The worker starts an instance only in reconciliation, for a row that is on and
      wanted on, with credit for the next hour and room on the host. */
  lemma WorkerStartsOnlyWanted(pass: Pass, id: int, m: Machine, db: Db, now: int, env: Env, config: Config)
    requires !m.running && TurnOf(pass, id, m, db, now, env, config).machine.running
    ensures pass == Reconcile && m.row.state == On && m.row.desiredOn
    ensures Balance(db, m.row.user) >= env.gate && env.admitted
  {
  }

  /** A power-off that answers "ok" leaves a grounded row; the instance is still
      running afterwards exactly when the row said off while the instance ran. */
  lemma PowerOffOk(id: int, m: Machine, db: Db, now: int, env: Env)
    requires PowerOff(id, m, db, now, env).1 == Ok
    ensures Grounded(PowerOff(id, m, db, now, env).0.machine.row)
    ensures PowerOff(id, m, db, now, env).0.machine.running <==> m.row.state == Off && m.running
  {
  }

  predicate Agrees(m: Machine) {
    && (m.row.state == On <==> m.running)
    && (m.row.state == On ==> m.row.desiredOn)
  }

  predicate Reconcilable(m: Machine) {
    m.row.state in {On, Off, Error, Starting, Stopping}
  }

  predicate CallsSucceed(env: Env) {
    env.reachable && env.start == Done && env.stop == Done && env.crash == NoCrash
  }

  /** One reconciliation whose calls succeed makes row and instance agree, from any
      mix of states; a second one changes nothing, whatever credit and room do. */
  lemma ReconcileConverges(m: Machine, db: Db, now: int, env: Env, config: Config,
                           later: Db, then': int, env': Env)
    requires Reconcilable(m) && CallsSucceed(env)
    ensures var r := ReconcileTurn(m, db, now, env, config).machine;
            && Agrees(r)
            && r.row.state in {On, Off}
            && ReconcileTurn(r, later, then', env', config) == Turn(r, later, false)
  {
  }

  /** A power-off that failed is forgotten by the next reconciliation whose calls
      succeed, the row being on again, exactly when the stop was refused while the
      instance ran and the row asked for it. */
  lemma ReconcileForgetsIff(id: int, m: Machine, db: Db, now: int, env: Env,
                            later: Db, then': int, env': Env, config: Config)
    requires PowerOff(id, m, db, now, env).1 == Failed && CallsSucceed(env')
    ensures var failed := PowerOff(id, m, db, now, env).0.machine;
            var after := ReconcileTurn(failed, later, then', env', config).machine;
            after.row.state == On <==> m.running && m.row.desiredOn && env.stop == Refused
  {
  }

  /** Reconciliation is needed: a zero balance while the archive call is refused
      leaves a running instance under a row that says off. */
  lemma RefusedArchiveLeavesItRunning(m: Machine, db: Db, now: int, env: Env, config: Config)
    requires m.row.state in {On, Off} && Balance(db, m.row.user) <= 0 && env.crash == NoCrash
    ensures var r := LifecycleTurn(m, db, now, env, config).machine;
            r.row.state == Off && r.running <==> m.running && env.archive == Refused
  {
  }

  /** A machine that is on has a moment at which it will be stopped. */
  predicate Armed(m: Machine) {
    m.row.state == On ==> m.row.autoStopAt.Some?
  }

  /** Reconciliation adopts a running instance whose row has no deadline, and keeps it. */
  predicate AdoptsUnarmed(pass: Pass, m: Machine, env: Env) {
    && pass == Reconcile && env.reachable
    && m.row.state in {Error, Starting, Stopping} && m.running && m.row.autoStopAt.None?
    && (m.row.desiredOn || env.stop != Done || env.crash != NoCrash)
  }

  /** A worker turn leaves an armed machine armed exactly when it does not adopt one that
      is running without a deadline. */
  lemma ArmedUnlessAdopted(pass: Pass, id: int, m: Machine, db: Db, now: int, env: Env, config: Config)
    requires Armed(m)
    ensures Armed(TurnOf(pass, id, m, db, now, env, config).machine) <==> !AdoptsUnarmed(pass, m, env)
  {
  }

  /** Every way into "on" but adoption arms the deadline afresh. */
  lemma StartsArm(m: Machine, db: Db, now: int, env: Env, patch: Call, config: Config)
    ensures m.row.state != On && PowerOn(m, db, now, env, patch, config).0.row.state == On ==>
      PowerOn(m, db, now, env, patch, config).0.row.autoStopAt == Some(now + config.autoStopHours * HOUR)
    ensures !m.running && m.row.state == On && ReconcileTurn(m, db, now, env, config).machine.row.state == On
            && env.reachable && env.crash == NoCrash ==>
      ReconcileTurn(m, db, now, env, config).machine.row.autoStopAt == Some(now + config.autoStopHours * HOUR)
  {
  }

  // ------------------------------------------------------------- who pays for a machine

  /** One row was added and its amount went to its user's balance alone. */
  predicate Posted(before: Db, after: Db, p: Posting) {
    && after.rows == before.rows + [p]
    && (forall u :: u in before.accounts.Keys + after.accounts.Keys ==>
          Balance(after, u) == Balance(before, u) + (if u == p.user then p.amount else 0))
    && Balance(after, p.user) == Balance(before, p.user) + p.amount
  }

  /** The machine was charged under this kind and period before. */
  predicate Charged(db: Db, id: int, kind: Kind, period: int) {
    exists r :: r in db.rows && r.workspace == Some(id) && r.kind == kind && r.period == Some(period)
  }

  lemma {:induction false} PostOrNot(db: Db, user: int, id: int, kind: Kind, amount: int, period: int)
    ensures var p := Posting(user, Some(id), kind, amount, Some(period), None);
            if Charged(db, id, kind, period) then Post(db, p).0 == db else Posted(db, Post(db, p).0, p)
  {
    RefusedIff(db, Posting(user, Some(id), kind, amount, Some(period), None));
  }

  /** What closing off a part-hour does to the tables: once more than 1.8 seconds have run
      and there is a price, the machine's owner pays it, as a part of an hour or, from
      3596.4 seconds, as an hour, unless it was paid before. */
  predicate PartHourBilled(before: Db, after: Db, id: int, row: Row, now: int, price: int) {
    if row.periodStart.None? || price <= 0 || (now - row.periodStart.value) as real <= 1.8 then after == before
    else
      var start := row.periodStart.value;
      var kind := if (now - start) as real >= 3596.4 then ChargeHour else ChargePartial;
      if Charged(before, id, kind, start) then after == before
      else Posted(before, after, Posting(row.user, Some(id), kind, -price, Some(start), None))
  }

  lemma {:induction false} ElapsedIsBilled(id: int, row: Row, db: Db, now: int, price: int)
    ensures PartHourBilled(db, SettleElapsed(id, row, db, now, price), id, row, now, price)
  {
    hide Posted, Charged;
    if row.periodStart.Some? {
      var start := row.periodStart.value;
      var seconds := (now - start) as real;
      assert seconds / HOUR as real <= 0.0005 <==> seconds <= 1.8;
      assert seconds / HOUR as real >= 0.999 <==> seconds >= 3596.4;
      PostOrNot(db, row.user, id, ChargeHour, -price, start);
      PostOrNot(db, row.user, id, ChargePartial, -price, start);
    }
  }

  /** Every way to stop a machine that works charges its owner for the part-hour: the
      customer's own switch, the deadline and the pool guard. No other turn of theirs moves
      money. */
  lemma {:induction false} EveryStopIsBilled(id: int, m: Machine, db: Db, now: int, env: Env)
    ensures var off := PowerOff(id, m, db, now, env).0.db;
            if m.row.state != Off && env.stop == Done && env.crash != AfterCommit
            then PartHourBilled(db, off, id, m.row, now, env.partPrice) else off == db
    ensures var stop := AutoStopTurn(id, m, db, now, env).db;
            if m.row.state == On && m.row.autoStopAt.Some? && m.row.autoStopAt.value <= now && env.stop == Done
            then PartHourBilled(db, stop, id, m.row, now, env.partPrice) else stop == db
    ensures var guard := DiskTurn(id, m, db, now, env).db;
            if m.row.state == On && env.chosen && env.stop == Done
            then PartHourBilled(db, guard, id, m.row, now, env.partPrice) else guard == db
  {
    hide PartHourBilled, SettleElapsed;
    ElapsedIsBilled(id, m.row, db, now, env.partPrice);
  }

  /** A deadline stops exactly the machines that are on when it has come; a stop that
      completed leaves the row off, not wanted, without period or deadline. */
  lemma {:induction false} DeadlineStopsIff(id: int, m: Machine, db: Db, now: int, env: Env)
    ensures var r := AutoStopTurn(id, m, db, now, env).machine;
            if m.row.state != On || m.row.autoStopAt.None? || m.row.autoStopAt.value > now then r == m
            else if env.stop == Done && env.crash == NoCrash
            then r == Machine(m.row.(state := Off, desiredOn := false, periodStart := None, autoStopAt := None), false)
            else r == Machine(m.row, m.running && env.stop == Refused)
  {
    hide SettleElapsed;
  }

  /** The whole hour that contains an instant begins here. */
  predicate HourOf(t: int, hour: int) {
    hour % 3600 == 0 && hour <= t < hour + 3600
  }

  /** Where a row's unpaid time begins: its open period, or else its creation. */
  predicate UnpaidSince(row: Row, t: int) {
    match row.periodStart
    case Some(start) => t == start
    case None => row.createdAt == Some(t)
  }

  lemma {:induction false} HourFloorIs(t: int, hour: int)
    requires HourOf(t, hour)
    ensures HourFloor(t) == hour
  {
    assert (t - hour) % 3600 == t % 3600;
  }

  /** A settlement charges the owner for the hour in which the unpaid time begins, once that
      hour is over, and moves the cursor to the hour of `now`. A machine that is on and
      whose owner has less left than the gate is then stopped. Nothing else changes. */
  lemma {:induction false} SettlementBillsTheHour(
    id: int, m: Machine, db: Db, now: int, env: Env, since: int, unpaid: int, current: int)
    requires UnpaidSince(m.row, since) && HourOf(since, unpaid) && HourOf(now, current)
    ensures var t := SettleTurn(id, m, db, now, env);
            if m.row.state !in {On, Off, Archived} || unpaid >= current then t == Turn(m, db, false)
            else
              && (if env.hourPrice <= 0 || Charged(db, id, ChargeHour, unpaid) then t.db == db
                  else Posted(db, t.db, Posting(m.row.user, Some(id), ChargeHour, -env.hourPrice, Some(unpaid), None)))
              && (t.died <==> env.crash != NoCrash)
              && t.machine ==
                (if env.crash == AfterCharge then m
                 else
                   var row := m.row.(periodStart := Some(current));
                   if env.crash == AfterCommit || m.row.state != On || Balance(t.db, m.row.user) >= env.gate
                   then Machine(row, m.running)
                   else if env.stop == Done then Machine(row.(state := Off, desiredOn := false), false)
                   else Machine(row, m.running && env.stop == Refused))
  {
    hide Posted, Charged, Post;
    HourFloorIs(since, unpaid);
    HourFloorIs(now, current);
    HourFloorIs(unpaid, unpaid);
    PostOrNot(db, m.row.user, id, ChargeHour, -env.hourPrice, unpaid);
  }

  /** A row that was never created or opened has nothing to settle. */
  lemma NothingUnpaid(id: int, m: Machine, db: Db, now: int, env: Env)
    requires m.row.periodStart.None? && m.row.createdAt.None?
    ensures SettleTurn(id, m, db, now, env) == Turn(m, db, false)
  {
  }

  /** How pressing "on" is answered, and what it leaves: success starts a new period and a
      new deadline, and needs credit up to the gate and room on the host. */
  lemma PowerOnSpelledOut(m: Machine, db: Db, now: int, env: Env, patch: Call, config: Config)
    ensures var (r, reply) := PowerOn(m, db, now, env, patch, config);
            match reply
            case Ok =>
              if m.row.state == On then r == m
              else
                && m.row.state in {Off, Error} && Balance(db, m.row.user) >= env.gate && env.admitted
                && patch == Done && env.start == Done && env.crash == NoCrash
                && r == Machine(m.row.(state := On, desiredOn := true, periodStart := Some(now),
                                       autoStopAt := Some(now + config.autoStopHours * 3600)), true)
            case Conflict => r == m && m.row.state !in {On, Off, Error}
            case NoCredit => r == m && m.row.state in {Off, Error} && Balance(db, m.row.user) < env.gate
            case NoCapacity =>
              r == m && m.row.state in {Off, Error} && Balance(db, m.row.user) >= env.gate && !env.admitted
            case Failed =>
              && m.row.state in {Off, Error} && Balance(db, m.row.user) >= env.gate && env.admitted
              && (patch != Done || env.start != Done || env.crash != NoCrash)
              && r.row == m.row.(state := if env.crash == NoCrash then Error else Starting)
              && (r.running <==> m.running || (patch == Done && env.start != Refused))
  {
  }

  /** How pressing "off" is answered, and what it leaves. */
  lemma PowerOffSpelledOut(id: int, m: Machine, db: Db, now: int, env: Env)
    ensures var (t, reply) := PowerOff(id, m, db, now, env);
            if m.row.state == Off then t == Turn(m, db, false) && reply == Ok
            else if env.stop == Done && env.crash == NoCrash then
              && reply == Ok && !t.died
              && t.machine == Machine(m.row.(state := Off, desiredOn := false, periodStart := None, autoStopAt := None), false)
            else
              && reply == Failed
              && (t.died <==> env.crash == AfterCommit || (env.crash == AfterCharge && env.stop == Done))
              && t.machine == Machine(m.row.(state := if t.died then Stopping else Error), m.running && env.stop == Refused)
  {
    hide SettleElapsed;
  }

  /** What the pool guard does to a machine that it chose, and that it is on. */
  lemma GuardStopsChosen(id: int, m: Machine, db: Db, now: int, env: Env)
    ensures var r := DiskTurn(id, m, db, now, env).machine;
            if m.row.state != On || !env.chosen then r == m
            else if env.stop == Done && env.crash == NoCrash
            then r == Machine(m.row.(state := Off, desiredOn := false, periodStart := None, autoStopAt := None), false)
            else r == Machine(m.row, m.running && env.stop == Refused)
  {
    hide SettleElapsed;
  }

  /** What reconciliation does, call by call. A parked row first takes the state of the
      instance, in the period that was open or else from now; then a running instance whose
      row is off or not wanted is stopped, and one that does not run under a row that is on
      is started if it is wanted, paid for and has room, and otherwise written off. */
  lemma ReconcileSpelledOut(m: Machine, db: Db, now: int, env: Env, config: Config)
    ensures var t := ReconcileTurn(m, db, now, env, config);
            var parked := m.row.state in {Error, Starting, Stopping};
            var seen := if !parked then m.row
                        else if m.running then m.row.(state := On, periodStart := Some(
                          if m.row.periodStart.Some? then m.row.periodStart.value else now))
                        else m.row.(state := Off, periodStart := None);
            var affordable := seen.desiredOn && Balance(db, m.row.user) >= env.gate && env.admitted;
            if !(parked || m.row.state in {On, Off}) || !env.reachable then t == Turn(m, db, false)
            else if m.running && (seen.state == Off || !seen.desiredOn) then
              && (t.machine.running <==> env.stop == Refused)
              && t.machine.row == (if env.stop == Done && env.crash == NoCrash
                                   then seen.(state := Off, periodStart := None, autoStopAt := None) else seen)
              && (t.died <==> env.crash != NoCrash)
            else if !m.running && seen.state == On then
              && (t.machine.running <==> affordable && env.start != Refused)
              && t.machine.row == (if env.crash != NoCrash then seen
                                   else if affordable && env.start == Done
                                   then seen.(autoStopAt := Some(now + config.autoStopHours * 3600))
                                   else seen.(state := Off))
              && (t.died <==> env.crash != NoCrash)
            else t == Turn(Machine(seen, m.running), db, false)
  {
  }

  /** Who is archived, and who is purged: an owner with nothing left, the machine on or off,
      and an archive whose retention, counted in days of 86400 seconds from its archiving,
      has passed. */
  lemma LifecycleSpelledOut(m: Machine, db: Db, now: int, env: Env, config: Config)
    ensures var r := LifecycleTurn(m, db, now, env, config).machine;
            var due := m.row.state in {On, Off} && Balance(db, m.row.user) <= 0;
            && (due && env.crash != NoCrash ==>
                  r.row == m.row.(state := Archiving) && (r.running <==> m.running && env.archive == Refused))
            && (due && env.crash == NoCrash && env.archive == Done ==>
                  && r.row == m.row.(state := Archived, purgeAfter := Some(now + config.retentionDays * 86400))
                  && !r.running)
            && (due && env.crash == NoCrash && env.archive != Done ==>
                  r.row == m.row.(state := Off) && (r.running <==> m.running && env.archive == Refused))
            && (!due && m.row.state == Archived && m.row.purgeAfter.Some? && now > m.row.purgeAfter.value ==>
                  && r.row == m.row.(state := if env.destroy == Done then Deleted else Archived)
                  && (r.running <==> m.running && env.destroy == Refused))
            && (!due && !(m.row.state == Archived && m.row.purgeAfter.Some? && now > m.row.purgeAfter.value) ==> r == m)
  {
  }
}
