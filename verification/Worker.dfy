/** The worker's passes over all workspaces, the customers' power requests and host
    reboots, interleaved in any order. One workspace's turn is one step. */
module Worker {
  import opened Common
  import opened Ledger
  import opened Machines

  datatype World = World(machines: seq<Machine>, db: Db)

  /** The first `n` workspaces have had their turn, or the process has died. */
  function Sweep(pass: Pass, w: World, n: nat, now: int, envs: seq<Env>, config: Config): (r: (World, bool))
    requires n <= |w.machines| == |envs|
    ensures |r.0.machines| == |w.machines|
    ensures forall i :: n <= i < |w.machines| ==> r.0.machines[i] == w.machines[i]
  {
    if n == 0 then (w, false)
    else
      var (before, died) := Sweep(pass, w, n - 1, now, envs, config);
      if died then (before, true)
      else
        var t := TurnOf(pass, n - 1, before.machines[n - 1], before.db, now, envs[n - 1], config);
        (World(before.machines[n - 1 := t.machine], t.db), t.died)
  }

  function PassOver(pass: Pass, w: World, now: int, envs: seq<Env>, config: Config): World
    requires |w.machines| == |envs|
  {
    Sweep(pass, w, |w.machines|, now, envs, config).0
  }

  /** All machines that are on, each once, those that use most space first. */
  ghost predicate LargestFirst(machines: seq<Machine>, used: seq<int>, order: seq<nat>)
    requires |used| == |machines|
  {
    && (forall i :: 0 <= i < |order| ==> order[i] < |machines|)
    && (forall id: nat :: id < |machines| ==> (id in order <==> machines[id].row.state == On))
    && (forall i, j :: 0 <= i < j < |order| ==> order[i] != order[j] && used[order[i]] >= used[order[j]])
  }

  /** The pool guard: while free space is under the floor, stop the next machine of the
      order. `report(k)` is what the pool says after the stop of the k-th machine from the
      end; after a stop that failed the last report stands. */
  function Guard(w: World, order: seq<nat>, free: real, floor: real, now: int, envs: seq<Env>, report: nat -> real): World
    requires |envs| == |w.machines|
    requires forall i :: 0 <= i < |order| ==> order[i] < |w.machines|
    decreases |order|
  {
    if order == [] || free >= floor then w
    else
      var id := order[0];
      var t := DiskTurn(id, w.machines[id], w.db, now, envs[id].(chosen := true));
      var next := World(w.machines[id := t.machine], t.db);
      if t.died then next
      else
        var left := if w.machines[id].row.state == On && envs[id].stop == Done then report(|order|) else free;
        Guard(next, order[1..], left, floor, now, envs, report)
  }

  class Host {
    var machines: seq<Machine>
    var db: Db
    const config: Config

    ghost function Now(): World
      reads this
    {
      World(machines, db)
    }

    constructor (machines: seq<Machine>, db: Db, config: Config)
      ensures Now() == World(machines, db) && this.config == config
    {
      this.machines, this.db, this.config := machines, db, config;
    }

    /** Nothing but workspace `id` and the tables has changed, and as its turn says. */
    twostate predicate TookTurn(id: int, t: Turn, died: bool)
      requires 0 <= id < |old(machines)|
      reads this
    {
      machines == old(machines)[id := t.machine] && db == t.db && died == t.died
    }

    /** One workspace at an hour boundary: two commits, then the credit gate. */
    method SettleOne(id: int, now: int, env: Env) returns (died: bool)
      requires 0 <= id < |machines|
      modifies this
      ensures TookTurn(id, SettleTurn(id, old(machines)[id], old(db), now, env), died)
    {
      hide Post, CursorOf;
      died := false;
      var row := machines[id].row;
      if row.state in {On, Off, Archived} && HourFloor(CursorOf(row, now)) < HourFloor(now) {
        if env.hourPrice > 0 {
          var (after, _) := Post(db, HourPosting(id, row, HourFloor(CursorOf(row, now)), env.hourPrice));
          db := after;
        }
        if env.crash == AfterCharge {
          return true;
        }
        machines := machines[id := machines[id].(row := row.(periodStart := Some(HourFloor(now))))];
        if env.crash == AfterCommit {
          return true;
        }
        if row.state == On && Balance(db, row.user) < env.gate {
          var running := Stopped(machines[id].running, env.stop);
          if env.stop == Done {
            machines := machines[id := Machine(machines[id].row.(state := Off, desiredOn := false), running)];
          } else {
            machines := machines[id := machines[id].(running := running)];
          }
        }
      }
    }

    /** One machine at the end of its run: stop, settle the part-hour, write the row. */
    method AutoStopOne(id: int, now: int, env: Env) returns (died: bool)
      requires 0 <= id < |machines|
      modifies this
      ensures TookTurn(id, AutoStopTurn(id, old(machines)[id], old(db), now, env), died)
    {
      hide SettleElapsed;
      died := false;
      var row := machines[id].row;
      if row.state == On && row.autoStopAt.Some? && row.autoStopAt.value <= now {
        machines := machines[id := machines[id].(running := Stopped(machines[id].running, env.stop))];
        if env.stop == Done {
          db := SettleElapsed(id, row, db, now, env.partPrice);
          if env.crash != NoCrash {
            return true;
          }
          machines := machines[id := machines[id].(
            row := row.(state := Off, desiredOn := false, periodStart := None, autoStopAt := None))];
        }
      }
    }

    /** One machine that the pool guard has chosen to stop, or has not. */
    method DiskOne(id: int, now: int, env: Env) returns (died: bool)
      requires 0 <= id < |machines|
      modifies this
      ensures TookTurn(id, DiskTurn(id, old(machines)[id], old(db), now, env), died)
    {
      hide SettleElapsed;
      died := false;
      var row := machines[id].row;
      if row.state == On && env.chosen {
        machines := machines[id := machines[id].(running := Stopped(machines[id].running, env.stop))];
        if env.stop == Done {
          db := SettleElapsed(id, row, db, now, env.partPrice);
          if env.crash != NoCrash {
            return true;
          }
          machines := machines[id := machines[id].(
            row := row.(state := Off, desiredOn := false, periodStart := None, autoStopAt := None))];
        }
      }
    }

    /** One workspace whose row and instance may disagree. */
    method ReconcileOne(id: int, now: int, env: Env) returns (died: bool)
      requires 0 <= id < |machines|
      modifies this`machines
      ensures TookTurn(id, ReconcileTurn(old(machines)[id], db, now, env, config), died)
    {
      died := false;
      var m := machines[id];
      if m.row.state in {On, Off, Error, Starting, Stopping} && env.reachable {
        var row, running := m.row, m.running;
        if row.state in {Error, Starting, Stopping} {
          row := row.(state := if running then On else Off);
          if running && row.periodStart.None? {
            row := row.(periodStart := Some(now));
          }
          if !running {
            row := row.(periodStart := None);
          }
        }
        // An adoption is committed before anything else happens.
        machines := machines[id := Machine(row, running)];
        if running && (row.state == Off || !row.desiredOn) {
          running := Stopped(running, env.stop);
          if env.crash != NoCrash {
            machines := machines[id := Machine(row, running)];
            return true;
          }
          if env.stop == Done {
            row := row.(state := Off, periodStart := None, autoStopAt := None);
          }
        } else if !running && row.state == On {
          if row.desiredOn && Balance(db, row.user) >= env.gate && env.admitted {
            running := Started(running, env.start);
            if env.crash != NoCrash {
              machines := machines[id := Machine(row, running)];
              return true;
            }
            if env.start == Done {
              row := row.(autoStopAt := Some(now + config.autoStopHours * HOUR));
            } else {
              row := row.(state := Off);
            }
          } else {
            if env.crash != NoCrash {
              return true;
            }
            row := row.(state := Off);
          }
        }
        machines := machines[id := Machine(row, running)];
      }
    }

    /** One workspace whose account may be empty, or whose archive may be due for purge. */
    method LifecycleOne(id: int, now: int, env: Env) returns (died: bool)
      requires 0 <= id < |machines|
      modifies this`machines
      ensures TookTurn(id, LifecycleTurn(old(machines)[id], db, now, env, config), died)
    {
      died := false;
      var row, running := machines[id].row, machines[id].running;
      if row.state in {Off, On} && Balance(db, row.user) <= 0 {
        row := row.(state := Archiving);
        machines := machines[id := Machine(row, running)];
        running := Stopped(running, env.archive);
        if env.crash != NoCrash {
          machines := machines[id := Machine(row, running)];
          return true;
        }
        if env.archive == Done {
          row := row.(state := Archived, purgeAfter := Some(now + config.retentionDays * 24 * HOUR));
        } else {
          row := row.(state := Off);
        }
      }
      if row.state == Archived && row.purgeAfter.Some? && now > row.purgeAfter.value {
        running := Stopped(running, env.destroy);
        if env.destroy == Done {
          row := row.(state := Deleted);
        }
      }
      machines := machines[id := Machine(row, running)];
    }

    /** The customer presses "on". */
    method PressedOn(id: int, now: int, env: Env, patch: Call) returns (reply: Reply)
      requires 0 <= id < |machines|
      modifies this`machines
      ensures var (m, answer) := PowerOn(old(machines)[id], db, now, env, patch, config);
              machines == old(machines)[id := m] && reply == answer
    {
      var m := machines[id];
      if m.row.state == On {
        return Ok;
      }
      if m.row.state != Off && m.row.state != Error {
        return Conflict;
      }
      if Balance(db, m.row.user) < env.gate {
        return NoCredit;
      }
      if !env.admitted {
        return NoCapacity;
      }
      machines := machines[id := m.(row := m.row.(state := Starting))];
      var running := if patch == Done then Started(m.running, env.start) else m.running;
      if env.crash != NoCrash {
        machines := machines[id := Machine(m.row.(state := Starting), running)];
        return Failed;
      }
      if patch != Done || env.start != Done {
        machines := machines[id := Machine(m.row.(state := Error), running)];
        return Failed;
      }
      machines := machines[id := Machine(
        m.row.(state := On, desiredOn := true, periodStart := Some(now),
               autoStopAt := Some(now + config.autoStopHours * HOUR)), running)];
      reply := Ok;
    }

    /** The customer presses "off". */
    method PressedOff(id: int, now: int, env: Env) returns (reply: Reply, died: bool)
      requires 0 <= id < |machines|
      modifies this
      ensures TookTurn(id, PowerOff(id, old(machines)[id], old(db), now, env).0, died)
      ensures reply == PowerOff(id, old(machines)[id], old(db), now, env).1
    {
      hide SettleElapsed;
      var row := machines[id].row;
      if row.state == Off {
        return Ok, false;
      }
      machines := machines[id := Machine(row.(state := Stopping), Stopped(machines[id].running, env.stop))];
      if env.crash == AfterCommit {
        return Failed, true;
      }
      if env.stop != Done {
        machines := machines[id := machines[id].(row := row.(state := Error))];
        return Failed, false;
      }
      db := SettleElapsed(id, row, db, now, env.partPrice);
      if env.crash == AfterCharge {
        return Failed, true;
      }
      machines := machines[id := machines[id].(
        row := row.(state := Off, desiredOn := false, periodStart := None, autoStopAt := None))];
      return Ok, false;
    }

    /** Charge every completed hour, then stop what cannot afford the next. */
    method SettleOnce(now: int, envs: seq<Env>)
      requires |envs| == |machines|
      modifies this
      ensures Now() == PassOver(Settle, old(Now()), now, envs, config)
    {
      hide SettleTurn;
      ghost var was := Now();
      for i := 0 to |machines|
        invariant |machines| == |envs| == |was.machines|
        invariant (Now(), false) == Sweep(Settle, was, i, now, envs, config)
      {
        var died := SettleOne(i, now, envs[i]);
        if died {
          SweepStops(Settle, was, i + 1, now, envs, config);
          return;
        }
      }
    }

    /** Stop every machine whose deadline has passed. */
    method AutoStopOnce(now: int, envs: seq<Env>)
      requires |envs| == |machines|
      modifies this
      ensures Now() == PassOver(AutoStop, old(Now()), now, envs, config)
    {
      hide AutoStopTurn;
      ghost var was := Now();
      for i := 0 to |machines|
        invariant |machines| == |envs| == |was.machines|
        invariant (Now(), false) == Sweep(AutoStop, was, i, now, envs, config)
      {
        var died := AutoStopOne(i, now, envs[i]);
        if died {
          SweepStops(AutoStop, was, i + 1, now, envs, config);
          return;
        }
      }
    }

    /** The machines that are on, sorted by what they use. */
    method RunningBySize(used: seq<int>) returns (order: seq<nat>)
      requires |used| == |machines|
      ensures LargestFirst(machines, used, order)
    {
      var todo := set id: nat | id < |machines| && machines[id].row.state == On;
      ghost var all := todo;
      order := [];
      while todo != {}
        invariant todo <= all && forall id :: id in all <==> id in order || id in todo
        invariant forall i :: 0 <= i < |order| ==> order[i] in all && order[i] !in todo
        invariant forall i, j :: 0 <= i < j < |order| ==> order[i] != order[j] && used[order[i]] >= used[order[j]]
        invariant forall i, id :: 0 <= i < |order| && id in todo ==> used[order[i]] >= used[id]
        decreases |todo|
      {
        var id := Largest(todo, used);
        todo := todo - {id};
        order := order + [id];
      }
    }

    /** Stop the largest machines until the pool has room again. */
    method DiskOnce(used: seq<int>, free: real, floor: real, now: int, envs: seq<Env>, report: nat -> real)
      returns (ghost order: seq<nat>)
      requires |used| == |envs| == |machines|
      modifies this
      ensures LargestFirst(old(machines), used, order)
      ensures Now() == Guard(old(Now()), order, free, floor, now, envs, report)
    {
      hide DiskTurn;
      var running := RunningBySize(used);
      order := running;
      var left := free;
      ghost var was := Now();
      for i := 0 to |running|
        invariant |machines| == |was.machines|
        invariant Guard(was, order, free, floor, now, envs, report)
               == Guard(Now(), order[i..], left, floor, now, envs, report)
      {
        assert order[i..][1..] == order[i + 1..];
        if left >= floor {
          return;
        }
        var on := machines[running[i]].row.state == On;
        var died := DiskOne(running[i], now, envs[running[i]].(chosen := true));
        if died {
          return;
        }
        if on && envs[running[i]].stop == Done {
          left := report(|running| - i);
        }
      }
    }

    /** Archive what has no credit, and purge what has been archived long enough. */
    method LifecycleOnce(now: int, envs: seq<Env>)
      requires |envs| == |machines|
      modifies this`machines
      ensures Now() == PassOver(Lifecycle, old(Now()), now, envs, config)
    {
      hide LifecycleTurn;
      ghost var was := Now();
      for i := 0 to |machines|
        invariant |machines| == |envs| == |was.machines| && db == was.db
        invariant (Now(), false) == Sweep(Lifecycle, was, i, now, envs, config)
      {
        LifecycleKeepsMoney(machines[i], db, now, envs[i], config);
        var died := LifecycleOne(i, now, envs[i]);
        if died {
          SweepStops(Lifecycle, was, i + 1, now, envs, config);
          return;
        }
      }
    }

    /** Make the database and the instances agree about what is running. */
    method ReconcileOnce(now: int, envs: seq<Env>)
      requires |envs| == |machines|
      modifies this`machines
      ensures Now() == PassOver(Reconcile, old(Now()), now, envs, config)
    {
      hide ReconcileTurn;
      ghost var was := Now();
      for i := 0 to |machines|
        invariant |machines| == |envs| == |was.machines| && db == was.db
        invariant (Now(), false) == Sweep(Reconcile, was, i, now, envs, config)
      {
        ReconcileKeepsMoney(machines[i], db, now, envs[i], config);
        var died := ReconcileOne(i, now, envs[i]);
        if died {
          SweepStops(Reconcile, was, i + 1, now, envs, config);
          return;
        }
      }
    }
  }

  method Largest(ids: set<nat>, used: seq<int>) returns (best: nat)
    requires ids != {} && forall id :: id in ids ==> id < |used|
    ensures best in ids && forall id :: id in ids ==> used[best] >= used[id]
  {
    best :| best in ids;
    var todo := ids - {best};
    while todo != {}
      invariant best in ids && todo <= ids
      invariant forall id :: id in ids - todo ==> used[best] >= used[id]
      decreases |todo|
    {
      var id :| id in todo;
      todo := todo - {id};
      if used[id] > used[best] {
        best := id;
      }
    }
  }

  /** With room in the pool nothing is stopped. Without it the first machine of the order is,
      if its stop works, and that of the others does not change it. */
  lemma {:induction false} GuardSpelledOut(
    w: World, order: seq<nat>, free: real, floor: real, now: int, envs: seq<Env>, report: nat -> real)
    requires |envs| == |w.machines|
    requires forall i :: 0 <= i < |order| ==> order[i] < |w.machines| && w.machines[order[i]].row.state == On
    requires forall i, j :: 0 <= i < j < |order| ==> order[i] != order[j]
    ensures free >= floor ==> Guard(w, order, free, floor, now, envs, report) == w
    ensures free < floor && order != [] && envs[order[0]].stop == Done && envs[order[0]].crash == NoCrash ==>
      var r := Guard(w, order, free, floor, now, envs, report);
      |r.machines| == |w.machines| && !r.machines[order[0]].running && r.machines[order[0]].row.state == Off
  {
    hide SettleElapsed;
    if free < floor && order != [] && envs[order[0]].stop == Done && envs[order[0]].crash == NoCrash {
      var id := order[0];
      var t := DiskTurn(id, w.machines[id], w.db, now, envs[id].(chosen := true));
      var next := World(w.machines[id := t.machine], t.db);
      assert id !in order[1..];
      GuardKeepsOthers(next, order[1..], report(|order|), floor, now, envs, report, id);
    }
  }

  lemma {:induction false} GuardKeepsOthers(
    w: World, order: seq<nat>, free: real, floor: real, now: int, envs: seq<Env>, report: nat -> real, id: nat)
    requires |envs| == |w.machines| && id < |w.machines| && id !in order
    requires forall i :: 0 <= i < |order| ==> order[i] < |w.machines|
    ensures var r := Guard(w, order, free, floor, now, envs, report);
            |r.machines| == |w.machines| && r.machines[id] == w.machines[id]
    decreases |order|
  {
    hide DiskTurn;
    if order != [] && free < floor {
      var first := order[0];
      var t := DiskTurn(first, w.machines[first], w.db, now, envs[first].(chosen := true));
      var next := World(w.machines[first := t.machine], t.db);
      assert id !in order[1..];
      var left := if w.machines[first].row.state == On && envs[first].stop == Done then report(|order|) else free;
      GuardKeepsOthers(next, order[1..], left, floor, now, envs, report, id);
    }
  }

  lemma LifecycleKeepsMoney(m: Machine, db: Db, now: int, env: Env, config: Config)
    ensures LifecycleTurn(m, db, now, env, config).db == db
  {
  }

  lemma ReconcileKeepsMoney(m: Machine, db: Db, now: int, env: Env, config: Config)
    ensures ReconcileTurn(m, db, now, env, config).db == db
  {
  }

  /** A sweep in which a workspace's turn died goes no further. */
  lemma {:induction false} SweepStops(pass: Pass, w: World, n: nat, now: int, envs: seq<Env>, config: Config)
    requires n <= |w.machines| == |envs|
    requires Sweep(pass, w, n, now, envs, config).1
    ensures PassOver(pass, w, now, envs, config) == Sweep(pass, w, n, now, envs, config).0
  {
    SweepStopsAt(pass, w, n, |w.machines|, now, envs, config);
  }

  lemma {:induction false} SweepStopsAt(
    pass: Pass, w: World, n: nat, k: nat, now: int, envs: seq<Env>, config: Config)
    requires n <= k <= |w.machines| == |envs|
    requires Sweep(pass, w, n, now, envs, config).1
    ensures Sweep(pass, w, k, now, envs, config) == Sweep(pass, w, n, now, envs, config)
  {
    hide TurnOf;
    if n < k {
      SweepStopsAt(pass, w, n, k - 1, now, envs, config);
    }
  }

  // ---------------------------------------------------------------------- any run

  datatype Event =
    | WorkerPass(pass: Pass, now: int, envs: seq<Env>)
    | Reboot
    | PressOn(id: int, now: int, env: Env, patch: Call)
    | PressOff(id: int, now: int, env: Env)
    | Elsewhere(posting: Posting)

  predicate Wellformed(w: World, e: Event) {
    match e
    case WorkerPass(_, _, envs) => |envs| == |w.machines|
    case PressOn(id, _, _, _) => 0 <= id < |w.machines|
    case PressOff(id, _, _) => 0 <= id < |w.machines|
    case _ => true
  }

  function Step(w: World, e: Event, config: Config): World
    requires Wellformed(w, e)
  {
    match e
    case WorkerPass(pass, now, envs) => PassOver(pass, w, now, envs, config)
    // Nothing comes back on its own after a reboot.
    case Reboot => w.(machines := seq(|w.machines|, i requires 0 <= i < |w.machines| => w.machines[i].(running := false)))
    case PressOn(id, now, env, patch) =>
      w.(machines := w.machines[id := PowerOn(w.machines[id], w.db, now, env, patch, config).0])
    case PressOff(id, now, env) =>
      var (t, _) := PowerOff(id, w.machines[id], w.db, now, env);
      World(w.machines[id := t.machine], t.db)
    case Elsewhere(p) => w.(db := Post(w.db, p).0)
  }

  function Run(w: World, events: seq<Event>, config: Config): World
    decreases |events|
  {
    if events == [] then w
    else
      var before := Run(w, events[..|events| - 1], config);
      var e := events[|events| - 1];
      if Wellformed(before, e) then Step(before, e, config) else before
  }

  /** Everything the customer of `id` did not ask for. */
  predicate NotPressedOn(e: Event, id: int) {
    e.PressOn? ==> e.id != id
  }

  // ------------------------------------------------------------- power-off is final

  lemma {:induction false} SweepKeepsCalm(
    pass: Pass, w: World, n: nat, now: int, envs: seq<Env>, config: Config, id: int)
    requires n <= |w.machines| == |envs| && 0 <= id < |w.machines|
    requires Calm(w.machines[id])
    ensures var r := Sweep(pass, w, n, now, envs, config).0;
            Calm(r.machines[id]) && (r.machines[id].running ==> w.machines[id].running)
  {
    hide TurnOf, Calm;
    if n > 0 {
      SweepKeepsCalm(pass, w, n - 1, now, envs, config, id);
      var (before, died) := Sweep(pass, w, n - 1, now, envs, config);
      if id == n - 1 {
        CalmStays(pass, id, before.machines[id], before.db, now, envs[id], config);
      }
    }
  }

  /** A power-off request for a running machine that wants to run, whose stop is refused. */
  predicate RefusedOff(w: World, e: Event, id: int) {
    && 0 <= id < |w.machines|
    && e.PressOff? && e.id == id
    && w.machines[id].running && w.machines[id].row.desiredOn && w.machines[id].row.state != Off
    && e.env.stop == Refused
  }

  lemma {:induction false} StepKeepsCalm(w: World, e: Event, config: Config, id: int)
    requires Wellformed(w, e) && NotPressedOn(e, id) && 0 <= id < |w.machines|
    requires Calm(w.machines[id]) && !RefusedOff(w, e, id)
    ensures |Step(w, e, config).machines| == |w.machines|
    ensures Calm(Step(w, e, config).machines[id])
    ensures Step(w, e, config).machines[id].running ==> w.machines[id].running
  {
    match e
    case WorkerPass(pass, now, envs) => SweepKeepsCalm(pass, w, |w.machines|, now, envs, config, id);
    case PressOff(other, now, env) =>
      if other == id {
        PowerOffIsCalmIff(id, w.machines[id], w.db, now, env);
      }
    case _ =>
  }

  /** From a calm machine, through any run of worker passes, reboots, crashes, failing
      calls, money moving, requests for other machines and power-off requests for this
      one, the machine is never started. Only a refused stop of an instance that still
      runs can end that. */
  lemma {:induction false} CalmIsFinal(w: World, events: seq<Event>, config: Config, id: int)
    requires 0 <= id < |w.machines| && Calm(w.machines[id])
    requires forall i :: 0 <= i < |events| ==> NotPressedOn(events[i], id)
    requires forall i :: 0 <= i < |events| ==> !RefusedOff(Run(w, events[..i], config), events[i], id)
    ensures var r := Run(w, events, config);
            && |r.machines| == |w.machines|
            && Calm(r.machines[id])
            && (r.machines[id].running ==> w.machines[id].running)
  {
    hide Calm, Step, RefusedOff;
    if events != [] {
      var front, e := events[..|events| - 1], events[|events| - 1];
      assert forall i :: 0 <= i < |front| ==> front[..i] == events[..i] && front[i] == events[i];
      CalmIsFinal(w, front, config, id);
      assert events[..|front|] == front;
      var before := Run(w, front, config);
      if Wellformed(before, e) {
        StepKeepsCalm(before, e, config, id);
      }
    }
  }

  lemma {:induction false} StoppedStaysStopped(w: World, events: seq<Event>, config: Config, id: int)
    requires 0 <= id < |w.machines| && Calm(w.machines[id]) && !w.machines[id].running
    requires forall i :: 0 <= i < |events| ==> NotPressedOn(events[i], id)
    ensures var r := Run(w, events, config);
            |r.machines| == |w.machines| && Calm(r.machines[id]) && !r.machines[id].running
  {
    hide Calm, Step;
    if events != [] {
      var front, e := events[..|events| - 1], events[|events| - 1];
      StoppedStaysStopped(w, front, config, id);
      var before := Run(w, front, config);
      if Wellformed(before, e) {
        StepKeepsCalm(before, e, config, id);
      }
    }
  }

  /** A power-off that answered "ok" is final: the machine runs at no later moment before
      its customer's next power-on, whatever else is pressed, fails, crashes or reboots.
      The one exception is an instance that already ran under a row that said off. */
  lemma {:induction false} CompletedPowerOffIsFinal(
    w: World, id: int, now: int, env: Env, events: seq<Event>, config: Config)
    requires 0 <= id < |w.machines|
    requires PowerOff(id, w.machines[id], w.db, now, env).1 == Ok
    requires forall i :: 0 <= i < |events| ==> NotPressedOn(events[i], id)
    ensures var off := Step(w, PressOff(id, now, env), config);
            var r := Run(off, events, config);
            && |r.machines| == |w.machines|
            && (off.machines[id].running <==> w.machines[id].row.state == Off && w.machines[id].running)
            && (!(w.machines[id].row.state == Off && w.machines[id].running) ==> !r.machines[id].running)
  {
    PowerOffOk(id, w.machines[id], w.db, now, env);
    var off := Step(w, PressOff(id, now, env), config);
    if !off.machines[id].running {
      StoppedStaysStopped(off, events, config, id);
    } else {
      RunKeepsLength(off, events, config);
    }
  }

  lemma {:induction false} RunKeepsLength(w: World, events: seq<Event>, config: Config)
    ensures |Run(w, events, config).machines| == |w.machines|
  {
    if events != [] {
      RunKeepsLength(w, events[..|events| - 1], config);
    }
  }

  /** In this run the machine stands still at some moment and runs at the end. */
  predicate Restarts(w: World, events: seq<Event>, config: Config, id: int)
    requires 0 <= id < |w.machines|
  {
    RunKeepsLength(w, events, config);
    && Run(w, events, config).machines[id].running
    && exists k :: 0 <= k < |events| && StandsStill(w, events[..k], config, id)
  }

  predicate StandsStill(w: World, events: seq<Event>, config: Config, id: int)
    requires 0 <= id < |w.machines|
  {
    RunKeepsLength(w, events, config);
    !Run(w, events, config).machines[id].running
  }

  /** Nobody presses either switch of this machine. */
  predicate Untouched(events: seq<Event>, id: int) {
    forall i :: 0 <= i < |events| ==> !(events[i].PressOn? && events[i].id == id) && !(events[i].PressOff? && events[i].id == id)
  }

  lemma {:induction false} RunConcat(w: World, a: seq<Event>, b: seq<Event>, config: Config)
    ensures Run(w, a + b, config) == Run(Run(w, a, config), b, config)
  {
    hide Step, Wellformed;
    if b == [] {
      assert a + b == a;
    } else {
      var front := b[..|b| - 1];
      RunConcat(w, a, front, config);
      assert (a + b)[..|a + b| - 1] == a + front && (a + b)[|a + b| - 1] == b[|b| - 1];
    }
  }

  lemma {:induction false} StillFromThere(w: World, events: seq<Event>, k: nat, config: Config, id: int)
    requires 0 <= id < |w.machines| && Calm(w.machines[id]) && Untouched(events, id)
    requires k <= |events| && StandsStill(w, events[..k], config, id)
    ensures |Run(w, events, config).machines| == |w.machines| && !Run(w, events, config).machines[id].running
  {
    hide Calm, Step, Run;
    var a, b := events[..k], events[k..];
    assert forall i :: 0 <= i < |a| ==> a[i] == events[i];
    assert forall i :: 0 <= i < |b| ==> b[i] == events[k + i];
    CalmIsFinal(w, a, config, id);
    StoppedStaysStopped(Run(w, a, config), b, config, id);
    RunConcat(w, a, b, config);
    assert events == a + b;
  }

  lemma {:induction false} CalmNeverRestarts(w: World, events: seq<Event>, config: Config, id: int)
    requires 0 <= id < |w.machines| && Calm(w.machines[id]) && Untouched(events, id)
    ensures !Restarts(w, events, config, id)
  {
    hide Calm, Step, Run, Untouched, StandsStill;
    if k :| 0 <= k < |events| && StandsStill(w, events[..k], config, id) {
      StillFromThere(w, events, k, config, id);
    }
  }

  /** A moment at which every call works, there is room, and the credit suffices. */
  function Fair(db: Db, user: int): Env {
    Env(0, 0, Balance(db, user), true, false, true, Done, Done, Done, Done, NoCrash)
  }

  function FairPass(w: World, user: int, now: int): Event {
    WorkerPass(Reconcile, now, seq(|w.machines|, i => Fair(w.db, user)))
  }

  lemma {:induction false} FairPassReconciles(w: World, id: int, now: int, config: Config)
    requires 0 <= id < |w.machines|
    ensures var user := w.machines[id].row.user;
            var r := Step(w, FairPass(w, user, now), config);
            && r.db == w.db && |r.machines| == |w.machines|
            && r.machines[id] == ReconcileTurn(w.machines[id], w.db, now, Fair(w.db, user), config).machine
  {
    hide ReconcileTurn;
    var envs := seq(|w.machines|, i => Fair(w.db, w.machines[id].row.user));
    SweepReconciles(w, |w.machines|, now, envs, config);
  }

  /** A power-off that failed is forgotten, so that some run in which the customer presses
      nothing starts the machine again after it stood still, exactly when the stop was
      refused while the instance ran and the row asked for it. */
  lemma {:induction false} FailedPowerOffIsForgottenIff(w: World, id: int, now: int, env: Env, config: Config)
    requires 0 <= id < |w.machines|
    requires PowerOff(id, w.machines[id], w.db, now, env).1 == Failed
    ensures var failed := Step(w, PressOff(id, now, env), config);
            (exists events :: Untouched(events, id) && Restarts(failed, events, config, id))
              <==> (w.machines[id].running && w.machines[id].row.desiredOn && env.stop == Refused)
  {
    var m := w.machines[id];
    var failed := Step(w, PressOff(id, now, env), config);
    PowerOffIsCalmIff(id, m, w.db, now, env);
    if m.running && m.row.desiredOn && env.stop == Refused {
      var events := ComesBack(failed, id, config);
    } else {
      forall events | Untouched(events, id) ensures !Restarts(failed, events, config, id) {
        CalmNeverRestarts(failed, events, config, id);
      }
    }
  }

  /** Adopted as on, stopped by a reboot, and started again. */
  lemma {:induction false} ComesBack(w: World, id: int, config: Config) returns (events: seq<Event>)
    requires 0 <= id < |w.machines|
    requires var m := w.machines[id]; m.running && m.row.desiredOn && m.row.state in {Error, Stopping}
    ensures Untouched(events, id) && Restarts(w, events, config, id)
  {
    var user := w.machines[id].row.user;
    var adopt := FairPass(w, user, 0);
    var one := Step(w, adopt, config);
    var two := Step(one, Reboot, config);
    var start := FairPass(two, user, 0);
    events := [adopt, Reboot, start];
    FairPassReconciles(w, id, 0, config);
    FairPassReconciles(two, id, 0, config);
    assert events[..0] == [] && events[..1] == [adopt] && [adopt][..0] == [];
    assert events[..2] == [adopt, Reboot] && [adopt, Reboot][..1] == [adopt];
    assert Run(w, events[..1], config) == one;
    assert Run(w, events[..2], config) == two;
    assert StandsStill(w, events[..2], config, id);
    assert Run(w, events, config) == Step(two, start, config);
  }

  /** One such run, start to end: a failed power-off, its adoption, a reboot, a start. */
  lemma {:induction false} FailedPowerOffIsForgotten(env: Env, config: Config)
    requires env == Env(0, 0, 0, true, false, true, Done, Done, Done, Done, NoCrash)
    ensures var w := World([Machine(Row(7, On, true, Some(0), Some(0), None, None), true)], EMPTY);
            var failed := Step(w, PressOff(0, 10, env.(stop := Refused)), config);
            var adopted := Step(failed, WorkerPass(Reconcile, 20, [env]), config);
            var restarted := Step(Step(adopted, Reboot, config), WorkerPass(Reconcile, 40, [env]), config);
            && failed.machines[0].row.state == Error
            && adopted.machines[0].row.state == On
            && !Step(adopted, Reboot, config).machines[0].running
            && restarted.machines[0].running
  {
    var w := World([Machine(Row(7, On, true, Some(0), Some(0), None, None), true)], EMPTY);
    var failed := Step(w, PressOff(0, 10, env.(stop := Refused)), config);
    SweepOfOne(Reconcile, failed, 20, env, config);
    var adopted := Step(failed, WorkerPass(Reconcile, 20, [env]), config);
    SweepOfOne(Reconcile, Step(adopted, Reboot, config), 40, env, config);
  }

  lemma {:induction false} SweepOfOne(pass: Pass, w: World, now: int, env: Env, config: Config)
    requires |w.machines| == 1
    ensures var t := TurnOf(pass, 0, w.machines[0], w.db, now, env, config);
            PassOver(pass, w, now, [env], config) == World([t.machine], t.db)
  {
    assert Sweep(pass, w, 0, now, [env], config) == (w, false);
  }

  // ---------------------------------------------------------- every run has an end

  predicate AllArmed(w: World) {
    forall i :: 0 <= i < |w.machines| ==> Armed(w.machines[i])
  }

  /** The pass gets as far as workspace `i` and adopts it running and without a deadline. */
  predicate AdoptsAt(pass: Pass, w: World, i: nat, now: int, envs: seq<Env>, config: Config)
    requires i < |w.machines| == |envs|
  {
    !Sweep(pass, w, i, now, envs, config).1 && AdoptsUnarmed(pass, w.machines[i], envs[i])
  }

  predicate AdoptsNothingUnarmed(w: World, e: Event, config: Config) {
    e.WorkerPass? && |e.envs| == |w.machines| ==>
      forall i :: 0 <= i < |w.machines| ==> !AdoptsAt(e.pass, w, i, e.now, e.envs, config)
  }

  lemma {:induction false} TurnStaysArmedIff(pass: Pass, w: World, n: nat, now: int, envs: seq<Env>, config: Config)
    requires n < |w.machines| == |envs| && Armed(w.machines[n])
    ensures AllArmed(Sweep(pass, w, n + 1, now, envs, config).0) <==>
      AllArmed(Sweep(pass, w, n, now, envs, config).0) && !AdoptsAt(pass, w, n, now, envs, config)
  {
    hide TurnOf, AdoptsUnarmed, Armed, AllArmed;
    var (before, died) := Sweep(pass, w, n, now, envs, config);
    if !died {
      var t := TurnOf(pass, n, before.machines[n], before.db, now, envs[n], config);
      ArmedUnlessAdopted(pass, n, before.machines[n], before.db, now, envs[n], config);
      OneMachineArmed(before, n, t.machine, t.db);
    }
  }

  lemma ArmedOf(w: World, i: nat)
    requires AllArmed(w) && i < |w.machines|
    ensures Armed(w.machines[i])
  {
  }

  lemma NothingSwept(pass: Pass, w: World, now: int, envs: seq<Env>, config: Config)
    requires |w.machines| == |envs|
    ensures Sweep(pass, w, 0, now, envs, config) == (w, false)
  {
  }

  lemma {:induction false} SweepStaysArmedIff(pass: Pass, w: World, n: nat, now: int, envs: seq<Env>, config: Config)
    requires n <= |w.machines| == |envs| && AllArmed(w)
    ensures AllArmed(Sweep(pass, w, n, now, envs, config).0) <==>
      forall i :: 0 <= i < n ==> !AdoptsAt(pass, w, i, now, envs, config)
  {
    hide Sweep, AdoptsAt, Armed, AllArmed;
    if n == 0 {
      NothingSwept(pass, w, now, envs, config);
    } else {
      SweepStaysArmedIff(pass, w, n - 1, now, envs, config);
      ArmedOf(w, n - 1);
      TurnStaysArmedIff(pass, w, n - 1, now, envs, config);
    }
  }

  lemma {:induction false} OneMachineArmed(w: World, i: nat, m: Machine, db: Db)
    requires i < |w.machines| && Armed(w.machines[i])
    ensures AllArmed(World(w.machines[i := m], db)) <==> AllArmed(w) && Armed(m)
  {
    hide Armed;
    var after := w.machines[i := m];
    assert after[i] == m;
    if AllArmed(World(after, db)) {
      forall j | 0 <= j < |w.machines| ensures Armed(w.machines[j]) {
        assert Armed(after[j]);
      }
    }
  }

  lemma {:induction false} StepStaysArmedIff(w: World, e: Event, config: Config)
    requires AllArmed(w) && Wellformed(w, e)
    ensures AllArmed(Step(w, e, config)) <==> AdoptsNothingUnarmed(w, e, config)
  {
    match e
    case WorkerPass(pass, now, envs) => SweepStaysArmedIff(pass, w, |w.machines|, now, envs, config);
    case _ =>
  }

  predicate ArmedAfter(w: World, events: seq<Event>, n: nat, config: Config)
    requires n <= |events|
  {
    AllArmed(Run(w, events[..n], config))
  }

  /** Event `n` of the run adopts nothing that runs without a deadline. */
  predicate CleanAt(w: World, events: seq<Event>, n: nat, config: Config)
    requires n < |events|
  {
    var before := Run(w, events[..n], config);
    Wellformed(before, events[n]) ==> AdoptsNothingUnarmed(before, events[n], config)
  }

  lemma {:induction false} ArmedNext(w: World, events: seq<Event>, n: nat, config: Config)
    requires n < |events| && ArmedAfter(w, events, n, config)
    ensures ArmedAfter(w, events, n + 1, config) <==> CleanAt(w, events, n, config)
  {
    hide Step, AllArmed, AdoptsNothingUnarmed;
    var more := events[..n + 1];
    assert more[..n] == events[..n] && more[n] == events[n];
    var before := Run(w, events[..n], config);
    if Wellformed(before, events[n]) {
      StepStaysArmedIff(before, events[n], config);
    }
  }

  lemma {:induction false} ArmedUpTo(w: World, events: seq<Event>, m: nat, config: Config)
    requires m <= |events| && ArmedAfter(w, events, 0, config)
    ensures (forall n :: 0 <= n <= m ==> ArmedAfter(w, events, n, config))
       <==> (forall n :: 0 <= n < m ==> CleanAt(w, events, n, config))
  {
    hide ArmedAfter, CleanAt;
    if m > 0 {
      ArmedUpTo(w, events, m - 1, config);
      if ArmedAfter(w, events, m - 1, config) {
        ArmedNext(w, events, m - 1, config);
      }
    }
  }

  /** Over every run of passes, power requests, crashes and reboots: every machine that is
      on has a deadline at every moment exactly when no reconciliation of the run adopts an
      instance that runs without one. */
  lemma {:induction false} RunStaysArmedIff(w: World, events: seq<Event>, config: Config)
    requires AllArmed(w)
    ensures (forall n :: 0 <= n <= |events| ==> ArmedAfter(w, events, n, config))
       <==> (forall n :: 0 <= n < |events| ==> CleanAt(w, events, n, config))
  {
    assert Run(w, events[..0], config) == w;
    ArmedUpTo(w, events, |events|, config);
  }

  // ------------------------------------------------------ reconciliation converges

  lemma {:induction false} SweepReconciles(w: World, n: nat, now: int, envs: seq<Env>, config: Config)
    requires n <= |w.machines| == |envs|
    requires forall i :: 0 <= i < n ==> envs[i].crash == NoCrash
    ensures var (r, died) := Sweep(Reconcile, w, n, now, envs, config);
            && !died && r.db == w.db
            && forall i :: 0 <= i < n ==>
                 r.machines[i] == ReconcileTurn(w.machines[i], w.db, now, envs[i], config).machine
  {
    if n > 0 {
      SweepReconciles(w, n - 1, now, envs, config);
    }
  }

  lemma {:induction false} SweepIsIdle(w: World, n: nat, now: int, envs: seq<Env>, config: Config)
    requires n <= |w.machines| == |envs|
    requires forall i :: 0 <= i < n ==>
      ReconcileTurn(w.machines[i], w.db, now, envs[i], config) == Turn(w.machines[i], w.db, false)
    ensures Sweep(Reconcile, w, n, now, envs, config) == (w, false)
  {
    hide ReconcileTurn;
    if n > 0 {
      SweepIsIdle(w, n - 1, now, envs, config);
      assert w.machines[n - 1 := w.machines[n - 1]] == w.machines;
    }
  }

  /** After one reconciliation whose calls succeed, every row that can be reconciled is
      on exactly when its instance runs, and is then wanted on; and a second pass, with
      any balances, any room and any answers, changes nothing. */
  lemma {:induction false} ReconcileMakesThemAgree(
    w: World, now: int, envs: seq<Env>, config: Config, db': Db, now': int, envs': seq<Env>)
    requires |w.machines| == |envs| == |envs'|
    requires forall i :: 0 <= i < |envs| ==> CallsSucceed(envs[i])
    ensures var r := PassOver(Reconcile, w, now, envs, config);
            && r.db == w.db
            && (forall i :: 0 <= i < |w.machines| ==>
                  if Reconcilable(w.machines[i]) then Agrees(r.machines[i]) else r.machines[i] == w.machines[i])
            && PassOver(Reconcile, r.(db := db'), now', envs', config) == r.(db := db')
  {
    var r := PassOver(Reconcile, w, now, envs, config);
    SweepReconciles(w, |w.machines|, now, envs, config);
    forall i | 0 <= i < |w.machines|
      ensures Reconcilable(w.machines[i]) ==> Agrees(r.machines[i])
      ensures !Reconcilable(w.machines[i]) ==> r.machines[i] == w.machines[i]
      ensures ReconcileTurn(r.machines[i], db', now', envs'[i], config) == Turn(r.machines[i], db', false)
    {
      if Reconcilable(w.machines[i]) {
        ReconcileConverges(w.machines[i], w.db, now, envs[i], config, db', now', envs'[i]);
      }
    }
    SweepIsIdle(r.(db := db'), |w.machines|, now', envs', config);
  }

  // ------------------------------------------------------------------- settlement

  lemma {:induction false} SettledSweepIsIdle(w: World, n: nat, now: int, envs: seq<Env>, config: Config)
    requires n <= |w.machines| == |envs|
    requires forall i :: 0 <= i < n ==> !Settles(w.machines[i].row, now)
    ensures Sweep(Settle, w, n, now, envs, config) == (w, false)
  {
    if n > 0 {
      SettledSweepIsIdle(w, n - 1, now, envs, config);
      assert w.machines[n - 1 := w.machines[n - 1]] == w.machines;
    }
  }

  lemma {:induction false} SweepSettles(w: World, n: nat, now: int, envs: seq<Env>, config: Config)
    requires n <= |w.machines| == |envs|
    requires forall i :: 0 <= i < n ==> envs[i].crash == NoCrash
    ensures var (r, died) := Sweep(Settle, w, n, now, envs, config);
            !died && forall i :: 0 <= i < n ==> !Settles(r.machines[i].row, now)
  {
    if n > 0 {
      SweepSettles(w, n - 1, now, envs, config);
    }
  }

  /** Once a settlement pass has completed, any further pass in the same clock hour
      leaves ledger, balances and rows exactly as they are. */
  lemma {:induction false} SettlementIsIdempotentInTheHour(
    w: World, now: int, envs: seq<Env>, config: Config, now': int, envs': seq<Env>)
    requires |w.machines| == |envs| == |envs'|
    requires forall i :: 0 <= i < |envs| ==> envs[i].crash == NoCrash
    requires HourFloor(now) == HourFloor(now')
    ensures var r := PassOver(Settle, w, now, envs, config);
            PassOver(Settle, r, now', envs', config) == r
  {
    var r := PassOver(Settle, w, now, envs, config);
    SweepSettles(w, |w.machines|, now, envs, config);
    SettledSweepIsIdle(r, |w.machines|, now', envs', config);
  }

  predicate HasKey(p: Posting, id: int, period: int) {
    p.workspace == Some(id) && p.kind == ChargeHour && p.period == Some(period)
  }

  function KeyCount(rows: seq<Posting>, id: int, period: int): nat {
    if rows == [] then 0
    else
      KeyCount(rows[..|rows| - 1], id, period) + (if HasKey(rows[|rows| - 1], id, period) then 1 else 0)
  }

  /** What the rows of this hour have taken in all. */
  function KeySum(rows: seq<Posting>, id: int, period: int): int {
    if rows == [] then 0
    else
      var last := rows[|rows| - 1];
      KeySum(rows[..|rows| - 1], id, period) + (if HasKey(last, id, period) then last.amount else 0)
  }

  lemma {:induction false} KeyAppend(rows: seq<Posting>, p: Posting, id: int, period: int)
    ensures KeyCount(rows + [p], id, period)
         == KeyCount(rows, id, period) + (if HasKey(p, id, period) then 1 else 0)
    ensures KeySum(rows + [p], id, period)
         == KeySum(rows, id, period) + (if HasKey(p, id, period) then p.amount else 0)
  {
    assert (rows + [p])[..|rows|] == rows;
  }

  lemma {:induction false} CountedMeansTaken(rows: seq<Posting>, p: Posting, id: int, period: int)
    requires HasKey(p, id, period) && p.scope.None?
    ensures Taken(rows, p) <==> KeyCount(rows, id, period) > 0
  {
    if rows != [] {
      var front, last := rows[..|rows| - 1], rows[|rows| - 1];
      CountedMeansTaken(front, p, id, period);
      assert Clashes(last, p) <==> HasKey(last, id, period);
      if Taken(front, p) {
        var i :| 0 <= i < |front| && Clashes(front[i], p);
        assert rows[i] == front[i];
      } else if HasKey(last, id, period) {
        assert Clashes(rows[|rows| - 1], p);
      } else {
        assert forall i :: 0 <= i < |front| ==> rows[i] == front[i];
      }
    }
  }

  /** One try at settling a workspace, at some moment, price and crash point; other
      processes' postings happen before it. */
  datatype Try = Try(before: seq<Posting>, now: int, env: Env)

  function Attempt(id: int, m: Machine, db: Db, tries: seq<Try>): Turn {
    if tries == [] then Turn(m, db, false)
    else
      var t := Attempt(id, m, db, tries[..|tries| - 1]);
      var last := tries[|tries| - 1];
      SettleTurn(id, t.machine, PostAll(t.db, last.before), last.now, last.env)
  }

  lemma {:induction false} OthersKeepTheHour(db: Db, others: seq<Posting>, id: int, period: int)
    requires Consistent(db)
    requires forall i :: 0 <= i < |others| ==> !HasKey(others[i], id, period)
    ensures Consistent(PostAll(db, others))
    ensures KeyCount(PostAll(db, others).rows, id, period) == KeyCount(db.rows, id, period)
    ensures KeySum(PostAll(db, others).rows, id, period) == KeySum(db.rows, id, period)
  {
    if others != [] {
      var front, p := others[..|others| - 1], others[|others| - 1];
      OthersKeepTheHour(db, front, id, period);
      PostKeepsConsistent(PostAll(db, front), p);
      KeyAppend(PostAll(db, front).rows, p, id, period);
    }
  }

  /** A charge of this hour's key: the first one is a row and moves the balance, every
      other one is neither. */
  lemma {:induction false} ChargeOnce(id: int, row: Row, db: Db, now: int, price: int, period: int)
    requires Consistent(db) && price > 0 && HourFloor(CursorOf(row, now)) == period
    ensures var r := ChargeHourOf(id, row, db, now, price);
            && Consistent(r)
            && (KeyCount(db.rows, id, period) == 0 ==>
                  && KeyCount(r.rows, id, period) == 1
                  && KeySum(r.rows, id, period) == KeySum(db.rows, id, period) - price
                  && Balance(r, row.user) == Balance(db, row.user) - price)
            && (KeyCount(db.rows, id, period) > 0 ==> r == db)
  {
    var p := HourPosting(id, row, period, price);
    PostKeepsConsistent(db, p);
    CountedMeansTaken(db.rows, p, id, period);
    KeyAppend(db.rows, p, id, period);
  }

  /** However many tries die between the charge's commit and the cursor's, and whatever
      else is posted meanwhile, the try that completes leaves exactly one row for the
      hour under the cursor, for the price of the first try that charged it, and the
      cursor on the current hour. */
  lemma {:induction false} CrashSafeHour(id: int, m: Machine, db: Db, tries: seq<Try>, period: int)
    requires Consistent(db) && KeyCount(db.rows, id, period) == 0
    requires tries != []
    requires forall i :: 0 <= i < |tries| ==>
      && Settles(m.row, tries[i].now) && HourFloor(CursorOf(m.row, tries[i].now)) == period
      && tries[i].env.hourPrice > 0
      && (i < |tries| - 1 <==> tries[i].env.crash == AfterCharge)
      && forall j :: 0 <= j < |tries[i].before| ==> !HasKey(tries[i].before[j], id, period)
    ensures var r := Attempt(id, m, db, tries);
            && KeyCount(r.db.rows, id, period) == 1
            && KeySum(r.db.rows, id, period) == KeySum(db.rows, id, period) - tries[0].env.hourPrice
            && Consistent(r.db)
            && r.machine.row.periodStart == Some(HourFloor(tries[|tries| - 1].now))
  {
    hide Consistent, KeyCount, KeySum, PostAll, Post, Settles, CursorOf, HasKey;
    var n := |tries| - 1;
    var front, last := tries[..n], tries[n];
    assert forall i :: 0 <= i < n ==> front[i] == tries[i];
    CrashedTriesChargeOnce(id, m, db, front, period);
    var t := Attempt(id, m, db, front);
    OthersKeepTheHour(t.db, last.before, id, period);
    ChargeOnce(id, m.row, PostAll(t.db, last.before), last.now, last.env.hourPrice, period);
    SettleTurnCharges(id, m, PostAll(t.db, last.before), last.now, last.env);
  }

  /** What a settlement turn does to ledger and cursor, gate or no gate. */
  lemma {:induction false} SettleTurnCharges(id: int, m: Machine, db: Db, now: int, env: Env)
    requires Settles(m.row, now)
    ensures var t := SettleTurn(id, m, db, now, env);
            && t.db == ChargeHourOf(id, m.row, db, now, env.hourPrice)
            && (env.crash == AfterCharge ==> t.machine == m)
            && (env.crash != AfterCharge ==> t.machine.row.periodStart == Some(HourFloor(now)))
  {
    hide ChargeHourOf;
  }

  lemma {:induction false} CrashedTriesChargeOnce(id: int, m: Machine, db: Db, tries: seq<Try>, period: int)
    requires Consistent(db) && KeyCount(db.rows, id, period) == 0
    requires forall i :: 0 <= i < |tries| ==>
      && Settles(m.row, tries[i].now) && HourFloor(CursorOf(m.row, tries[i].now)) == period
      && tries[i].env.hourPrice > 0
      && tries[i].env.crash == AfterCharge
      && forall j :: 0 <= j < |tries[i].before| ==> !HasKey(tries[i].before[j], id, period)
    ensures var r := Attempt(id, m, db, tries);
            && r.machine == m
            && Consistent(r.db)
            && KeyCount(r.db.rows, id, period) == (if tries == [] then 0 else 1)
            && KeySum(r.db.rows, id, period)
                 == KeySum(db.rows, id, period) - (if tries == [] then 0 else tries[0].env.hourPrice)
  {
    hide Consistent, KeyCount, KeySum, PostAll, Post, Settles, CursorOf, HasKey;
    if tries != [] {
      var n := |tries| - 1;
      var front, last := tries[..n], tries[n];
      assert forall i :: 0 <= i < n ==> front[i] == tries[i];
      CrashedTriesChargeOnce(id, m, db, front, period);
      var t := Attempt(id, m, db, front);
      OthersKeepTheHour(t.db, last.before, id, period);
      SettleTurnCharges(id, m, PostAll(t.db, last.before), last.now, last.env);
      ChargeOnce(id, m.row, PostAll(t.db, last.before), last.now, last.env.hourPrice, period);
    }
  }

  // ----------------------------------------------------------- money over any run

  lemma {:induction false} SweepKeepsLedger(
    pass: Pass, w: World, n: nat, now: int, envs: seq<Env>, config: Config)
    requires n <= |w.machines| == |envs| && Consistent(w.db)
    ensures Consistent(Sweep(pass, w, n, now, envs, config).0.db)
  {
    hide Consistent, TurnOf;
    if n > 0 {
      SweepKeepsLedger(pass, w, n - 1, now, envs, config);
      var (before, died) := Sweep(pass, w, n - 1, now, envs, config);
      TurnKeepsLedger(pass, n - 1, before.machines[n - 1], before.db, now, envs[n - 1], config);
    }
  }

  lemma {:induction false} ElapsedKeepsLedger(id: int, row: Row, db: Db, now: int, price: int)
    requires Consistent(db)
    ensures Consistent(SettleElapsed(id, row, db, now, price))
  {
    hide Consistent, Post;
    PostKeepsConsistent(db, Posting(row.user, Some(id), ChargeHour, -price, row.periodStart, None));
    PostKeepsConsistent(db, Posting(row.user, Some(id), ChargePartial, -price, row.periodStart, None));
  }

  lemma {:induction false} TurnKeepsLedger(pass: Pass, id: int, m: Machine, db: Db, now: int, env: Env, config: Config)
    requires Consistent(db)
    ensures Consistent(TurnOf(pass, id, m, db, now, env, config).db)
  {
    hide Consistent, Post, SettleElapsed;
    PostKeepsConsistent(db, HourPosting(id, m.row, HourFloor(CursorOf(m.row, now)), env.hourPrice));
    ElapsedKeepsLedger(id, m.row, db, now, env.partPrice);
  }

  /** Over every run of passes, power requests, reboots and other postings, balances
      stay the sums of their ledger rows and no key is charged twice. */
  lemma {:induction false} EveryRunKeepsLedger(w: World, events: seq<Event>, config: Config)
    requires Consistent(w.db)
    ensures Consistent(Run(w, events, config).db)
  {
    hide Consistent;
    if events != [] {
      var front, e := events[..|events| - 1], events[|events| - 1];
      EveryRunKeepsLedger(w, front, config);
      var before := Run(w, front, config);
      if Wellformed(before, e) {
        match e
        case WorkerPass(pass, now, envs) =>
          SweepKeepsLedger(pass, before, |before.machines|, now, envs, config);
        case PressOff(id, now, env) =>
          ElapsedKeepsLedger(id, before.machines[id].row, before.db, now, env.partPrice);
        case Elsewhere(p) => PostKeepsConsistent(before.db, p);
        case _ =>
      }
    }
  }
}
