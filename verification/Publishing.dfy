/** Publishing, unpublishing, creating and deleting machines, step by step: every commit,
    every reading of the tables for a push and every loading of its rules is a step, and the
    steps of different requests interleave in any order with each other and with deaths. */
module Publishing {
  import opened Common
  import opened Ports
  import opened Firewall

  /** A request between its steps. Rows are identified by their contents. */
  datatype Job =
    | ToPublish(port: Port)     // reserved; about to push the rules
    | ToGiveBack(port: Port)    // that push failed; about to release the reservation
    | ToPush                    // about to push everything: a repair, a new machine, a refresh
    | ToExclude(port: Port)     // about to push the rules without it
    | ToForget(port: Port)      // about to remove its row
    | ToEmpty(workspace: int)   // about to push the rules without the machine
    | ToDestroy(workspace: int) // about to destroy it and remove its rows
    | Loading(push: Job, ports: seq<Port>, slots: map<int, nat>) // has read these tables
    | Ended

  datatype State = State(ports: seq<Port>, slots: map<int, nat>, rules: seq<Rule>, jobs: map<int, Job>)

  const START := State([], map[], [], map[])

  /** `free` is the host's own probe of a port at that moment. */
  datatype Event =
    | AskPublish(t: int, workspace: int, internal: int, draws: seq<int>, free: int -> bool)
    | AskUnpublish(t: int, port: Port)
    | AskDelete(t: int, workspace: int)
    | AskCreate(t: int, workspace: int, sshDraws: seq<int>, rdpDraws: seq<int>, free: int -> bool)
    | AskServices(t: int, workspace: int, sshDraws: seq<int>, rdpDraws: seq<int>, free: int -> bool)
    | AskPush(t: int)
    | Read(t: int)
    | Load(t: int, load: Load)
    | Finish(t: int, destroyed: bool)
    | Die(t: int)

  /** A customer may remove a port that they published. */
  predicate Removable(ports: seq<Port>, p: Port) {
    p in ports && p.kind == User
  }

  predicate Pushing(j: Job) {
    j.ToPublish? || j.ToPush? || j.ToExclude? || j.ToEmpty?
  }

  predicate Removing(j: Job) {
    j.ToGiveBack? || j.ToForget? || j.ToDestroy?
  }

  predicate Enabled(s: State, e: Event) {
    match e
    case AskPublish(t, ws, _, draws, _) => t !in s.jobs && ws in s.slots && Drawn(draws)
    case AskUnpublish(t, port) => t !in s.jobs && Removable(s.ports, port)
    case AskDelete(t, ws) => t !in s.jobs && ws in s.slots
    case AskCreate(t, ws, a, b, _) => t !in s.jobs && ws !in s.slots && Drawn(a) && Drawn(b)
    case AskServices(t, ws, a, b, _) => t !in s.jobs && ws in s.slots && Drawn(a) && Drawn(b)
    case AskPush(t) => t !in s.jobs
    case Read(t) => t in s.jobs && Pushing(s.jobs[t])
    case Load(t, _) => t in s.jobs && s.jobs[t].Loading?
    case Finish(t, _) => t in s.jobs && Removing(s.jobs[t])
    case Die(t) => t in s.jobs
  }

  function NoWorkspace(j: Job): Option<int> {
    if j.ToEmpty? then Some(j.workspace) else None
  }

  function NoPort(j: Job): Option<Port> {
    if j.ToExclude? then Some(j.port) else None
  }

  /** What a push sends: the tables it read, less what it is told to leave out. */
  function Carries(j: Job): seq<Mapping>
    requires j.Loading?
  {
    MappingsOf(j.ports, j.slots, NoWorkspace(j.push), NoPort(j.push))
  }

  function AllMappings(s: State): seq<Mapping> {
    MappingsOf(s.ports, s.slots, None, None)
  }

  predicate TakesEffect(ms: seq<Mapping>, load: Load) {
    load != NotApplied && AllValid(ms)
  }

  /** Where a request goes after its push, by whether it was told that it worked. */
  function AfterPush(j: Job, ok: bool): Job {
    match j
    case ToPublish(p) => if ok then Ended else ToGiveBack(p)
    case ToExclude(p) => if ok then ToForget(p) else Ended
    case ToEmpty(ws) => if ok then ToDestroy(ws) else Ended
    case _ => Ended
  }

  predicate HasServices(ports: seq<Port>, workspace: int) {
    AddressOf(ports, workspace, Ssh).Some? && AddressOf(ports, workspace, Rdp).Some?
  }

  /** A service port that could not be reserved ends the request; what it reserved stays. */
  function AfterServices(ports: seq<Port>, workspace: int): Job {
    if HasServices(ports, workspace) then ToPush else Ended
  }

  function IndexOf(ports: seq<Port>, p: Port): (at: nat)
    requires p in ports
    ensures at < |ports| && ports[at] == p
  {
    if ports[0] == p then 0 else 1 + IndexOf(ports[1..], p)
  }

  function DropRow(ports: seq<Port>, p: Port): seq<Port> {
    if p in ports then Without(ports, IndexOf(ports, p)) else ports
  }

  function Next(s: State, e: Event): State
    requires Enabled(s, e)
  {
    match e
    case AskPublish(t, ws, internal, draws, free) =>
      var (ports, result) := Allocated(s.ports, Request(ws, internal, Both, User), draws, free);
      s.(ports := ports, jobs := s.jobs[t := if result.Reserved? then ToPublish(result.port) else Ended])
    case AskUnpublish(t, port) => s.(jobs := s.jobs[t := ToExclude(port)])
    case AskDelete(t, ws) => s.(jobs := s.jobs[t := ToEmpty(ws)])
    case AskCreate(t, ws, a, b, free) =>
      var ports := Serviced(s.ports, ws, a, b, free);
      s.(slots := s.slots[ws := FreeFrom(s.slots.Values, 1)], ports := ports,
         jobs := s.jobs[t := AfterServices(ports, ws)])
    case AskServices(t, ws, a, b, free) =>
      var ports := Serviced(s.ports, ws, a, b, free);
      s.(ports := ports, jobs := s.jobs[t := AfterServices(ports, ws)])
    case AskPush(t) => s.(jobs := s.jobs[t := ToPush])
    case Read(t) => s.(jobs := s.jobs[t := Loading(s.jobs[t], s.ports, s.slots)])
    case Load(t, load) =>
      var ms := Carries(s.jobs[t]);
      s.(rules := After(s.rules, ms, load), jobs := s.jobs[t := AfterPush(s.jobs[t].push, Synced(ms, load))])
    case Finish(t, destroyed) =>
      (match s.jobs[t]
       case ToGiveBack(p) => s.(ports := DropRow(s.ports, p), jobs := s.jobs[t := ToPush])
       case ToForget(p) => s.(ports := DropRow(s.ports, p), jobs := s.jobs[t := Ended])
       case ToDestroy(ws) =>
         var ended := s.(jobs := s.jobs[t := Ended]);
         if destroyed then ended.(ports := Keep(s.ports, ws), slots := s.slots - {ws}) else ended
       case _ => s)
    case Die(t) => s.(jobs := s.jobs[t := Ended])
  }

  function RunFrom(s: State, events: seq<Event>): State {
    if events == [] then s
    else
      var before, e := RunFrom(s, events[..|events| - 1]), events[|events| - 1];
      if Enabled(before, e) then Next(before, e) else before
  }

  function Run(events: seq<Event>): State {
    RunFrom(START, events)
  }

  // ------------------------------------------------------------------- the routes alone

  /** A request from its first step to its last. */
  datatype Call =
    | Opening(workspace: int, internal: int, draws: seq<int>, free: int -> bool, first: Load, second: Load)
    | Closing(port: Port, load: Load)
    | Deleting(workspace: int, load: Load, destroyed: bool)
    | Creating(workspace: int, sshDraws: seq<int>, rdpDraws: seq<int>, free: int -> bool, load: Load)
    | Reserving(workspace: int, sshDraws: seq<int>, rdpDraws: seq<int>, free: int -> bool, load: Load)
    | Refreshing(load: Load)

  function StepsOf(t: int, c: Call): seq<Event> {
    match c
    case Opening(ws, internal, draws, free, first, second) =>
      [AskPublish(t, ws, internal, draws, free), Read(t), Event.Load(t, first), Finish(t, true),
       Read(t), Event.Load(t, second)]
    case Closing(port, load) => [AskUnpublish(t, port), Read(t), Event.Load(t, load), Finish(t, true)]
    case Deleting(ws, load, destroyed) => [AskDelete(t, ws), Read(t), Event.Load(t, load), Finish(t, destroyed)]
    case Creating(ws, a, b, free, load) => [AskCreate(t, ws, a, b, free), Read(t), Event.Load(t, load)]
    case Reserving(ws, a, b, free, load) => [AskServices(t, ws, a, b, free), Read(t), Event.Load(t, load)]
    case Refreshing(load) => [AskPush(t), Read(t), Event.Load(t, load)]
  }

  /** The routes of the API and the worker, as one process at a time runs them. */
  class ControlPlane {
    var ports: seq<Port>
    var slots: map<int, nat>
    var rules: seq<Rule>
    ghost var jobs: map<int, Job>

    ghost function Now(): State
      reads this
    {
      State(ports, slots, rules, jobs)
    }

    constructor ()
      ensures Now() == START
    {
      ports, slots, rules, jobs := [], map[], [], map[];
    }

    /** Push the complete set of published ports, less what is excluded. */
    method SyncPublishedPorts(noWorkspace: Option<int>, noPort: Option<Port>, load: Load) returns (ok: bool)
      modifies this`rules
      ensures rules == After(old(rules), MappingsOf(ports, slots, noWorkspace, noPort), load)
      ensures ok <==> Synced(MappingsOf(ports, slots, noWorkspace, noPort), load)
    {
      var mappings: seq<Mapping> := [];
      for i := 0 to |ports|
        invariant mappings == MappingsOf(ports[..i], slots, noWorkspace, noPort)
      {
        assert ports[..i + 1][..i] == ports[..i];
        var p := ports[i];
        if p.workspace in slots && Kept(p, noWorkspace, noPort) {
          mappings := mappings + MappingsOfPort(p, slots, Expand(p.protocol));
        }
      }
      assert ports[..|ports|] == ports;
      rules := After(rules, mappings, load);
      ok := AllValid(mappings) && load == Applied;
    }

    /** The push of request `t`, with nothing between its reading and its loading. */
    method PushFor(ghost t: int, noWorkspace: Option<int>, noPort: Option<Port>, load: Load) returns (ok: bool)
      requires t in jobs && Pushing(jobs[t])
      requires noWorkspace == NoWorkspace(jobs[t]) && noPort == NoPort(jobs[t])
      modifies this`rules, this`jobs
      ensures Now() == Step(Step(old(Now()), Read(t)), Event.Load(t, load))
      ensures t in jobs && jobs[t] == AfterPush(old(jobs)[t], ok)
      ensures ok <==> Synced(MappingsOf(ports, slots, noWorkspace, noPort), load)
    {
      hide MappingsOf, After, Synced;
      ghost var start := Now();
      ok := SyncPublishedPorts(noWorkspace, noPort, load);
      jobs := jobs[t := AfterPush(jobs[t], ok)];
      PushIs(start, t, load);
      assert Now().jobs == start.jobs[t := AfterPush(start.jobs[t], ok)];
    }

    /** Reserve a port and push the rules; if that fails give it back and push again. */
    method CreatePort(ghost t: int, workspace: int, internal: int, draws: seq<int>, free: int -> bool,
                      first: Load, second: Load) returns (ok: bool)
      requires t !in jobs && workspace in slots && Drawn(draws)
      modifies this
      ensures Now() == RunFrom(old(Now()), StepsOf(t, Opening(workspace, internal, draws, free, first, second)))
      ensures var (table, result) := Allocated(old(ports), Request(workspace, internal, Both, User), draws, free);
              ok <==> result.Reserved? && Synced(MappingsOf(table, slots, None, None), first)
    {
      hide Step, RunFrom, Allocated, MappingsOf, Synced;
      Unrolled(Now(), StepsOf(t, Opening(workspace, internal, draws, free, first, second)));
      var result := Reserve(t, workspace, internal, draws, free);
      if result.Refused? {
        StoppedIsIdle(Now(), t, first, true);
        StoppedIsIdle(Now(), t, second, true);
        return false;
      }
      ok := PushFor(t, None, None, first);
      if ok {
        StoppedIsIdle(Now(), t, second, true);
        return;
      }
      // Put the reservation and the firewall back as they were.
      GiveBack(t, result.port);
      var _ := PushFor(t, None, None, second);
    }

    method Reserve(ghost t: int, workspace: int, internal: int, draws: seq<int>, free: int -> bool) returns (result: Result)
      requires t !in jobs && workspace in slots && Drawn(draws)
      modifies this`ports, this`jobs
      ensures Now() == Step(old(Now()), AskPublish(t, workspace, internal, draws, free))
      ensures t in jobs && jobs[t] == if result.Reserved? then ToPublish(result.port) else Ended
      ensures (ports, result) == Allocated(old(ports), Request(workspace, internal, Both, User), draws, free)
    {
      hide Allocated;
      var (table, r) := Allocated(ports, Request(workspace, internal, Both, User), draws, free);
      ports, result := table, r;
      jobs := jobs[t := if r.Reserved? then ToPublish(r.port) else Ended];
    }

    method GiveBack(ghost t: int, p: Port)
      requires t in jobs && jobs[t] == ToGiveBack(p)
      modifies this`ports, this`jobs
      ensures Now() == Step(old(Now()), Finish(t, true))
      ensures t in jobs && jobs[t] == ToPush
    {
      hide DropRow;
      ports := DropRow(ports, p);
      jobs := jobs[t := ToPush];
    }

    /** Remove reachability first, and forget the reservation only if that worked. */
    method DeletePort(ghost t: int, p: Port, load: Load) returns (ok: bool)
      requires t !in jobs
      modifies this
      ensures Now() == RunFrom(old(Now()), StepsOf(t, Closing(p, load)))
      ensures ok <==> p in old(ports) && p.kind == User && Synced(MappingsOf(old(ports), old(slots), None, Some(p)), load)
    {
      hide MappingsOf, DropRow, RunFrom;
      ghost var start := Now();
      Unrolled(start, StepsOf(t, Closing(p, load)));
      if !Removable(ports, p) {
        StoppedIsIdle(start, t, load, true);
        return false;
      }
      Ask(t, ToExclude(p));
      assert Now() == Step(start, AskUnpublish(t, p));
      ok := PushFor(t, None, Some(p), load);
      if ok {
        Forget(t, p);
      } else {
        StoppedIsIdle(Now(), t, load, true);
      }
    }

    ghost method Ask(t: int, j: Job)
      modifies this`jobs
      ensures jobs == old(jobs)[t := j]
    {
      jobs := jobs[t := j];
    }

    method Forget(ghost t: int, p: Port)
      requires t in jobs && jobs[t] == ToForget(p)
      modifies this`ports, this`jobs
      ensures Now() == Step(old(Now()), Finish(t, true))
    {
      hide DropRow;
      ports := DropRow(ports, p);
      jobs := jobs[t := Ended];
    }

    /** Remove the addresses, then the machine, then the rows. */
    method RemoveMachine(ghost t: int, workspace: int, load: Load, destroyed: bool) returns (ok: bool)
      requires t !in jobs && workspace in slots
      modifies this
      ensures Now() == RunFrom(old(Now()), StepsOf(t, Deleting(workspace, load, destroyed)))
      ensures ok <==> destroyed && Synced(MappingsOf(old(ports), old(slots), Some(workspace), None), load)
    {
      hide MappingsOf, Keep, RunFrom;
      ghost var start := Now();
      Unrolled(start, StepsOf(t, Deleting(workspace, load, destroyed)));
      Ask(t, ToEmpty(workspace));
      assert Now() == Step(start, AskDelete(t, workspace));
      ok := PushFor(t, Some(workspace), None, load);
      if ok {
        Destroy(t, workspace, destroyed);
        ok := destroyed;
      } else {
        StoppedIsIdle(Now(), t, load, destroyed);
      }
    }

    method Destroy(ghost t: int, workspace: int, destroyed: bool)
      requires t in jobs && jobs[t] == ToDestroy(workspace)
      modifies this`ports, this`slots, this`jobs
      ensures Now() == Step(old(Now()), Finish(t, destroyed))
    {
      hide Keep;
      jobs := jobs[t := Ended];
      if destroyed {
        ports := Keep(ports, workspace);
        slots := slots - {workspace};
      }
    }

    /** Give a new machine its slot and its service ports, and push the rules. */
    method CreateMachine(ghost t: int, workspace: int, sshDraws: seq<int>, rdpDraws: seq<int>, free: int -> bool, load: Load)
      requires t !in jobs && workspace !in slots && Drawn(sshDraws) && Drawn(rdpDraws)
      modifies this
      ensures Now() == RunFrom(old(Now()), StepsOf(t, Creating(workspace, sshDraws, rdpDraws, free, load)))
    {
      hide MappingsOf, Serviced, RunFrom, HasServices;
      ghost var start := Now();
      Unrolled(start, StepsOf(t, Creating(workspace, sshDraws, rdpDraws, free, load)));
      var idx := NextFreeIdx(slots.Values);
      slots := slots[workspace := idx];
      ports := Serviced(ports, workspace, sshDraws, rdpDraws, free);
      Ask(t, AfterServices(ports, workspace));
      assert Now() == Step(start, AskCreate(t, workspace, sshDraws, rdpDraws, free));
      PushServices(t, workspace, load);
    }

    /** Reserve the service ports that an existing machine lacks, and push the rules. */
    method EnsureServices(ghost t: int, workspace: int, sshDraws: seq<int>, rdpDraws: seq<int>, free: int -> bool, load: Load)
      returns (ssh: Option<int>, rdp: Option<int>)
      requires t !in jobs && workspace in slots && Drawn(sshDraws) && Drawn(rdpDraws)
      modifies this
      ensures ssh == AddressOf(ports, workspace, Ssh) && rdp == AddressOf(ports, workspace, Rdp)
      ensures Now() ==
        if AddressOf(old(ports), workspace, Ssh).Some? && AddressOf(old(ports), workspace, Rdp).Some? then old(Now())
        else RunFrom(old(Now()), StepsOf(t, Reserving(workspace, sshDraws, rdpDraws, free, load)))
    {
      hide MappingsOf, Serviced, RunFrom, AddressOf;
      if !HasServices(ports, workspace) {
        ghost var start := Now();
        Unrolled(start, StepsOf(t, Reserving(workspace, sshDraws, rdpDraws, free, load)));
        ports := Serviced(ports, workspace, sshDraws, rdpDraws, free);
        Ask(t, AfterServices(ports, workspace));
        assert Now() == Step(start, AskServices(t, workspace, sshDraws, rdpDraws, free));
        PushServices(t, workspace, load);
      }
      ssh, rdp := AddressOf(ports, workspace, Ssh), AddressOf(ports, workspace, Rdp);
    }

    method PushServices(ghost t: int, workspace: int, load: Load)
      requires t in jobs && jobs[t] == AfterServices(ports, workspace)
      modifies this`rules, this`jobs
      ensures Now() == Step(Step(old(Now()), Read(t)), Event.Load(t, load))
    {
      hide MappingsOf, HasServices;
      if HasServices(ports, workspace) {
        var _ := PushFor(t, None, None, load);
      } else {
        StoppedIsIdle(Now(), t, load, true);
      }
    }
  }

  lemma {:induction false} PushIs(s: State, t: int, load: Load)
    requires t in s.jobs && Pushing(s.jobs[t])
    ensures var ms := MappingsOf(s.ports, s.slots, NoWorkspace(s.jobs[t]), NoPort(s.jobs[t]));
            Step(Step(s, Read(t)), Event.Load(t, load))
              == s.(rules := After(s.rules, ms, load), jobs := s.jobs[t := AfterPush(s.jobs[t], Synced(ms, load))])
  {
    hide MappingsOf, After, Synced;
    var read := Step(s, Read(t));
    var done := Step(read, Event.Load(t, load));
    assert done.jobs == s.jobs[t := done.jobs[t]];
  }

  /** A request that has ended, or was never made, takes no step. */
  lemma StoppedIsIdle(s: State, t: int, load: Load, destroyed: bool)
    requires t in s.jobs ==> s.jobs[t] == Ended
    ensures Step(s, Read(t)) == s == Step(s, Event.Load(t, load)) == Step(s, Finish(t, destroyed))
  {
  }

  /** After reserving services a request goes on to push exactly when there is a row for
      each of the two. */
  lemma AfterServicesIff(ports: seq<Port>, workspace: int)
    ensures AfterServices(ports, workspace) == ToPush <==>
      && (exists p :: p in ports && p.workspace == workspace && p.kind == Ssh)
      && (exists p :: p in ports && p.workspace == workspace && p.kind == Rdp)
  {
    AddressIsItsRow(ports, workspace, Ssh);
    AddressIsItsRow(ports, workspace, Rdp);
  }

  /** A short run, step by step. */
  lemma {:induction false} Unrolled(s: State, events: seq<Event>)
    requires 3 <= |events| <= 6
    ensures var three := Step(Step(Step(s, events[0]), events[1]), events[2]);
            && (|events| == 3 ==> RunFrom(s, events) == three)
            && (|events| == 4 ==> RunFrom(s, events) == Step(three, events[3]))
            && (|events| == 6 ==> RunFrom(s, events) == Step(Step(Step(three, events[3]), events[4]), events[5]))
  {
    hide Enabled, Next, Step;
    OneStep(s, events, 0);
    OneStep(s, events, 1);
    OneStep(s, events, 2);
    if |events| >= 4 {
      OneStep(s, events, 3);
    }
    if |events| == 6 {
      OneStep(s, events, 4);
      OneStep(s, events, 5);
    }
    assert events[..0] == [] && events[..|events|] == events;
  }

  lemma OneStep(s: State, events: seq<Event>, n: nat)
    requires n < |events|
    ensures RunFrom(s, events[..n + 1]) == Step(RunFrom(s, events[..n]), events[n])
  {
    hide Enabled, Next;
    assert events[..n + 1][..n] == events[..n] && events[..n + 1][n] == events[n];
  }

  function Step(s: State, e: Event): State {
    if Enabled(s, e) then Next(s, e) else s
  }

  // --------------------------------------------------------------- what every run keeps

  /** The table obeys its laws, every row belongs to a machine, no two share a slot. */
  ghost predicate Wf(s: State) {
    && Sound(s.ports) && InternalsInRange(s.ports)
    && (forall p :: p in s.ports ==> p.workspace in s.slots)
    && DistinctSlots(s.slots)
  }

  lemma {:induction false} WithoutIs(ports: seq<Port>, at: nat, q: Port)
    requires at < |ports| && DistinctExternals(ports)
    ensures q in Without(ports, at) <==> q in ports && q != ports[at]
  {
    var less := Without(ports, at);
    if q in less {
      var i :| 0 <= i < |less| && less[i] == q;
      var k := if i < at then i else i + 1;
      assert ports[k] == q && ports[k].external != ports[at].external;
    }
    if q in ports && q != ports[at] {
      var k :| 0 <= k < |ports| && ports[k] == q;
      assert less[if k < at then k else k - 1] == q;
    }
  }

  lemma {:induction false} DropRowIs(ports: seq<Port>, p: Port)
    requires Sound(ports)
    ensures Sound(DropRow(ports, p))
    ensures forall q :: q in DropRow(ports, p) <==> q in ports && q != p
  {
    hide InRange, ProperRows, DistinctServices, DistinctExternals, Without;
    if p in ports {
      var at := IndexOf(ports, p);
      WithoutIsSound(ports, at);
      forall q ensures q in Without(ports, at) <==> q in ports && q != p {
        WithoutIs(ports, at, q);
      }
    }
  }

  lemma {:induction false} CreateKeepsWf(s: State, ws: int, a: seq<int>, b: seq<int>, free: int -> bool)
    requires Wf(s) && ws !in s.slots && Drawn(a) && Drawn(b)
    ensures var slots := s.slots[ws := FreeFrom(s.slots.Values, 1)];
            Wf(s.(slots := slots, ports := Serviced(s.ports, ws, a, b, free)))
  {
    hide Sound, Serviced, FreeFrom;
    ServicedIsSound(s.ports, ws, a, b, free);
    var slots := s.slots[ws := FreeFrom(s.slots.Values, 1)];
    assert forall w :: w in s.slots ==> s.slots[w] in s.slots.Values;
  }

  lemma {:induction false} StepKeepsWf(s: State, e: Event)
    requires Wf(s) && Enabled(s, e)
    ensures Wf(Next(s, e))
  {
    hide Sound, Serviced, FreeFrom, Allocated, MappingsOf;
    match e
    case AskPublish(t, ws, internal, draws, free) =>
      AllocatedIsSound(s.ports, Request(ws, internal, Both, User), draws, free);
    case AskCreate(t, ws, a, b, free) => CreateKeepsWf(s, ws, a, b, free);
    case AskServices(t, ws, a, b, free) => ServicedIsSound(s.ports, ws, a, b, free);
    case Finish(t, destroyed) =>
      if s.jobs[t].ToDestroy? {
        KeepKeepsLaws(s.ports, s.jobs[t].workspace);
      } else {
        DropRowIs(s.ports, s.jobs[t].port);
      }
    case _ =>
  }

  lemma {:induction false} RunKeepsWf(s: State, events: seq<Event>)
    requires Wf(s)
    ensures Wf(RunFrom(s, events))
  {
    hide Next, Enabled, Wf;
    if events != [] {
      var front, e := events[..|events| - 1], events[|events| - 1];
      RunKeepsWf(s, front);
      if Enabled(RunFrom(s, front), e) {
        StepKeepsWf(RunFrom(s, front), e);
      }
    }
  }

  lemma {:induction false} EveryRunKeepsWf(events: seq<Event>)
    ensures Wf(Run(events))
  {
    hide Wf, RunFrom;
    StartIsWf();
    RunKeepsWf(START, events);
  }

  lemma StartIsWf()
    ensures Wf(START)
  {
  }

  // ---------------------------------------------------------------- rules without owner

  predicate Owned(r: Rule, s: State) {
    exists p :: p in s.ports && Serves(r, p, s.slots)
  }

  /** Every live rule belongs to an existing reservation of an existing machine. */
  ghost predicate Covered(s: State) {
    forall r :: r in s.rules ==> Owned(r, s)
  }

  /** The rows that a step removes. */
  function Removed(s: State, e: Event): set<Port> {
    if !e.Finish? || e.t !in s.jobs then {}
    else
      match s.jobs[e.t]
      case ToGiveBack(p) => set q | q in s.ports && q == p
      case ToForget(p) => set q | q in s.ports && q == p
      case ToDestroy(ws) => set q | q in s.ports && q.workspace == ws && e.destroyed
      case _ => {}
  }

  /** The rules are what the last load that took effect carried; it carried nothing for
      any of these rows. */
  predicate NothingLive(s: State, rows: set<Port>) {
    forall r, p :: r in s.rules && p in rows ==> !Serves(r, p, s.slots)
  }

  /** The tables still have everything that was read for this push. */
  predicate StillReserved(s: State, ms: seq<Mapping>) {
    forall m :: m in ms ==> m in AllMappings(s)
  }

  /** What a step must find: rows that it removes have no live rule, and a load that takes
      effect carries nothing that has gone since its reading. */
  predicate Safe(s: State, e: Event) {
    && NothingLive(s, Removed(s, e))
    && (e.Load? && Enabled(s, e) && TakesEffect(Carries(s.jobs[e.t]), e.load) ==>
          StillReserved(s, Carries(s.jobs[e.t])))
  }

  lemma {:induction false} AfterRemoval(s: State, e: Event)
    requires Wf(s) && Enabled(s, e) && e.Finish?
    ensures var s' := Next(s, e);
            && s'.rules == s.rules
            && (forall q :: q in s'.ports <==> q in s.ports && q !in Removed(s, e))
            && (forall ws :: ws in s'.slots ==> ws in s.slots && s'.slots[ws] == s.slots[ws])
            && (forall q :: q in s'.ports ==> q.workspace in s'.slots)
  {
    hide Sound;
    StepKeepsWf(s, e);
    match s.jobs[e.t]
    case ToGiveBack(p) => DropRowIs(s.ports, p);
    case ToForget(p) => DropRowIs(s.ports, p);
    case ToDestroy(ws) => KeepKeepsLaws(s.ports, ws);
    case _ =>
  }

  lemma ServesAlike(r: Rule, p: Port, a: map<int, nat>, b: map<int, nat>)
    requires p.workspace in a && p.workspace in b && a[p.workspace] == b[p.workspace]
    ensures Serves(r, p, a) <==> Serves(r, p, b)
  {
  }

  lemma {:induction false} OwnerStays(s: State, s': State, r: Rule, gone: set<Port>)
    requires Owned(r, s) && NothingLive(s, gone) && r in s.rules
    requires forall q :: q in s.ports && q !in gone ==> q in s'.ports && q.workspace in s'.slots
    requires forall ws :: ws in s.slots && ws in s'.slots ==> s'.slots[ws] == s.slots[ws]
    ensures Owned(r, s')
  {
    var p :| p in s.ports && Serves(r, p, s.slots);
    ServesAlike(r, p, s.slots, s'.slots);
  }

  lemma {:induction false} OrphanOf(s: State, s': State, r: Rule, p: Port)
    requires Wf(s) && p in s.ports && p !in s'.ports && r.dport == p.external
    requires forall q :: q in s'.ports ==> q in s.ports
    ensures !Owned(r, s')
  {
    hide InternalsInRange, DistinctSlots;
    forall q | q in s.ports && q.external == p.external ensures q == p {
      ExternalIdentifies(s.ports, p, q);
    }
  }

  /** A removal keeps every rule owned exactly when none of its rows has a live rule. */
  lemma {:induction false} RemovalIsCoveredIff(s: State, e: Event)
    requires Wf(s) && Covered(s) && Enabled(s, e) && e.Finish?
    ensures Covered(Next(s, e)) <==> Safe(s, e)
  {
    hide Sound, Removed, Next, Enabled, Serves, Owned;
    var s', gone := Next(s, e), Removed(s, e);
    AfterRemoval(s, e);
    if NothingLive(s, gone) {
      forall r | r in s'.rules ensures Owned(r, s') {
        OwnerStays(s, s', r, gone);
      }
    } else {
      var r, p :| r in s.rules && p in gone && Serves(r, p, s.slots);
      RemovedIsARow(s, e, p);
      ServesMatches(r, p, s.slots);
      OrphanOf(s, s', r, p);
    }
  }

  lemma RemovedIsARow(s: State, e: Event, p: Port)
    requires p in Removed(s, e)
    ensures p in s.ports
  {
  }

  lemma ServesMatches(r: Rule, p: Port, slots: map<int, nat>)
    requires Serves(r, p, slots)
    ensures r.dport == p.external
  {
  }

  function RuleFor(m: Mapping): Rule {
    Rule(m.wire, m.external, m.ip, m.internal)
  }

  lemma {:induction false} RulesAndMappings(ms: seq<Mapping>, m: Mapping)
    ensures RuleFor(m) in RulesOf(ms) <==> m in ms
  {
    var rules := RulesOf(ms);
    if RuleFor(m) in rules {
      var i :| 0 <= i < |rules| && rules[i] == RuleFor(m);
      assert ms[i] == m;
    }
    if m in ms {
      var i :| 0 <= i < |ms| && ms[i] == m;
      assert rules[i] == RuleFor(m);
    }
  }

  lemma {:induction false} OwnedIsMapped(s: State, m: Mapping)
    ensures Owned(RuleFor(m), s) <==> m in AllMappings(s)
  {
    RulesAreReservations(s.ports, s.slots, None, None, RuleFor(m));
    RulesAndMappings(AllMappings(s), m);
    assert forall p :: Kept(p, None, None);
  }

  /** A load that takes effect keeps every rule owned exactly when the tables still have
      all that it carries. */
  lemma {:induction false} LoadIsCoveredIff(s: State, e: Event)
    requires Covered(s) && Enabled(s, e) && e.Load?
    ensures Covered(Next(s, e)) <==> Safe(s, e)
  {
    hide Owned, MappingsOf, Serves;
    var ms, s' := Carries(s.jobs[e.t]), Next(s, e);
    forall r ensures Owned(r, s') <==> Owned(r, s) {
      SameOwner(s, s', r);
    }
    if TakesEffect(ms, e.load) {
      assert s'.rules == RulesOf(ms);
      if StillReserved(s, ms) {
        forall r | r in s'.rules ensures Owned(r, s') {
          var i :| 0 <= i < |s'.rules| && s'.rules[i] == r;
          assert ms[i] in ms && r == RuleFor(ms[i]);
          OwnedIsMapped(s, ms[i]);
        }
      } else {
        var m :| m in ms && m !in AllMappings(s);
        OwnedIsMapped(s, m);
        RulesAndMappings(ms, m);
        assert RuleFor(m) in s'.rules;
      }
    }
  }

  lemma SameOwner(s: State, s': State, r: Rule)
    requires s'.ports == s.ports && s'.slots == s.slots
    ensures Owned(r, s') <==> Owned(r, s)
  {
    hide Serves;
  }

  lemma {:induction false} OtherStepsAreCovered(s: State, e: Event)
    requires Wf(s) && Covered(s) && Enabled(s, e) && !e.Finish? && !e.Load?
    ensures Covered(Next(s, e))
  {
    hide Sound, MappingsOf, Allocated, Serviced, FreeFrom, Owned;
    var s' := Next(s, e);
    match e
    case AskPublish(t, ws, internal, draws, free) =>
      AllocatedIsSound(s.ports, Request(ws, internal, Both, User), draws, free);
      forall r | r in s.rules ensures Owned(r, s') { OwnerStays(s, s', r, {}); }
    case AskCreate(t, ws, a, b, free) =>
      ServicedIsSound(s.ports, ws, a, b, free);
      forall r | r in s.rules ensures Owned(r, s') { OwnerStays(s, s', r, {}); }
    case AskServices(t, ws, a, b, free) =>
      ServicedIsSound(s.ports, ws, a, b, free);
      forall r | r in s.rules ensures Owned(r, s') { OwnerStays(s, s', r, {}); }
    case AskUnpublish(_, _) => forall r ensures Owned(r, s') <==> Owned(r, s) { SameOwner(s, s', r); }
    case AskDelete(_, _) => forall r ensures Owned(r, s') <==> Owned(r, s) { SameOwner(s, s', r); }
    case AskPush(_) => forall r ensures Owned(r, s') <==> Owned(r, s) { SameOwner(s, s', r); }
    case Read(_) => forall r ensures Owned(r, s') <==> Owned(r, s) { SameOwner(s, s', r); }
    case Die(_) => forall r ensures Owned(r, s') <==> Owned(r, s) { SameOwner(s, s', r); }
    case Load(_, _) =>
    case Finish(_, _) =>
  }

  lemma {:induction false} StepIsCoveredIff(s: State, e: Event)
    requires Wf(s) && Covered(s) && Enabled(s, e)
    ensures Covered(Next(s, e)) <==> Safe(s, e)
  {
    hide Wf, Covered, Enabled, Next, MappingsOf, AllValid, Serves;
    if e.Finish? {
      RemovalIsCoveredIff(s, e);
    } else if e.Load? {
      LoadIsCoveredIff(s, e);
    } else {
      OtherStepsAreCovered(s, e);
    }
  }

  ghost predicate CoveredAfter(events: seq<Event>, n: nat)
    requires n <= |events|
  {
    Covered(Run(events[..n]))
  }

  predicate SafeAt(events: seq<Event>, n: nat)
    requires n < |events|
  {
    Enabled(Run(events[..n]), events[n]) ==> Safe(Run(events[..n]), events[n])
  }

  lemma {:induction false} CoveredNext(events: seq<Event>, n: nat)
    requires n < |events| && CoveredAfter(events, n)
    ensures CoveredAfter(events, n + 1) <==> SafeAt(events, n)
  {
    hide Next, Enabled, Safe, Wf, Covered;
    OneStep(START, events, n);
    EveryRunKeepsWf(events[..n]);
    if Enabled(Run(events[..n]), events[n]) {
      StepIsCoveredIff(Run(events[..n]), events[n]);
    }
  }

  lemma CoveredAtFirst(events: seq<Event>)
    ensures CoveredAfter(events, 0)
  {
    hide Owned;
    assert events[..0] == [];
    assert START.rules == [];
  }

  lemma {:induction false} CoveredUpTo(events: seq<Event>, m: nat)
    requires m <= |events|
    ensures (forall n :: 0 <= n <= m ==> CoveredAfter(events, n)) <==> (forall n :: 0 <= n < m ==> SafeAt(events, n))
  {
    hide CoveredAfter, SafeAt;
    if m == 0 {
      CoveredAtFirst(events);
    } else {
      CoveredUpTo(events, m - 1);
      if CoveredAfter(events, m - 1) {
        CoveredNext(events, m - 1);
      }
    }
  }

  /** Over every run of these steps, interleaved in any way, with any push failing or
      losing its reply and any request dying: at every moment every live rule belongs to an
      existing reservation exactly when no step removes a row that the last load to take
      effect carried, and no load carries what has gone since it was read. */
  lemma {:induction false} EveryMomentIsCoveredIff(events: seq<Event>)
    ensures (forall n :: 0 <= n <= |events| ==> CoveredAfter(events, n))
       <==> (forall n :: 0 <= n < |events| ==> SafeAt(events, n))
  {
    CoveredUpTo(events, |events|);
  }

  lemma {:induction false} CarriedRowIsLive(s: State, p: Port)
    requires p in s.ports && p.workspace in s.slots
    ensures exists r :: r in RulesOf(AllMappings(s)) && Serves(r, p, s.slots)
  {
    var r := Rule(Expand(p.protocol)[0], p.external, WorkspaceIp(s.slots[p.workspace]), p.internal);
    assert Kept(p, None, None) && Serves(r, p, s.slots);
    RulesAreReservations(s.ports, s.slots, None, None, r);
  }

  /** One full push by another request between a request's own push and its removal of
      rows, in any of the three windows the code leaves open: every rule stays owned
      exactly when that push does not take effect. */
  lemma {:induction false} PushInTheWindowIff(s: State, t: int, other: int, load: Load)
    requires Wf(s) && Covered(s) && Enabled(s, Finish(t, true)) && other != t
    requires other in s.jobs && s.jobs[other] == ToPush
    requires Removed(s, Finish(t, true)) != {} && NothingLive(s, Removed(s, Finish(t, true)))
    requires AllValid(AllMappings(s))
    ensures var pushed := Step(Step(s, Read(other)), Event.Load(other, load));
            Covered(Step(pushed, Finish(t, true))) <==> load == NotApplied
  {
    hide MappingsOf, RulesOf, Serves, Covered, Wf;
    var finish := Finish(t, true);
    PushIs(s, other, load);
    var pushed := Step(Step(s, Read(other)), Event.Load(other, load));
    StepKeepsWf(s, Read(other));
    StepKeepsWf(Step(s, Read(other)), Event.Load(other, load));
    FullPushIsCovered(s, pushed, load);
    assert Removed(pushed, finish) == Removed(s, finish);
    RemovalIsCoveredIff(pushed, finish);
    if load != NotApplied {
      var p :| p in Removed(s, finish);
      RowHasSlot(s, p);
      CarriedRowIsLive(s, p);
    }
  }

  lemma RowHasSlot(s: State, p: Port)
    requires Wf(s)
    ensures p in s.ports ==> p.workspace in s.slots
  {
  }

  lemma {:induction false} FullPushIsCovered(s: State, pushed: State, load: Load)
    requires Covered(s) && pushed.ports == s.ports && pushed.slots == s.slots
    requires pushed.rules == After(s.rules, AllMappings(s), load)
    ensures Covered(pushed)
  {
    hide MappingsOf, Serves, Owned;
    forall r | r in pushed.rules ensures Owned(r, pushed) {
      SameOwner(s, pushed, r);
      if TakesEffect(AllMappings(s), load) {
        var ms := AllMappings(s);
        var i :| 0 <= i < |pushed.rules| && pushed.rules[i] == r;
        assert ms[i] in ms && r == RuleFor(ms[i]);
        OwnedIsMapped(s, ms[i]);
      }
    }
  }

  /** The publish loses its reply: the rules took effect and the caller was told not. */
  predicate LosesReply(s: State, first: Load) {
    first == LostReply && AllValid(AllMappings(s))
  }

  /** A publish with nothing in between ends with every rule owned exactly when it did not
      lose its reply or its repair took effect. */
  lemma {:induction false} PublishAloneIsCoveredIff(s: State, t: int, first: Load, second: Load)
    requires Wf(s) && Covered(s) && t in s.jobs && s.jobs[t].ToPublish?
    requires s.jobs[t].port in s.ports && NothingLive(s, {s.jobs[t].port})
    ensures var tried := Step(Step(s, Read(t)), Event.Load(t, first));
            var back := Step(tried, Finish(t, true));
            Covered(Step(Step(back, Read(t)), Event.Load(t, second))) <==>
              !LosesReply(s, first) || TakesEffect(AllMappings(back), second)
  {
    hide MappingsOf, RulesOf, Covered, Serves, DropRow, Wf;
    var p := s.jobs[t].port;
    var tried := Step(Step(s, Read(t)), Event.Load(t, first));
    PushIs(s, t, first);
    StepKeepsWf(s, Read(t));
    StepKeepsWf(Step(s, Read(t)), Event.Load(t, first));
    FullPushIsCovered(s, tried, first);
    if Synced(AllMappings(s), first) {
      StoppedIsIdle(tried, t, second, true);
    } else {
      RemovalIsCoveredIff(tried, Finish(t, true));
      assert Removed(tried, Finish(t, true)) == {p};
      var back := Step(tried, Finish(t, true));
      PushIs(back, t, second);
      RowHasSlot(s, p);
      if LosesReply(s, first) {
        CarriedRowIsLive(s, p);
      }
      RepairIsCoveredIff(back, t, second);
    }
  }

  lemma {:induction false} RepairIsCoveredIff(s: State, t: int, load: Load)
    requires t in s.jobs && s.jobs[t] == ToPush
    ensures Covered(Step(Step(s, Read(t)), Event.Load(t, load))) <==> Covered(s) || TakesEffect(AllMappings(s), load)
  {
    hide MappingsOf, Serves, Owned, RulesOf;
    PushIs(s, t, load);
    var pushed := Step(Step(s, Read(t)), Event.Load(t, load));
    forall r ensures Owned(r, pushed) <==> Owned(r, s) {
      SameOwner(s, pushed, r);
    }
    if TakesEffect(AllMappings(s), load) {
      forall r | r in pushed.rules ensures Owned(r, pushed) {
        PushedIsOwned(s, r);
      }
    }
  }

  lemma {:induction false} PushedIsOwned(s: State, r: Rule)
    requires r in RulesOf(AllMappings(s))
    ensures Owned(r, s)
  {
    RulesAreReservations(s.ports, s.slots, None, None, r);
  }

  /** A full push with nothing in between that takes effect repairs anything: from any
      rules at all, including ones removed by hand or left over from a machine that is
      gone, it leaves exactly the owned ones. */
  lemma {:induction false} FullPushHeals(s: State, t: int, load: Load, r: Rule)
    requires t in s.jobs && s.jobs[t] == ToPush && TakesEffect(AllMappings(s), load)
    ensures r in Step(Step(s, Read(t)), Event.Load(t, load)).rules <==> Owned(r, s)
  {
    hide MappingsOf;
    PushIs(s, t, load);
    RulesAreReservations(s.ports, s.slots, None, None, r);
    assert forall p :: Kept(p, None, None);
  }

  // --------------------------------------------------------------- one request at a time

  /** Unpublishing or deleting with nothing in between leaves every rule owned, however
      its push and the call that destroys the machine end. */
  lemma {:induction false} DeletionAloneIsCovered(s: State, t: int, load: Load, destroyed: bool)
    requires Wf(s) && Covered(s) && t in s.jobs && (s.jobs[t].ToExclude? || s.jobs[t].ToEmpty?)
    ensures Covered(Step(Step(Step(s, Read(t)), Event.Load(t, load)), Finish(t, destroyed)))
  {
    hide MappingsOf, RulesOf, Covered, Wf, Serves, Owned;
    var j := s.jobs[t];
    var ms := MappingsOf(s.ports, s.slots, NoWorkspace(j), NoPort(j));
    var tried := Step(Step(s, Read(t)), Event.Load(t, load));
    PushIs(s, t, load);
    StepKeepsWf(s, Read(t));
    StepKeepsWf(Step(s, Read(t)), Event.Load(t, load));
    ExcludingPushIsCovered(s, tried, j, load);
    if Synced(ms, load) {
      var finish := Finish(t, destroyed);
      forall r, p | r in tried.rules && p in Removed(tried, finish) ensures !Serves(r, p, tried.slots) {
        ExcludedIsNotLive(s, j, r, p);
      }
      RemovalIsCoveredIff(tried, finish);
    } else {
      StoppedIsIdle(tried, t, load, destroyed);
    }
  }

  lemma {:induction false} ExcludingPushIsCovered(s: State, pushed: State, j: Job, load: Load)
    requires Covered(s) && pushed.ports == s.ports && pushed.slots == s.slots
    requires pushed.rules == After(s.rules, MappingsOf(s.ports, s.slots, NoWorkspace(j), NoPort(j)), load)
    ensures Covered(pushed)
  {
    hide MappingsOf, Serves, RulesOf;
    forall r | r in pushed.rules ensures Owned(r, pushed) {
      if r in s.rules {
        SameOwner(s, pushed, r);
      } else {
        RulesAreReservations(s.ports, s.slots, NoWorkspace(j), NoPort(j), r);
      }
    }
  }

  lemma {:induction false} ExcludedIsNotLive(s: State, j: Job, r: Rule, p: Port)
    requires Wf(s) && p in s.ports
    requires r in RulesOf(MappingsOf(s.ports, s.slots, NoWorkspace(j), NoPort(j)))
    requires !Kept(p, NoWorkspace(j), NoPort(j))
    ensures !Serves(r, p, s.slots)
  {
    hide MappingsOf, RulesOf, InternalsInRange, DistinctSlots;
    RulesAreReservations(s.ports, s.slots, NoWorkspace(j), NoPort(j), r);
    var q :| q in s.ports && Kept(q, NoWorkspace(j), NoPort(j)) && Serves(r, q, s.slots);
    if Serves(r, p, s.slots) {
      ExternalIdentifies(s.ports, p, q);
    }
  }

  /** A publish whose rules took effect, whose reply was lost, and whose repair did not
      take effect. */
  predicate Orphans(s: State, c: Call) {
    && c.Opening? && c.workspace in s.slots && Drawn(c.draws)
    && var (ports, result) := Allocated(s.ports, Request(c.workspace, c.internal, Both, User), c.draws, c.free);
       && result.Reserved?
       && AllValid(MappingsOf(ports, s.slots, None, None))
       && c.first == LostReply && c.second == NotApplied
  }

  /** What a request finds after its own first step. */
  lemma {:induction false} AskingIsCovered(s: State, t: int, c: Call)
    requires Wf(s) && Covered(s) && t !in s.jobs
    ensures var asked := Step(s, StepsOf(t, c)[0]);
            && Wf(asked) && Covered(asked)
            && (t in asked.jobs && asked.jobs[t] != Ended ==>
                  (match c
                   case Opening(_, _, _, _, _, _) => asked.jobs[t].ToPublish?
                   case Closing(port, _) => asked.jobs[t] == ToExclude(port)
                   case Deleting(ws, _, _) => asked.jobs[t] == ToEmpty(ws)
                   case _ => asked.jobs[t] == ToPush))
  {
    hide Wf, Covered, Allocated, Serviced, FreeFrom, Removable;
    var ask := StepsOf(t, c)[0];
    if Enabled(s, ask) {
      StepKeepsWf(s, ask);
      OtherStepsAreCovered(s, ask);
    }
  }

  lemma {:induction false} FewerRowsStayValid(s: State, s': State)
    requires s'.slots == s.slots && AllValid(AllMappings(s))
    requires forall p :: p in s'.ports ==> p in s.ports
    ensures AllValid(AllMappings(s'))
  {
    hide MappingsOf, Serves, ValidMapping;
    var ms := AllMappings(s');
    forall i | 0 <= i < |ms| ensures ValidMapping(ms[i]) {
      assert ms[i] in ms;
      OwnedIsMapped(s', ms[i]);
      OwnedIsMapped(s, ms[i]);
    }
  }

  lemma {:induction false} NewRowIsNotLive(s: State, s': State, p: Port)
    requires Wf(s') && Covered(s) && s'.rules == s.rules && p in s'.ports && p !in s.ports
    requires forall q :: q in s.ports ==> q in s'.ports
    ensures NothingLive(s', {p})
  {
    hide InternalsInRange, DistinctSlots;
    forall r | r in s.rules && Serves(r, p, s'.slots) ensures false {
      assert Owned(r, s);
      var q :| q in s.ports && Serves(r, q, s.slots);
      ExternalIdentifies(s'.ports, p, q);
    }
  }

  lemma {:induction false} OpeningAloneIsCoveredIff(s: State, t: int, c: Call)
    requires Wf(s) && Covered(s) && t !in s.jobs && c.Opening?
    ensures var back := Step(Step(Step(Step(s, StepsOf(t, c)[0]), Read(t)), Event.Load(t, c.first)), Finish(t, true));
            Covered(Step(Step(back, Read(t)), Event.Load(t, c.second))) <==> !Orphans(s, c)
  {
    hide Wf, Covered, MappingsOf, AllValid, Allocated, DropRow;
    var asked := Step(s, StepsOf(t, c)[0]);
    AskingIsCovered(s, t, c);
    if t in asked.jobs && asked.jobs[t].ToPublish? {
      var p := asked.jobs[t].port;
      OpenedRowIsNew(s, t, c);
      NewRowIsNotLive(s, asked, p);
      PublishAloneIsCoveredIff(asked, t, c.first, c.second);
      if LosesReply(asked, c.first) {
        GivingBackLeavesFewer(asked, t, c.first);
        FewerRowsStayValid(asked, Step(Step(Step(asked, Read(t)), Event.Load(t, c.first)), Finish(t, true)));
      }
    } else {
      StoppedIsIdle(asked, t, c.first, true);
      StoppedIsIdle(asked, t, c.second, true);
    }
  }

  lemma {:induction false} OpenedRowIsNew(s: State, t: int, c: Call)
    requires Wf(s) && t !in s.jobs && c.Opening?
    ensures var asked := Step(s, StepsOf(t, c)[0]);
            && asked.rules == s.rules && (forall q :: q in s.ports ==> q in asked.ports)
            && (t in asked.jobs && asked.jobs[t].ToPublish? ==>
                  asked.jobs[t].port in asked.ports && asked.jobs[t].port !in s.ports)
  {
    hide Allocated, Sound, InternalsInRange, DistinctSlots;
    if Enabled(s, StepsOf(t, c)[0]) {
      AllocatedIsSound(s.ports, Request(c.workspace, c.internal, Both, User), c.draws, c.free);
    }
  }

  lemma {:induction false} GivingBackLeavesFewer(s: State, t: int, first: Load)
    requires Wf(s) && t in s.jobs && s.jobs[t].ToPublish?
    ensures var back := Step(Step(Step(s, Read(t)), Event.Load(t, first)), Finish(t, true));
            back.slots == s.slots && forall q :: q in back.ports ==> q in s.ports
  {
    hide MappingsOf, After, Synced, Sound, InternalsInRange, DistinctSlots, DropRow;
    PushIs(s, t, first);
    DropRowIs(s.ports, s.jobs[t].port);
  }

  /** One request alone, however its calls end, leaves every rule owned unless it is a
      publish whose rules took effect, whose reply was lost and whose repair failed. */
  lemma {:induction false} CallAloneIsCoveredIff(s: State, t: int, c: Call)
    requires Wf(s) && Covered(s) && t !in s.jobs
    ensures Covered(RunFrom(s, StepsOf(t, c))) <==> !Orphans(s, c)
  {
    hide Step, Wf, Covered, RunFrom, Allocated, MappingsOf, AllValid;
    Unrolled(s, StepsOf(t, c));
    AskingIsCovered(s, t, c);
    var asked := Step(s, StepsOf(t, c)[0]);
    match c
    case Opening(_, _, _, _, _, _) => OpeningAloneIsCoveredIff(s, t, c);
    case Closing(_, load) =>
      if t in asked.jobs && asked.jobs[t] != Ended {
        DeletionAloneIsCovered(asked, t, load, true);
      } else {
        StoppedIsIdle(asked, t, load, true);
      }
    case Deleting(_, load, destroyed) =>
      if t in asked.jobs && asked.jobs[t] != Ended {
        DeletionAloneIsCovered(asked, t, load, destroyed);
      } else {
        StoppedIsIdle(asked, t, load, destroyed);
      }
    case Creating(_, _, _, _, load) => PushAloneIsCovered(asked, t, load);
    case Reserving(_, _, _, _, load) => PushAloneIsCovered(asked, t, load);
    case Refreshing(load) => PushAloneIsCovered(asked, t, load);
  }

  lemma {:induction false} PushAloneIsCovered(s: State, t: int, load: Load)
    requires Covered(s) && (t in s.jobs ==> s.jobs[t] == ToPush || s.jobs[t] == Ended)
    ensures Covered(Step(Step(s, Read(t)), Event.Load(t, load)))
  {
    hide Step, Covered, MappingsOf, AllValid;
    if t in s.jobs && s.jobs[t] == ToPush {
      RepairIsCoveredIff(s, t, load);
    } else {
      StoppedIsIdle(s, t, load, true);
    }
  }

  /** Requests one after another, the n-th called n. */
  function Serial(calls: seq<Call>): State {
    if calls == [] then START
    else RunFrom(Serial(calls[..|calls| - 1]), StepsOf(|calls| - 1, calls[|calls| - 1]))
  }

  ghost predicate SerialCovered(calls: seq<Call>, n: nat)
    requires n <= |calls|
  {
    Covered(Serial(calls[..n]))
  }

  predicate OrphansAt(calls: seq<Call>, n: nat)
    requires n < |calls|
  {
    Orphans(Serial(calls[..n]), calls[n])
  }

  lemma {:induction false} SerialKeepsWf(calls: seq<Call>)
    ensures Wf(Serial(calls)) && forall t :: t in Serial(calls).jobs ==> t < |calls|
  {
    hide Wf, RunFrom;
    if calls == [] {
      StartIsWf();
    } else {
      var front := calls[..|calls| - 1];
      SerialKeepsWf(front);
      RunKeepsWf(Serial(front), StepsOf(|front|, calls[|front|]));
      OnlyItsOwnJob(Serial(front), StepsOf(|front|, calls[|front|]), |front|);
    }
  }

  lemma {:induction false} OnlyItsOwnJob(s: State, events: seq<Event>, t: int)
    requires forall i :: 0 <= i < |events| ==> events[i].t == t
    ensures forall u :: u in RunFrom(s, events).jobs ==> u in s.jobs || u == t
  {
    if events != [] {
      var front, e := events[..|events| - 1], events[|events| - 1];
      OnlyItsOwnJob(s, front, t);
      if Enabled(RunFrom(s, front), e) {
        OneJobMoves(RunFrom(s, front), e);
      }
    }
  }

  lemma OneJobMoves(s: State, e: Event)
    requires Enabled(s, e)
    ensures forall u :: u in Next(s, e).jobs ==> u in s.jobs || u == e.t
  {
    hide MappingsOf, Allocated, Serviced, DropRow, Keep, RulesOf, FreeFrom;
  }

  /** Over every sequence of whole requests: every live rule belongs to an existing
      reservation after each of them exactly when no publish loses its reply and its
      repair as well. */
  lemma {:induction false} EverySerialRunIsCoveredIff(calls: seq<Call>)
    ensures (forall n :: 0 <= n <= |calls| ==> SerialCovered(calls, n))
       <==> (forall n :: 0 <= n < |calls| ==> !OrphansAt(calls, n))
  {
    SerialUpTo(calls, |calls|);
  }

  lemma {:induction false} SerialUpTo(calls: seq<Call>, m: nat)
    requires m <= |calls|
    ensures (forall n :: 0 <= n <= m ==> SerialCovered(calls, n)) <==> (forall n :: 0 <= n < m ==> !OrphansAt(calls, n))
  {
    hide SerialCovered, OrphansAt;
    if m == 0 {
      SerialAtFirst(calls);
    } else {
      SerialUpTo(calls, m - 1);
      if SerialCovered(calls, m - 1) {
        SerialNext(calls, m - 1);
      }
    }
  }

  lemma SerialAtFirst(calls: seq<Call>)
    ensures SerialCovered(calls, 0)
  {
    hide Owned;
    assert calls[..0] == [];
    assert START.rules == [];
  }

  lemma {:induction false} SerialNext(calls: seq<Call>, n: nat)
    requires n < |calls| && SerialCovered(calls, n)
    ensures SerialCovered(calls, n + 1) <==> !OrphansAt(calls, n)
  {
    hide Wf, Covered, RunFrom, StepsOf, Orphans;
    SerialKeepsWf(calls[..n]);
    assert calls[..n + 1][..n] == calls[..n] && calls[..n + 1][n] == calls[n];
    CallAloneIsCoveredIff(Serial(calls[..n]), n, calls[n]);
  }

  // ------------------------------------------------------------------------ end to end

  /** At no time are there more than `limit` machines. */
  predicate Roomy(events: seq<Event>, limit: nat) {
    forall n :: 0 <= n <= |events| ==> |Run(events[..n]).slots| <= limit
  }

  predicate SlotsWithin(s: State, limit: nat) {
    forall ws :: ws in s.slots ==> s.slots[ws] <= limit
  }

  lemma {:induction false} ValuesFit<K, V>(m: map<K, V>)
    ensures |m.Values| <= |m|
  {
    if m != map[] {
      var k :| k in m;
      var less := m - {k};
      ValuesFit(less);
      assert less.Keys == m.Keys - {k};
      forall v | v in m.Values ensures v in less.Values + {m[k]} {
        var j :| j in m && m[j] == v;
        assert j != k ==> j in less && less[j] == v;
      }
      SubsetFits(m.Values, less.Values + {m[k]});
    }
  }

  lemma {:induction false} SubsetFits<T>(a: set<T>, b: set<T>)
    requires a <= b
    ensures |a| <= |b|
  {
    if a != {} {
      var x :| x in a;
      SubsetFits(a - {x}, b - {x});
    }
  }

  /** Smallest-free allocation keeps slots small: as many machines, so high a slot. */
  lemma {:induction false} SlotsStayWithin(events: seq<Event>, limit: nat)
    requires Roomy(events, limit)
    ensures SlotsWithin(Run(events), limit)
  {
    hide Enabled, Next;
    if events != [] {
      var m := |events| - 1;
      var front, e := events[..m], events[m];
      assert forall n :: 0 <= n <= m ==> front[..n] == events[..n];
      SlotsStayWithin(front, limit);
      assert events[..m + 1] == events && events[..m] == front;
      assert |Run(events[..m + 1]).slots| <= limit;
      if Enabled(Run(front), e) {
        StepStaysWithin(Run(front), e, limit);
      }
    }
  }

  lemma {:induction false} StepStaysWithin(s: State, e: Event, limit: nat)
    requires SlotsWithin(s, limit) && Enabled(s, e) && |Next(s, e).slots| <= limit
    ensures SlotsWithin(Next(s, e), limit)
  {
    hide MappingsOf, Allocated, Serviced, DropRow, Keep, RulesOf, FreeFrom;
    if e.AskCreate? {
      ValuesFit(s.slots);
      assert |Next(s, e).slots| == |s.slots| + 1;
    } else {
      SlotsOnlyGo(s, e);
    }
  }

  lemma SlotsOnlyGo(s: State, e: Event)
    requires Enabled(s, e) && !e.AskCreate?
    ensures forall ws :: ws in Next(s, e).slots ==> ws in s.slots && Next(s, e).slots[ws] == s.slots[ws]
  {
    hide MappingsOf, Allocated, Serviced, DropRow, Keep, RulesOf, FreeFrom, Pushing;
  }

  const MACHINES := 245

  lemma {:induction false} EveryReadingIsValid(events: seq<Event>)
    requires Roomy(events, MACHINES)
    ensures AllValid(AllMappings(Run(events)))
  {
    hide AllValid, MappingsOf;
    var s := Run(events);
    EveryRunKeepsWf(events);
    SlotsStayWithin(events, MACHINES);
    forall i | 0 <= i < |s.ports| ensures ValidRow(s.ports[i], s.slots) {
      assert s.ports[i] in s.ports;
      SoundRow(s.ports, s.ports[i]);
    }
    ValidRowsMakeAValidSync(s.ports, s.slots, None, None);
  }

  /** From index allocation, port allocation and expansion to the rewritten rules: after
      any run of these steps with never more than 245 machines, a full push that takes
      effect forwards each (port, protocol) exactly when some reservation covers it, to the
      address and internal port of its owner, and nobody else has that address. */
  lemma {:induction false} PublishedPortsReachTheirOwner(
    events: seq<Event>, t: int, load: Load, wire: Wire, dport: int)
    requires Roomy(events, MACHINES) && load != NotApplied
    requires t in Run(events).jobs && Run(events).jobs[t] == ToPush
    ensures var s := Step(Step(Run(events), Read(t)), Event.Load(t, load));
            && (Route(s.rules, wire, dport).Some? <==> exists p :: p in s.ports && Reserves(p, wire, dport, s.slots))
            && forall p :: p in s.ports && Reserves(p, wire, dport, s.slots) ==>
                 && Route(s.rules, wire, dport) == Some((WorkspaceIp(s.slots[p.workspace]), p.internal))
                 && forall ws :: ws in s.slots && WorkspaceIp(s.slots[ws]) == WorkspaceIp(s.slots[p.workspace]) ==>
                      ws == p.workspace
  {
    hide MappingsOf, Route, Reserves, WorkspaceIp, RulesOf;
    var s := Run(events);
    EveryRunKeepsWf(events);
    EveryReadingIsValid(events);
    PushIs(s, t, load);
    SyncedRoutesToOwner(s.ports, s.slots, s.rules, wire, dport);
    forall a, b | a in s.slots && b in s.slots && WorkspaceIp(s.slots[a]) == WorkspaceIp(s.slots[b]) ensures a == b {
      RoutedAddressHasOneOwner(s.slots, a, b);
    }
    ReservedHasSlot(wire, dport, s.slots);
  }

  lemma ReservedHasSlot(wire: Wire, dport: int, slots: map<int, nat>)
    ensures forall p :: Reserves(p, wire, dport, slots) ==> p.workspace in slots
  {
  }

  /** And at every moment at which every rule is owned, whatever is forwarded goes to the
      owner of a reservation for it. */
  lemma {:induction false} ForwardedGoesToAnOwner(s: State, wire: Wire, dport: int)
    requires Covered(s) && Route(s.rules, wire, dport).Some?
    ensures exists p ::
              && p in s.ports
              && Reserves(p, wire, dport, s.slots)
              && Route(s.rules, wire, dport) == Some((WorkspaceIp(s.slots[p.workspace]), p.internal))
  {
    RouteIsARule(s.rules, wire, dport);
    var route := Route(s.rules, wire, dport);
    var r := Rule(wire, dport, route.value.0, route.value.1);
    assert Owned(r, s);
    var p :| p in s.ports && Serves(r, p, s.slots);
    assert Reserves(p, wire, dport, s.slots);
  }
}
