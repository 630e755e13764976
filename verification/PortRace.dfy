/** Any number of allocators racing: each checks, draws numbers against what it saw
    taken, and lets the database's unique constraints decide at its commit. */
module PortRace {
  import opened Common
  import opened Ports

  datatype Pc = Checking | Drawing | Holding | Failed

  datatype Allocator = Allocator(request: Request, pc: Pc, taken: set<int>, tries: nat, external: int)

  datatype State = State(table: seq<Port>, allocators: map<int, Allocator>)

  const INIT := State([], map[])

  datatype Event =
    | Ask(t: int, request: Request)
    | CheckOnce(t: int)
    | TryDraw(t: int, candidate: int, hostFree: bool)
    | GiveBack(at: nat)
    | DropWorkspace(workspace: int)

  predicate Enabled(s: State, e: Event) {
    match e
    case Ask(t, r) => t !in s.allocators && Proper(r)
    case CheckOnce(t) => t in s.allocators && s.allocators[t].pc == Checking
    case TryDraw(t, candidate, _) =>
      t in s.allocators && s.allocators[t].pc == Drawing && RANGE_START <= candidate <= RANGE_END
    case GiveBack(at) => at < |s.table| && s.table[at].kind == User
    case DropWorkspace(_) => true
  }

  function Put(s: State, t: int, a: Allocator): State {
    s.(allocators := s.allocators[t := a])
  }

  function Step(s: State, e: Event): State
    requires Enabled(s, e)
  {
    match e
    case Ask(t, r) => Put(s, t, Allocator(r, Checking, {}, 0, 0))
    case CheckOnce(t) =>
      var a := s.allocators[t];
      if Check(s.table, a.request).Some? then Put(s, t, a.(pc := Failed))
      else Put(s, t, a.(pc := Drawing, taken := Externals(s.table)))
    case TryDraw(t, candidate, hostFree) =>
      var a := s.allocators[t];
      var spent := a.(tries := a.tries + 1, pc := if a.tries + 1 == ALLOC_ATTEMPTS then Failed else Drawing);
      if candidate in a.taken || !hostFree then Put(s, t, spent)
      else if Insertable(s.table, RowOf(a.request, candidate)) then
        Put(s.(table := s.table + [RowOf(a.request, candidate)]), t, a.(pc := Holding, external := candidate))
      else Put(s, t, spent.(taken := a.taken + {candidate}))
    case GiveBack(at) => s.(table := Without(s.table, at))
    case DropWorkspace(ws) => s.(table := Keep(s.table, ws))
  }

  function Run(events: seq<Event>): State {
    if events == [] then INIT
    else
      var s := Run(events[..|events| - 1]);
      if Enabled(s, events[|events| - 1]) then Step(s, events[|events| - 1]) else s
  }

  ghost predicate Inv(s: State) {
    && Sound(s.table)
    && forall t :: t in s.allocators ==> Proper(s.allocators[t].request)
  }

  lemma {:induction false} StepKeepsInv(s: State, e: Event)
    requires Inv(s) && Enabled(s, e)
    ensures Inv(Step(s, e))
  {
    hide Sound, Proper;
    match e
    case TryDraw(t, candidate, hostFree) =>
      var p := RowOf(s.allocators[t].request, candidate);
      if candidate !in s.allocators[t].taken && hostFree && Insertable(s.table, p) {
        InsertKeepsSound(s.table, p);
      }
    case GiveBack(at) => WithoutIsSound(s.table, at);
    case DropWorkspace(ws) => KeepKeepsLaws(s.table, ws);
    case _ =>
  }

  lemma {:induction false} EmptyIsSound()
    ensures Inv(INIT)
  {
  }

  lemma {:induction false} RunKeepsInv(events: seq<Event>)
    ensures Inv(Run(events))
  {
    if events == [] {
      EmptyIsSound();
    } else {
      RunKeepsInv(events[..|events| - 1]);
      var s := Run(events[..|events| - 1]);
      if Enabled(s, events[|events| - 1]) {
        StepKeepsInv(s, events[|events| - 1]);
      }
    }
  }

  /** In every interleaving of competing allocators, releases and deletions: committed
      external ports are pairwise distinct and in range, and no workspace publishes one
      internal port twice for one purpose. */
  lemma {:induction false} EveryInterleavingIsSound(events: seq<Event>)
    ensures var table := Run(events).table;
            DistinctExternals(table) && InRange(table) && DistinctServices(table)
  {
    RunKeepsInv(events);
  }

  /** A request draws up to forty numbers, and fails at its fortieth or at its check. */
  ghost predicate FortyDraws(s: State) {
    forall t :: t in s.allocators ==>
      var a := s.allocators[t];
      match a.pc
      case Checking => a.tries == 0
      case Drawing => a.tries < 40
      case Failed => a.tries == 0 || a.tries == 40
      case Holding => a.tries < 40
  }

  /** A draw either commits the row asked for or is spent, whatever the reason. */
  lemma {:induction false} DrawIsSpent(s: State, t: int, candidate: int, hostFree: bool)
    requires Enabled(s, TryDraw(t, candidate, hostFree))
    ensures var r := Step(s, TryDraw(t, candidate, hostFree));
            var q := s.allocators[t].request;
            && t in r.allocators
            && if r.allocators[t].pc == Holding
               then r.table == s.table + [Port(q.workspace, q.internal, candidate, q.protocol, q.kind)]
               else r.table == s.table && r.allocators[t].tries == s.allocators[t].tries + 1
  {
    hide Insertable;
  }

  lemma {:induction false} EveryRequestDrawsForty(events: seq<Event>)
    ensures FortyDraws(Run(events))
  {
    if events != [] {
      EveryRequestDrawsForty(events[..|events| - 1]);
    }
  }

  // ----------------------------------------------------------- the five-port limit

  predicate Pending(s: State, t: int, ws: int) {
    && t in s.allocators && s.allocators[t].pc == Drawing
    && s.allocators[t].request.workspace == ws && s.allocators[t].request.kind == User
  }

  /** No two customer requests of one workspace are between check and commit at once. */
  ghost predicate OneAtATime(s: State) {
    forall ws, t, u :: Pending(s, t, ws) && Pending(s, u, ws) ==> t == u
  }

  ghost predicate NeverOverlapping(events: seq<Event>) {
    forall n :: 0 <= n <= |events| ==> OneAtATime(Run(events[..n]))
  }

  ghost predicate RoomForPending(s: State) {
    && WithinLimit(s.table)
    && forall ws, t :: Pending(s, t, ws) ==> UserCount(s.table, ws) < MAX_PER_WORKSPACE
  }

  lemma {:induction false} WithoutCounts(table: seq<Port>, at: nat, ws: int)
    requires at < |table|
    ensures UserCount(Without(table, at), ws) <= UserCount(table, ws)
  {
    var rest := table[at + 1..];
    CountConcat(table[..at], rest, ws);
    CountConcat(table[..at], [table[at]] + rest, ws);
    CountConcat([table[at]], rest, ws);
    assert table == table[..at] + ([table[at]] + rest);
  }

  lemma {:induction false} StepKeepsRoom(s: State, e: Event)
    requires Inv(s) && RoomForPending(s) && Enabled(s, e) && OneAtATime(s)
    ensures RoomForPending(Step(s, e))
  {
    hide Sound, UserCount, Published, Insertable, Externals;
    var r := Step(s, e);
    match e
    case Ask(t, request) =>
      assert forall ws, u :: Pending(r, u, ws) ==> Pending(s, u, ws);
    case CheckOnce(t) =>
      assert forall ws, u :: Pending(r, u, ws) ==> u == t || Pending(s, u, ws);
      assert forall ws :: Pending(r, t, ws) ==> Check(s.table, s.allocators[t].request).None?;
    case TryDraw(t, candidate, hostFree) =>
      var a := s.allocators[t];
      if r.allocators[t].pc == Holding {
        var p := RowOf(a.request, candidate);
        forall ws
          ensures UserCount(r.table, ws) <= MAX_PER_WORKSPACE
          ensures forall u :: Pending(r, u, ws) ==> UserCount(r.table, ws) < MAX_PER_WORKSPACE
        {
          CountAppend(s.table, p, ws);
          assert forall u :: Pending(r, u, ws) ==> Pending(s, u, ws) && u != t;
          assert a.request.workspace == ws && a.request.kind == User ==> Pending(s, t, ws);
        }
      } else {
        assert r.table == s.table;
        assert forall ws, u :: Pending(r, u, ws) ==> Pending(s, u, ws);
      }
    case GiveBack(at) =>
      forall ws ensures UserCount(r.table, ws) <= UserCount(s.table, ws) { WithoutCounts(s.table, at, ws); }
      assert forall ws, u :: Pending(r, u, ws) ==> Pending(s, u, ws);
    case DropWorkspace(w) =>
      KeepKeepsLaws(s.table, w);
      assert forall ws, u :: Pending(r, u, ws) ==> Pending(s, u, ws);
  }

  /** The limit of five holds in every run in which a workspace's own requests do not
      overlap, whatever other workspaces do at the same time. */
  lemma {:induction false} LimitHoldsWithoutOverlap(events: seq<Event>)
    requires NeverOverlapping(events)
    ensures WithinLimit(Run(events).table)
  {
    RoomWithoutOverlap(events);
  }

  lemma {:induction false} RoomWithoutOverlap(events: seq<Event>)
    requires NeverOverlapping(events)
    ensures RoomForPending(Run(events))
  {
    if events != [] {
      var n := |events| - 1;
      var front := events[..n];
      forall k | 0 <= k <= |front| ensures OneAtATime(Run(front[..k])) {
        assert front[..k] == events[..k];
      }
      RoomWithoutOverlap(front);
      RunKeepsInv(front);
      assert OneAtATime(Run(front)) by { assert front[..n] == front; }
      if Enabled(Run(front), events[n]) {
        StepKeepsRoom(Run(front), events[n]);
      }
    }
  }

  /** A row of this workspace already publishes the internal port for a customer. */
  predicate HasRow(table: seq<Port>, ws: int, internal: int) {
    exists q :: q in table && q.workspace == ws && q.internal == internal && q.protocol == Both
  }

  /** What the requests between check and commit could still publish; two requests for
      one internal port are one. */
  function AtStake(s: State, ws: int): set<Request> {
    set t | t in s.allocators && Pending(s, t, ws) && !HasRow(s.table, ws, s.allocators[t].request.internal)
      :: s.allocators[t].request
  }

  /** How many customer ports the workspace would have if all of them were published. */
  function Stake(s: State, ws: int): nat {
    UserCount(s.table, ws) + |AtStake(s, ws)|
  }

  /** A draw that commits: what it adds to the count it takes off what is at stake. */
  predicate Commits(s: State, t: int, candidate: int, hostFree: bool) {
    && Enabled(s, TryDraw(t, candidate, hostFree))
    && candidate !in s.allocators[t].taken && hostFree
    && Insertable(s.table, RowOf(s.allocators[t].request, candidate))
  }

  /** One customer's commit keeps the limit exactly when there is room at that moment,
      whatever there was at its check. */
  lemma {:induction false} CommitKeepsLimitIff(s: State, t: int, candidate: int, hostFree: bool)
    requires Inv(s) && WithinLimit(s.table) && Commits(s, t, candidate, hostFree)
    ensures WithinLimit(Step(s, TryDraw(t, candidate, hostFree)).table) <==>
      (s.allocators[t].request.kind == User ==>
         UserCount(s.table, s.allocators[t].request.workspace) < MAX_PER_WORKSPACE)
  {
    hide UserCount, Insertable;
    var r := s.allocators[t].request;
    var p := RowOf(r, candidate);
    forall ws
      ensures UserCount(s.table + [p], ws)
           == UserCount(s.table, ws) + (if r.workspace == ws && r.kind == User then 1 else 0)
    {
      CountAppend(s.table, p, ws);
    }
    assert WithinLimit(s.table + [p]) ==> UserCount(s.table + [p], r.workspace) <= MAX_PER_WORKSPACE;
  }

  lemma {:induction false} CommitMovesStake(s: State, t: int, candidate: int, hostFree: bool, ws: int)
    requires Inv(s) && Commits(s, t, candidate, hostFree)
    ensures var r := Step(s, TryDraw(t, candidate, hostFree));
            && Stake(r, ws) <= Stake(s, ws)
            && (Pending(s, t, ws) ==>
                  && s.allocators[t].request in AtStake(s, ws)
                  && UserCount(r.table, ws) == UserCount(s.table, ws) + 1
                  && AtStake(r, ws) == AtStake(s, ws) - {s.allocators[t].request})
            && (!Pending(s, t, ws) ==>
                  UserCount(r.table, ws) == UserCount(s.table, ws) && AtStake(r, ws) <= AtStake(s, ws))
  {
    hide UserCount, Sound;
    var a := s.allocators[t];
    var p := RowOf(a.request, candidate);
    var r := Step(s, TryDraw(t, candidate, hostFree));
    CountAppend(s.table, p, ws);
    assert r.table == s.table + [p];
    forall i ensures HasRow(r.table, ws, i) <==>
      HasRow(s.table, ws, i) || (p.workspace == ws && p.internal == i && p.protocol == Both)
    {
      RowAppend(s.table, p, ws, i);
    }
    assert forall u :: Pending(r, u, ws) <==> u != t && Pending(s, u, ws);
    assert AtStake(r, ws) <= AtStake(s, ws);
    if Pending(s, t, ws) {
      assert Proper(a.request);
      assert !HasRow(s.table, ws, a.request.internal);
      assert a.request in AtStake(s, ws);
      assert AtStake(r, ws) == AtStake(s, ws) - {a.request};
    } else {
      SizeOfSubset(AtStake(r, ws), AtStake(s, ws));
    }
  }

  lemma RowAppend(table: seq<Port>, p: Port, ws: int, internal: int)
    ensures HasRow(table + [p], ws, internal) <==>
      HasRow(table, ws, internal) || (p.workspace == ws && p.internal == internal && p.protocol == Both)
  {
    assert p in table + [p];
    assert forall q :: q in table + [p] <==> q in table || q == p;
  }

  lemma {:induction false} SizeOfSubset(a: set<Request>, b: set<Request>)
    requires a <= b
    ensures |a| <= |b|
  {
    if |a| != 0 {
      var x :| x in a;
      SizeOfSubset(a - {x}, b - {x});
    }
  }

  // ------------------------------------------------------- when the limit is at risk

  function RunFrom(s: State, events: seq<Event>): State {
    if events == [] then s
    else
      var before := RunFrom(s, events[..|events| - 1]);
      if Enabled(before, events[|events| - 1]) then Step(before, events[|events| - 1]) else before
  }

  lemma {:induction false} RunContinues(events: seq<Event>, more: seq<Event>)
    ensures Run(events + more) == RunFrom(Run(events), more)
  {
    hide Step, Enabled;
    if more == [] {
      assert events + more == events;
    } else {
      var front, e := more[..|more| - 1], more[|more| - 1];
      RunContinues(events, front);
      assert events + more == (events + front) + [e];
      RunAppend(events + front, e);
    }
  }

  lemma {:induction false} RunAppend(events: seq<Event>, e: Event)
    ensures Run(events + [e]) == if Enabled(Run(events), e) then Step(Run(events), e) else Run(events)
  {
    hide Step, Enabled;
    assert (events + [e])[..|events|] == events;
  }

  predicate DrawsOnly(events: seq<Event>) {
    forall i :: 0 <= i < |events| ==> events[i].TryDraw?
  }

  lemma {:induction false} DrawKeepsStake(s: State, e: Event, ws: int)
    requires Inv(s) && e.TryDraw? && Enabled(s, e)
    ensures Inv(Step(s, e)) && Stake(Step(s, e), ws) <= Stake(s, ws)
  {
    hide UserCount, Insertable, Sound;
    StepKeepsInv(s, e);
    if Commits(s, e.t, e.candidate, e.hostFree) {
      CommitMovesStake(s, e.t, e.candidate, e.hostFree, ws);
    } else {
      var r := Step(s, e);
      assert r.table == s.table;
      assert forall u :: Pending(r, u, ws) ==> Pending(s, u, ws) && r.allocators[u].request == s.allocators[u].request;
      assert AtStake(r, ws) <= AtStake(s, ws);
      SizeOfSubset(AtStake(r, ws), AtStake(s, ws));
    }
  }

  lemma {:induction false} DrawsKeepStake(s: State, draws: seq<Event>, ws: int)
    requires Inv(s) && DrawsOnly(draws)
    ensures Inv(RunFrom(s, draws)) && Stake(RunFrom(s, draws), ws) <= Stake(s, ws)
  {
    hide Inv, Stake, Step, Enabled;
    if draws != [] {
      var front, e := draws[..|draws| - 1], draws[|draws| - 1];
      DrawsKeepStake(s, front, ws);
      var before := RunFrom(s, front);
      if Enabled(before, e) {
        DrawKeepsStake(before, e, ws);
      }
    }
  }

  /** Enough numbers that nobody holds and no request has ruled out for itself. */
  predicate Unused(s: State, numbers: seq<int>) {
    && (forall i :: 0 <= i < |numbers| ==>
          && RANGE_START <= numbers[i] <= RANGE_END && numbers[i] !in Externals(s.table)
          && forall t :: t in s.allocators ==> numbers[i] !in s.allocators[t].taken)
    && (forall i, j :: 0 <= i < j < |numbers| ==> numbers[i] != numbers[j])
  }

  lemma {:induction false} UnusedCommits(s: State, t: int, ws: int, numbers: seq<int>)
    requires Inv(s) && Pending(s, t, ws) && !HasRow(s.table, ws, s.allocators[t].request.internal)
    requires numbers != [] && Unused(s, numbers)
    ensures Commits(s, t, numbers[0], true)
    ensures Unused(Step(s, TryDraw(t, numbers[0], true)), numbers[1..])
  {
    hide UserCount, Sound;
    var r := Step(s, TryDraw(t, numbers[0], true));
    var p := RowOf(s.allocators[t].request, numbers[0]);
    assert Proper(s.allocators[t].request);
    assert numbers[0] !in Externals(s.table);
    forall q | q in s.table ensures q.external != p.external {
      assert q.external in Externals(s.table);
    }
    assert Insertable(s.table, p);
    assert r.table == s.table + [p];
    var rest := numbers[1..];
    forall i | 0 <= i < |rest|
      ensures rest[i] !in Externals(r.table)
    {
      assert rest[i] == numbers[i + 1];
    }
  }

  /** All that is at stake can be published, one after another. */
  lemma {:induction false} StakeCanBePublished(s: State, ws: int, numbers: seq<int>) returns (draws: seq<Event>)
    requires Inv(s) && Unused(s, numbers) && |numbers| >= |AtStake(s, ws)|
    ensures DrawsOnly(draws) && UserCount(RunFrom(s, draws).table, ws) == Stake(s, ws)
    decreases |AtStake(s, ws)|
  {
    hide UserCount, Sound, Insertable, Unused;
    if AtStake(s, ws) == {} {
      draws := [];
    } else {
      var request :| request in AtStake(s, ws);
      var t :| t in s.allocators && Pending(s, t, ws) && !HasRow(s.table, ws, s.allocators[t].request.internal)
            && s.allocators[t].request == request;
      UnusedCommits(s, t, ws, numbers);
      CommitMovesStake(s, t, numbers[0], true, ws);
      var e := TryDraw(t, numbers[0], true);
      StepKeepsInv(s, e);
      assert |AtStake(Step(s, e), ws)| == |AtStake(s, ws)| - 1;
      var rest := StakeCanBePublished(Step(s, e), ws, numbers[1..]);
      draws := [e] + rest;
      FirstStep(s, e, rest);
    }
  }

  lemma {:induction false} FirstStep(s: State, e: Event, rest: seq<Event>)
    requires Enabled(s, e)
    ensures RunFrom(s, [e] + rest) == RunFrom(Step(s, e), rest)
  {
    hide Step, Enabled;
    var all := [e] + rest;
    if rest == [] {
      assert all[..0] == [];
      assert RunFrom(s, all[..0]) == s;
    } else {
      var front := rest[..|rest| - 1];
      FirstStep(s, e, front);
      assert all[..|all| - 1] == [e] + front && all[|all| - 1] == rest[|rest| - 1];
    }
  }

  /** After any run: the requests now between check and commit can take a workspace over
      the limit exactly when its ports and what they have at stake are more than five,
      provided that many numbers are left. */
  lemma {:induction false} LimitAtRiskIff(events: seq<Event>, ws: int, numbers: seq<int>)
    requires Unused(Run(events), numbers) && |numbers| >= |AtStake(Run(events), ws)|
    ensures (exists draws :: DrawsOnly(draws) && UserCount(Run(events + draws).table, ws) > MAX_PER_WORKSPACE)
       <==> Stake(Run(events), ws) > MAX_PER_WORKSPACE
  {
    var s := Run(events);
    RunKeepsInv(events);
    if Stake(s, ws) > MAX_PER_WORKSPACE {
      var draws := StakeCanBePublished(s, ws, numbers);
      RunContinues(events, draws);
      assert DrawsOnly(draws) && UserCount(Run(events + draws).table, ws) > MAX_PER_WORKSPACE;
    } else {
      forall draws | DrawsOnly(draws) ensures UserCount(Run(events + draws).table, ws) <= MAX_PER_WORKSPACE {
        RunContinues(events, draws);
        DrawsKeepStake(s, draws, ws);
      }
    }
  }

  /** Event `n` of the run takes effect as a customer's commit. */
  predicate CustomerCommits(events: seq<Event>, n: nat)
    requires n < |events|
  {
    var s, e := Run(events[..n]), events[n];
    e.TryDraw? && Commits(s, e.t, e.candidate, e.hostFree) && s.allocators[e.t].request.kind == User
  }

  /** The workspace of a customer's commit has room at that moment. */
  predicate HasRoom(events: seq<Event>, n: nat)
    requires n < |events|
  {
    CustomerCommits(events, n) ==>
      UserCount(Run(events[..n]).table, Run(events[..n]).allocators[events[n].t].request.workspace) < MAX_PER_WORKSPACE
  }

  ghost predicate WithinAfter(events: seq<Event>, n: nat)
    requires n <= |events|
  {
    WithinLimit(Run(events[..n]).table)
  }

  lemma {:induction false} LimitNext(events: seq<Event>, n: nat)
    requires n < |events| && WithinAfter(events, n)
    ensures WithinAfter(events, n + 1) <==> HasRoom(events, n)
  {
    hide UserCount, Sound, WithinLimit, Insertable;
    var s, e := Run(events[..n]), events[n];
    assert events[..n + 1] == events[..n] + [e];
    RunAppend(events[..n], e);
    RunKeepsInv(events[..n]);
    if Enabled(s, e) {
      match e
      case TryDraw(t, candidate, hostFree) =>
        if Commits(s, t, candidate, hostFree) {
          CommitKeepsLimitIff(s, t, candidate, hostFree);
        }
      case GiveBack(at) => LessKeepsLimit(s.table, at);
      case DropWorkspace(ws) => KeepKeepsLaws(s.table, ws); KeptKeepsLimit(s.table, ws);
      case _ =>
    }
  }

  lemma {:induction false} LessKeepsLimit(table: seq<Port>, at: nat)
    requires at < |table| && WithinLimit(table)
    ensures WithinLimit(Without(table, at))
  {
    forall ws ensures UserCount(Without(table, at), ws) <= MAX_PER_WORKSPACE {
      WithoutCounts(table, at, ws);
    }
  }

  lemma KeptKeepsLimit(table: seq<Port>, workspace: int)
    requires WithinLimit(table)
    requires forall ws :: UserCount(Keep(table, workspace), ws) <= UserCount(table, ws)
    ensures WithinLimit(Keep(table, workspace))
  {
  }

  lemma {:induction false} LimitUpTo(events: seq<Event>, m: nat)
    requires m <= |events|
    ensures (forall n :: 0 <= n <= m ==> WithinAfter(events, n)) <==> (forall n :: 0 <= n < m ==> HasRoom(events, n))
  {
    if m == 0 {
      assert Run(events[..0]).table == [];
    } else {
      hide WithinAfter, HasRoom;
      LimitUpTo(events, m - 1);
      if WithinAfter(events, m - 1) {
        LimitNext(events, m - 1);
      }
    }
  }

  /** Over every run, interleaved in any way: no workspace is ever over five exactly when
      every customer's commit finds fewer than five at its own moment. The code looks at
      the moment of the check. */
  lemma {:induction false} LimitHoldsIff(events: seq<Event>)
    ensures (forall n :: 0 <= n <= |events| ==> WithinAfter(events, n))
       <==> (forall n :: 0 <= n < |events| ==> HasRoom(events, n))
  {
    LimitUpTo(events, |events|);
  }

  function Asking(ws: int, n: nat): seq<Event> {
    if n == 0 then []
    else Asking(ws, n - 1) + [Ask(n, Request(ws, n, Both, User)), CheckOnce(n)]
  }

  /** `n` requests for the internal ports 1 to `n` have passed their checks. */
  ghost predicate AllAsked(s: State, ws: int, n: nat) {
    && s.table == []
    && (forall t :: t in s.allocators <==> 1 <= t <= n)
    && (forall t :: 1 <= t <= n ==>
          s.allocators[t] == Allocator(Request(ws, t, Both, User), Drawing, {}, 0, 0))
  }

  lemma AskAsks(s: State, ws: int, n: nat)
    requires AllAsked(s, ws, n) && n < 65535
    ensures var ask, check := Ask(n + 1, Request(ws, n + 1, Both, User)), CheckOnce(n + 1);
            && Enabled(s, ask) && Enabled(Step(s, ask), check)
            && AllAsked(Step(Step(s, ask), check), ws, n + 1)
  {
    assert Externals([]) == {};
  }

  lemma {:induction false} AskingAsks(ws: int, n: nat)
    requires n <= 65535
    ensures AllAsked(Run(Asking(ws, n)), ws, n)
  {
    hide Step, Enabled, AllAsked;
    if n > 0 {
      var before, r := Run(Asking(ws, n - 1)), Request(ws, n, Both, User);
      AskingAsks(ws, n - 1);
      AskAsks(before, ws, n - 1);
      var asked := Asking(ws, n - 1) + [Ask(n, r)];
      RunAppend(Asking(ws, n - 1), Ask(n, r));
      RunAppend(asked, CheckOnce(n));
      assert Asking(ws, n) == asked + [CheckOnce(n)];
    } else {
      NobodyAsked(ws);
    }
  }

  lemma NobodyAsked(ws: int)
    ensures AllAsked(Run(Asking(ws, 0)), ws, 0)
  {
  }

  function Wanted(ws: int, n: int): Request {
    Request(ws, n, Both, User)
  }

  lemma {:induction false} SixAtStake(s: State, ws: int)
    requires AllAsked(s, ws, 6)
    ensures |AtStake(s, ws)| == 6 && Stake(s, ws) == 6
  {
    hide HasRow;
    forall i | 1 <= i <= 6 ensures Wanted(ws, i) in AtStake(s, ws) {
      NoRows(ws, i);
      assert Pending(s, i, ws) && s.allocators[i].request == Wanted(ws, i);
    }
    assert AtStake(s, ws) == {Wanted(ws, 1), Wanted(ws, 2), Wanted(ws, 3), Wanted(ws, 4), Wanted(ws, 5), Wanted(ws, 6)};
    assert UserCount([], ws) == 0;
  }

  lemma NoRows(ws: int, internal: int)
    ensures !HasRow([], ws, internal)
  {
  }

  lemma NumbersUnused(s: State, ws: int)
    requires AllAsked(s, ws, 6)
    ensures Unused(s, [20000, 20001, 20002, 20003, 20004, 20005])
  {
    assert Externals([]) == {};
  }

  /** From the empty table, for any workspace: six requests that all check before any of
      them commits end with six ports. */
  lemma {:induction false} OverlapBreaksLimit(ws: int) returns (events: seq<Event>)
    ensures UserCount(Run(events).table, ws) == 6
  {
    hide AtStake, Stake, Unused, UserCount, AllAsked;
    var asked := Asking(ws, 6);
    AskingAsks(ws, 6);
    RunKeepsInv(asked);
    SixAtStake(Run(asked), ws);
    NumbersUnused(Run(asked), ws);
    var draws := StakeCanBePublished(Run(asked), ws, [20000, 20001, 20002, 20003, 20004, 20005]);
    RunContinues(asked, draws);
    events := asked + draws;
  }

  // ------------------------------------------------------------ addresses that stay

  /** An SSH or RDP address, once committed, stays through every interleaving that does
      not delete its machine. */
  lemma {:induction false} ServiceAddressStays(events: seq<Event>, more: seq<Event>, ws: int, kind: PortKind)
    requires AddressOf(Run(events).table, ws, kind).Some? && kind != User
    requires forall i :: 0 <= i < |more| ==> more[i] != DropWorkspace(ws)
    ensures AddressOf(Run(events + more).table, ws, kind) == AddressOf(Run(events).table, ws, kind)
  {
    if more == [] {
      assert events + more == events;
    } else {
      var front, e := more[..|more| - 1], more[|more| - 1];
      ServiceAddressStays(events, front, ws, kind);
      assert events + more == (events + front) + [e];
      RunAppend(events + front, e);
      if Enabled(Run(events + front), e) {
        StepKeepsAddress(Run(events + front), e, ws, kind);
      }
    }
  }

  lemma {:induction false} StepKeepsAddress(s: State, e: Event, ws: int, kind: PortKind)
    requires AddressOf(s.table, ws, kind).Some? && kind != User && e != DropWorkspace(ws) && Enabled(s, e)
    ensures AddressOf(Step(s, e).table, ws, kind) == AddressOf(s.table, ws, kind)
  {
    hide AddressOf;
    match e
    case TryDraw(t, candidate, hostFree) =>
      var p := RowOf(s.allocators[t].request, candidate);
      AddressConcat(s.table, [p], ws, kind);
    case GiveBack(at) => WithoutKeepsAddress(s.table, at, ws, kind);
    case DropWorkspace(w) => KeepKeepsAddress(s.table, w, ws, kind);
    case _ =>
  }
}
