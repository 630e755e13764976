/** Reserving external ports: the allocator one process runs, and any number of
    allocators racing for the same numbers. */
module Ports {
  import opened Common

  const RANGE_START := 20000
  const RANGE_END := 29999
  const MAX_PER_WORKSPACE := 5
  const ALLOC_ATTEMPTS := 40

  datatype PortKind = User | Ssh | Rdp
  datatype Protocol = Tcp | Udp | Both

  datatype Port = Port(workspace: int, internal: int, external: int, protocol: Protocol, kind: PortKind)

  /** What a caller asks for. */
  datatype Request = Request(workspace: int, internal: int, protocol: Protocol, kind: PortKind)

  datatype PortError = OutOfRange | Duplicate | Limit | Exhausted

  datatype Result = Reserved(port: Port) | Refused(error: PortError)

  /** A customer's port carries both protocols; the two services are TCP on a fixed
      internal port. */
  predicate Proper(r: Request) {
    match r.kind
    case User => r.protocol == Both
    case Ssh => r.protocol == Tcp && r.internal == 22
    case Rdp => r.protocol == Tcp && r.internal == 3389
  }

  function Externals(table: seq<Port>): set<int> {
    set p | p in table :: p.external
  }

  predicate Published(table: seq<Port>, r: Request) {
    exists p :: p in table && p.workspace == r.workspace && p.internal == r.internal && p.kind == r.kind
  }

  function UserCount(table: seq<Port>, workspace: int): nat {
    if table == [] then 0
    else
      var last := table[|table| - 1];
      UserCount(table[..|table| - 1], workspace) + (if last.workspace == workspace && last.kind == User then 1 else 0)
  }

  /** The checks made before a number is drawn. */
  function Check(table: seq<Port>, r: Request): Option<PortError> {
    if !(1 <= r.internal <= 65535) then Some(OutOfRange)
    else if Published(table, r) then Some(Duplicate)
    else if r.kind == User && UserCount(table, r.workspace) >= MAX_PER_WORKSPACE then Some(Limit)
    else None
  }

  function RowOf(r: Request, external: int): Port {
    Port(r.workspace, r.internal, external, r.protocol, r.kind)
  }

  /** The two unique constraints of the table, as the commit sees them. */
  predicate Insertable(table: seq<Port>, p: Port) {
    forall q :: q in table ==>
      && q.external != p.external
      && !(q.workspace == p.workspace && q.internal == p.internal && q.protocol == p.protocol)
  }

  /** The draw loop. `free` is the probe of the host's own sockets. */
  function Draw(table: seq<Port>, r: Request, taken: set<int>, draws: seq<int>, free: int -> bool): (seq<Port>, Result)
    decreases |draws|
  {
    if draws == [] then (table, Refused(Exhausted))
    else
      var candidate := draws[0];
      if candidate in taken || !free(candidate) then Draw(table, r, taken, draws[1..], free)
      else if Insertable(table, RowOf(r, candidate)) then
        (table + [RowOf(r, candidate)], Reserved(RowOf(r, candidate)))
      else Draw(table, r, taken + {candidate}, draws[1..], free)
  }

  function Allocated(table: seq<Port>, r: Request, draws: seq<int>, free: int -> bool): (seq<Port>, Result) {
    match Check(table, r)
    case Some(e) => (table, Refused(e))
    case None => Draw(table, r, Externals(table), draws, free)
  }

  predicate Drawn(draws: seq<int>) {
    |draws| == ALLOC_ATTEMPTS && forall i :: 0 <= i < |draws| ==> RANGE_START <= draws[i] <= RANGE_END
  }

  // --------------------------------------------------------------- the table's laws

  predicate DistinctExternals(table: seq<Port>) {
    forall i, j :: 0 <= i < j < |table| ==> table[i].external != table[j].external
  }

  predicate InRange(table: seq<Port>) {
    forall p :: p in table ==> RANGE_START <= p.external <= RANGE_END
  }

  /** No workspace publishes one internal port twice for one purpose. */
  predicate DistinctServices(table: seq<Port>) {
    forall i, j :: 0 <= i < j < |table| ==>
      !(table[i].workspace == table[j].workspace && table[i].internal == table[j].internal
        && table[i].kind == table[j].kind)
  }

  predicate ProperRows(table: seq<Port>) {
    forall p :: p in table ==> Proper(Request(p.workspace, p.internal, p.protocol, p.kind))
  }

  ghost predicate Sound(table: seq<Port>) {
    DistinctExternals(table) && InRange(table) && DistinctServices(table) && ProperRows(table)
  }

  ghost predicate WithinLimit(table: seq<Port>) {
    forall ws :: UserCount(table, ws) <= MAX_PER_WORKSPACE
  }

  lemma {:induction false} CountAppend(table: seq<Port>, p: Port, ws: int)
    ensures UserCount(table + [p], ws)
         == UserCount(table, ws) + (if p.workspace == ws && p.kind == User then 1 else 0)
  {
    assert (table + [p])[..|table|] == table;
  }

  /** A row the constraints admit keeps the table sound: for proper rows the protocol
      decides the purpose, so the database's key is as strong as the code's check. */
  lemma {:induction false} InsertKeepsSound(table: seq<Port>, p: Port)
    requires Sound(table) && Insertable(table, p)
    requires RANGE_START <= p.external <= RANGE_END
    requires Proper(Request(p.workspace, p.internal, p.protocol, p.kind))
    ensures Sound(table + [p])
  {
    AppendIsSound(table, p);
  }

  lemma {:induction false} DrawInserts(table: seq<Port>, r: Request, taken: set<int>, draws: seq<int>, free: int -> bool)
    requires forall i :: 0 <= i < |draws| ==> RANGE_START <= draws[i] <= RANGE_END
    ensures var (after, result) := Draw(table, r, taken, draws, free);
            match result
            case Reserved(p) =>
              && after == table + [p] && p == RowOf(r, p.external) && Insertable(table, p)
              && RANGE_START <= p.external <= RANGE_END && free(p.external) && p.external !in taken
            case Refused(e) => after == table && e == Exhausted
    decreases |draws|
  {
    if draws != [] {
      var rest := draws[1..];
      assert forall i :: 0 <= i < |rest| ==> rest[i] == draws[i + 1];
      DrawInserts(table, r, taken, rest, free);
      DrawInserts(table, r, taken + {draws[0]}, rest, free);
    }
  }

  /** The customer rows of one workspace, by their places in the table. */
  function CustomerRows(table: seq<Port>, workspace: int): set<nat> {
    set i: nat | i < |table| && table[i].workspace == workspace && table[i].kind == User
  }

  lemma {:induction false} UserCountIsSize(table: seq<Port>, workspace: int)
    ensures UserCount(table, workspace) == |CustomerRows(table, workspace)|
  {
    if table != [] {
      var front, n := table[..|table| - 1], |table| - 1;
      UserCountIsSize(front, workspace);
      var before, after := CustomerRows(front, workspace), CustomerRows(table, workspace);
      forall i: nat | i < n ensures i in after <==> i in before {
        assert front[i] == table[i];
      }
      assert after == if n in after then before + {n} else before;
    }
  }

  /** A number that a draw can take: no row has it, the host does not use it, and no row of
      the workspace has the internal port under the same protocol. */
  predicate Usable(table: seq<Port>, r: Request, number: int, free: int -> bool) {
    && free(number)
    && forall q :: q in table ==>
         q.external != number
         && !(q.workspace == r.workspace && q.internal == r.internal && q.protocol == r.protocol)
  }

  lemma {:induction false} DrawTakesTheFirstUsable(
    table: seq<Port>, r: Request, taken: set<int>, draws: seq<int>, free: int -> bool, n: nat)
    requires n <= |draws| && forall i :: 0 <= i < n ==> !Usable(table, r, draws[i], free)
    requires n < |draws| ==> Usable(table, r, draws[n], free)
    requires forall x :: x in taken ==> !Usable(table, r, x, free)
    ensures Draw(table, r, taken, draws, free).1 ==
      if n == |draws| then Refused(Exhausted)
      else Reserved(Port(r.workspace, r.internal, draws[n], r.protocol, r.kind))
    decreases |draws|
  {
    if draws != [] && n > 0 {
      var rest := draws[1..];
      assert forall i :: 0 <= i < |rest| ==> rest[i] == draws[i + 1];
      DrawTakesTheFirstUsable(table, r, taken, rest, free, n - 1);
      DrawTakesTheFirstUsable(table, r, taken + {draws[0]}, rest, free, n - 1);
    }
  }

  /** Forty draws, in the published range. */
  lemma DrawnIff(draws: seq<int>)
    ensures Drawn(draws) <==> |draws| == 40 && forall i :: 0 <= i < |draws| ==> 20000 <= draws[i] <= 29999
  {
  }

  /** How a request ends: refused for its range, for a row that publishes the same internal
      port for the same purpose, for five customer ports, or because none of the forty
      numbers drawn is usable; otherwise the row asked for is on the first usable one. */
  lemma {:induction false} AllocationSpelledOut(
    table: seq<Port>, r: Request, draws: seq<int>, free: int -> bool, n: nat)
    requires Drawn(draws) && n <= 40
    requires forall i :: 0 <= i < n ==> !Usable(table, r, draws[i], free)
    requires n < 40 ==> Usable(table, r, draws[n], free)
    ensures Allocated(table, r, draws, free).1 ==
      if !(1 <= r.internal <= 65535) then Refused(OutOfRange)
      else if exists p :: p in table && p.workspace == r.workspace && p.internal == r.internal && p.kind == r.kind
      then Refused(Duplicate)
      else if r.kind == User && |CustomerRows(table, r.workspace)| >= 5 then Refused(Limit)
      else if n == 40 then Refused(Exhausted)
      else Reserved(Port(r.workspace, r.internal, draws[n], r.protocol, r.kind))
  {
    hide Draw, UserCount, CustomerRows, Usable;
    UserCountIsSize(table, r.workspace);
    TakenIsNotUsable(table, r, free);
    DrawTakesTheFirstUsable(table, r, Externals(table), draws, free, n);
  }

  lemma TakenIsNotUsable(table: seq<Port>, r: Request, free: int -> bool)
    ensures forall x :: x in Externals(table) ==> !Usable(table, r, x, free)
  {
  }

  /** The table one process sees while no other is allocating. */
  class PortTable {
    var rows: seq<Port>

    constructor ()
      ensures rows == []
    {
      rows := [];
    }

    /** Reserve a free external port. The result says which of the checks failed, or
        names a row that is new, proper, in range and on a free number. */
    method Allocate(r: Request, draws: seq<int>, free: int -> bool) returns (result: Result)
      requires Drawn(draws)
      modifies this
      ensures (rows, result) == Allocated(old(rows), r, draws, free)
      ensures result.Refused? ==> rows == old(rows)
      ensures result.Reserved? ==>
        && rows == old(rows) + [result.port]
        && result.port == RowOf(r, result.port.external)
        && result.port.external !in Externals(old(rows)) && free(result.port.external)
    {
      DrawInserts(rows, r, Externals(rows), draws, free);
      if !(1 <= r.internal <= 65535) {
        return Refused(OutOfRange);
      }
      if Published(rows, r) {
        return Refused(Duplicate);
      }
      if r.kind == User && UserCount(rows, r.workspace) >= MAX_PER_WORKSPACE {
        return Refused(Limit);
      }
      var taken := Externals(rows);
      for i := 0 to ALLOC_ATTEMPTS
        invariant rows == old(rows)
        invariant Draw(rows, r, taken, draws[i..], free) == Draw(rows, r, Externals(rows), draws, free)
      {
        var candidate := draws[i];
        assert draws[i..][1..] == draws[i + 1..];
        if candidate in taken || !free(candidate) {
          continue;
        }
        var row := RowOf(r, candidate);
        if Insertable(rows, row) {
          rows := rows + [row];
          return Reserved(row);
        }
        taken := taken + {candidate};
      }
      result := Refused(Exhausted);
    }

    /** Give a customer's port back; the two reserved kinds are refused. */
    method Release(at: nat) returns (released: bool)
      requires at < |rows|
      modifies this
      ensures released <==> old(rows)[at].kind == User
      ensures rows == if released then Without(old(rows), at) else old(rows)
    {
      if rows[at].kind != User {
        return false;
      }
      rows := rows[..at] + rows[at + 1..];
      released := true;
    }

    /** Allocate the SSH and RDP reservations that are missing. */
    method ReserveServices(workspace: int, sshDraws: seq<int>, rdpDraws: seq<int>, free: int -> bool)
      returns (ssh: Option<int>, rdp: Option<int>)
      requires Drawn(sshDraws) && Drawn(rdpDraws)
      modifies this
      ensures rows == Serviced(old(rows), workspace, sshDraws, rdpDraws, free)
      ensures old(rows) <= rows
      ensures ssh == AddressOf(rows, workspace, Ssh)
      ensures ssh.Some? ==> rdp == AddressOf(rows, workspace, Rdp)
    {
      ssh, rdp := None, None;
      var start := rows;
      if AddressOf(rows, workspace, Ssh).None? {
        var a := Allocate(Request(workspace, 22, Tcp, Ssh), sshDraws, free);
        if a.Refused? {
          return;
        }
        AddressAppend(start, a.port, workspace);
      }
      ssh := AddressOf(rows, workspace, Ssh);
      var middle := rows;
      if AddressOf(rows, workspace, Rdp).None? {
        var b := Allocate(Request(workspace, 3389, Tcp, Rdp), rdpDraws, free);
        if b.Reserved? {
          AddressAppend(middle, b.port, workspace);
        }
      }
      rdp := AddressOf(rows, workspace, Rdp);
    }
  }

  function Without(table: seq<Port>, at: nat): seq<Port>
    requires at < |table|
  {
    table[..at] + table[at + 1..]
  }

  /** The address of a service: its first row, as the query finds it. */
  function AddressOf(table: seq<Port>, workspace: int, kind: PortKind): Option<int> {
    if table == [] then None
    else if table[0].workspace == workspace && table[0].kind == kind then Some(table[0].external)
    else AddressOf(table[1..], workspace, kind)
  }

  /** An address is the external port of a row of that workspace and purpose; there is none
      exactly when there is no such row. */
  lemma {:induction false} AddressIsItsRow(table: seq<Port>, workspace: int, kind: PortKind)
    ensures match AddressOf(table, workspace, kind)
            case None => forall p :: p in table ==> !(p.workspace == workspace && p.kind == kind)
            case Some(x) => exists p :: p in table && p.workspace == workspace && p.kind == kind && p.external == x
  {
    if table != [] {
      AddressIsItsRow(table[1..], workspace, kind);
      assert table == [table[0]] + table[1..];
      assert table[0] in table;
    }
  }

  lemma {:induction false} AddressConcat(a: seq<Port>, b: seq<Port>, workspace: int, kind: PortKind)
    ensures AddressOf(a + b, workspace, kind)
         == if AddressOf(a, workspace, kind).Some? then AddressOf(a, workspace, kind)
            else AddressOf(b, workspace, kind)
  {
    if a == [] {
      assert a + b == b;
    } else {
      AddressConcat(a[1..], b, workspace, kind);
      assert (a + b)[1..] == a[1..] + b;
    }
  }

  lemma {:induction false} AddressAppend(table: seq<Port>, p: Port, workspace: int)
    ensures forall kind :: AddressOf(table, workspace, kind).Some? ==>
              AddressOf(table + [p], workspace, kind) == AddressOf(table, workspace, kind)
    ensures forall kind :: AddressOf(table, workspace, kind).None? ==>
              AddressOf(table + [p], workspace, kind)
                == if p.workspace == workspace && p.kind == kind then Some(p.external) else None
  {
    forall kind
      ensures AddressOf(table + [p], workspace, kind)
           == if AddressOf(table, workspace, kind).Some? then AddressOf(table, workspace, kind)
              else if p.workspace == workspace && p.kind == kind then Some(p.external) else None
    {
      AddressConcat(table, [p], workspace, kind);
    }
  }

  function Serviced(table: seq<Port>, workspace: int, sshDraws: seq<int>, rdpDraws: seq<int>, free: int -> bool): seq<Port> {
    var (a, ra) :=
      if AddressOf(table, workspace, Ssh).Some? then (table, Refused(Duplicate))
      else Allocated(table, Request(workspace, 22, Tcp, Ssh), sshDraws, free);
    if AddressOf(a, workspace, Ssh).None? then a
    else if AddressOf(a, workspace, Rdp).Some? then a
    else Allocated(a, Request(workspace, 3389, Tcp, Rdp), rdpDraws, free).0
  }

  // ------------------------------------------------------------- one process, any run

  /** `free` is the host's own probe of a port at that moment. */
  datatype Op =
    | Publish(workspace: int, internal: int, draws: seq<int>, free: int -> bool)
    | Reserve(workspace: int, sshDraws: seq<int>, rdpDraws: seq<int>, free: int -> bool)
    | Release(at: nat)
    | DeleteWorkspace(workspace: int)

  predicate WellDrawn(op: Op) {
    match op
    case Publish(_, _, draws, _) => Drawn(draws)
    case Reserve(_, a, b, _) => Drawn(a) && Drawn(b)
    case _ => true
  }

  function Keep(table: seq<Port>, workspace: int): seq<Port> {
    if table == [] then []
    else
      var front := Keep(table[..|table| - 1], workspace);
      if table[|table| - 1].workspace == workspace then front else front + [table[|table| - 1]]
  }

  function Apply(table: seq<Port>, op: Op): seq<Port> {
    match op
    case Publish(ws, internal, draws, free) => Allocated(table, Request(ws, internal, Both, User), draws, free).0
    case Reserve(ws, a, b, free) => Serviced(table, ws, a, b, free)
    case Release(at) => if at < |table| && table[at].kind == User then Without(table, at) else table
    case DeleteWorkspace(ws) => Keep(table, ws)
  }

  function RunOps(ops: seq<Op>): seq<Port> {
    if ops == [] then [] else Apply(RunOps(ops[..|ops| - 1]), ops[|ops| - 1])
  }

  lemma {:induction false} CountConcat(a: seq<Port>, b: seq<Port>, ws: int)
    ensures UserCount(a + b, ws) == UserCount(a, ws) + UserCount(b, ws)
  {
    if b == [] {
      assert a + b == a;
    } else {
      CountConcat(a, b[..|b| - 1], ws);
      assert (a + b)[..|a + b| - 1] == a + b[..|b| - 1];
    }
  }

  lemma {:induction false} WithoutIsSound(table: seq<Port>, at: nat)
    requires Sound(table) && at < |table|
    ensures Sound(Without(table, at))
  {
    var less := Without(table, at);
    forall p | p in less ensures p in table {
      var i :| 0 <= i < |less| && less[i] == p;
      assert p == table[if i < at then i else i + 1];
    }
    forall i, j | 0 <= i < j < |less|
      ensures less[i].external != less[j].external
      ensures !(less[i].workspace == less[j].workspace && less[i].internal == less[j].internal
                && less[i].kind == less[j].kind)
    {
      var k, m := if i < at then i else i + 1, if j < at then j else j + 1;
      assert less[i] == table[k] && less[j] == table[m] && k < m;
    }
  }

  lemma {:induction false} WithoutIsWithinLimit(table: seq<Port>, at: nat)
    requires WithinLimit(table) && at < |table|
    ensures WithinLimit(Without(table, at))
  {
    forall ws ensures UserCount(Without(table, at), ws) <= MAX_PER_WORKSPACE {
      var rest := table[at + 1..];
      CountConcat(table[..at], rest, ws);
      CountConcat(table[..at], [table[at]] + rest, ws);
      CountConcat([table[at]], rest, ws);
      assert table == table[..at] + ([table[at]] + rest);
    }
  }

  /** Two rows that a sound table may hold together. */
  predicate Compatible(p: Port, q: Port) {
    && p.external != q.external
    && !(p.workspace == q.workspace && p.internal == q.internal && p.kind == q.kind)
  }

  lemma {:induction false} AppendIsSound(table: seq<Port>, last: Port)
    requires Sound(table) && forall p :: p in table ==> Compatible(p, last)
    requires RANGE_START <= last.external <= RANGE_END
    requires Proper(Request(last.workspace, last.internal, last.protocol, last.kind))
    ensures Sound(table + [last])
  {
    var more := table + [last];
    assert forall i :: 0 <= i < |table| ==> more[i] == table[i] && table[i] in table;
  }

  lemma {:induction false} FrontIsSound(table: seq<Port>)
    requires Sound(table) && table != []
    ensures var (front, last) := (table[..|table| - 1], table[|table| - 1]);
            Sound(front) && forall p :: p in front ==> Compatible(p, last)
  {
    WithoutIsSound(table, |table| - 1);
    assert Without(table, |table| - 1) == table[..|table| - 1];
  }

  lemma {:induction false} KeepKeepsLaws(table: seq<Port>, workspace: int)
    requires Sound(table)
    ensures Sound(Keep(table, workspace))
    ensures forall p :: p in Keep(table, workspace) <==> p in table && p.workspace != workspace
    ensures forall ws :: UserCount(Keep(table, workspace), ws) <= UserCount(table, ws)
  {
    hide Compatible, Proper, DistinctExternals, DistinctServices, InRange, ProperRows;
    if table != [] {
      var front, last := table[..|table| - 1], table[|table| - 1];
      FrontIsSound(table);
      KeepKeepsLaws(front, workspace);
      var kept := Keep(front, workspace);
      assert table == front + [last];
      if last.workspace != workspace {
        SoundRow(table, last);
        AppendIsSound(kept, last);
        forall ws ensures UserCount(kept + [last], ws) <= UserCount(table, ws) {
          CountAppend(kept, last, ws);
        }
      }
    }
  }

  lemma SoundRow(table: seq<Port>, p: Port)
    requires Sound(table) && p in table
    ensures RANGE_START <= p.external <= RANGE_END
    ensures Proper(Request(p.workspace, p.internal, p.protocol, p.kind))
  {
  }

  lemma {:induction false} AllocatedKeepsLaws(table: seq<Port>, r: Request, draws: seq<int>, free: int -> bool)
    requires Sound(table) && WithinLimit(table) && Proper(r) && Drawn(draws)
    ensures Sound(Allocated(table, r, draws, free).0) && WithinLimit(Allocated(table, r, draws, free).0)
  {
    DrawInserts(table, r, Externals(table), draws, free);
    var (after, result) := Allocated(table, r, draws, free);
    if result.Reserved? {
      InsertKeepsSound(table, result.port);
      forall ws ensures UserCount(after, ws) <= MAX_PER_WORKSPACE {
        CountAppend(table, result.port, ws);
      }
    }
  }

  /** In every run of one process: external ports are distinct and in range, no
      (internal port, kind) pair repeats in a workspace, and none has over five
      customer ports. */
  lemma {:induction false} SequentialRunsKeepLaws(ops: seq<Op>)
    requires forall i :: 0 <= i < |ops| ==> WellDrawn(ops[i])
    ensures Sound(RunOps(ops)) && WithinLimit(RunOps(ops))
  {
    if ops != [] {
      var front, op := ops[..|ops| - 1], ops[|ops| - 1];
      SequentialRunsKeepLaws(front);
      var table := RunOps(front);
      match op
      case Publish(ws, internal, draws, free) =>
        AllocatedKeepsLaws(table, Request(ws, internal, Both, User), draws, free);
      case Reserve(ws, a, b, free) =>
        AllocatedKeepsLaws(table, Request(ws, 22, Tcp, Ssh), a, free);
        AllocatedKeepsLaws(table, Request(ws, 3389, Tcp, Rdp), b, free);
        var middle := Allocated(table, Request(ws, 22, Tcp, Ssh), a, free).0;
        AllocatedKeepsLaws(middle, Request(ws, 3389, Tcp, Rdp), b, free);
      case Release(at) =>
        if at < |table| {
          WithoutIsSound(table, at);
          WithoutIsWithinLimit(table, at);
        }
      case DeleteWorkspace(ws) => KeepKeepsLaws(table, ws);
    }
  }

  lemma {:induction false} KeepKeepsAddress(table: seq<Port>, other: int, workspace: int, kind: PortKind)
    requires other != workspace
    ensures AddressOf(Keep(table, other), workspace, kind) == AddressOf(table, workspace, kind)
  {
    if table != [] {
      var front, last := table[..|table| - 1], table[|table| - 1];
      KeepKeepsAddress(front, other, workspace, kind);
      assert table == front + [last];
      AddressConcat(front, [last], workspace, kind);
      AddressConcat(Keep(front, other), [last], workspace, kind);
    }
  }

  /** An SSH or RDP address, once given, never moves while its machine exists, whatever
      is published, released or re-reserved. */
  lemma {:induction false} ServiceAddressNeverMoves(table: seq<Port>, op: Op, ws: int, kind: PortKind)
    requires AddressOf(table, ws, kind).Some? && kind != User && WellDrawn(op)
    requires op != DeleteWorkspace(ws)
    ensures AddressOf(Apply(table, op), ws, kind) == AddressOf(table, ws, kind)
  {
    match op
    case Publish(w, internal, draws, free) =>
      AllocatedKeepsAddress(table, Request(w, internal, Both, User), draws, free, ws, kind);
    case Reserve(w, a, b, free) =>
      AllocatedKeepsAddress(table, Request(w, 22, Tcp, Ssh), a, free, ws, kind);
      AllocatedKeepsAddress(table, Request(w, 3389, Tcp, Rdp), b, free, ws, kind);
      var middle := Allocated(table, Request(w, 22, Tcp, Ssh), a, free).0;
      AllocatedKeepsAddress(middle, Request(w, 3389, Tcp, Rdp), b, free, ws, kind);
    case Release(at) =>
      if at < |table| && table[at].kind == User {
        WithoutKeepsAddress(table, at, ws, kind);
      }
    case DeleteWorkspace(w) => KeepKeepsAddress(table, w, ws, kind);
  }

  lemma {:induction false} WithoutKeepsAddress(table: seq<Port>, at: nat, ws: int, kind: PortKind)
    requires at < |table| && table[at].kind == User && kind != User
    ensures AddressOf(Without(table, at), ws, kind) == AddressOf(table, ws, kind)
  {
    var rest := table[at + 1..];
    assert table == table[..at] + ([table[at]] + rest);
    AddressConcat(table[..at], rest, ws, kind);
    AddressConcat(table[..at], [table[at]] + rest, ws, kind);
    AddressConcat([table[at]], rest, ws, kind);
  }

  /** So over every sequential run that does not delete the machine. */
  lemma {:induction false} ServiceAddressStays(ops: seq<Op>, more: seq<Op>, ws: int, kind: PortKind)
    requires AddressOf(RunOps(ops), ws, kind).Some? && kind != User
    requires forall i :: 0 <= i < |more| ==> WellDrawn(more[i]) && more[i] != DeleteWorkspace(ws)
    ensures AddressOf(RunOps(ops + more), ws, kind) == AddressOf(RunOps(ops), ws, kind)
  {
    if more == [] {
      assert ops + more == ops;
    } else {
      var front, op := more[..|more| - 1], more[|more| - 1];
      ServiceAddressStays(ops, front, ws, kind);
      assert (ops + more)[..|ops + more| - 1] == ops + front && (ops + more)[|ops + more| - 1] == op;
      ServiceAddressNeverMoves(RunOps(ops + front), op, ws, kind);
    }
  }

  lemma {:induction false} AllocatedKeepsAddress(
    table: seq<Port>, r: Request, draws: seq<int>, free: int -> bool, ws: int, kind: PortKind)
    requires AddressOf(table, ws, kind).Some? && Drawn(draws)
    ensures AddressOf(Allocated(table, r, draws, free).0, ws, kind) == AddressOf(table, ws, kind)
  {
    DrawInserts(table, r, Externals(table), draws, free);
    var (after, result) := Allocated(table, r, draws, free);
    if result.Reserved? {
      AddressConcat(table, [result.port], ws, kind);
    }
  }

  /** No internal port is outside what a protocol can name. */
  predicate InternalsInRange(table: seq<Port>) {
    forall p :: p in table ==> 1 <= p.internal <= 65535
  }

  lemma {:induction false} AllocatedIsSound(table: seq<Port>, r: Request, draws: seq<int>, free: int -> bool)
    requires Sound(table) && InternalsInRange(table) && Proper(r) && Drawn(draws)
    ensures var (after, result) := Allocated(table, r, draws, free);
            && Sound(after) && InternalsInRange(after) && table <= after
            && (forall p :: p in after ==> p in table || p.workspace == r.workspace)
            && (result.Reserved? ==>
                  && after == table + [result.port] && result.port !in table
                  && result.port.workspace == r.workspace && result.port.kind == r.kind)
            && (result.Refused? ==> after == table)
  {
    DrawInserts(table, r, Externals(table), draws, free);
    var (after, result) := Allocated(table, r, draws, free);
    if result.Reserved? {
      InsertKeepsSound(table, result.port);
      assert forall q :: q in table ==> q.external in Externals(table);
    }
  }

  lemma {:induction false} ServicedIsSound(
    table: seq<Port>, workspace: int, sshDraws: seq<int>, rdpDraws: seq<int>, free: int -> bool)
    requires Sound(table) && InternalsInRange(table) && Drawn(sshDraws) && Drawn(rdpDraws)
    ensures var after := Serviced(table, workspace, sshDraws, rdpDraws, free);
            && Sound(after) && InternalsInRange(after) && table <= after
            && forall p :: p in after ==> p in table || p.workspace == workspace
  {
    hide Sound, Allocated, AddressOf, InternalsInRange;
    AllocatedIsSound(table, Request(workspace, 22, Tcp, Ssh), sshDraws, free);
    AllocatedIsSound(table, Request(workspace, 3389, Tcp, Rdp), rdpDraws, free);
    var middle := Allocated(table, Request(workspace, 22, Tcp, Ssh), sshDraws, free).0;
    AllocatedIsSound(middle, Request(workspace, 3389, Tcp, Rdp), rdpDraws, free);
  }

  /** Reserving the services adds at most one row for each, TCP on 22 and on 3389, and leaves
      one out only when its allocation was refused. */
  lemma {:induction false} ServicedIsComplete(
    table: seq<Port>, ws: int, sshDraws: seq<int>, rdpDraws: seq<int>, free: int -> bool)
    requires Drawn(sshDraws) && Drawn(rdpDraws)
    ensures forall p :: p in Serviced(table, ws, sshDraws, rdpDraws, free) && p !in table ==>
      p.workspace == ws && p.protocol == Tcp
      && ((p.kind == Ssh && p.internal == 22) || (p.kind == Rdp && p.internal == 3389))
    ensures var after, ssh := Serviced(table, ws, sshDraws, rdpDraws, free), Request(ws, 22, Tcp, Ssh);
            AddressOf(after, ws, Ssh).None? <==>
              AddressOf(table, ws, Ssh).None? && Allocated(table, ssh, sshDraws, free).1.Refused?
    ensures var after, ssh := Serviced(table, ws, sshDraws, rdpDraws, free), Request(ws, 22, Tcp, Ssh);
            var middle := if AddressOf(table, ws, Ssh).Some? then table else Allocated(table, ssh, sshDraws, free).0;
            AddressOf(after, ws, Ssh).Some? && AddressOf(after, ws, Rdp).None? ==>
              Allocated(middle, Request(ws, 3389, Tcp, Rdp), rdpDraws, free).1.Refused?
  {
    hide Draw, AddressOf, Check, Insertable;
    var ssh, rdp := Request(ws, 22, Tcp, Ssh), Request(ws, 3389, Tcp, Rdp);
    DrawInserts(table, ssh, Externals(table), sshDraws, free);
    var middle := if AddressOf(table, ws, Ssh).Some? then table else Allocated(table, ssh, sshDraws, free).0;
    DrawInserts(middle, rdp, Externals(middle), rdpDraws, free);
    AddressIsItsRow(table, ws, Ssh);
    if Allocated(table, ssh, sshDraws, free).1.Reserved? {
      AddressAppend(table, Allocated(table, ssh, sshDraws, free).1.port, ws);
    }
    if Allocated(middle, rdp, rdpDraws, free).1.Reserved? {
      AddressAppend(middle, Allocated(middle, rdp, rdpDraws, free).1.port, ws);
    }
  }

  /** The smallest number from `i` on that is not in use. */
  function FreeFrom(used: set<nat>, i: nat): (r: nat)
    ensures i <= r <= i + |used| && r !in used
    decreases |used|
  {
    if i in used then FreeFrom(used - {i}, i + 1) else i
  }

  lemma {:induction false} FreeIsLeast(used: set<nat>, i: nat, j: nat)
    requires i <= j < FreeFrom(used, i)
    ensures j in used
    decreases |used|
  {
    if i < j {
      FreeIsLeast(used - {i}, i + 1, j);
    }
  }

  /** The slot number of a new workspace. */
  method NextFreeIdx(used: set<nat>) returns (idx: nat)
    ensures idx == FreeFrom(used, 1)
    ensures 1 <= idx <= |used| + 1 && idx !in used
    ensures forall j: nat :: 1 <= j < idx ==> j in used
  {
    idx := 1;
    var left := used;
    while idx in used
      invariant idx >= 1 && left <= used
      invariant forall j: nat :: 1 <= j < idx ==> j in used && j !in left
      invariant forall j: nat :: j in used && j >= idx ==> j in left
      decreases left
    {
      left := left - {idx};
      idx := idx + 1;
    }
    if idx < FreeFrom(used, 1) {
      FreeIsLeast(used, 1, idx);
    }
  }
}
