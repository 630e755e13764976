/** The web server's per-customer files: write what is wanted, remove what is not, and
    put everything back if the configuration test refuses the result. */
module Vhosts {

  type Dir = map<string, string>

  const PREFIX := "mmd-vhost-"
  const OLD_PREFIX := "mmd-hermes-"

  /** The files the reconciler owns; every other file in the directory is not its own. */
  predicate Managed(name: string) {
    PREFIX <= name || OLD_PREFIX <= name
  }

  /** Wanted files are named after customers, so they all carry the prefix. */
  predicate WellNamed(bodies: Dir) {
    forall name :: name in bodies ==> PREFIX <= name
  }

  /** The directory as it should be: exactly the wanted files among the managed ones,
      and everybody else's untouched. */
  function Desired(files: Dir, bodies: Dir): Dir {
    (map name | name in files && !Managed(name) :: files[name]) + bodies
  }

  datatype Outcome = Unchanged | RolledBack | ReloadFailed | Reloaded

  /** `loaded` is the configuration the running server uses, and `ready` the wanted set
      the dashboard links were last published for. */
  datatype Server = Server(files: Dir, loaded: Dir, ready: Dir)

  predicate Marks(outcome: Outcome) {
    outcome == Unchanged || outcome == Reloaded
  }

  /** One pass. `tests` is the configuration test, `reloads` whether a reload succeeds. */
  function Outcomes(s: Server, bodies: Dir, tests: Dir -> bool, reloads: bool): Outcome {
    if s.files == Desired(s.files, bodies) then Unchanged
    else if !tests(Desired(s.files, bodies)) then RolledBack
    else if !reloads then ReloadFailed
    else Reloaded
  }

  function Pass(s: Server, bodies: Dir, tests: Dir -> bool, reloads: bool): Server {
    var want := Desired(s.files, bodies);
    match Outcomes(s, bodies, tests, reloads)
    case Unchanged => s.(ready := bodies)
    case RolledBack => s
    case ReloadFailed => s.(files := want)
    case Reloaded => Server(want, want, bodies)
  }

  /** What a directory holds under a name. */
  datatype Entry = Absent | Text(body: string)

  function At(d: Dir, name: string): Entry {
    if name in d then Text(d[name]) else Absent
  }

  /** The names whose presence or content differs. */
  function Differing(a: Dir, b: Dir): set<string> {
    set name | name in a.Keys + b.Keys && At(a, name) != At(b, name)
  }

  /** The snapshot remembers what `start` held for exactly the names that changed. */
  ghost predicate Recorded(start: Dir, now: Dir, snapshot: map<string, Entry>) {
    forall name ::
      if name in snapshot then snapshot[name] == At(start, name) != At(now, name)
      else At(now, name) == At(start, name)
  }

  ghost predicate ChangedOnlyAt(before: Dir, after: Dir, name: string) {
    At(after, name) != At(before, name) && forall other :: other != name ==> At(after, other) == At(before, other)
  }

  lemma RecordOne(start: Dir, before: Dir, after: Dir, snapshot: map<string, Entry>, name: string)
    requires Recorded(start, before, snapshot) && name !in snapshot && ChangedOnlyAt(before, after, name)
    ensures Recorded(start, after, snapshot[name := At(before, name)])
  {
  }

  lemma {:induction false} SameAt(a: Dir, b: Dir)
    requires forall name :: At(a, name) == At(b, name)
    ensures a == b
  {
    forall name ensures name in a <==> name in b {
      assert At(a, name) == At(b, name);
    }
    forall name | name in a ensures a[name] == b[name] {
      assert At(a, name) == At(b, name);
    }
  }

  lemma {:induction false} RecordedNames(start: Dir, now: Dir, snapshot: map<string, Entry>)
    requires Recorded(start, now, snapshot)
    ensures snapshot.Keys == Differing(start, now)
    ensures snapshot == map[] <==> now == start
  {
    forall name ensures name in snapshot <==> name in Differing(start, now) {
      assert At(start, name) == At(now, name) <==> name !in snapshot;
    }
    if snapshot == map[] {
      SameAt(now, start);
    } else {
      var name :| name in snapshot;
      assert At(now, name) != At(start, name);
    }
  }

  /** `start` with `done` of the wanted files written over it. */
  ghost predicate Written(start: Dir, now: Dir, bodies: Dir, done: set<string>) {
    forall name :: At(now, name) == At(if name in done then bodies else start, name)
  }

  /** `written` with the names in `gone` removed. */
  ghost predicate Removed(written: Dir, now: Dir, gone: set<string>) {
    forall name :: At(now, name) == if name in gone then Absent else At(written, name)
  }

  lemma RemovedNothing(d: Dir)
    ensures Removed(d, d, {})
  {
  }

  lemma {:induction false} RemoveOne(written: Dir, now: Dir, gone: set<string>, name: string)
    requires Removed(written, now, gone) && name !in gone && name in written
    ensures ChangedOnlyAt(now, now - {name}, name)
    ensures Removed(written, now - {name}, gone + {name})
  {
    assert At(now, name) == At(written, name);
  }

  lemma {:induction false} WrittenAndRemovedIsDesired(start: Dir, written: Dir, now: Dir, bodies: Dir, stale: set<string>)
    requires WellNamed(bodies) && Written(start, written, bodies, bodies.Keys) && Removed(written, now, stale)
    requires stale == set name | name in start && Managed(name) && name !in bodies
    ensures now == Desired(start, bodies)
  {
    forall name ensures At(now, name) == At(Desired(start, bodies), name) {
      assert At(written, name) == At(if name in bodies then bodies else start, name);
    }
    SameAt(now, Desired(start, bodies));
  }

  class Reconciler {
    var files: Dir
    var loaded: Dir
    var ready: Dir
    const tests: Dir -> bool

    ghost function Now(): Server
      reads this
    {
      Server(files, loaded, ready)
    }

    constructor (files: Dir, tests: Dir -> bool)
      ensures Now() == Server(files, files, map[]) && this.tests == tests
    {
      this.files, loaded, ready, this.tests := files, files, map[], tests;
    }

    /** Write the wanted files that are not there already. */
    method WriteAll(bodies: Dir) returns (snapshot: map<string, Entry>)
      modifies this`files
      ensures Written(old(files), files, bodies, bodies.Keys)
      ensures Recorded(old(files), files, snapshot) && snapshot.Keys <= bodies.Keys
    {
      snapshot := map[];
      ghost var start := files;
      var todo := bodies.Keys;
      while todo != {}
        invariant todo <= bodies.Keys
        invariant Written(start, files, bodies, bodies.Keys - todo)
        invariant Recorded(start, files, snapshot) && snapshot.Keys <= bodies.Keys - todo
        decreases |todo|
      {
        var name :| name in todo;
        todo := todo - {name};
        var before := files;
        if At(before, name) == Text(bodies[name]) {
          assert At(start, name) == At(before, name);
          continue;
        }
        files := files[name := bodies[name]];
        assert ChangedOnlyAt(before, files, name);
        RecordOne(start, before, files, snapshot, name);
        snapshot := snapshot[name := At(before, name)];
      }
    }

    /** Remove the files that are not wanted any more. */
    method RemoveAll(ghost start: Dir, recorded: map<string, Entry>, stale: set<string>)
      returns (snapshot: map<string, Entry>)
      requires Recorded(start, files, recorded)
      requires forall name :: name in stale ==> name in files && name !in recorded
      modifies this`files
      ensures Removed(old(files), files, stale)
      ensures Recorded(start, files, snapshot)
    {
      hide Removed, Recorded, ChangedOnlyAt;
      snapshot := recorded;
      ghost var written := files;
      var doomed := stale;
      ghost var gone: set<string> := {};
      RemovedNothing(files);
      while doomed != {}
        invariant gone !! doomed && gone + doomed == stale
        invariant Removed(written, files, gone)
        invariant Recorded(start, files, snapshot) && snapshot.Keys !! doomed
        decreases |doomed|
      {
        var name :| name in doomed;
        var before := files;
        files := files - {name};
        RemoveOne(written, before, gone, name);
        RecordOne(start, before, files, snapshot, name);
        snapshot := snapshot[name := At(before, name)];
        doomed, gone := doomed - {name}, gone + {name};
      }
      assert gone == stale;
    }

    /** Undo every write and removal the snapshot remembers. */
    method Restore(ghost start: Dir, snapshot: map<string, Entry>)
      requires Recorded(start, files, snapshot)
      modifies this`files
      ensures files == start
    {
      var todo := snapshot.Keys;
      ghost var now := files;
      while todo != {}
        invariant todo <= snapshot.Keys
        invariant forall name :: At(files, name) == At(if name in todo then now else start, name)
        decreases |todo|
      {
        var name :| name in todo;
        todo := todo - {name};
        assert snapshot[name] == At(start, name);
        match snapshot[name]
        case Absent => files := files - {name};
        case Text(body) => files := files[name := body];
      }
      SameAt(files, start);
    }

    /** Write and remove until the directory is as wanted, remembering what was there. */
    method Rewrite(bodies: Dir) returns (snapshot: map<string, Entry>)
      requires WellNamed(bodies)
      modifies this`files
      ensures files == Desired(old(files), bodies)
      ensures Recorded(old(files), files, snapshot)
    {
      hide Desired, Written, Removed;
      var start := files;
      var stale := set name | name in files && Managed(name) && name !in bodies;
      snapshot := WriteAll(bodies);
      ghost var written := files;
      forall name | name in stale ensures name in files && name !in snapshot {
        assert At(files, name) == At(start, name);
      }
      snapshot := RemoveAll(start, snapshot, stale);
      WrittenAndRemovedIsDesired(start, written, files, bodies, stale);
    }

    /** Make the directory hold exactly the wanted files, or exactly what it held. The
        files written or removed are exactly those that differ. */
    method Apply(bodies: Dir, reloads: bool) returns (outcome: Outcome, touched: set<string>)
      requires WellNamed(bodies)
      modifies this
      ensures outcome == Outcomes(old(Now()), bodies, tests, reloads)
      ensures Now() == Pass(old(Now()), bodies, tests, reloads)
      ensures touched == Differing(old(files), Desired(old(files), bodies))
    {
      hide Desired, Recorded, Differing;
      ghost var start := files;
      var snapshot := Rewrite(bodies);
      RecordedNames(start, files, snapshot);
      touched := snapshot.Keys;

      if snapshot == map[] {
        ready := bodies;
        return Unchanged, touched;
      }
      if !tests(files) {
        Restore(start, snapshot);
        return RolledBack, touched;
      }
      if !reloads {
        return ReloadFailed, touched;
      }
      loaded := files;
      ready := bodies;
      outcome := Reloaded;
    }
  }

  // ------------------------------------------------------------------------- results

  /** A pass that does not roll back leaves exactly the wanted set among the managed
      files; one that does leaves the whole directory as it was; and whichever it is,
      nobody else's file is touched. */
  lemma {:induction false} PassDecidesTheDirectory(s: Server, bodies: Dir, tests: Dir -> bool, reloads: bool, name: string)
    requires WellNamed(bodies)
    ensures var after := Pass(s, bodies, tests, reloads).files;
            var outcome := Outcomes(s, bodies, tests, reloads);
            && (outcome == RolledBack ==> after == s.files)
            && (Managed(name) <==> "mmd-vhost-" <= name || "mmd-hermes-" <= name)
            && (outcome == RolledBack <==> s.files != Desired(s.files, bodies) && !tests(Desired(s.files, bodies)))
            && (outcome != RolledBack && Managed(name) ==>
                  (name in after <==> name in bodies) && (name in bodies ==> after[name] == bodies[name]))
            && (!Managed(name) ==>
                  (name in after <==> name in s.files) && (name in after ==> after[name] == s.files[name]))
  {
  }

  lemma DesiredTwice(files: Dir, bodies: Dir)
    requires WellNamed(bodies)
    ensures Desired(Desired(files, bodies), bodies) == Desired(files, bodies)
  {
  }

  /** An immediate second pass writes nothing, unless the first one was refused, when
      it is refused again. */
  lemma {:induction false} SecondPassWritesNothing(s: Server, bodies: Dir, tests: Dir -> bool, reloads: bool, again: bool)
    requires WellNamed(bodies)
    ensures var first := Outcomes(s, bodies, tests, reloads);
            var second := Outcomes(Pass(s, bodies, tests, reloads), bodies, tests, again);
            second == if first == RolledBack then RolledBack else Unchanged
  {
    DesiredTwice(s.files, bodies);
  }

  /** The running server uses exactly the wanted files among the managed ones. */
  predicate Serves(s: Server, bodies: Dir) {
    Desired(s.loaded, bodies) == s.loaded
  }

  /** When the unmanaged files are the ones the server loaded, links are published for a
      configuration it runs exactly when this pass reloaded it or what it runs is what the
      directory holds. */
  lemma {:induction false} PublishedIsServedIff(s: Server, bodies: Dir, tests: Dir -> bool, reloads: bool)
    requires WellNamed(bodies) && Marks(Outcomes(s, bodies, tests, reloads))
    requires Others(s.loaded) == Others(s.files)
    ensures Serves(Pass(s, bodies, tests, reloads), bodies)
       <==> Outcomes(s, bodies, tests, reloads) == Reloaded || s.loaded == s.files
  {
    hide Others;
    DesiredTwice(s.files, bodies);
    SameOthersSameDesired(s.loaded, s.files, bodies);
  }

  lemma SameOthersSameDesired(a: Dir, b: Dir, bodies: Dir)
    requires Others(a) == Others(b)
    ensures Desired(a, bodies) == Desired(b, bodies)
  {
    assert Desired(a, bodies) == Others(a) + bodies;
  }

  /** What one pass does to the agreement between directory and running server. */
  lemma {:induction false} PassLoadsFilesIff(s: Server, bodies: Dir, tests: Dir -> bool, reloads: bool)
    ensures var after, outcome := Pass(s, bodies, tests, reloads), Outcomes(s, bodies, tests, reloads);
            after.loaded == after.files <==>
              (match outcome
               case Reloaded => true
               case ReloadFailed => s.loaded == Desired(s.files, bodies)
               case _ => s.loaded == s.files)
  {
  }

  /** A failed reload is forgotten: the next pass finds the files in place, publishes the
      links and does not reload, so they lead to addresses the server has never loaded. */
  lemma {:induction false} FailedReloadIsForgotten(s: Server, bodies: Dir, tests: Dir -> bool, again: bool)
    requires WellNamed(bodies) && Outcomes(s, bodies, tests, false) == ReloadFailed
    ensures var failed := Pass(s, bodies, tests, false);
            var next := Pass(failed, bodies, tests, again);
            && failed.ready == s.ready
            && next.ready == bodies && next.loaded == s.loaded
            && (Serves(next, bodies) <==> Serves(s, bodies))
            && (s.loaded == s.files ==> !Serves(next, bodies))
  {
    DesiredTwice(s.files, bodies);
  }

  // ------------------------------------------------------------------------- any run

  /** A pass, or one whose process dies among its writes, removals or restorations. */
  datatype Turn =
    | Whole(bodies: Dir, reloads: bool)
    | CutShort(bodies: Dir, left: Dir)

  /** Nothing or some beginning of a text: a file half written. */
  predicate Torn(entry: Entry, whole: Entry) {
    entry.Text? && whole.Text? && entry.body <= whole.body
  }

  /** What a dying pass may leave: each of its own files as it was, as wanted, or half
      written towards either; nobody else's file is touched. */
  ghost predicate MayLeave(start: Dir, bodies: Dir, left: Dir) {
    && Others(left) == Others(start)
    && forall name :: Managed(name) ==>
         || At(left, name) == At(start, name) || At(left, name) == At(Desired(start, bodies), name)
         || Torn(At(left, name), At(start, name)) || Torn(At(left, name), At(Desired(start, bodies), name))
  }

  /** The loops of a pass leave nothing else, wherever they stop: among the writes, */
  lemma {:induction false} WritingMayLeave(start: Dir, now: Dir, bodies: Dir, done: set<string>)
    requires WellNamed(bodies) && done <= bodies.Keys && Written(start, now, bodies, done)
    ensures MayLeave(start, bodies, now)
  {
    forall name ensures At(now, name) == At(start, name) || (Managed(name) && At(now, name) == At(Desired(start, bodies), name)) {
      assert At(now, name) == At(if name in done then bodies else start, name);
    }
    SameOthers(start, now);
  }

  /** among the removals, */
  lemma {:induction false} RemovingMayLeave(start: Dir, written: Dir, now: Dir, bodies: Dir, gone: set<string>)
    requires WellNamed(bodies) && Written(start, written, bodies, bodies.Keys) && Removed(written, now, gone)
    requires forall name :: name in gone ==> Managed(name) && name !in bodies
    ensures MayLeave(start, bodies, now)
  {
    forall name ensures At(now, name) == At(start, name) || (Managed(name) && At(now, name) == At(Desired(start, bodies), name)) {
      assert At(written, name) == At(if name in bodies then bodies else start, name);
      assert At(now, name) == if name in gone then Absent else At(written, name);
    }
    SameOthers(start, now);
  }

  /** or among the restorations. */
  lemma {:induction false} RestoringMayLeave(start: Dir, now: Dir, bodies: Dir, todo: set<string>)
    requires WellNamed(bodies)
    requires forall name :: At(now, name) == At(if name in todo then Desired(start, bodies) else start, name)
    ensures MayLeave(start, bodies, now)
  {
    forall name ensures At(now, name) == At(start, name) || (Managed(name) && At(now, name) == At(Desired(start, bodies), name)) {
      assert At(now, name) == At(if name in todo then Desired(start, bodies) else start, name);
    }
    SameOthers(start, now);
  }

  lemma {:induction false} SameOthers(a: Dir, b: Dir)
    requires forall name :: !Managed(name) ==> At(b, name) == At(a, name)
    ensures Others(b) == Others(a)
  {
    forall name ensures At(Others(a), name) == At(Others(b), name) {
      assert !Managed(name) ==> At(b, name) == At(a, name);
    }
    SameAt(Others(a), Others(b));
  }

  function Taken(s: Server, t: Turn, tests: Dir -> bool): Server {
    match t
    case Whole(bodies, reloads) => Pass(s, bodies, tests, reloads)
    case CutShort(_, left) => s.(files := left)
  }

  ghost predicate Possible(s: Server, t: Turn) {
    WellNamed(t.bodies) && (t.CutShort? ==> MayLeave(s.files, t.bodies, t.left))
  }

  function Run(s: Server, turns: seq<Turn>, tests: Dir -> bool): Server {
    if turns == [] then s
    else Taken(Run(s, turns[..|turns| - 1], tests), turns[|turns| - 1], tests)
  }

  ghost predicate PossibleAt(s: Server, turns: seq<Turn>, tests: Dir -> bool, n: nat)
    requires n < |turns|
  {
    Possible(Run(s, turns[..n], tests), turns[n])
  }

  lemma RunNext(s: Server, turns: seq<Turn>, tests: Dir -> bool, n: nat)
    requires n < |turns|
    ensures Run(s, turns[..n + 1], tests) == Taken(Run(s, turns[..n], tests), turns[n], tests)
  {
    hide Taken;
    assert turns[..n + 1][..n] == turns[..n] && turns[..n + 1][n] == turns[n];
  }

  /** After a whole pass the directory passes the configuration test exactly when the pass
      put it to the test and kept it, or it passed before: a pass that finds nothing to
      write does not test, and one that is refused puts back whatever was there. */
  lemma PassLeavesAGoodConfigurationIff(s: Server, bodies: Dir, tests: Dir -> bool, reloads: bool)
    ensures var outcome := Outcomes(s, bodies, tests, reloads);
            tests(Pass(s, bodies, tests, reloads).files) <==>
              outcome == Reloaded || outcome == ReloadFailed || tests(s.files)
  {
  }

  predicate GoodAfter(s: Server, turns: seq<Turn>, tests: Dir -> bool, n: nat)
    requires n <= |turns|
  {
    tests(Run(s, turns[..n], tests).files)
  }

  predicate LeavesGood(turns: seq<Turn>, tests: Dir -> bool, n: nat)
    requires n < |turns|
  {
    turns[n].CutShort? ==> tests(turns[n].left)
  }

  lemma {:induction false} GoodUpTo(s: Server, turns: seq<Turn>, tests: Dir -> bool, m: nat)
    requires tests(s.files) && m <= |turns|
    ensures (forall n :: 0 <= n <= m ==> GoodAfter(s, turns, tests, n))
       <==> (forall n :: 0 <= n < m ==> LeavesGood(turns, tests, n))
  {
    hide Run, Outcomes;
    if m == 0 {
      NoTurns(s, turns, tests);
    } else {
      GoodUpTo(s, turns, tests, m - 1);
      RunNext(s, turns, tests, m - 1);
      var before, t := Run(s, turns[..m - 1], tests), turns[m - 1];
      if t.Whole? {
        PassLeavesAGoodConfigurationIff(before, t.bodies, tests, t.reloads);
      }
      assert GoodAfter(s, turns, tests, m - 1) ==> (GoodAfter(s, turns, tests, m) <==> LeavesGood(turns, tests, m - 1));
    }
  }

  lemma NoTurns(s: Server, turns: seq<Turn>, tests: Dir -> bool)
    ensures Run(s, turns[..0], tests) == s
  {
  }

  /** Over every run that starts with a good directory, passes dying anywhere: it passes the
      configuration test at every moment, so that an unrelated reload cannot trip over it,
      exactly when each pass that died left a directory that passes. */
  lemma {:induction false} EveryMomentIsGoodIff(s: Server, turns: seq<Turn>, tests: Dir -> bool)
    requires tests(s.files)
    ensures (forall n :: 0 <= n <= |turns| ==> GoodAfter(s, turns, tests, n))
       <==> (forall n :: 0 <= n < |turns| ==> LeavesGood(turns, tests, n))
  {
    GoodUpTo(s, turns, tests, |turns|);
  }

  /** The last turn that wrote to the directory for good, if any, left it good. */
  predicate LastWriteIsGood(s: Server, turns: seq<Turn>, tests: Dir -> bool) {
    if turns == [] then tests(s.files)
    else
      var front, t := turns[..|turns| - 1], turns[|turns| - 1];
      match t
      case Whole(bodies, reloads) =>
        var outcome := Outcomes(Run(s, front, tests), bodies, tests, reloads);
        outcome == Reloaded || outcome == ReloadFailed || LastWriteIsGood(s, front, tests)
      case CutShort(_, left) => tests(left)
  }

  /** And at the end of any run, whatever it started with and however many passes died, it
      passes exactly when the last turn that wrote to it for good left it so; others' files
      are as they were. */
  lemma {:induction false} EveryRunLeavesAGoodConfigurationIff(s: Server, turns: seq<Turn>, tests: Dir -> bool)
    requires forall n :: 0 <= n < |turns| ==> PossibleAt(s, turns, tests, n)
    ensures tests(Run(s, turns, tests).files) <==> LastWriteIsGood(s, turns, tests)
    ensures Others(Run(s, turns, tests).files) == Others(s.files)
  {
    hide Desired, Others, Outcomes;
    if turns != [] {
      var front, t := turns[..|turns| - 1], turns[|turns| - 1];
      FrontIsPossible(s, turns, tests);
      EveryRunLeavesAGoodConfigurationIff(s, front, tests);
      var before := Run(s, front, tests);
      if t.Whole? {
        DesiredKeepsOthers(before.files, t.bodies);
        PassLeavesAGoodConfigurationIff(before, t.bodies, tests, t.reloads);
        PassWritesOnce(before, t.bodies, tests, t.reloads);
      }
    }
  }

  lemma {:induction false} FrontIsPossible(s: Server, turns: seq<Turn>, tests: Dir -> bool)
    requires turns != [] && forall n :: 0 <= n < |turns| ==> PossibleAt(s, turns, tests, n)
    ensures var front := turns[..|turns| - 1];
            && (forall n :: 0 <= n < |front| ==> PossibleAt(s, front, tests, n))
            && Possible(Run(s, front, tests), turns[|turns| - 1])
  {
    hide Run, Possible;
    var front := turns[..|turns| - 1];
    forall n | 0 <= n < |front| ensures PossibleAt(s, front, tests, n) {
      assert front[..n] == turns[..n] && PossibleAt(s, turns, tests, n);
    }
    assert PossibleAt(s, turns, tests, |front|);
  }

  lemma PassWritesOnce(s: Server, bodies: Dir, tests: Dir -> bool, reloads: bool)
    ensures Pass(s, bodies, tests, reloads).files in {s.files, Desired(s.files, bodies)}
  {
  }

  /** A pass that dies after its last write, before its test, is taken for a finished one:
      the next pass publishes the links with no test and no reload exactly when everything
      was in place, whether or not it passes the test. */
  lemma {:induction false} DeathBeforeTheTestIsForgottenIff(s: Server, bodies: Dir, left: Dir, tests: Dir -> bool, again: bool)
    requires WellNamed(bodies) && MayLeave(s.files, bodies, left)
    ensures var next := Pass(s.(files := left), bodies, tests, again);
            && (Outcomes(s.(files := left), bodies, tests, again) == Unchanged <==> left == Desired(s.files, bodies))
            && (left == Desired(s.files, bodies) ==> next == s.(files := left, ready := bodies))
  {
    SameOthersSameDesired(left, s.files, bodies);
  }

  /** No reload of the run fails, and no pass dies in it after changing a file. */
  predicate Undisturbed(s: Server, turns: seq<Turn>, tests: Dir -> bool) {
    forall i :: 0 <= i < |turns| ==> UndisturbedBy(Run(s, turns[..i], tests), turns[i], tests)
  }

  predicate UndisturbedBy(s: Server, t: Turn, tests: Dir -> bool) {
    match t
    case Whole(bodies, reloads) => Outcomes(s, bodies, tests, reloads) != ReloadFailed
    case CutShort(_, left) => left == s.files
  }

  lemma {:induction false} FrontIsUndisturbed(s: Server, turns: seq<Turn>, tests: Dir -> bool)
    requires turns != [] && Undisturbed(s, turns, tests)
    ensures Undisturbed(s, turns[..|turns| - 1], tests)
    ensures UndisturbedBy(Run(s, turns[..|turns| - 1], tests), turns[|turns| - 1], tests)
  {
    hide Run, UndisturbedBy;
    var front := turns[..|turns| - 1];
    assert forall i :: 0 <= i < |front| ==> front[..i] == turns[..i] && front[i] == turns[i];
  }

  /** Over every run that starts with the server running what the directory holds: as long
      as no reload fails and no pass dies half-way it goes on doing so, and every set of
      links published is served. */
  lemma {:induction false} RunServesWhatItPublishes(s: Server, turns: seq<Turn>, tests: Dir -> bool)
    requires s.loaded == s.files && Undisturbed(s, turns, tests)
    requires forall i :: 0 <= i < |turns| ==> WellNamed(turns[i].bodies)
    ensures Run(s, turns, tests).loaded == Run(s, turns, tests).files
    ensures turns != [] && turns[|turns| - 1].Whole? ==>
      var before, t := Run(s, turns[..|turns| - 1], tests), turns[|turns| - 1];
      Marks(Outcomes(before, t.bodies, tests, t.reloads)) ==>
        Serves(Run(s, turns, tests), t.bodies) && Run(s, turns, tests).ready == t.bodies
  {
    hide Outcomes, Others, Desired;
    if turns != [] {
      var front, t := turns[..|turns| - 1], turns[|turns| - 1];
      FrontIsUndisturbed(s, turns, tests);
      RunServesWhatItPublishes(s, front, tests);
      var before := Run(s, front, tests);
      if t.Whole? {
        PassLoadsFilesIff(before, t.bodies, tests, t.reloads);
        if Marks(Outcomes(before, t.bodies, tests, t.reloads)) {
          PublishedIsServedIff(before, t.bodies, tests, t.reloads);
        }
      }
    }
  }

  lemma DesiredKeepsOthers(files: Dir, bodies: Dir)
    requires WellNamed(bodies)
    ensures Others(Desired(files, bodies)) == Others(files)
  {
  }

  function Others(files: Dir): Dir {
    map name | name in files && !Managed(name) :: files[name]
  }
}
