/** The client-side router: resolutions run asynchronously, and a counter tells a
    resolution whether a later one has overtaken it. */
module Router {
  import opened Common

  datatype Url = Url(path: string, search: string)

  /** What is on the screen: a page that a view painted, the error page, or the page for
      an unknown address, each with the path it was painted for. */
  datatype Screen = Blank | Page(path: string) | Failed(path: string) | Missing(path: string)

  /** A resolution waiting for its guard or for its view. */
  datatype Task =
    | Guarding(mine: nat, path: string)
    | Viewing(mine: nat, path: string, painted: bool)

  /** `lost` says that the newest resolution ended without a page: it died of an uncaught
      exception, or its view returned and had painted nothing. */
  datatype State = State(
    generation: nat, url: Url, screen: Screen, tasks: map<int, Task>, lost: bool)

  /** The registered routes, and whether a guard and an error handler are installed.
      `decodes` says whether the parameters of a path can be decoded. */
  datatype Config = Config(
    routes: seq<string -> bool>, decodes: string -> bool, guarded: bool, handlesErrors: bool)

  // ---------------------------------------------------------------------------- paths

  function StripSlashes(p: string): string {
    if p != "" && p[|p| - 1] == '/' then StripSlashes(p[..|p| - 1]) else p
  }

  function CurrentPath(url: Url): string {
    if StripSlashes(url.path) == "" then "/" else StripSlashes(url.path)
  }

  function Slashes(n: nat): string {
    if n == 0 then "" else Slashes(n - 1) + "/"
  }

  /** The current path is the address's own without the slashes at its end; of nothing but
      slashes it is the root. The search does not matter. */
  lemma {:induction false} CurrentPathSpelledOut(url: Url)
    ensures CurrentPath(url) != "" && (CurrentPath(url)[|CurrentPath(url)| - 1] == '/' ==> CurrentPath(url) == "/")
    ensures exists n :: url.path == (if CurrentPath(url) == "/" then Slashes(n) else CurrentPath(url) + Slashes(n))
  {
    var n := StripsSlashes(url.path);
    assert "" + Slashes(n) == Slashes(n);
  }

  lemma {:induction false} StripsSlashes(p: string) returns (n: nat)
    ensures p == StripSlashes(p) + Slashes(n)
    ensures StripSlashes(p) != "" ==> StripSlashes(p)[|StripSlashes(p)| - 1] != '/'
  {
    n := 0;
    if p != "" && p[|p| - 1] == '/' {
      n := StripsSlashes(p[..|p| - 1]);
      n := n + 1;
      assert p == p[..|p| - 1] + "/";
    } else {
      assert p + "" == p;
    }
  }

  predicate Known(c: Config, path: string) {
    exists i :: 0 <= i < |c.routes| && c.routes[i](path)
  }

  // ---------------------------------------------------------------------------- steps

  /** Start a resolution as task `t`. For an unknown address the handler paints, or sends
      the visitor `away` to a known one. */
  function Resolved(c: Config, s: State, t: int, away: Option<Url>): State {
    var path := CurrentPath(s.url);
    var next := s.(generation := s.generation + 1, lost := false);
    if Known(c, path) then Entered(c, next, t, path)
    else if away.None? then next.(screen := Missing(path))
    else Entered(c, next.(generation := next.generation + 1, url := away.value), t, CurrentPath(away.value))
  }

  /** A matching route was found: await the guard, or the view if there is none. */
  function Entered(c: Config, s: State, t: int, path: string): State {
    if !c.decodes(path) then s.(lost := true)
    else if c.guarded then s.(tasks := s.tasks[t := Guarding(s.generation, path)])
    else s.(tasks := s.tasks[t := Viewing(s.generation, path, false)])
  }

  datatype Event =
    | Navigate(t: int, to: Url, away: Option<Url>)
    | GuardReturns(t: int, redirect: Option<Url>, away: Option<Url>)
    | GuardThrows(t: int)
    | ViewPaints(t: int)
    | ViewReturns(t: int, away: Option<Url>)
    | ViewThrows(t: int, away: Option<Url>)

  predicate Enabled(c: Config, s: State, e: Event) {
    match e
    case Navigate(t, _, away) => t !in s.tasks && AwayIsKnown(c, away)
    case GuardReturns(t, _, away) => t in s.tasks && s.tasks[t].Guarding? && AwayIsKnown(c, away)
    case GuardThrows(t) => t in s.tasks && s.tasks[t].Guarding?
    case ViewPaints(t) => t in s.tasks && s.tasks[t].Viewing?
    case ViewReturns(t, away) => t in s.tasks && s.tasks[t].Viewing? && AwayIsKnown(c, away)
    case ViewThrows(t, away) => t in s.tasks && s.tasks[t].Viewing? && AwayIsKnown(c, away)
  }

  /** The handler for unknown addresses sends visitors only to registered ones. */
  predicate AwayIsKnown(c: Config, away: Option<Url>) {
    away.Some? ==> Known(c, CurrentPath(away.value))
  }

  function Next(c: Config, s: State, e: Event): State
    requires Enabled(c, s, e)
  {
    match e
    case Navigate(t, to, away) => Resolved(c, s.(url := to), t, away)
    case GuardReturns(t, redirect, away) =>
      var task, done := s.tasks[t], s.(tasks := s.tasks - {t});
      if task.mine != s.generation then done
      else if redirect.Some? then Resolved(c, done.(url := redirect.value), t, away)
      else s.(tasks := s.tasks[t := Viewing(task.mine, task.path, false)])
    case GuardThrows(t) =>
      var done := s.(tasks := s.tasks - {t});
      if s.tasks[t].mine == s.generation then done.(lost := true) else done
    case ViewPaints(t) =>
      s.(screen := Page(s.tasks[t].path), tasks := s.tasks[t := s.tasks[t].(painted := true)])
    case ViewReturns(t, away) =>
      var done := s.(tasks := s.tasks - {t});
      if s.tasks[t].mine != s.generation then Resolved(c, done, t, away)
      else if s.tasks[t].painted then done
      else done.(lost := true)
    case ViewThrows(t, away) =>
      var done := s.(tasks := s.tasks - {t});
      if s.tasks[t].mine != s.generation then Resolved(c, done, t, away)
      else if c.handlesErrors then done.(screen := Failed(s.tasks[t].path))
      else done.(lost := true)
  }

  /** Where a step leaves the address: a navigation and a current guard's redirect go where
      they say, unless that is unknown and the handler sends the visitor away. No other step
      goes anywhere but away. */
  lemma StepGoesThere(c: Config, s: State, e: Event)
    requires Enabled(c, s, e)
    ensures var to := if e.Navigate? then e.to
                      else if e.GuardReturns? && e.redirect.Some? && s.tasks[e.t].mine == s.generation
                      then e.redirect.value else s.url;
            var resolves := e.Navigate?
                            || (e.GuardReturns? && e.redirect.Some? && s.tasks[e.t].mine == s.generation)
                            || ((e.ViewReturns? || e.ViewThrows?) && s.tasks[e.t].mine != s.generation);
            Next(c, s, e).url ==
              if resolves && !Known(c, CurrentPath(to)) && e.away.Some? then e.away.value else to
  {
  }

  // ------------------------------------------------------------------- the module state

  /** The module's variables, with its suspended calls. Each method runs up to the next
      point where the code awaits. */
  class App {
    const config: Config
    var generation: nat
    var url: Url
    var screen: Screen
    var tasks: map<int, Task>
    // Not in the code: what the proofs need to know about the newest resolution.
    ghost var lost: bool

    ghost function Now(): State
      reads this
    {
      State(generation, url, screen, tasks, lost)
    }

    constructor (config: Config, url: Url)
      ensures this.config == config && Now() == State(0, url, Blank, map[], false)
    {
      this.config, generation, this.url, screen, tasks, lost := config, 0, url, Blank, map[], false;
    }

    method Resolve(t: int, away: Option<Url>)
      requires AwayIsKnown(config, away)
      modifies this
      ensures Now() == Resolved(config, old(Now()), t, away)
    {
      generation, lost := generation + 1, false;
      var path := CurrentPath(url);
      var found := Find(path);
      if !found {
        if away.None? {
          screen := Missing(path);
          return;
        }
        // The handler replaces the address, which resolves again before it returns.
        url, generation := away.value, generation + 1;
        path := CurrentPath(url);
      }
      if !config.decodes(path) {
        lost := true;
      } else if config.guarded {
        tasks := tasks[t := Guarding(generation, path)];
      } else {
        tasks := tasks[t := Viewing(generation, path, false)];
      }
    }

    /** Try the routes in the order they were registered. */
    method Find(path: string) returns (found: bool)
      ensures found <==> Known(config, path)
    {
      for i := 0 to |config.routes|
        invariant forall j :: 0 <= j < i ==> !config.routes[j](path)
      {
        if config.routes[i](path) {
          return true;
        }
      }
      found := false;
    }

    method NavigateTo(t: int, to: Url, away: Option<Url>)
      requires Enabled(config, Now(), Navigate(t, to, away))
      modifies this
      ensures Now() == Next(config, old(Now()), Navigate(t, to, away))
    {
      if to != url {
        url := to;
      }
      Resolve(t, away);
    }

    method AfterGuard(t: int, redirect: Option<Url>, away: Option<Url>)
      requires Enabled(config, Now(), GuardReturns(t, redirect, away))
      modifies this
      ensures Now() == Next(config, old(Now()), GuardReturns(t, redirect, away))
    {
      var task := tasks[t];
      if task.mine != generation {
        tasks := tasks - {t};
      } else if redirect.Some? {
        tasks := tasks - {t};
        url := redirect.value;
        Resolve(t, away);
      } else {
        tasks := tasks[t := Viewing(task.mine, task.path, false)];
      }
    }

    method AfterView(t: int, away: Option<Url>)
      requires Enabled(config, Now(), ViewReturns(t, away))
      modifies this
      ensures Now() == Next(config, old(Now()), ViewReturns(t, away))
    {
      var mine := tasks[t].mine;
      ghost var blank := !tasks[t].painted;
      tasks := tasks - {t};
      if mine != generation {
        Resolve(t, away);
      } else if blank {
        lost := true;
      }
    }

    method AfterFailure(t: int, away: Option<Url>)
      requires Enabled(config, Now(), ViewThrows(t, away))
      modifies this
      ensures Now() == Next(config, old(Now()), ViewThrows(t, away))
    {
      var mine, path := tasks[t].mine, tasks[t].path;
      tasks := tasks - {t};
      if mine == generation {
        if config.handlesErrors {
          screen := Failed(path);
        } else {
          lost := true;
        }
        return;
      }
      Resolve(t, away);
    }
  }

  // ------------------------------------------------------------------------- any order

  /** The screen shows the current address: its page or the error page if the address is
      known, and otherwise the page for unknown ones. */
  predicate ShowsCurrent(c: Config, s: State) {
    var path := CurrentPath(s.url);
    if Known(c, path) then s.screen == Page(path) || s.screen == Failed(path) else s.screen == Missing(path)
  }

  predicate IsCurrent(s: State, t: int) {
    t in s.tasks && s.tasks[t].mine == s.generation
  }

  /** A view that has been overtaken and will resolve once more when it ends. */
  predicate IsStaleView(s: State, t: int) {
    t in s.tasks && s.tasks[t].Viewing? && s.tasks[t].mine != s.generation
  }

  ghost predicate StaleView(s: State) {
    exists t :: IsStaleView(s, t)
  }

  /** At most one resolution is current, it is for the current address, and once it has
      painted the screen is right unless an overtaken view is still at work. */
  ghost predicate CurrentIsRight(c: Config, s: State) {
    && (forall t :: t in s.tasks ==> s.tasks[t].mine <= s.generation)
    && (forall t, o :: IsCurrent(s, t) && IsCurrent(s, o) ==> t == o)
    && (forall t :: IsCurrent(s, t) ==>
          && s.tasks[t].path == CurrentPath(s.url) && Known(c, s.tasks[t].path)
          && (s.tasks[t].Viewing? && s.tasks[t].painted ==> StaleView(s) || ShowsCurrent(c, s)))
  }

  /** Somebody will still paint, or the screen is right, or the newest resolution died. */
  ghost predicate Settling(c: Config, s: State) {
    s.lost || StaleView(s) || (exists t :: IsCurrent(s, t)) || ShowsCurrent(c, s)
  }

  ghost predicate Inv(c: Config, s: State) {
    CurrentIsRight(c, s) && Settling(c, s)
  }

  lemma {:induction false} ResolvedIsRight(c: Config, s: State, t: int, away: Option<Url>)
    requires forall o :: o in s.tasks ==> s.tasks[o].mine <= s.generation
    requires t !in s.tasks && AwayIsKnown(c, away)
    ensures Inv(c, Resolved(c, s, t, away))
  {
    var s' := Resolved(c, s, t, away);
    forall o | o != t ensures !IsCurrent(s', o) {
      assert o in s'.tasks ==> o in s.tasks && s'.tasks[o] == s.tasks[o];
    }
    if !s'.lost && !ShowsCurrent(c, s') {
      assert IsCurrent(s', t);
    }
  }

  /** An overtaken view stays overtaken until it ends. */
  lemma {:induction false} StaleStays(s: State, s': State, t: int)
    requires StaleView(s) && s'.generation == s.generation
    requires forall o :: o in s.tasks && o != t ==> o in s'.tasks && s'.tasks[o] == s.tasks[o]
    requires !IsStaleView(s, t) || IsStaleView(s', t)
    ensures StaleView(s')
  {
    var o :| IsStaleView(s, o);
    assert IsStaleView(s', o);
  }

  lemma {:induction false} PaintKeepsInv(c: Config, s: State, t: int)
    requires Inv(c, s) && Enabled(c, s, ViewPaints(t))
    ensures Inv(c, Next(c, s, ViewPaints(t)))
  {
    var s' := Next(c, s, ViewPaints(t));
    assert forall o :: IsCurrent(s', o) <==> IsCurrent(s, o);
    if IsCurrent(s, t) {
      assert s'.screen == Page(CurrentPath(s'.url));
    } else {
      assert IsStaleView(s', t);
    }
  }

  lemma {:induction false} GuardKeepsInv(c: Config, s: State, e: Event)
    requires Inv(c, s) && Enabled(c, s, e) && (e.GuardReturns? || e.GuardThrows?)
    ensures Inv(c, Next(c, s, e))
  {
    hide Known;
    var t, s' := e.t, Next(c, s, e);
    if e.GuardReturns? && e.redirect.Some? && IsCurrent(s, t) {
      ResolvedIsRight(c, s.(tasks := s.tasks - {t}, url := e.redirect.value), t, e.away);
    } else {
      if StaleView(s) {
        StaleStays(s, s', t);
      }
      assert forall o :: IsCurrent(s', o) ==> IsCurrent(s, o);
      if IsCurrent(s, t) {
        assert s'.lost || IsCurrent(s', t);
      } else {
        assert forall o :: IsCurrent(s, o) ==> IsCurrent(s', o);
      }
    }
  }

  lemma {:induction false} ViewEndKeepsInv(c: Config, s: State, e: Event)
    requires Inv(c, s) && Enabled(c, s, e) && (e.ViewReturns? || e.ViewThrows?)
    ensures Inv(c, Next(c, s, e))
  {
    hide Known;
    var t, s' := e.t, Next(c, s, e);
    if IsCurrent(s, t) {
      forall o ensures !IsCurrent(s', o) {
        assert o in s'.tasks ==> o != t && s'.tasks[o] == s.tasks[o];
        assert IsCurrent(s, o) ==> o == t;
      }
      if StaleView(s) {
        StaleStays(s, s', t);
      }
      assert Settling(c, s');
    } else {
      ResolvedIsRight(c, s.(tasks := s.tasks - {t}), t, e.away);
    }
  }

  lemma {:induction false} StepKeepsInv(c: Config, s: State, e: Event)
    requires Inv(c, s) && Enabled(c, s, e)
    ensures Inv(c, Next(c, s, e))
  {
    match e
    case Navigate(t, to, away) => ResolvedIsRight(c, s.(url := to), t, away);
    case ViewPaints(t) => PaintKeepsInv(c, s, t);
    case GuardReturns(_, _, _) => GuardKeepsInv(c, s, e);
    case GuardThrows(_) => GuardKeepsInv(c, s, e);
    case ViewReturns(_, _) => ViewEndKeepsInv(c, s, e);
    case ViewThrows(_, _) => ViewEndKeepsInv(c, s, e);
  }

  /** The router is started by resolving the address it was loaded with. */
  ghost predicate Run(c: Config, url: Url, away: Option<Url>, events: seq<Event>, s: State) {
    if events == [] then
      AwayIsKnown(c, away) && s == Resolved(c, State(0, url, Blank, map[], false), 0, away)
    else
      var front, e := events[..|events| - 1], events[|events| - 1];
      exists before :: Run(c, url, away, front, before) && Enabled(c, before, e) && s == Next(c, before, e)
  }

  lemma {:induction false} EveryRunKeepsInv(c: Config, url: Url, away: Option<Url>, events: seq<Event>, s: State)
    requires Run(c, url, away, events, s)
    ensures Inv(c, s)
  {
    if events == [] {
      ResolvedIsRight(c, State(0, url, Blank, map[], false), 0, away);
    } else {
      var front, e := events[..|events| - 1], events[|events| - 1];
      var before :| Run(c, url, away, front, before) && Enabled(c, before, e) && s == Next(c, before, e);
      EveryRunKeepsInv(c, url, away, front, before);
      StepKeepsInv(c, before, e);
    }
  }

  /** Once nothing is in flight the screen shows the current address, in whatever order
      guards and views ended and however late an overtaken one painted, unless the
      newest resolution ended without a page. */
  lemma {:induction false} SettledScreenIsCurrent(
    c: Config, url: Url, away: Option<Url>, events: seq<Event>, s: State)
    requires Run(c, url, away, events, s) && s.tasks == map[] && !s.lost
    ensures ShowsCurrent(c, s)
  {
    EveryRunKeepsInv(c, url, away, events, s);
  }

  /** That takes a path that does not decode, a guard that throws, a view that throws when
      no handler is installed, or a view that returns although it has painted nothing; and
      each of them only in the newest resolution. */
  lemma {:induction false} OnlyTheNewestIsLost(c: Config, s: State, e: Event)
    requires Inv(c, s) && Enabled(c, s, e) && !s.lost && Next(c, s, e).lost
    ensures !c.decodes(CurrentPath(Next(c, s, e).url))
         || (&& (e.GuardThrows? || (e.ViewThrows? && !c.handlesErrors) || (e.ViewReturns? && !s.tasks[e.t].painted))
             && IsCurrent(s, e.t))
  {
  }
}
