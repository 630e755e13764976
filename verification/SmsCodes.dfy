/** One-time codes: a sliding-window limiter, and verification under a row lock. */
module SmsCodes {
  import opened Common

  const TTL_SECONDS := 180.0
  const MAX_ATTEMPTS := 5
  const MAX_PER_HOUR := 5
  const HOUR := 3600.0
  const RESEND_SECONDS := 60.0

  /** A code is asked for by one phone for one purpose. */
  datatype Key = Key(phone: string, purpose: string)

  datatype Code = Code(key: Key, mac: string, created: real, expires: real, attempts: nat, consumed: Option<real>)

  datatype Refusal = Rate | Wait

  datatype Verdict = Missing | Expired | Exhausted | Wrong | Right

  predicate Live(c: Code, k: Key) {
    c.key == k && c.consumed.None?
  }

  function LiveRows(rows: seq<Code>, k: Key): set<nat> {
    set i: nat | i < |rows| && Live(rows[i], k)
  }

  /** The number of codes issued to `k` between two instants, both included. */
  function Issued(rows: seq<Code>, k: Key, from: real, to: real): nat {
    if rows == [] then 0
    else
      var last := rows[|rows| - 1];
      Issued(rows[..|rows| - 1], k, from, to) + (if last.key == k && from <= last.created <= to then 1 else 0)
  }

  function IssuedSince(rows: seq<Code>, k: Key, from: real): nat {
    if rows == [] then 0
    else
      var last := rows[|rows| - 1];
      IssuedSince(rows[..|rows| - 1], k, from) + (if last.key == k && from <= last.created then 1 else 0)
  }

  predicate Recent(c: Code, k: Key, now: real) {
    c.key == k && now - HOUR <= c.created
  }

  /** Some code of `k` from the last hour is younger than the resend interval. */
  predicate JustSent(rows: seq<Code>, k: Key, now: real) {
    exists i :: 0 <= i < |rows| && Recent(rows[i], k, now) && now - rows[i].created < RESEND_SECONDS
  }

  function Throttled(rows: seq<Code>, k: Key, now: real): Option<Refusal> {
    if IssuedSince(rows, k, now - HOUR) >= MAX_PER_HOUR then Some(Rate)
    else if JustSent(rows, k, now) then Some(Wait)
    else None
  }

  function Consume(rows: seq<Code>, stale: set<nat>, now: real): seq<Code> {
    seq(|rows|, i requires 0 <= i < |rows| => if i in stale then rows[i].(consumed := Some(now)) else rows[i])
  }

  function Fresh(k: Key, mac: string, now: real): Code {
    Code(k, mac, now, now + TTL_SECONDS, 0, None)
  }

  function Judge(c: Code, mac: string, now: real): Verdict {
    if c.expires <= now then Expired
    else if c.attempts >= MAX_ATTEMPTS then Exhausted
    else if c.mac != mac then Wrong
    else Right
  }

  /** What a verification does to the row it judged. */
  function Judged(rows: seq<Code>, i: nat, mac: string, now: real): seq<Code>
    requires i < |rows|
  {
    match Judge(rows[i], mac, now)
    case Wrong => rows[i := rows[i].(attempts := rows[i].attempts + 1)]
    case Right => rows[i := rows[i].(consumed := Some(now))]
    case _ => rows
  }

  /** `i` is a newest live row of `k`. */
  predicate Newest(rows: seq<Code>, k: Key, among: set<nat>, i: nat) {
    && i in among && i < |rows| && Live(rows[i], k)
    && forall j :: j in among && j < |rows| && Live(rows[j], k) ==> rows[j].created <= rows[i].created
  }

  /** The table, as one caller at a time uses it. `mac` is the keyed hash. */
  class CodeTable {
    var rows: seq<Code>
    const mac: (Key, string) -> string

    constructor (mac: (Key, string) -> string)
      ensures rows == [] && this.mac == mac
    {
      rows, this.mac := [], mac;
    }

    method Throttle(k: Key, now: real) returns (refusal: Option<Refusal>)
      ensures refusal == Throttled(rows, k, now)
    {
      var recent, last := 0, None;
      for i := 0 to |rows|
        invariant recent == IssuedSince(rows[..i], k, now - HOUR)
        invariant last.Some? ==> exists j | 0 <= j < i :: Recent(rows[j], k, now) && rows[j].created == last.value
        invariant forall j | 0 <= j < i && Recent(rows[j], k, now) :: last.Some? && rows[j].created <= last.value
      {
        assert rows[..i + 1][..i] == rows[..i];
        if rows[i].key == k && now - HOUR <= rows[i].created {
          recent := recent + 1;
          if last.None? || last.value < rows[i].created {
            last := Some(rows[i].created);
          }
        }
      }
      assert rows[..|rows|] == rows;
      if recent >= MAX_PER_HOUR {
        return Some(Rate);
      }
      if last.Some? && now - last.value < RESEND_SECONDS {
        return Some(Wait);
      }
      refusal := None;
    }

    /** No code sent earlier works any longer. */
    method Retire(k: Key, now: real)
      modifies this
      ensures rows == Consume(old(rows), LiveRows(old(rows), k), now)
    {
      var n := |rows|;
      ghost var used := Consume(rows, LiveRows(rows, k), now);
      for i := 0 to n
        invariant |rows| == n
        invariant rows[..i] == used[..i] && rows[i..] == old(rows)[i..]
      {
        var row := rows[i];
        assert row == old(rows)[i];
        if Live(row, k) {
          rows := rows[i := row.(consumed := Some(now))];
        }
        assert rows[i] == used[i];
        assert rows[..i + 1] == rows[..i] + [rows[i]] && used[..i + 1] == used[..i] + [used[i]];
      }
      assert rows == rows[..n] && used == used[..n];
    }

    /** Create a code, unless the limiter refuses; every earlier one stops working. */
    method Issue(k: Key, now: real, code: string) returns (refusal: Option<Refusal>)
      modifies this
      ensures refusal == Throttled(old(rows), k, now)
      ensures refusal.Some? ==> rows == old(rows)
      ensures refusal.None? ==>
        && rows == Consume(old(rows), LiveRows(old(rows), k), now) + [Fresh(k, mac(k, code), now)]
        && rows[|old(rows)|] == Code(k, mac(k, code), now, now + 180.0, 0, None)
        && forall i :: 0 <= i < |old(rows)| ==>
             var was := old(rows)[i];
             rows[i] == if was.key == k && was.consumed.None? then was.(consumed := Some(now)) else was
    {
      refusal := Throttle(k, now);
      if refusal.Some? {
        return;
      }
      Retire(k, now);
      rows := rows + [Code(k, mac(k, code), now, now + TTL_SECONDS, 0, None)];
    }

    /** Consume the newest live code, or say why not. */
    method Verify(k: Key, guess: string, now: real) returns (verdict: Verdict, ghost row: Option<nat>)
      modifies this
      ensures row.None? <==> forall c :: c in old(rows) && c.key == k ==> c.consumed.Some?
      ensures row.None? ==> verdict == Missing && rows == old(rows)
      ensures row.Some? ==>
        && row.value < |old(rows)| && old(rows)[row.value].key == k && old(rows)[row.value].consumed.None?
        && forall c :: c in old(rows) && c.key == k && c.consumed.None? ==> c.created <= old(rows)[row.value].created
      ensures row.Some? ==>
        var c := old(rows)[row.value];
        && (verdict == Expired <==> c.expires <= now)
        && (verdict == Exhausted <==> c.expires > now && c.attempts >= 5)
        && (verdict == Right <==> c.expires > now && c.attempts < 5 && c.mac == mac(k, guess))
        && (verdict == Wrong <==> c.expires > now && c.attempts < 5 && c.mac != mac(k, guess))
        && rows == old(rows)[row.value :=
             if verdict == Right then c.(consumed := Some(now))
             else if verdict == Wrong then c.(attempts := c.attempts + 1)
             else c]
    {
      var pick: Option<nat> := None;
      for i := 0 to |rows|
        invariant pick.Some? ==> pick.value < i && Live(rows[pick.value], k)
        invariant forall j :: 0 <= j < i && Live(rows[j], k) ==>
          pick.Some? && rows[j].created <= rows[pick.value].created
      {
        if Live(rows[i], k) && (pick.None? || rows[pick.value].created <= rows[i].created) {
          pick := Some(i);
        }
      }
      row := pick;
      if pick.None? {
        return Missing, None;
      }
      var c := rows[pick.value];
      if c.expires <= now {
        verdict := Expired;
      } else if c.attempts >= MAX_ATTEMPTS {
        verdict := Exhausted;
      } else if c.mac != mac(k, guess) {
        rows := rows[pick.value := c.(attempts := c.attempts + 1)];
        verdict := Wrong;
      } else {
        rows := rows[pick.value := c.(consumed := Some(now))];
        verdict := Right;
      }
    }
  }

  // ------------------------------------------------------- many requests at a time

  /** A request between its statements. `Issuing` has passed the limiter and read the
      codes it will retire, when the table had `seen` rows; `Selecting` has the rows its
      locking read found and may have to wait for them; `Holding` has them locked. */
  datatype Task =
    | Issuing(key: Key, now: real, stale: set<nat>, seen: nat)
    | Selecting(key: Key, mac: string, now: real, found: set<nat>)
    | Holding(key: Key, mac: string, now: real, locked: set<nat>, pick: Option<nat>)
    | Over

  /** A verification that changed a row: what was guessed for whom, and when. */
  datatype Answer = Answer(row: nat, right: bool, key: Key, mac: string, now: real)

  datatype State = State(rows: seq<Code>, tasks: map<int, Task>, clock: real, answers: seq<Answer>)

  const INIT := State([], map[], 0.0, [])

  datatype Event =
    | Tick(seconds: real)
    | Ask(t: int, key: Key)
    | Send(t: int, mac: string)
    | Select(t: int, key: Key, mac: string)
    | Lock(t: int, pick: Option<nat>)
    | Decide(t: int)
    | Crash(t: int)

  predicate Locked(s: State, i: nat) {
    exists o :: o in s.tasks && s.tasks[o].Holding? && i in s.tasks[o].locked
  }

  predicate Unlocked(s: State, rows: set<nat>) {
    forall i :: i in rows ==> !Locked(s, i)
  }

  predicate Enabled(s: State, e: Event) {
    match e
    case Tick(seconds) => seconds >= 0.0
    case Ask(t, _) => t !in s.tasks
    case Send(t, _) => t in s.tasks && s.tasks[t].Issuing? && Unlocked(s, s.tasks[t].stale)
    case Select(t, _, _) => t !in s.tasks
    case Lock(t, pick) =>
      && t in s.tasks && s.tasks[t].Selecting? && Unlocked(s, s.tasks[t].found)
      && (pick.Some? ==> Newest(s.rows, s.tasks[t].key, s.tasks[t].found, pick.value))
      && (pick.None? ==> s.tasks[t].found * LiveRows(s.rows, s.tasks[t].key) == {})
    case Decide(t) => t in s.tasks && s.tasks[t].Holding?
    case Crash(t) => t in s.tasks
  }

  function Decided(s: State, t: int): State
    requires t in s.tasks && s.tasks[t].Holding?
  {
    var task := s.tasks[t];
    var over := s.(tasks := s.tasks[t := Over]);
    if task.pick.None? || task.pick.value >= |s.rows| then over
    else
      var i := task.pick.value;
      var verdict := Judge(s.rows[i], task.mac, task.now);
      if verdict == Wrong || verdict == Right then
        over.(rows := Judged(s.rows, i, task.mac, task.now), 
          answers := s.answers + [Answer(i, verdict == Right, task.key, task.mac, task.now)])
      else over
  }

  function Next(s: State, e: Event): State
    requires Enabled(s, e)
  {
    match e
    case Tick(seconds) => s.(clock := s.clock + seconds)
    case Ask(t, k) =>
      if Throttled(s.rows, k, s.clock).Some? then s.(tasks := s.tasks[t := Over])
      else s.(tasks := s.tasks[t := Issuing(k, s.clock, LiveRows(s.rows, k), |s.rows|)])
    case Send(t, mac) =>
      var task := s.tasks[t];
      s.(rows := Consume(s.rows, task.stale, task.now) + [Fresh(task.key, mac, task.now)],
         tasks := s.tasks[t := Over])
    case Select(t, k, mac) => s.(tasks := s.tasks[t := Selecting(k, mac, s.clock, LiveRows(s.rows, k))])
    case Lock(t, pick) =>
      var task := s.tasks[t];
      s.(tasks := s.tasks[t := Holding(task.key, task.mac, task.now, task.found, pick)])
    case Decide(t) => Decided(s, t)
    case Crash(t) => s.(tasks := s.tasks[t := Over])
  }

  /** A run: events that are not enabled are waits, and change nothing. */
  function Run(events: seq<Event>): State {
    if events == [] then INIT
    else
      var s, e := Run(events[..|events| - 1]), events[|events| - 1];
      if Enabled(s, e) then Next(s, e) else s
  }

  function Answers(answers: seq<Answer>, i: nat, right: bool): nat {
    if answers == [] then 0
    else
      var last := answers[|answers| - 1];
      Answers(answers[..|answers| - 1], i, right) + (if last.row == i && last.right == right then 1 else 0)
  }

  lemma {:induction false} AnswersAppend(answers: seq<Answer>, a: Answer, i: nat, right: bool)
    ensures Answers(answers + [a], i, right) == Answers(answers, i, right) + (if a.row == i && a.right == right then 1 else 0)
  {
    assert (answers + [a])[..|answers|] == answers;
  }

  // --------------------------------------------------------- what no interleaving breaks

  /** What the answers so far say about row `i`. */
  predicate Tallied(s: State, i: nat) {
    if i < |s.rows| then
      && s.rows[i].attempts == Answers(s.answers, i, false) <= MAX_ATTEMPTS
      && Answers(s.answers, i, true) <= 1
      && (Answers(s.answers, i, true) == 1 ==> s.rows[i].consumed.Some?)
    else Answers(s.answers, i, false) == Answers(s.answers, i, true) == 0
  }

  /** Every wrong guess was counted, five at most, and a code that was accepted was
      accepted once and is used up. */
  ghost predicate Counted(s: State) {
    forall i: nat :: Tallied(s, i)
  }

  /** A lock is held by one request, and the row it picked cannot change under it. */
  ghost predicate LocksHold(s: State) {
    && (forall o, p :: o in s.tasks && p in s.tasks && o != p && s.tasks[o].Holding? && s.tasks[p].Holding?
          ==> s.tasks[o].locked !! s.tasks[p].locked)
    && (forall o :: o in s.tasks && s.tasks[o].Holding? && s.tasks[o].pick.Some? ==>
          && s.tasks[o].pick.value in s.tasks[o].locked
          && s.tasks[o].pick.value < |s.rows|
          && s.rows[s.tasks[o].pick.value].consumed.None?)
  }

  lemma {:induction false} StepKeepsLocks(s: State, e: Event)
    requires LocksHold(s) && Enabled(s, e)
    ensures LocksHold(Next(s, e))
  {
    hide Throttled, Answers, Judge;
    var s' := Next(s, e);
    match e
    case Send(t, mac) =>
      forall o | o in s.tasks && s.tasks[o].Holding? && s.tasks[o].pick.Some?
        ensures s'.rows[s.tasks[o].pick.value].consumed.None?
      {
        var i := s.tasks[o].pick.value;
        assert Locked(s, i);
        assert i !in s.tasks[t].stale;
      }
    case Lock(t, pick) =>
      forall o | o in s.tasks && o != t && s.tasks[o].Holding? ensures s.tasks[o].locked !! s.tasks[t].found {
        forall i | i in s.tasks[o].locked ensures i !in s.tasks[t].found {
          assert Locked(s, i);
        }
      }
    case Decide(t) => DecideKeepsLocks(s, t);
    case _ =>
  }

  lemma {:induction false} DecideKeepsLocks(s: State, t: int)
    requires LocksHold(s) && t in s.tasks && s.tasks[t].Holding?
    ensures LocksHold(Decided(s, t))
  {
    hide Judge;
    var s' := Decided(s, t);
    forall o | o in s'.tasks && s'.tasks[o].Holding? && s'.tasks[o].pick.Some?
      ensures s'.rows[s'.tasks[o].pick.value].consumed.None?
    {
      assert o != t && s'.tasks[o] == s.tasks[o];
      if s.tasks[t].pick.Some? {
        assert s.tasks[t].pick.value != s.tasks[o].pick.value;
      }
    }
  }

  lemma {:induction false} SendKeepsCounted(s: State, t: int, mac: string)
    requires Counted(s) && Enabled(s, Send(t, mac))
    ensures Counted(Next(s, Send(t, mac)))
  {
    hide Answers;
    var s' := Next(s, Send(t, mac));
    forall i: nat ensures Tallied(s', i) {
      assert Tallied(s, i);
      if i == |s.rows| {
        assert s'.rows[i] == Fresh(s.tasks[t].key, mac, s.tasks[t].now);
      }
    }
  }

  lemma {:induction false} DecideKeepsCounted(s: State, t: int)
    requires Counted(s) && LocksHold(s) && t in s.tasks && s.tasks[t].Holding?
    ensures Counted(Decided(s, t))
  {
    hide Answers;
    var s' := Decided(s, t);
    if s'.answers != s.answers {
      var pick := s.tasks[t].pick.value;
      var right := Judge(s.rows[pick], s.tasks[t].mac, s.tasks[t].now) == Right;
      var a := Answer(pick, right, s.tasks[t].key, s.tasks[t].mac, s.tasks[t].now);
      assert s'.answers == s.answers + [a];
      assert s.rows[pick].consumed.None?;
      forall i: nat ensures Tallied(s', i) {
        assert Tallied(s, i);
        AnswersAppend(s.answers, a, i, true);
        AnswersAppend(s.answers, a, i, false);
      }
    } else {
      assert forall i: nat :: Tallied(s', i) == Tallied(s, i);
    }
  }

  lemma {:induction false} StepKeepsCounted(s: State, e: Event)
    requires Counted(s) && LocksHold(s) && Enabled(s, e)
    ensures Counted(Next(s, e))
  {
    match e
    case Send(t, mac) => SendKeepsCounted(s, t, mac);
    case Decide(t) => DecideKeepsCounted(s, t);
    case _ =>
      hide Answers, Throttled;
      var s' := Next(s, e);
      assert forall i: nat :: Tallied(s', i) == Tallied(s, i);
  }

  /** Under every interleaving of requests, each code records every wrong guess made at
      it, never more than five, and admits at most one caller. */
  lemma {:induction false} EveryInterleavingCounts(events: seq<Event>)
    ensures Counted(Run(events)) && LocksHold(Run(events))
  {
    hide Next, Enabled;
    if events == [] {
      assert Counted(INIT) && LocksHold(INIT);
    } else {
      var front, e := events[..|events| - 1], events[|events| - 1];
      EveryInterleavingCounts(front);
      if Enabled(Run(front), e) {
        StepKeepsLocks(Run(front), e);
        StepKeepsCounted(Run(front), e);
      }
    }
  }

  // ---------------------------------------------------------------- what was answered

  /** Each answer was given for a code of its own key before that code expired, 180 seconds
      after it was asked for, and it was "right" exactly when the hashes were equal. */
  ghost predicate Answered(s: State) {
    && (forall i :: 0 <= i < |s.answers| ==>
          var a := s.answers[i];
          && a.row < |s.rows| && s.rows[a.row].key == a.key
          && a.now < s.rows[a.row].created + 180.0
          && (a.right <==> s.rows[a.row].mac == a.mac))
    && (forall i :: 0 <= i < |s.rows| ==> s.rows[i].expires == s.rows[i].created + 180.0)
    && (forall o :: o in s.tasks && s.tasks[o].Holding? && s.tasks[o].pick.Some? ==>
          s.tasks[o].pick.value < |s.rows| && s.rows[s.tasks[o].pick.value].key == s.tasks[o].key)
  }

  /** What a step may do to a row: use it up or count a guess, and nothing else. */
  predicate SameCodes(a: seq<Code>, b: seq<Code>) {
    |a| <= |b| && forall i :: 0 <= i < |a| ==>
      b[i].key == a[i].key && b[i].mac == a[i].mac && b[i].created == a[i].created && b[i].expires == a[i].expires
  }

  lemma {:induction false} StepKeepsAnswered(s: State, e: Event)
    requires Answered(s) && Enabled(s, e)
    ensures Answered(Next(s, e))
  {
    hide Throttled, LiveRows;
    var s' := Next(s, e);
    match e
    case Decide(t) => DecideKeepsAnswered(s, t);
    case Send(t, mac) =>
      assert s'.rows[|s.rows|] == Fresh(s.tasks[t].key, mac, s.tasks[t].now);
      AnsweredStays(s, s');
    case Lock(t, pick) => AnsweredStays(s, s');
    case _ => AnsweredStays(s, s');
  }

  lemma {:induction false} AnsweredStays(s: State, s': State)
    requires Answered(s) && s'.answers == s.answers && SameCodes(s.rows, s'.rows)
    requires forall i :: |s.rows| <= i < |s'.rows| ==> s'.rows[i].expires == s'.rows[i].created + 180.0
    requires forall o :: o in s'.tasks && s'.tasks[o].Holding? && s'.tasks[o].pick.Some? ==>
      s'.tasks[o].pick.value < |s.rows| && s.rows[s'.tasks[o].pick.value].key == s'.tasks[o].key
    ensures Answered(s')
  {
  }

  lemma {:induction false} DecideKeepsAnswered(s: State, t: int)
    requires Answered(s) && t in s.tasks && s.tasks[t].Holding?
    ensures Answered(Decided(s, t))
  {
    var s' := Decided(s, t);
    assert SameCodes(s.rows, s'.rows);
    assert forall i :: 0 <= i < |s.answers| ==> s'.answers[i] == s.answers[i];
    assert forall o :: o in s'.tasks && s'.tasks[o].Holding? ==> o != t && s'.tasks[o] == s.tasks[o];
  }

  /** A decision on a picked code admits its caller exactly when the hash is the code's, the
      code has not expired and fewer than five guesses at it were wrong; it counts a wrong
      guess exactly when only the hash differs. */
  lemma {:induction false} DecisionSpelledOut(s: State, t: int)
    requires t in s.tasks && s.tasks[t].Holding? && s.tasks[t].pick.Some? && s.tasks[t].pick.value < |s.rows|
    ensures var task, i, after := s.tasks[t], s.tasks[t].pick.value, Decided(s, t);
            var c, right := s.rows[i], s.rows[i].mac == task.mac;
            if task.now < c.expires && c.attempts < 5 then
              && after.answers == s.answers + [Answer(i, right, task.key, task.mac, task.now)]
              && after.rows == s.rows[i := if right then c.(consumed := Some(task.now)) else c.(attempts := c.attempts + 1)]
            else after.answers == s.answers && after.rows == s.rows
  {
  }

  /** A verification is decided for the key and the hash it came with, at the moment it came:
      waiting for a lock changes none of them. */
  lemma VerificationKeepsItsMoment(s: State, e: Event, t: int)
    requires Enabled(s, e) && t in s.tasks && s.tasks[t].Selecting?
    ensures e.Lock? && e.t == t ==>
      Next(s, e).tasks[t] == Holding(s.tasks[t].key, s.tasks[t].mac, s.tasks[t].now, s.tasks[t].found, e.pick)
    ensures !((e.Lock? || e.Crash?) && e.t == t) ==> Next(s, e).tasks[t] == s.tasks[t]
  {
    hide Throttled;
  }

  /** What a verification picks under its lock: a newest code of its key, of those it found,
      that is still live, or none if none is. */
  lemma LockPicksTheNewest(s: State, t: int, pick: Option<nat>)
    requires Enabled(s, Lock(t, pick))
    ensures var task := s.tasks[t];
            match pick
            case None => forall i :: i in task.found && i < |s.rows| && s.rows[i].key == task.key ==> s.rows[i].consumed.Some?
            case Some(n) =>
              && n in task.found && n < |s.rows| && s.rows[n].key == task.key && s.rows[n].consumed.None?
              && forall i :: i in task.found && i < |s.rows| && s.rows[i].key == task.key && s.rows[i].consumed.None? ==>
                   s.rows[i].created <= s.rows[n].created
  {
    var task := s.tasks[t];
    if pick.None? {
      forall i | i in task.found && i < |s.rows| && s.rows[i].key == task.key ensures s.rows[i].consumed.Some? {
        assert i !in task.found * LiveRows(s.rows, task.key);
      }
    }
  }

  /** Over every interleaving, whoever was admitted knew the code of their own key in time,
      and whoever was counted as wrong did not know it. */
  lemma {:induction false} EveryAnswerIsDeserved(events: seq<Event>)
    ensures Answered(Run(events))
  {
    hide Next, Enabled, Answered;
    if events == [] {
      NothingIsAnswered();
    } else {
      var front, e := events[..|events| - 1], events[|events| - 1];
      EveryAnswerIsDeserved(front);
      if Enabled(Run(front), e) {
        StepKeepsAnswered(Run(front), e);
      }
    }
  }

  lemma NothingIsAnswered()
    ensures Answered(Run([]))
  {
  }

  // ------------------------------------------------------------------ one live code

  predicate AtMostOne(live: set<nat>) {
    forall i, j :: i in live && j in live ==> i == j
  }

  /** No key has two codes that would still be accepted. */
  ghost predicate OneLive(s: State) {
    forall k :: AtMostOne(LiveRows(s.rows, k))
  }

  /** The insert finds no live code of its key that its request had not read. */
  predicate SawLive(s: State, e: Event) {
    e.Send? && Enabled(s, e) ==> LiveRows(s.rows, s.tasks[e.t].key) <= s.tasks[e.t].stale
  }

  lemma {:induction false} LiveAfterSend(s: State, t: int, mac: string, k: Key)
    requires Enabled(s, Send(t, mac))
    ensures LiveRows(Next(s, Send(t, mac)).rows, k) ==
      (LiveRows(s.rows, k) - s.tasks[t].stale) + (if s.tasks[t].key == k then {|s.rows|} else {})
  {
    var rows := Next(s, Send(t, mac)).rows;
    assert rows[|s.rows|] == Fresh(s.tasks[t].key, mac, s.tasks[t].now);
    forall i: nat | i < |s.rows| ensures Live(rows[i], k) <==> Live(s.rows[i], k) && i !in s.tasks[t].stale {
    }
  }

  /** After an insert its key has one live code exactly when the request had read every
      code that was live at that moment. */
  lemma {:induction false} SendLeavesOneLiveIff(s: State, t: int, mac: string)
    requires Enabled(s, Send(t, mac))
    ensures AtMostOne(LiveRows(Next(s, Send(t, mac)).rows, s.tasks[t].key)) <==> SawLive(s, Send(t, mac))
  {
    var k, stale := s.tasks[t].key, s.tasks[t].stale;
    var after := LiveRows(Next(s, Send(t, mac)).rows, k);
    LiveAfterSend(s, t, mac, k);
    assert |s.rows| in after;
    if !(LiveRows(s.rows, k) <= stale) {
      var i :| i in LiveRows(s.rows, k) && i !in stale;
      assert i in after && i != |s.rows|;
    }
  }

  lemma {:induction false} StepLeavesOneLiveIff(s: State, e: Event)
    requires OneLive(s) && Enabled(s, e)
    ensures OneLive(Next(s, e)) <==> SawLive(s, e)
  {
    hide Throttled;
    var s' := Next(s, e);
    match e
    case Send(t, mac) =>
      SendLeavesOneLiveIff(s, t, mac);
      forall k | k != s.tasks[t].key ensures AtMostOne(LiveRows(s'.rows, k)) {
        LiveAfterSend(s, t, mac, k);
        assert AtMostOne(LiveRows(s.rows, k));
      }
    case _ =>
      forall k ensures AtMostOne(LiveRows(s'.rows, k)) {
        assert AtMostOne(LiveRows(s.rows, k));
        assert LiveRows(s'.rows, k) <= LiveRows(s.rows, k);
      }
  }

  ghost predicate OneLiveAfter(events: seq<Event>, n: nat)
    requires n <= |events|
  {
    OneLive(Run(events[..n]))
  }

  predicate SawLiveAt(events: seq<Event>, n: nat)
    requires n < |events|
  {
    SawLive(Run(events[..n]), events[n])
  }

  lemma {:induction false} OneLiveNext(events: seq<Event>, n: nat)
    requires n < |events| && OneLiveAfter(events, n)
    ensures OneLiveAfter(events, n + 1) <==> SawLiveAt(events, n)
  {
    hide Next, OneLive;
    RunNext(events, n);
    if Enabled(Run(events[..n]), events[n]) {
      StepLeavesOneLiveIff(Run(events[..n]), events[n]);
    }
  }

  lemma RunNext(events: seq<Event>, n: nat)
    requires n < |events|
    ensures var s := Run(events[..n]);
            Run(events[..n + 1]) == if Enabled(s, events[n]) then Next(s, events[n]) else s
  {
    hide Next, Enabled;
    var more := events[..n + 1];
    assert more[..n] == events[..n] && more[n] == events[n];
  }

  lemma {:induction false} OneLiveUpTo(events: seq<Event>, m: nat)
    requires m <= |events|
    ensures (forall n :: 0 <= n <= m ==> OneLiveAfter(events, n)) <==> (forall n :: 0 <= n < m ==> SawLiveAt(events, n))
  {
    if m == 0 {
      NothingIsLive();
      assert events[..0] == [];
    } else {
      hide OneLiveAfter, SawLiveAt;
      OneLiveUpTo(events, m - 1);
      if OneLiveAfter(events, m - 1) {
        OneLiveNext(events, m - 1);
      }
    }
  }

  lemma NothingIsLive()
    ensures OneLive(Run([]))
  {
  }

  /** Over every run, interleaved in any way: no key ever has two live codes exactly when
      no insert finds a live code of its key that its request had not read. */
  lemma {:induction false} OneLiveIff(events: seq<Event>)
    ensures (forall n :: 0 <= n <= |events| ==> OneLiveAfter(events, n))
       <==> (forall n :: 0 <= n < |events| ==> SawLiveAt(events, n))
  {
    OneLiveUpTo(events, |events|);
  }

  // ---------------------------------------------------------------- the two limits

  /** The insert finds no code of its key that came after its request looked. */
  predicate SawAll(s: State, e: Event) {
    e.Send? && Enabled(s, e) ==>
      forall i :: s.tasks[e.t].seen <= i < |s.rows| ==> s.rows[i].key != s.tasks[e.t].key
  }

  /** Codes of one key are a minute apart, and all but the newest are used up. */
  predicate Spaced(rows: seq<Code>) {
    forall i, j :: 0 <= i < j < |rows| && rows[i].key == rows[j].key ==>
      rows[i].created + RESEND_SECONDS <= rows[j].created && rows[i].consumed.Some?
  }

  /** Any hour, both ends included, saw at most five codes for any key. */
  ghost predicate Limited(rows: seq<Code>) {
    forall k, from :: IssuedInHour(rows, k, from) <= MAX_PER_HOUR
  }

  function IssuedInHour(rows: seq<Code>, k: Key, from: real): nat {
    Issued(rows, k, from, from + HOUR)
  }

  function RowsWithin(rows: seq<Code>, k: Key, from: real, to: real): set<nat> {
    set i: nat | i < |rows| && rows[i].key == k && from <= rows[i].created <= to
  }

  lemma {:induction false} IssuedIsSize(rows: seq<Code>, k: Key, from: real, to: real)
    ensures Issued(rows, k, from, to) == |RowsWithin(rows, k, from, to)|
  {
    if rows != [] {
      var front, n := rows[..|rows| - 1], |rows| - 1;
      IssuedIsSize(front, k, from, to);
      forall i: nat | i < n ensures i in RowsWithin(rows, k, from, to) <==> i in RowsWithin(front, k, from, to) {
        assert front[i] == rows[i];
      }
      OneMore(RowsWithin(front, k, from, to), RowsWithin(rows, k, from, to), n);
    }
  }

  lemma OneMore(before: set<nat>, after: set<nat>, n: nat)
    requires forall i :: i in before ==> i < n
    requires forall i :: i in after ==> i <= n
    requires forall i: nat :: i < n ==> (i in after <==> i in before)
    ensures |after| == |before| + (if n in after then 1 else 0)
  {
    assert after == if n in after then before + {n} else before;
  }

  function RowsSince(rows: seq<Code>, k: Key, from: real): set<nat> {
    set i: nat | i < |rows| && rows[i].key == k && rows[i].created >= from
  }

  lemma {:induction false} SinceIsSize(rows: seq<Code>, k: Key, from: real)
    ensures IssuedSince(rows, k, from) == |RowsSince(rows, k, from)|
  {
    if rows != [] {
      var front, n := rows[..|rows| - 1], |rows| - 1;
      SinceIsSize(front, k, from);
      forall i: nat | i < n ensures i in RowsSince(rows, k, from) <==> i in RowsSince(front, k, from) {
        assert front[i] == rows[i];
      }
      OneMore(RowsSince(front, k, from), RowsSince(rows, k, from), n);
    }
  }

  /** The limiter refuses exactly when five codes of the key are from the last 3600 seconds,
      or else one of them is younger than 60 seconds. */
  lemma {:induction false} ThrottledSpelledOut(rows: seq<Code>, k: Key, now: real)
    ensures var recent := RowsSince(rows, k, now - 3600.0);
            Throttled(rows, k, now) ==
              if |recent| >= 5 then Some(Rate)
              else if exists i :: i in recent && now - rows[i].created < 60.0 then Some(Wait)
              else None
  {
    hide IssuedSince;
    SinceIsSize(rows, k, now - HOUR);
    if JustSent(rows, k, now) {
      var i :| 0 <= i < |rows| && Recent(rows[i], k, now) && now - rows[i].created < RESEND_SECONDS;
      assert i in RowsSince(rows, k, now - 3600.0);
    }
  }

  /** What the limiter found holds of the rows it looked at, for ever. */
  predicate Cleared(s: State, task: Task)
    requires task.Issuing?
  {
    && task.now <= s.clock && task.seen <= |s.rows|
    && IssuedSince(s.rows[..task.seen], task.key, task.now - HOUR) < MAX_PER_HOUR
    && (forall i :: 0 <= i < task.seen && s.rows[i].key == task.key ==>
          && s.rows[i].created + RESEND_SECONDS <= task.now
          && (s.rows[i].consumed.Some? || i in task.stale))
  }

  ghost predicate AllCleared(s: State) {
    && (forall i :: 0 <= i < |s.rows| ==> s.rows[i].created <= s.clock)
    && (forall o :: o in s.tasks && s.tasks[o].Issuing? ==> Cleared(s, s.tasks[o]))
  }

  ghost predicate Orderly(s: State) {
    Spaced(s.rows) && Limited(s.rows)
  }

  /** The same codes, as far as when they were issued and to whom. */
  predicate SameIssues(a: seq<Code>, b: seq<Code>) {
    |a| == |b| && forall i :: 0 <= i < |a| ==> a[i].key == b[i].key && a[i].created == b[i].created
  }

  lemma {:induction false} SameCounts(a: seq<Code>, b: seq<Code>, k: Key, from: real, to: real)
    requires SameIssues(a, b)
    ensures Issued(a, k, from, to) == Issued(b, k, from, to)
    ensures IssuedSince(a, k, from) == IssuedSince(b, k, from)
  {
    if a != [] {
      SameCounts(a[..|a| - 1], b[..|b| - 1], k, from, to);
    }
  }

  lemma {:induction false} WindowIsRecent(rows: seq<Code>, k: Key, from: real, to: real, since: real)
    requires since <= from
    ensures Issued(rows, k, from, to) <= IssuedSince(rows, k, since)
  {
    if rows != [] {
      WindowIsRecent(rows[..|rows| - 1], k, from, to, since);
    }
  }

  lemma {:induction false} CountsAppend(rows: seq<Code>, c: Code, k: Key, from: real, to: real)
    ensures Issued(rows + [c], k, from, to)
         == Issued(rows, k, from, to) + (if c.key == k && from <= c.created <= to then 1 else 0)
    ensures IssuedSince(rows + [c], k, from)
         == IssuedSince(rows, k, from) + (if c.key == k && from <= c.created then 1 else 0)
  {
    assert (rows + [c])[..|rows|] == rows;
  }

  /** Rows of other keys do not count. */
  lemma {:induction false} OthersDoNotCount(rows: seq<Code>, n: nat, k: Key, from: real)
    requires n <= |rows| && forall i :: n <= i < |rows| ==> rows[i].key != k
    ensures IssuedSince(rows, k, from) == IssuedSince(rows[..n], k, from)
    decreases |rows|
  {
    if n == |rows| {
      assert rows[..n] == rows;
    } else {
      var front := rows[..|rows| - 1];
      OthersDoNotCount(front, n, k, from);
      assert front[..n] == rows[..n];
    }
  }

  lemma {:induction false} SameIssuesSameLimits(a: seq<Code>, b: seq<Code>)
    requires SameIssues(a, b) && Limited(a)
    ensures Limited(b)
  {
    hide Issued, IssuedSince;
    forall k, from ensures IssuedInHour(b, k, from) <= MAX_PER_HOUR {
      SameCounts(a, b, k, from, from + HOUR);
      assert IssuedInHour(a, k, from) <= MAX_PER_HOUR;
    }
  }

  /** A task's findings survive any step that keeps the rows it looked at, up to their
      being used up. */
  lemma {:induction false} StaysCleared(s: State, s': State, task: Task)
    requires task.Issuing? && Cleared(s, task) && s.clock <= s'.clock && |s.rows| <= |s'.rows|
    requires SameIssues(s.rows, s'.rows[..|s.rows|])
    requires forall i :: 0 <= i < |s.rows| && s.rows[i].consumed.Some? ==> s'.rows[i].consumed.Some?
    ensures Cleared(s', task)
  {
    hide IssuedSince;
    var a, b := s.rows[..task.seen], s'.rows[..task.seen];
    assert forall i :: 0 <= i < |s.rows| ==> s'.rows[..|s.rows|][i] == s'.rows[i];
    assert SameIssues(a, b);
    SameCounts(a, b, task.key, task.now - HOUR, task.now);
  }

  lemma {:induction false} SendKeepsCleared(s: State, t: int, mac: string)
    requires AllCleared(s) && Enabled(s, Send(t, mac))
    ensures AllCleared(Next(s, Send(t, mac)))
  {
    hide Cleared;
    var s' := Next(s, Send(t, mac));
    assert Cleared(s, s.tasks[t]);
    ClearedIsPast(s, s.tasks[t]);
    forall o | o in s'.tasks && s'.tasks[o].Issuing? ensures Cleared(s', s'.tasks[o]) {
      StaysCleared(s, s', s.tasks[o]);
    }
  }

  lemma ClearedIsPast(s: State, task: Task)
    requires task.Issuing? && Cleared(s, task)
    ensures task.now <= s.clock
  {
  }

  lemma {:induction false} AskIsCleared(s: State, t: int, k: Key)
    requires AllCleared(s) && Enabled(s, Ask(t, k))
    ensures AllCleared(Next(s, Ask(t, k)))
  {
    hide IssuedSince;
    var s' := Next(s, Ask(t, k));
    assert s.rows[..|s.rows|] == s.rows;
    forall o | o in s'.tasks && s'.tasks[o].Issuing? ensures Cleared(s', s'.tasks[o]) {
      if o == t {
        assert forall i :: 0 <= i < |s.rows| && s.rows[i].key == k ==> s.rows[i].created + RESEND_SECONDS <= s.clock;
      } else {
        assert Cleared(s, s.tasks[o]);
      }
    }
  }

  lemma {:induction false} StepKeepsCleared(s: State, e: Event)
    requires AllCleared(s) && Enabled(s, e)
    ensures AllCleared(Next(s, e))
  {
    hide Cleared, Throttled;
    match e
    case Ask(t, k) => AskIsCleared(s, t, k);
    case Send(t, mac) => SendKeepsCleared(s, t, mac);
    case _ =>
      var s' := Next(s, e);
      assert s'.rows[..|s.rows|] == s'.rows;
      forall o | o in s'.tasks && s'.tasks[o].Issuing? ensures Cleared(s', s'.tasks[o]) {
        StaysCleared(s, s', s.tasks[o]);
      }
  }

  lemma {:induction false} SendStaysLimited(rows: seq<Code>, c: Code)
    requires Limited(rows) && IssuedSince(rows, c.key, c.created - HOUR) < MAX_PER_HOUR
    ensures Limited(rows + [c])
  {
    hide Issued, IssuedSince;
    forall k, from ensures IssuedInHour(rows + [c], k, from) <= MAX_PER_HOUR {
      CountsAppend(rows, c, k, from, from + HOUR);
      assert IssuedInHour(rows, k, from) <= MAX_PER_HOUR;
      if c.key == k && from <= c.created <= from + HOUR {
        WindowIsRecent(rows, k, from, from + HOUR, c.created - HOUR);
      }
    }
  }

  lemma {:induction false} SendStaysWithinLimits(rows: seq<Code>, stale: set<nat>, c: Code, seen: nat)
    requires Limited(rows) && seen <= |rows|
    requires IssuedSince(rows[..seen], c.key, c.created - HOUR) < MAX_PER_HOUR
    requires forall i :: seen <= i < |rows| ==> rows[i].key != c.key
    ensures Limited(Consume(rows, stale, c.created) + [c])
  {
    hide Issued, IssuedSince, Limited;
    var used := Consume(rows, stale, c.created);
    OthersDoNotCount(rows, seen, c.key, c.created - HOUR);
    SameCounts(rows, used, c.key, c.created - HOUR, c.created);
    SameIssuesSameLimits(rows, used);
    SendStaysLimited(used, c);
  }

  lemma {:induction false} SpacedAppend(rows: seq<Code>, used: seq<Code>, c: Code)
    requires Spaced(rows) && SameIssues(rows, used)
    requires forall i :: 0 <= i < |rows| && rows[i].consumed.Some? ==> used[i].consumed.Some?
    requires forall i :: 0 <= i < |rows| && rows[i].key == c.key ==>
      used[i].consumed.Some? && rows[i].created + RESEND_SECONDS <= c.created
    ensures Spaced(used + [c])
  {
  }

  lemma {:induction false} SendStaysOrderly(s: State, t: int, mac: string)
    requires Orderly(s) && AllCleared(s) && Enabled(s, Send(t, mac)) && SawAll(s, Send(t, mac))
    ensures Orderly(Next(s, Send(t, mac)))
  {
    hide IssuedSince, Limited, Spaced;
    var task := s.tasks[t];
    var used := Consume(s.rows, task.stale, task.now);
    assert Cleared(s, task);
    SendStaysWithinLimits(s.rows, task.stale, Fresh(task.key, mac, task.now), task.seen);
    assert forall i :: 0 <= i < |s.rows| && s.rows[i].key == task.key ==> i < task.seen;
    SpacedAppend(s.rows, used, Fresh(task.key, mac, task.now));
  }

  lemma {:induction false} StepStaysOrderly(s: State, e: Event)
    requires Orderly(s) && AllCleared(s) && Enabled(s, e) && SawAll(s, e)
    ensures Orderly(Next(s, e))
  {
    hide Limited, Throttled, AllCleared;
    match e
    case Send(t, mac) => SendStaysOrderly(s, t, mac);
    case _ => SameIssuesSameLimits(s.rows, Next(s, e).rows);
  }

  predicate SawAllAt(events: seq<Event>, n: nat)
    requires n < |events|
  {
    SawAll(Run(events[..n]), events[n])
  }

  /** In every run in which no insert finds a code of its key that came after its request
      looked, codes of one key are at least a minute apart, no hour sees over five, and all
      but the newest are used up. */
  lemma {:induction false} UnracedRunsAreOrderly(events: seq<Event>)
    requires forall n :: 0 <= n < |events| ==> SawAllAt(events, n)
    ensures Orderly(Run(events))
  {
    hide Next, Enabled, Limited, Orderly, AllCleared, SawAll;
    if events == [] {
      NothingIsOrderly();
    } else {
      var m := |events| - 1;
      var front := events[..m];
      forall n | 0 <= n < m ensures SawAllAt(front, n) {
        assert front[..n] == events[..n] && SawAllAt(events, n);
      }
      UnracedRunsAreOrderly(front);
      assert SawAllAt(events, m);
      if Enabled(Run(front), events[m]) {
        EveryRunIsCleared(front);
        StepStaysOrderly(Run(front), events[m]);
      }
    }
  }

  lemma {:induction false} EveryRunIsCleared(events: seq<Event>)
    ensures AllCleared(Run(events))
  {
    hide Next, Enabled, AllCleared;
    if events == [] {
      NothingIsOrderly();
    } else {
      var front, e := events[..|events| - 1], events[|events| - 1];
      EveryRunIsCleared(front);
      if Enabled(Run(front), e) {
        StepKeepsCleared(Run(front), e);
      }
    }
  }

  lemma NothingIsOrderly()
    ensures Orderly(Run([])) && AllCleared(Run([]))
  {
    assert forall k, from :: IssuedInHour([], k, from) == 0;
  }

  predicate MinuteApart(a: real, b: real) {
    a + RESEND_SECONDS <= b || b + RESEND_SECONDS <= a
  }

  predicate Apart(rows: seq<Code>) {
    forall i, j :: 0 <= i < j < |rows| && rows[i].key == rows[j].key ==> MinuteApart(rows[i].created, rows[j].created)
  }

  /** The insert finds no code of its key that came after its request looked and was
      issued within a minute of it. */
  predicate SawRecent(s: State, e: Event) {
    e.Send? && Enabled(s, e) ==>
      forall i :: s.tasks[e.t].seen <= i < |s.rows| && s.rows[i].key == s.tasks[e.t].key ==>
        MinuteApart(s.rows[i].created, s.tasks[e.t].now)
  }

  lemma {:induction false} SendStaysApartIff(s: State, t: int, mac: string)
    requires AllCleared(s) && Apart(s.rows) && Enabled(s, Send(t, mac))
    ensures Apart(Next(s, Send(t, mac)).rows) <==> SawRecent(s, Send(t, mac))
  {
    hide IssuedSince, LiveRows;
    var task, rows := s.tasks[t], Next(s, Send(t, mac)).rows;
    assert Cleared(s, task);
    assert rows[|s.rows|] == Fresh(task.key, mac, task.now);
    assert forall i :: 0 <= i < |s.rows| ==> rows[i].key == s.rows[i].key && rows[i].created == s.rows[i].created;
    if Apart(rows) {
      forall i | task.seen <= i < |s.rows| && s.rows[i].key == task.key ensures MinuteApart(s.rows[i].created, task.now) {
        assert MinuteApart(rows[i].created, rows[|s.rows|].created);
      }
    }
  }

  lemma {:induction false} StepStaysApartIff(s: State, e: Event)
    requires AllCleared(s) && Apart(s.rows) && Enabled(s, e)
    ensures Apart(Next(s, e).rows) <==> SawRecent(s, e)
  {
    hide AllCleared, Throttled;
    match e
    case Send(t, mac) => SendStaysApartIff(s, t, mac);
    case _ => assert SameIssues(s.rows, Next(s, e).rows);
  }

  predicate ApartAfter(events: seq<Event>, n: nat)
    requires n <= |events|
  {
    Apart(Run(events[..n]).rows)
  }

  predicate SawRecentAt(events: seq<Event>, n: nat)
    requires n < |events|
  {
    SawRecent(Run(events[..n]), events[n])
  }

  lemma {:induction false} ApartNext(events: seq<Event>, n: nat)
    requires n < |events| && ApartAfter(events, n)
    ensures ApartAfter(events, n + 1) <==> SawRecentAt(events, n)
  {
    hide Next, Apart, AllCleared;
    RunNext(events, n);
    if Enabled(Run(events[..n]), events[n]) {
      EveryRunIsCleared(events[..n]);
      StepStaysApartIff(Run(events[..n]), events[n]);
    }
  }

  lemma {:induction false} ApartUpTo(events: seq<Event>, m: nat)
    requires m <= |events|
    ensures (forall n :: 0 <= n <= m ==> ApartAfter(events, n)) <==> (forall n :: 0 <= n < m ==> SawRecentAt(events, n))
  {
    if m == 0 {
      assert events[..0] == [] && Apart(Run([]).rows);
    } else {
      hide ApartAfter, SawRecentAt;
      ApartUpTo(events, m - 1);
      if ApartAfter(events, m - 1) {
        ApartNext(events, m - 1);
      }
    }
  }

  /** Over every run: the codes of every key are a minute apart at all times exactly when
      no insert finds a code of its key, issued within a minute of its own, that came after
      its request looked. */
  lemma {:induction false} MinuteApartIff(events: seq<Event>)
    ensures (forall n :: 0 <= n <= |events| ==> ApartAfter(events, n))
       <==> (forall n :: 0 <= n < |events| ==> SawRecentAt(events, n))
  {
    ApartUpTo(events, |events|);
  }

  // ------------------------------------------------------------- five in any hour

  /** An hour from `from` on that includes the request's moment already has five codes of
      its key, and one of them came after the request looked. */
  predicate FullHour(rows: seq<Code>, task: Task, from: real)
    requires task.Issuing?
  {
    && from <= task.now <= from + HOUR
    && IssuedInHour(rows, task.key, from) >= MAX_PER_HOUR
    && exists i :: task.seen <= i < |rows| && rows[i].key == task.key && from <= rows[i].created <= from + HOUR
  }

  /** The insert finds no such hour, be it one that begins with the request itself or with
      a code of its key. */
  predicate HourRoom(s: State, e: Event) {
    e.Send? && Enabled(s, e) ==>
      && !FullHour(s.rows, s.tasks[e.t], s.tasks[e.t].now)
      && forall i :: 0 <= i < |s.rows| && s.rows[i].key == s.tasks[e.t].key ==>
           !FullHour(s.rows, s.tasks[e.t], s.rows[i].created)
  }

  /** Where the codes of an hour begin: with `now`, or with the earliest of them. */
  lemma {:induction false} HourBeginsWithACode(rows: seq<Code>, k: Key, from: real, now: real) returns (begin: real)
    requires from <= now
    ensures from <= begin <= now
    ensures begin == now || exists i :: 0 <= i < |rows| && rows[i].key == k && rows[i].created == begin
    ensures forall i :: 0 <= i < |rows| && rows[i].key == k && from <= rows[i].created ==> begin <= rows[i].created
  {
    if rows == [] {
      begin := now;
    } else {
      var front, last := rows[..|rows| - 1], rows[|rows| - 1];
      begin := HourBeginsWithACode(front, k, from, now);
      assert forall i :: 0 <= i < |front| ==> front[i] == rows[i];
      if last.key == k && from <= last.created < begin {
        begin := last.created;
      }
    }
  }

  lemma {:induction false} NoneBefore(rows: seq<Code>, k: Key, from: real, begin: real)
    requires from <= begin
    requires forall i :: 0 <= i < |rows| && rows[i].key == k && from <= rows[i].created ==> begin <= rows[i].created
    ensures IssuedInHour(rows, k, from) <= IssuedInHour(rows, k, begin)
  {
    NoneBeforeIn(rows, k, from, from + HOUR, begin, begin + HOUR);
  }

  lemma {:induction false} NoneBeforeIn(rows: seq<Code>, k: Key, from: real, to: real, begin: real, end: real)
    requires to <= end
    requires forall i :: 0 <= i < |rows| && rows[i].key == k && from <= rows[i].created ==> begin <= rows[i].created
    ensures Issued(rows, k, from, to) <= Issued(rows, k, begin, end)
  {
    if rows != [] {
      var front := rows[..|rows| - 1];
      assert forall i :: 0 <= i < |front| ==> front[i] == rows[i];
      NoneBeforeIn(front, k, from, to, begin, end);
    }
  }

  /** Rows outside an hour do not count in it. */
  lemma {:induction false} OutsideDoesNotCount(rows: seq<Code>, n: nat, k: Key, from: real, to: real)
    requires n <= |rows|
    requires forall i :: n <= i < |rows| && rows[i].key == k ==> !(from <= rows[i].created <= to)
    ensures Issued(rows, k, from, to) == Issued(rows[..n], k, from, to)
    decreases |rows|
  {
    if n == |rows| {
      assert rows[..n] == rows;
    } else {
      var front := rows[..|rows| - 1];
      assert forall i :: 0 <= i < |front| ==> front[i] == rows[i];
      OutsideDoesNotCount(front, n, k, from, to);
      assert front[..n] == rows[..n];
    }
  }

  /** What the limiter counted never fills an hour by itself. */
  lemma {:induction false} HourHasRoom(s: State, task: Task, from: real)
    requires task.Issuing? && Cleared(s, task) && from <= task.now <= from + HOUR
    requires !FullHour(s.rows, task, from)
    ensures IssuedInHour(s.rows, task.key, from) < MAX_PER_HOUR
  {
    hide Issued, IssuedSince;
    if IssuedInHour(s.rows, task.key, from) >= MAX_PER_HOUR {
      OutsideDoesNotCount(s.rows, task.seen, task.key, from, from + HOUR);
      WindowIsRecent(s.rows[..task.seen], task.key, from, from + HOUR, task.now - HOUR);
      assert false;
    }
  }

  lemma {:induction false} SendStaysLimitedIff(s: State, t: int, mac: string)
    requires AllCleared(s) && Limited(s.rows) && Enabled(s, Send(t, mac))
    ensures Limited(Next(s, Send(t, mac)).rows) <==> HourRoom(s, Send(t, mac))
  {
    hide Issued, IssuedSince, Cleared, FullHour;
    var task, e := s.tasks[t], Send(t, mac);
    var c := Fresh(task.key, mac, task.now);
    var used := Consume(s.rows, task.stale, task.now);
    assert Cleared(s, task);
    if HourRoom(s, e) {
      forall k, from ensures IssuedInHour(used + [c], k, from) <= MAX_PER_HOUR {
        CountsAppend(used, c, k, from, from + HOUR);
        SameCounts(s.rows, used, k, from, from + HOUR);
        assert IssuedInHour(s.rows, k, from) <= MAX_PER_HOUR;
        if k == c.key && from <= c.created <= from + HOUR {
          var begin := HourBeginsWithACode(s.rows, k, from, task.now);
          NoneBefore(s.rows, k, from, begin);
          HourHasRoom(s, task, begin);
        }
      }
    } else {
      var from :| FullHour(s.rows, task, from);
      FullHourOverflows(s.rows, used, task, c, from);
    }
  }

  lemma {:induction false} FullHourOverflows(rows: seq<Code>, used: seq<Code>, task: Task, c: Code, from: real)
    requires task.Issuing? && FullHour(rows, task, from) && SameIssues(rows, used)
    requires c.key == task.key && c.created == task.now
    ensures !Limited(used + [c])
  {
    hide Issued, IssuedSince;
    CountsAppend(used, c, task.key, from, from + HOUR);
    SameCounts(rows, used, task.key, from, from + HOUR);
    assert IssuedInHour(used + [c], task.key, from) > MAX_PER_HOUR;
  }

  lemma {:induction false} StepStaysLimitedIff(s: State, e: Event)
    requires AllCleared(s) && Limited(s.rows) && Enabled(s, e)
    ensures Limited(Next(s, e).rows) <==> HourRoom(s, e)
  {
    hide AllCleared, Limited, Throttled, FullHour;
    match e
    case Send(t, mac) => SendStaysLimitedIff(s, t, mac);
    case _ => SameIssuesSameLimits(s.rows, Next(s, e).rows);
  }

  ghost predicate LimitedAfter(events: seq<Event>, n: nat)
    requires n <= |events|
  {
    Limited(Run(events[..n]).rows)
  }

  predicate HourRoomAt(events: seq<Event>, n: nat)
    requires n < |events|
  {
    HourRoom(Run(events[..n]), events[n])
  }

  lemma {:induction false} LimitedNext(events: seq<Event>, n: nat)
    requires n < |events| && LimitedAfter(events, n)
    ensures LimitedAfter(events, n + 1) <==> HourRoomAt(events, n)
  {
    hide Next, Limited, AllCleared, FullHour;
    RunNext(events, n);
    if Enabled(Run(events[..n]), events[n]) {
      EveryRunIsCleared(events[..n]);
      StepStaysLimitedIff(Run(events[..n]), events[n]);
    }
  }

  lemma {:induction false} LimitedUpTo(events: seq<Event>, m: nat)
    requires m <= |events|
    ensures (forall n :: 0 <= n <= m ==> LimitedAfter(events, n)) <==> (forall n :: 0 <= n < m ==> HourRoomAt(events, n))
  {
    hide LimitedAfter, HourRoomAt;
    if m == 0 {
      LimitedAtFirst(events);
    } else {
      LimitedUpTo(events, m - 1);
      if LimitedAfter(events, m - 1) {
        LimitedNext(events, m - 1);
      }
    }
  }

  lemma LimitedAtFirst(events: seq<Event>)
    ensures LimitedAfter(events, 0)
  {
    assert events[..0] == [];
    NothingIsOrderly();
  }

  /** Over every run, interleaved in any way: no hour ever sees over five codes of a key
      exactly when no insert finds an hour around its moment that has five already, one of
      them from after its request looked. */
  lemma {:induction false} HourLimitIff(events: seq<Event>)
    ensures (forall n :: 0 <= n <= |events| ==> LimitedAfter(events, n))
       <==> (forall n :: 0 <= n < |events| ==> HourRoomAt(events, n))
  {
    LimitedUpTo(events, |events|);
  }

  // ----------------------------------------------------------------- the race itself

  function Racing(k: Key): seq<Event> {
    [Ask(0, k), Ask(1, k), Send(0, "a"), Send(1, "b")]
  }

  /** `issue` takes no lock, so from the empty table two requests for one key that look
      before either inserts leave two live codes, issued at one moment. */
  lemma {:induction false} RaceLeavesTwoLiveCodes(k: Key)
    ensures var s := Run(Racing(k));
            && LiveRows(s.rows, k) == {0, 1}
            && s.rows[0].created == s.rows[1].created
  {
    var events := Racing(k);
    assert Run(events[..0]) == INIT;
    RunNext(events, 0);
    RunNext(events, 1);
    RunNext(events, 2);
    RunNext(events, 3);
    assert events[..4] == events;
    var s := Run(events[..2]);
    assert s.rows == [] && s.tasks[0] == Issuing(k, 0.0, {}, 0) && s.tasks[1] == Issuing(k, 0.0, {}, 0);
    LiveAfterSend(s, 0, "a", k);
    LiveAfterSend(Run(events[..3]), 1, "b", k);
  }

  /** `n` requests that all look before any of them inserts. */
  function Asking(k: Key, n: nat): seq<Event> {
    if n == 0 then [] else Asking(k, n - 1) + [Ask(n - 1, k)]
  }

  function Crowding(k: Key, n: nat, sent: nat): seq<Event> {
    if sent == 0 then Asking(k, n) else Crowding(k, n, sent - 1) + [Send(sent - 1, "a")]
  }

  lemma RunAppend(events: seq<Event>, e: Event)
    ensures var s := Run(events); Run(events + [e]) == if Enabled(s, e) then Next(s, e) else s
  {
    hide Next, Enabled;
    assert (events + [e])[..|events|] == events;
  }

  /** `sent` of the requests have inserted, and the others have seen none of that. */
  predicate Poised(s: State, k: Key, n: nat, sent: nat) {
    && s.rows == seq(sent, _ => Fresh(k, "a", 0.0))
    && forall t :: sent <= t < n ==> t in s.tasks && s.tasks[t] == Issuing(k, 0.0, {}, 0)
  }

  ghost predicate Looking(s: State, k: Key, n: nat) {
    && s.rows == [] && s.clock == 0.0
    && (forall t :: t in s.tasks <==> 0 <= t < n)
    && forall t :: 0 <= t < n ==> s.tasks[t] == Issuing(k, 0.0, {}, 0)
  }

  lemma {:induction false} AllMayAsk(k: Key, n: nat)
    ensures Looking(Run(Asking(k, n)), k, n)
  {
    hide Enabled, Next, Run, Looking;
    if n == 0 {
      NobodyLooks(k);
    } else {
      AllMayAsk(k, n - 1);
      RunAppend(Asking(k, n - 1), Ask(n - 1, k));
      NextMayAsk(Run(Asking(k, n - 1)), k, n - 1);
    }
  }

  lemma NobodyLooks(k: Key)
    ensures Looking(Run([]), k, 0)
  {
  }

  lemma NextMayAsk(s: State, k: Key, n: nat)
    requires Looking(s, k, n)
    ensures Enabled(s, Ask(n, k)) && Looking(Next(s, Ask(n, k)), k, n + 1)
  {
    assert LiveRows([], k) == {};
  }

  lemma LookingIsPoised(s: State, k: Key, n: nat)
    requires Looking(s, k, n)
    ensures Poised(s, k, n, 0)
  {
  }

  lemma {:induction false} AllMaySend(k: Key, n: nat, sent: nat)
    requires sent <= n
    ensures Poised(Run(Crowding(k, n, sent)), k, n, sent)
  {
    hide Enabled, Next, Run, Poised;
    if sent == 0 {
      AllMayAsk(k, n);
      LookingIsPoised(Run(Asking(k, n)), k, n);
    } else {
      AllMaySend(k, n, sent - 1);
      RunAppend(Crowding(k, n, sent - 1), Send(sent - 1, "a"));
      NextMaySend(Run(Crowding(k, n, sent - 1)), k, n, sent - 1);
    }
  }

  lemma NextMaySend(s: State, k: Key, n: nat, sent: nat)
    requires sent < n && Poised(s, k, n, sent)
    ensures Enabled(s, Send(sent, "a")) && Poised(Next(s, Send(sent, "a")), k, n, sent + 1)
  {
    assert Consume(s.rows, {}, 0.0) == s.rows;
    assert Next(s, Send(sent, "a")).rows == s.rows + [Fresh(k, "a", 0.0)];
  }

  lemma {:induction false} AllCount(rows: seq<Code>, k: Key, from: real, to: real)
    requires forall i :: 0 <= i < |rows| ==> rows[i].key == k && from <= rows[i].created <= to
    ensures Issued(rows, k, from, to) == |rows|
  {
    if rows != [] {
      AllCount(rows[..|rows| - 1], k, from, to);
    }
  }

  /** Nor does the limit bound the codes of one hour: from the empty table, for any key,
      `n` requests that look before any of them inserts leave `n` codes of one moment. */
  lemma {:induction false} RaceFillsTheHour(k: Key, n: nat)
    ensures IssuedInHour(Run(Crowding(k, n, n)).rows, k, 0.0) == n
    ensures n > MAX_PER_HOUR ==> !Limited(Run(Crowding(k, n, n)).rows)
  {
    hide Run, Crowding;
    AllMaySend(k, n, n);
    AllCount(Run(Crowding(k, n, n)).rows, k, 0.0, HOUR);
  }
}
