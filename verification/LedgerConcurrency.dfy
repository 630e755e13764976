/** Any number of processes posting to the ledger at once.

    Each poster runs the statements of `post_transaction` one at a time under
    READ COMMITTED: a unique INSERT waits for an uncommitted row with the same
    key, an UPDATE takes the account's row lock, an uncommitted account row is
    invisible to an UPDATE and blocks a second INSERT. Statements of different
    posters interleave in any order, and a poster may crash at any point. */
module LedgerConcurrency {
  import opened Common
  import opened Ledger

  datatype Pc =
    | Flushing   // about to INSERT the ledger row
    | Updating   // row flushed, about to UPDATE the balance
    | Inserting  // the UPDATE matched no row: about to INSERT an account in a savepoint
    | Retrying   // lost that INSERT: about to UPDATE again
    | Ready      // the balance has moved inside the transaction: about to COMMIT
    | Committed | Rejected | Crashed
    | Raised     // the second UPDATE matched no row either

  /** `createsAccount` records whether the pending balance move is a new account row. */
  datatype Poster = Poster(post: Posting, pc: Pc, createsAccount: bool)

  /** A finished posting and the answer its caller got. */
  datatype Answer = Answer(poster: int, post: Posting, posted: bool)

  datatype State = State(db: Db, posters: map<int, Poster>, answers: seq<Answer>)

  const INIT := State(EMPTY, map[], [])

  datatype Event =
    | Begin(t: int, post: Posting)
    | Flush(t: int)
    | Update(t: int)
    | Insert(t: int)
    | Commit(t: int)
    | Crash(t: int)

  /** The poster has a row in the ledger that nobody else can see yet. */
  predicate Open(p: Poster) {
    p.pc in {Updating, Inserting, Retrying, Ready}
  }

  predicate KeyHeld(s: State, t: int, p: Posting) {
    exists o :: o in s.posters && o != t && Open(s.posters[o]) && Clashes(s.posters[o].post, p)
  }

  predicate AccountLocked(s: State, t: int, user: int) {
    exists o :: o in s.posters && o != t && s.posters[o].pc == Ready && s.posters[o].post.user == user
  }

  predicate Enabled(s: State, e: Event) {
    match e
    case Begin(t, _) => t !in s.posters
    case Flush(t) =>
      && t in s.posters
      && s.posters[t].pc == Flushing
      && (Taken(s.db.rows, s.posters[t].post) || !KeyHeld(s, t, s.posters[t].post))
    case Update(t) =>
      && t in s.posters
      && s.posters[t].pc in {Updating, Retrying}
      && (s.posters[t].post.user in s.db.accounts ==> !AccountLocked(s, t, s.posters[t].post.user))
    case Insert(t) =>
      && t in s.posters
      && s.posters[t].pc == Inserting
      && (s.posters[t].post.user in s.db.accounts || !AccountLocked(s, t, s.posters[t].post.user))
    case Commit(t) => t in s.posters && s.posters[t].pc == Ready
    case Crash(t) => t in s.posters && (s.posters[t].pc == Flushing || Open(s.posters[t]))
  }

  function Goto(s: State, t: int, pc: Pc): State
    requires t in s.posters
  {
    s.(posters := s.posters[t := s.posters[t].(pc := pc)])
  }

  function Step(s: State, e: Event): State
    requires Enabled(s, e)
  {
    match e
    case Begin(t, post) => s.(posters := s.posters[t := Poster(post, Flushing, false)])
    case Flush(t) =>
      var p := s.posters[t].post;
      if Taken(s.db.rows, p)
      then Goto(s, t, Rejected).(answers := s.answers + [Answer(t, p, false)])
      else Goto(s, t, Updating)
    case Update(t) =>
      if s.posters[t].post.user in s.db.accounts then
        s.(posters := s.posters[t := s.posters[t].(pc := Ready, createsAccount := false)])
      else if s.posters[t].pc == Updating then Goto(s, t, Inserting)
      else Goto(s, t, Raised)
    case Insert(t) =>
      if s.posters[t].post.user in s.db.accounts then Goto(s, t, Retrying)
      else s.(posters := s.posters[t := s.posters[t].(pc := Ready, createsAccount := true)])
    case Commit(t) =>
      var p := s.posters[t].post;
      // An opened account row overwrites nothing: it is the first of its key.
      var balance := if s.posters[t].createsAccount then p.amount else Balance(s.db, p.user) + p.amount;
      Goto(s, t, Committed).(
        db := Db(s.db.rows + [p], s.db.accounts[p.user := balance]),
        answers := s.answers + [Answer(t, p, true)])
    case Crash(t) => Goto(s, t, Crashed)
  }

  /** A run: events that are not enabled are waits, and change nothing. */
  function Run(events: seq<Event>): State {
    if events == [] then INIT
    else
      var s := Run(events[..|events| - 1]);
      var e := events[|events| - 1];
      if Enabled(s, e) then Step(s, e) else s
  }

  // ---------------------------------------------------------------- serial form

  function PostsOf(answers: seq<Answer>): seq<Posting> {
    seq(|answers|, i requires 0 <= i < |answers| => answers[i].post)
  }

  /** The answers are those of the finished postings executed one after another. */
  ghost predicate SerialAnswers(answers: seq<Answer>) {
    forall i :: 0 <= i < |answers| ==>
      Post(PostAll(EMPTY, PostsOf(answers)[..i]), answers[i].post).1 == answers[i].posted
  }

  // ------------------------------------------------------------------ invariant

  /** Uncommitted rows hold keys that are free and pairwise distinct. */
  ghost predicate KeysReserved(s: State) {
    && (forall t :: t in s.posters && Open(s.posters[t]) ==> !Taken(s.db.rows, s.posters[t].post))
    && (forall t, o | t in s.posters && o in s.posters && t != o
          :: Open(s.posters[t]) && Open(s.posters[o]) ==>
          !Clashes(s.posters[t].post, s.posters[o].post))
  }

  /** Pending balance moves: one per account, on a row of the right kind. */
  ghost predicate LocksHeld(s: State) {
    && (forall t, o | t in s.posters && o in s.posters && t != o
          :: s.posters[t].pc == Ready && s.posters[o].pc == Ready ==>
          s.posters[t].post.user != s.posters[o].post.user)
    && (forall t :: t in s.posters ==>
          var p := s.posters[t];
          && (p.pc == Ready ==> (p.createsAccount <==> p.post.user !in s.db.accounts))
          && (p.pc == Retrying ==> p.post.user in s.db.accounts)
          && p.pc != Raised)
  }

  /** Every finished poster answered exactly once, and nobody else did. */
  ghost predicate AnsweredOnce(posters: map<int, Poster>, answers: seq<Answer>) {
    && (forall i :: 0 <= i < |answers| ==>
          && answers[i].poster in posters
          && posters[answers[i].poster].post == answers[i].post
          && posters[answers[i].poster].pc == (if answers[i].posted then Committed else Rejected))
    && (forall i, j :: 0 <= i < j < |answers| ==> answers[i].poster != answers[j].poster)
    && (forall t :: t in posters && posters[t].pc in {Committed, Rejected} ==>
          exists i :: 0 <= i < |answers| && answers[i].poster == t)
  }

  /** The tables and the answers are those of a serial execution. */
  ghost predicate Serializable(db: Db, answers: seq<Answer>) {
    db == PostAll(EMPTY, PostsOf(answers)) && SerialAnswers(answers)
  }

  ghost predicate Inv(s: State) {
    KeysReserved(s) && LocksHeld(s) && AnswersInv(s)
  }

  lemma {:induction false} AnswerIsSerial(db: Db, answers: seq<Answer>, a: Answer, after: Db)
    requires Serializable(db, answers)
    requires (after, a.posted) == Post(db, a.post)
    ensures Serializable(after, answers + [a])
  {
    hide Post;
    var more := answers + [a];
    var ps := PostsOf(more);
    assert ps[..|answers|] == PostsOf(answers);
    assert ps[..|ps| - 1] == PostsOf(answers);
    forall i | 0 <= i < |more|
      ensures Post(PostAll(EMPTY, ps[..i]), more[i].post).1 == more[i].posted
    {
      if i < |answers| {
        assert ps[..i] == PostsOf(answers)[..i];
      }
    }
  }

  lemma {:induction false} CommitIsPost(s: State, t: int)
    requires KeysReserved(s) && LocksHeld(s) && Enabled(s, Commit(t))
    ensures (Step(s, Commit(t)).db, true) == Post(s.db, s.posters[t].post)
  {
    hide Clashes, Taken;
    assert Open(s.posters[t]);
  }

  lemma {:induction false} AnswerKeepsOnce(posters: map<int, Poster>, answers: seq<Answer>, t: int, posted: bool)
    requires AnsweredOnce(posters, answers) && t in posters && posters[t].pc !in {Committed, Rejected}
    ensures AnsweredOnce(posters[t := posters[t].(pc := if posted then Committed else Rejected)],
                         answers + [Answer(t, posters[t].post, posted)])
  {
    var done := posters[t := posters[t].(pc := if posted then Committed else Rejected)];
    var more := answers + [Answer(t, posters[t].post, posted)];
    assert forall i :: 0 <= i < |answers| ==> answers[i].poster != t;
    forall u | u in done && done[u].pc in {Committed, Rejected}
      ensures exists i :: 0 <= i < |more| && more[i].poster == u
    {
      if u == t {
        assert more[|answers|].poster == t;
      } else {
        var i :| 0 <= i < |answers| && answers[i].poster == u;
        assert more[i].poster == u;
      }
    }
  }

  lemma {:induction false} StepKeepsKeys(s: State, e: Event)
    requires KeysReserved(s) && Enabled(s, e)
    ensures KeysReserved(Step(s, e))
  {
    var r := Step(s, e);
    match e
    case Begin(t, post) =>
    case Flush(t) =>
    case Update(t) =>
    case Insert(t) =>
    case Commit(t) =>
      forall u | u in r.posters && Open(r.posters[u])
        ensures !Taken(r.db.rows, r.posters[u].post)
      {
        assert Open(s.posters[t]) && u != t && s.posters[u] == r.posters[u];
      }
    case Crash(t) =>
  }

  lemma {:induction false} StepKeepsLocks(s: State, e: Event)
    requires LocksHeld(s) && Enabled(s, e)
    ensures LocksHeld(Step(s, e))
  {
    match e
    case Begin(t, post) =>
    case Flush(t) =>
    case Update(t) =>
    case Insert(t) =>
    case Commit(t) =>
    case Crash(t) =>
  }

  ghost predicate AnswersInv(s: State) {
    Consistent(s.db) && AnsweredOnce(s.posters, s.answers) && Serializable(s.db, s.answers)
  }

  lemma {:induction false} StepKeepsAnswers(s: State, e: Event)
    requires Inv(s) && Enabled(s, e)
    ensures AnswersInv(Step(s, e))
  {
    match e
    case Flush(t) =>
      if Taken(s.db.rows, s.posters[t].post) {
        RefusalKeepsAnswers(s, t);
      } else {
        SilentStepKeepsAnswers(s, t, s.posters[t].(pc := Updating));
      }
    case Commit(t) =>
      CommitIsPost(s, t);
      CommitKeepsAnswers(s, t);
    case Begin(t, post) => SilentStepKeepsAnswers(s, t, Poster(post, Flushing, false));
    case Crash(t) => SilentStepKeepsAnswers(s, t, s.posters[t].(pc := Crashed));
    case _ => SilentStepKeepsAnswers(s, e.t, Step(s, e).posters[e.t]);
  }

  lemma {:induction false} RefusalKeepsAnswers(s: State, t: int)
    requires AnswersInv(s) && Enabled(s, Flush(t)) && Taken(s.db.rows, s.posters[t].post)
    ensures AnswersInv(Step(s, Flush(t)))
  {
    hide Consistent, AnsweredOnce, Serializable, Clashes;
    AnswerKeepsOnce(s.posters, s.answers, t, false);
    AnswerIsSerial(s.db, s.answers, Answer(t, s.posters[t].post, false), s.db);
  }

  lemma {:induction false} CommitKeepsAnswers(s: State, t: int)
    requires AnswersInv(s) && Enabled(s, Commit(t))
    requires (Step(s, Commit(t)).db, true) == Post(s.db, s.posters[t].post)
    ensures AnswersInv(Step(s, Commit(t)))
  {
    hide Consistent, AnsweredOnce, Serializable, Taken, Clashes;
    PostKeepsConsistent(s.db, s.posters[t].post);
    AnswerKeepsOnce(s.posters, s.answers, t, true);
    AnswerIsSerial(s.db, s.answers, Answer(t, s.posters[t].post, true), Step(s, Commit(t)).db);
  }

  /** A statement that answers nobody leaves the record of answers intact. */
  lemma {:induction false} SilentStepKeepsAnswers(s: State, t: int, p: Poster)
    requires AnswersInv(s) && p.pc !in {Committed, Rejected}
    requires t in s.posters ==> s.posters[t].pc !in {Committed, Rejected}
    ensures AnswersInv(s.(posters := s.posters[t := p]))
  {
    hide Consistent, Serializable;
    var r := s.(posters := s.posters[t := p]);
    forall u | u in r.posters && r.posters[u].pc in {Committed, Rejected}
      ensures exists i :: 0 <= i < |r.answers| && r.answers[i].poster == u
    {
      assert s.posters[u].pc in {Committed, Rejected};
    }
  }

  lemma {:induction false} StepKeepsInv(s: State, e: Event)
    requires Inv(s) && Enabled(s, e)
    ensures Inv(Step(s, e))
  {
    StepKeepsKeys(s, e);
    StepKeepsLocks(s, e);
    StepKeepsAnswers(s, e);
  }

  lemma {:induction false} RunKeepsInv(events: seq<Event>)
    ensures Inv(Run(events))
  {
    if events != [] {
      RunKeepsInv(events[..|events| - 1]);
      var s := Run(events[..|events| - 1]);
      if Enabled(s, events[|events| - 1]) {
        StepKeepsInv(s, events[|events| - 1]);
      }
    }
  }

  // --------------------------------------------------------------- main results

  /** In every interleaving, with crashes anywhere, each committed balance is the
      sum of that user's committed rows and no key has two rows. */
  lemma {:induction false} EveryInterleavingIsConsistent(events: seq<Event>)
    ensures Consistent(Run(events).db)
  {
    RunKeepsInv(events);
  }

  /** Every interleaving gives the same tables, and every caller the same answer,
      as the finished postings executed one at a time in the order they finished. */
  lemma {:induction false} EveryInterleavingIsSerial(events: seq<Event>)
    ensures Serializable(Run(events).db, Run(events).answers)
    ensures AnsweredOnce(Run(events).posters, Run(events).answers)
  {
    RunKeepsInv(events);
  }

  /** What is left of a run when everything one poster did is taken out. */
  function WithoutPoster(events: seq<Event>, t: int): seq<Event> {
    if events == [] then []
    else
      var front, e := WithoutPoster(events[..|events| - 1], t), events[|events| - 1];
      if e.t == t then front else front + [e]
  }

  function AnswersWithout(answers: seq<Answer>, t: int): seq<Answer> {
    if answers == [] then []
    else
      var front, a := AnswersWithout(answers[..|answers| - 1], t), answers[|answers| - 1];
      if a.poster == t then front else front + [a]
  }

  function Erased(s: State, t: int): State {
    State(s.db, s.posters - {t}, AnswersWithout(s.answers, t))
  }

  /** The poster has not begun, or waits with its row, or was refused. */
  predicate Idle(s: State, t: int) {
    t in s.posters ==> s.posters[t].pc in {Flushing, Rejected}
  }

  lemma AnswersAppend(answers: seq<Answer>, a: Answer, t: int)
    ensures AnswersWithout(answers + [a], t)
         == if a.poster == t then AnswersWithout(answers, t) else AnswersWithout(answers, t) + [a]
  {
    assert (answers + [a])[..|answers|] == answers;
  }

  lemma {:induction false} OwnStepIsErased(s: State, e: Event, t: int)
    requires e.t == t && Enabled(s, e) && Idle(Step(s, e), t)
    ensures Idle(s, t) && Erased(Step(s, e), t) == Erased(s, t)
  {
    if e.Flush? {
      AnswersAppend(s.answers, Answer(t, s.posters[t].post, false), t);
    }
  }

  lemma {:induction false} LocksWithout(s: State, t: int, u: int, p: Posting)
    requires Idle(s, t)
    ensures KeyHeld(Erased(s, t), u, p) <==> KeyHeld(s, u, p)
    ensures AccountLocked(Erased(s, t), u, p.user) <==> AccountLocked(s, u, p.user)
  {
    hide Clashes;
    var r := Erased(s, t);
    assert forall o :: o in r.posters <==> o in s.posters && o != t;
    if o :| o in s.posters && o != u && Open(s.posters[o]) && Clashes(s.posters[o].post, p) {
      assert o in r.posters;
    }
    if o :| o in s.posters && o != u && s.posters[o].pc == Ready && s.posters[o].post.user == p.user {
      assert o in r.posters;
    }
  }

  lemma {:induction false} EnabledWithout(s: State, e: Event, t: int)
    requires e.t != t && Idle(s, t)
    ensures Enabled(Erased(s, t), e) <==> Enabled(s, e)
  {
    hide KeyHeld, AccountLocked, Taken, AnswersWithout;
    if e.t in s.posters {
      LocksWithout(s, t, e.t, s.posters[e.t].post);
    }
  }

  lemma PutWithout(posters: map<int, Poster>, t: int, u: int, p: Poster)
    requires u != t
    ensures posters[u := p] - {t} == (posters - {t})[u := p]
  {
  }

  lemma {:induction false} OthersDoNotNotice(s: State, e: Event, t: int)
    requires e.t != t && Enabled(s, e) && Enabled(Erased(s, t), e)
    ensures Erased(Step(s, e), t) == Step(Erased(s, t), e)
  {
    hide KeyHeld, AccountLocked, Taken, AnswersWithout, Clashes, Balance;
    var u := e.t;
    PutWithout(s.posters, t, u, Step(s, e).posters[u]);
    match e
    case Flush(_) => AnswersAppend(s.answers, Answer(u, s.posters[u].post, false), t);
    case Commit(_) => AnswersAppend(s.answers, Answer(u, s.posters[u].post, true), t);
    case _ =>
  }

  /** A poster that is refused leaves no trace: with everything it did taken out, at
      whatever points of the run it did it, every row, balance, poster and answer of the
      others is the same. */
  lemma {:induction false} RefusedPosterLeavesNoTrace(events: seq<Event>, t: int)
    requires Idle(Run(events), t)
    ensures Run(WithoutPoster(events, t)) == Erased(Run(events), t)
  {
    hide Step, Enabled;
    if events == [] {
      assert INIT.posters - {t} == map[];
    } else {
      var front, e := events[..|events| - 1], events[|events| - 1];
      var s := Run(front);
      if e.t == t {
        if Enabled(s, e) {
          OwnStepIsErased(s, e, t);
        }
        RefusedPosterLeavesNoTrace(front, t);
      } else {
        IdleBefore(s, e, t);
        RefusedPosterLeavesNoTrace(front, t);
        EnabledWithout(s, e, t);
        if Enabled(s, e) {
          OthersDoNotNotice(s, e, t);
        }
        var less := WithoutPoster(front, t);
        assert (less + [e])[..|less|] == less;
      }
    }
  }

  lemma IdleBefore(s: State, e: Event, t: int)
    requires e.t != t && Idle(if Enabled(s, e) then Step(s, e) else s, t)
    ensures Idle(s, t)
  {
  }

  /** The re-raise after the second UPDATE is never reached: losing the account
      INSERT means the account row is there to update. */
  lemma {:induction false} SecondUpdateFindsTheAccount(events: seq<Event>, t: int)
    requires t in Run(events).posters
    ensures Run(events).posters[t].pc != Raised
    ensures Run(events).posters[t].pc == Retrying ==>
              Run(events).posters[t].post.user in Run(events).db.accounts
  {
    RunKeepsInv(events);
  }

  predicate Unfinished(s: State, t: int) {
    t in s.posters && (s.posters[t].pc == Flushing || Open(s.posters[t]))
  }

  /** The locks cannot deadlock: while any posting is unfinished, some posting can
      take its next statement, and without anybody crashing. */
  lemma {:induction false} NoDeadlock(events: seq<Event>, t: int)
    requires Unfinished(Run(events), t)
    ensures exists e :: Enabled(Run(events), e) && !e.Begin? && !e.Crash?
  {
    var s := Run(events);
    if o :| o in s.posters && s.posters[o].pc == Ready {
      assert Enabled(s, Commit(o));
    } else if o :| o in s.posters && s.posters[o].pc == Inserting {
      assert Enabled(s, Insert(o));
    } else if o :| o in s.posters && s.posters[o].pc in {Updating, Retrying} {
      assert Enabled(s, Update(o));
    } else {
      assert Enabled(s, Flush(t));
    }
  }

  /** The statements a poster may still have to take. */
  function Remaining(s: State, t: int): nat {
    if t !in s.posters then 6
    else
      match s.posters[t].pc
      case Flushing => 5
      case Updating => 4
      case Inserting => 3
      case Retrying => 2
      case Ready => 1
      case _ => 0
  }

  /** The events of `t` that were not waits. */
  function StatementsOf(events: seq<Event>, t: int): nat {
    if events == [] then 0
    else
      var front, e := events[..|events| - 1], events[|events| - 1];
      StatementsOf(front, t) + (if e.t == t && Enabled(Run(front), e) then 1 else 0)
  }

  /** Nobody retries for ever: whatever the others do, a poster is finished after at
      most six statements of its own, its arrival included. */
  lemma {:induction false} SixStatementsFinish(events: seq<Event>, t: int)
    ensures StatementsOf(events, t) + Remaining(Run(events), t) <= 6
  {
    if events != [] {
      SixStatementsFinish(events[..|events| - 1], t);
    }
  }
}
