/** The credit ledger: postings, their idempotency keys and the balance they move. */
module Ledger {
  import opened Common

  datatype Kind =
    | Grant | ChargeHour | ChargePartial | ChargeAi
    | ChargeHermes | ChargeCodex | Adjustment

  /** One ledger row. `period` is a start instant in seconds; a missing column
      is None, and a None never takes part in a unique key. */
  datatype Posting = Posting(
    user: int,
    workspace: Option<int>,
    kind: Kind,
    amount: int,
    period: Option<int>,
    scope: Option<string>)

  /** The two unique constraints of the table. */
  predicate Clashes(a: Posting, b: Posting) {
    && a.kind == b.kind
    && a.period.Some?
    && a.period == b.period
    && ((a.workspace.Some? && a.workspace == b.workspace)
        || (a.scope.Some? && a.scope == b.scope))
  }

  predicate Taken(rows: seq<Posting>, p: Posting) {
    exists i :: 0 <= i < |rows| && Clashes(rows[i], p)
  }

  /** The committed tables: ledger rows in commit order, and account balances. */
  datatype Db = Db(rows: seq<Posting>, accounts: map<int, int>)

  const EMPTY := Db([], map[])

  function Balance(db: Db, user: int): int {
    if user in db.accounts then db.accounts[user] else 0
  }

  function LedgerSum(rows: seq<Posting>, user: int): int {
    if rows == [] then 0
    else
      var last := rows[|rows| - 1];
      LedgerSum(rows[..|rows| - 1], user) + (if last.user == user then last.amount else 0)
  }

  /** What one undisturbed posting does to the tables, and whether it was accepted. */
  function Post(db: Db, p: Posting): (Db, bool) {
    if Taken(db.rows, p) then (db, false)
    else (Db(db.rows + [p], db.accounts[p.user := Balance(db, p.user) + p.amount]), true)
  }

  ghost predicate UniqueKeys(rows: seq<Posting>) {
    forall i, j :: 0 <= i < j < |rows| ==> !Clashes(rows[i], rows[j])
  }

  ghost predicate BalancesMatch(db: Db) {
    forall u :: Balance(db, u) == LedgerSum(db.rows, u)
  }

  /** The financial invariant: every balance is the sum of its ledger rows, and
      no idempotency key is used twice. */
  ghost predicate Consistent(db: Db) {
    UniqueKeys(db.rows) && BalancesMatch(db)
  }

  lemma {:induction false} LedgerSumAppend(rows: seq<Posting>, p: Posting, user: int)
    ensures LedgerSum(rows + [p], user)
         == LedgerSum(rows, user) + (if p.user == user then p.amount else 0)
  {
    assert (rows + [p])[..|rows|] == rows;
  }

  /** Posting keeps the invariant, moves exactly one balance by exactly the
      amount when accepted, and nothing at all when the key was already used. */
  lemma {:induction false} PostKeepsConsistent(db: Db, p: Posting)
    requires Consistent(db)
    ensures Consistent(Post(db, p).0)
    ensures Post(db, p).1 <==> !Taken(db.rows, p)
    ensures !Post(db, p).1 ==> Post(db, p).0 == db
    ensures Post(db, p).1 ==>
      forall u :: Balance(Post(db, p).0, u)
               == Balance(db, u) + (if u == p.user then p.amount else 0)
  {
    var (after, ok) := Post(db, p);
    if ok {
      forall u ensures Balance(after, u) == LedgerSum(after.rows, u) {
        LedgerSumAppend(db.rows, p, u);
      }
    }
  }

  /** The two unique constraints, spelled out: a posting is refused exactly when it carries
      a period and an earlier row of its kind and period has its workspace or its scope. */
  lemma {:induction false} RefusedIff(db: Db, p: Posting)
    ensures !Post(db, p).1 <==>
      && p.period.Some?
      && exists r :: && r in db.rows
                     && r.kind == p.kind && r.period == p.period
                     && ((p.workspace.Some? && r.workspace == p.workspace) || (p.scope.Some? && r.scope == p.scope))
  {
    if Taken(db.rows, p) {
      var i :| 0 <= i < |db.rows| && Clashes(db.rows[i], p);
      assert db.rows[i] in db.rows;
    }
    if r :| && r in db.rows && p.period.Some?
            && r.kind == p.kind && r.period == p.period
            && ((p.workspace.Some? && r.workspace == p.workspace) || (p.scope.Some? && r.scope == p.scope)) {
      var i :| 0 <= i < |db.rows| && db.rows[i] == r;
      assert Clashes(db.rows[i], p);
    }
  }

  /** Retrying an accepted posting is refused for ever after, however many other
      postings happened in between, provided the posting carries a key. */
  lemma {:induction false} RetryIsNoOp(db: Db, p: Posting, others: seq<Posting>)
    requires p.period.Some? && (p.workspace.Some? || p.scope.Some?)
    ensures var later := PostAll(Post(db, p).0, others);
            Post(later, p) == (later, false)
  {
    var once := Post(db, p).0;
    if !Taken(db.rows, p) {
      assert once.rows[|db.rows|] == p && Clashes(p, p);
    }
    TakenForEver(once, p, others);
  }

  function PostAll(db: Db, ps: seq<Posting>): Db {
    if ps == [] then db else Post(PostAll(db, ps[..|ps| - 1]), ps[|ps| - 1]).0
  }

  lemma {:induction false} TakenForEver(db: Db, p: Posting, ps: seq<Posting>)
    requires Taken(db.rows, p)
    ensures Taken(PostAll(db, ps).rows, p)
  {
    if ps != [] {
      TakenForEver(db, p, ps[..|ps| - 1]);
      var before := PostAll(db, ps[..|ps| - 1]);
      var i :| 0 <= i < |before.rows| && Clashes(before.rows[i], p);
      assert PostAll(db, ps).rows[i] == before.rows[i];
    }
  }

  /** A database session seen by one process while no other is posting. */
  class Session {
    var rows: seq<Posting>
    var accounts: map<int, int>

    ghost function Tables(): Db
      reads this
    {
      Db(rows, accounts)
    }

    constructor ()
      ensures Tables() == EMPTY
    {
      rows, accounts := [], map[];
    }

    /** The statements of a posting in order: flush the row, UPDATE the balance,
        open the account when the UPDATE matched nothing, commit. */
    method PostTransaction(p: Posting) returns (posted: bool)
      modifies this
      ensures (Tables(), posted) == Post(old(Tables()), p)
    {
      if Taken(rows, p) {
        return false;
      }
      rows := rows + [p];
      var updated := if p.user in accounts then 1 else 0;
      if updated == 1 {
        accounts := accounts[p.user := accounts[p.user] + p.amount];
      } else {
        accounts := accounts[p.user := p.amount];
      }
      posted := true;
    }
  }
}
