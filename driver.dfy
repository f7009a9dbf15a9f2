/**
 * The database driver the handler talks to, reduced to what the queue engine
 * observes. The server is an oracle: given the statements this connection has
 * already run (committed or not) and the next statement, it says whether
 * `execute` fails and, if not, what `fetchall` gives. The connection's
 * transaction state is a session: statements committed, and statements run in
 * the open transaction, which only a commit makes permanent.
 */
module Driver {
  import opened Results
  import opened Python

  /** A statement as handed to `cursor.execute(sql, args)`. */
  datatype Statement = Statement(sql: string, args: Option<seq<Value>>)

  /** What `cursor.fetchall()` does after a successful execute. */
  datatype Fetch =
    | Rows(rows: seq<seq<Value>>)
      /** ProgrammingError: the statement produced no result set. */
    | NoResultSet
      /** Any other driver error. */
    | FetchError(cause: string)

  datatype Reply =
    | ExecuteError(cause: string)
    | Executed(fetch: Fetch)

  /** The server's answer to `next`, after the statements in `history` ran. */
  type Oracle = (seq<Statement>, Statement) -> Reply

  datatype IsolationLevel = Autocommit | ReadCommitted

  datatype Session = Session(level: IsolationLevel, committed: seq<Statement>, pending: seq<Statement>) {

    /** In autocommit mode no transaction is ever left open. */
    predicate Valid() {
      level == Autocommit ==> pending == []
    }

    /** What the statements of this connection see. */
    function Visible(): seq<Statement> {
      committed + pending
    }

    /** A successful execute: immediately permanent in autocommit mode, part of
        the open transaction otherwise. */
    function Record(s: Statement): (r: Session)
      ensures r.level == level
      ensures Valid() ==> r.Valid() && r.Visible() == Visible() + [s]
    {
      if level == Autocommit then this.(committed := committed + [s])
      else this.(pending := pending + [s])
    }

    /** `connection.commit()`. */
    function Commit(): Session {
      Session(level, committed + pending, [])
    }

    /** `connection.rollback()`. */
    function Rollback(): Session {
      this.(pending := [])
    }

    /** `connection.set_isolation_level(l)`: the driver ends the open
        transaction with a rollback before switching. */
    function SwitchLevel(l: IsolationLevel): Session {
      Session(l, committed, [])
    }
  }

  /** The session after the statements `xs` executed successfully, in order. */
  function RecordAll(s: Session, xs: seq<Statement>): Session
    decreases |xs|
  {
    if xs == [] then s else RecordAll(s.Record(xs[0]), xs[1..])
  }

  lemma {:induction false} RecordAllAppend(s: Session, xs: seq<Statement>, x: Statement)
    ensures RecordAll(s, xs + [x]) == RecordAll(s, xs).Record(x)
    decreases |xs|
  {
    if xs == [] {
      assert RecordAll(s.Record(x), []) == s.Record(x);
    } else {
      assert (xs + [x])[1..] == xs[1..] + [x];
      RecordAllAppend(s.Record(xs[0]), xs[1..], x);
    }
  }

  /** Running statements never changes the isolation level, keeps the session
      valid, and makes them visible in the order they ran. */
  lemma {:induction false} RecordAllVisible(s: Session, xs: seq<Statement>)
    requires s.Valid()
    ensures RecordAll(s, xs).level == s.level
    ensures RecordAll(s, xs).Visible() == s.Visible() + xs
    ensures RecordAll(s, xs).Valid()
    decreases |xs|
  {
    if xs != [] {
      RecordAllVisible(s.Record(xs[0]), xs[1..]);
      assert s.Visible() + [xs[0]] + xs[1..] == s.Visible() + xs;
    }
  }

  /** Inside a transaction, statements run only into the open transaction:
      nothing becomes permanent, and a rollback discards all of them. */
  lemma {:induction false} RecordAllInTransaction(s: Session, xs: seq<Statement>)
    requires s.level == ReadCommitted
    ensures RecordAll(s, xs).committed == s.committed
    ensures RecordAll(s, xs).pending == s.pending + xs
    ensures RecordAll(s, xs).Rollback().committed == s.committed
    ensures RecordAll(s, xs).Rollback().pending == []
    decreases |xs|
  {
    if xs != [] {
      RecordAllInTransaction(s.Record(xs[0]), xs[1..]);
      assert s.pending + [xs[0]] + xs[1..] == s.pending + xs;
    }
  }

  /** In autocommit mode every statement is permanent as soon as it runs, so a
      rollback afterwards undoes none of them. */
  lemma {:induction false} RecordAllAutocommit(s: Session, xs: seq<Statement>)
    requires s.Valid() && s.level == Autocommit
    ensures RecordAll(s, xs).committed == s.committed + xs
    ensures RecordAll(s, xs).Rollback() == RecordAll(s, xs)
    decreases |xs|
  {
    if xs != [] {
      RecordAllAutocommit(s.Record(xs[0]), xs[1..]);
      assert s.committed + [xs[0]] + xs[1..] == s.committed + xs;
    }
  }

  /** A commit after running `xs` makes permanent what was pending before and
      all of `xs`, in order, whatever the isolation level. */
  lemma CommitPublishes(s: Session, xs: seq<Statement>)
    requires s.Valid()
    ensures RecordAll(s, xs).Commit().committed == s.committed + s.pending + xs
    ensures RecordAll(s, xs).Commit().pending == []
  {
    RecordAllVisible(s, xs);
  }
}
