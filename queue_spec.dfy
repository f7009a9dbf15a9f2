/**
 * What execute_queue (gd/sql_connection.py, lines 445-510) does with one queue,
 * as a function of the queued entries, the server and the statements the
 * connection ran before. Statements run in insertion order; each one's
 * placeholders are resolved first, then the buffer is emptied if any was used,
 * then the statement executes and its fetched rows are appended to the buffer.
 */
module QueueSpec {
  import opened Results
  import opened Python
  import opened Exceptions
  import opened Driver
  import opened Placeholders

  /** One queued command: the SQL text and its arguments exactly as given to
      add_to_queue (NoneValue when there were none). */
  datatype Entry = Entry(sql: string, args: Value)

  /** What one entry does. */
  datatype Step =
    | Ran(stmt: Statement, results: seq<Value>)
      /** An exception the loop does not catch: no rollback, no deletion. */
    | Raised(error: Error)
    | ExecuteFailed(stmt: Statement, cause: string)
    | FetchFailed(stmt: Statement, cause: string)

  /** The values a reply adds to the buffer: the flattened rows, or nothing
      when the statement had no result set. */
  function Fetched(reply: Reply): seq<Value> {
    if reply.Executed? && reply.fetch.Rows? then Flatten(reply.fetch.rows) else []
  }

  /** One pass of the loop body at lines 466-506, after `history` ran. */
  function StepOf(e: Entry, oracle: Oracle, history: seq<Statement>, results: seq<Value>): Step {
    match Prepare(e.args, results)
    case Failure(err) => Raised(err)
    case Success((args, kept)) =>
      var stmt := Statement(e.sql, args);
      var reply := oracle(history, stmt);
      match reply
      case ExecuteError(cause) => ExecuteFailed(stmt, cause)
      case Executed(FetchError(cause)) => FetchFailed(stmt, cause)
      case Executed(_) => Ran(stmt, kept + Fetched(reply))
  }

  /** How executing a queue ends. `executed` lists the statements the driver
      ran, in order; `at` is the position of the entry that stopped the queue. */
  datatype RunOutcome =
      /** Commit, delete the queue, return the buffer. */
    | Completed(executed: seq<Statement>, results: seq<Value>)
      /** Rollback, delete the queue, raise GDExecutionError. */
    | RolledBack(executed: seq<Statement>, at: nat, failed: Statement, cause: string)
      /** The exception escapes: no rollback, no commit, the queue stays. */
    | Uncaught(executed: seq<Statement>, at: nat, error: Error)

  /** The loop from entry `i` on, with `executed` already run and the buffer
      holding `results`. */
  function Run(entries: seq<Entry>, oracle: Oracle, history: seq<Statement>,
               i: nat, executed: seq<Statement>, results: seq<Value>): RunOutcome
    requires i <= |entries|
    decreases |entries| - i
  {
    if i == |entries| then Completed(executed, results)
    else match StepOf(entries[i], oracle, history + executed, results)
      case Ran(stmt, results') => Run(entries, oracle, history, i + 1, executed + [stmt], results')
      case Raised(err) => Uncaught(executed, i, err)
      case ExecuteFailed(stmt, cause) => RolledBack(executed, i, stmt, cause)
      case FetchFailed(stmt, cause) => RolledBack(executed + [stmt], i, stmt, cause)
  }

  /** Executing a whole queue from an empty buffer. */
  function ExecuteSpec(entries: seq<Entry>, oracle: Oracle, history: seq<Statement>): RunOutcome {
    Run(entries, oracle, history, 0, [], [])
  }

  /** The values statements `lo` up to `hi` of `executed` added to the buffer. */
  function Gathered(oracle: Oracle, history: seq<Statement>, executed: seq<Statement>, lo: nat, hi: nat): seq<Value>
    requires hi <= |executed|
    decreases hi
  {
    if hi <= lo then []
    else Gathered(oracle, history, executed, lo, hi - 1)
         + Fetched(oracle(history + executed[..hi - 1], executed[hi - 1]))
  }

  /** The position of the last of the first `n` entries that used a
      placeholder, or 0 when none did: the buffer starts over there. */
  function Window(entries: seq<Entry>, n: nat): (w: nat)
    requires n <= |entries|
    ensures w <= n && (n > 0 ==> w < n)
    ensures forall j :: w < j < n ==> !Consumes(entries[j].args)
    ensures (exists j :: 0 <= j < n && Consumes(entries[j].args)) ==> Consumes(entries[w].args)
    ensures (forall j :: 0 <= j < n ==> !Consumes(entries[j].args)) ==> w == 0
  {
    if n == 0 then 0
    else if Consumes(entries[n - 1].args) then n - 1
    else Window(entries, n - 1)
  }

  lemma {:induction false} GatheredPrefix(oracle: Oracle, history: seq<Statement>,
                                          executed: seq<Statement>, longer: seq<Statement>, lo: nat, hi: nat)
    requires hi <= |executed| <= |longer| && executed == longer[..|executed|]
    ensures Gathered(oracle, history, executed, lo, hi) == Gathered(oracle, history, longer, lo, hi)
    decreases hi
  {
    if hi > lo {
      GatheredPrefix(oracle, history, executed, longer, lo, hi - 1);
      assert executed[..hi - 1] == longer[..hi - 1];
    }
  }

  /** The buffer when entry `k` runs, after the statements `executed`: what
      the statements from the last entry before `k` that used a placeholder
      onward fetched. */
  function BufferAt(entries: seq<Entry>, oracle: Oracle, history: seq<Statement>,
                    executed: seq<Statement>, k: nat): seq<Value>
    requires k <= |executed| && k <= |entries|
  {
    Gathered(oracle, history, executed, Window(entries, k), k)
  }

  /** Entry `k`'s arguments, prepared against the buffer at that point. */
  function PreparedAt(entries: seq<Entry>, oracle: Oracle, history: seq<Statement>,
                      executed: seq<Statement>, k: nat): Result<(Option<seq<Value>>, seq<Value>), Error>
    requires k <= |executed| && k < |entries|
  {
    Prepare(entries[k].args, BufferAt(entries, oracle, history, executed, k))
  }

  /** Statement `k` is entry `k`: its SQL, with its arguments after
      substitution against the buffer at that point. */
  predicate RanAt(entries: seq<Entry>, oracle: Oracle, history: seq<Statement>,
                  executed: seq<Statement>, k: nat)
    requires k < |executed| && k < |entries|
  {
    && PreparedAt(entries, oracle, history, executed, k).Success?
    && executed[k] == Statement(entries[k].sql, PreparedAt(entries, oracle, history, executed, k).value.0)
  }

  /** The executed statements are the queue's first entries, in insertion
      order, each run with its own arguments. */
  predicate FollowsQueue(executed: seq<Statement>, entries: seq<Entry>, oracle: Oracle, history: seq<Statement>) {
    |executed| <= |entries| && forall k :: 0 <= k < |executed| ==> RanAt(entries, oracle, history, executed, k)
  }

  /** How a queue's execution ends, in terms of its entries: every executed
      statement is the entry at its position, and
      - a completed queue ran every entry and returns the buffer as it stands
        after the last one;
      - a rolled-back queue failed at entry `at`, running it with its own
        arguments, after entries `0..at` ran;
      - an escaped exception is the one substituting entry `at`'s arguments
        raised, after entries `0..at` ran. */
  predicate RunsAsQueued(o: RunOutcome, entries: seq<Entry>, oracle: Oracle, history: seq<Statement>) {
    && FollowsQueue(o.executed, entries, oracle, history)
    && match o
       case Completed(executed, results) =>
         |executed| == |entries| && results == BufferAt(entries, oracle, history, executed, |entries|)
       case RolledBack(executed, at, failed, _) =>
         && at < |entries| && at <= |executed| <= at + 1
         && PreparedAt(entries, oracle, history, executed, at).Success?
         && failed == Statement(entries[at].sql, PreparedAt(entries, oracle, history, executed, at).value.0)
       case Uncaught(executed, at, error) =>
         at < |entries| && |executed| == at && PreparedAt(entries, oracle, history, executed, at) == Failure(error)
  }

  /** What entry `k` ran with depends only on the statements before it. */
  lemma PreparedAtPrefix(entries: seq<Entry>, oracle: Oracle, history: seq<Statement>,
                         executed: seq<Statement>, longer: seq<Statement>, k: nat)
    requires k <= |executed| <= |longer| && executed == longer[..|executed|] && k < |entries|
    ensures PreparedAt(entries, oracle, history, longer, k) == PreparedAt(entries, oracle, history, executed, k)
  {
    GatheredPrefix(oracle, history, executed, longer, Window(entries, k), k);
  }

  /** Running one more entry leaves what the earlier ones ran with unchanged. */
  lemma FollowsQueueSnoc(entries: seq<Entry>, oracle: Oracle, history: seq<Statement>,
                         executed: seq<Statement>, stmt: Statement)
    requires FollowsQueue(executed, entries, oracle, history) && |executed| < |entries|
    requires var p := PreparedAt(entries, oracle, history, executed, |executed|);
             p.Success? && stmt == Statement(entries[|executed|].sql, p.value.0)
    ensures FollowsQueue(executed + [stmt], entries, oracle, history)
    ensures PreparedAt(entries, oracle, history, executed + [stmt], |executed|)
            == PreparedAt(entries, oracle, history, executed, |executed|)
  {
    var longer := executed + [stmt];
    assert longer[..|executed|] == executed;
    forall k | 0 <= k < |longer|
      ensures RanAt(entries, oracle, history, longer, k)
    {
      PreparedAtPrefix(entries, oracle, history, executed, longer, k);
      if k < |executed| {
        assert RanAt(entries, oracle, history, executed, k);
        assert longer[k] == executed[k];
      }
    }
    PreparedAtPrefix(entries, oracle, history, executed, longer, |executed|);
  }

  /** Substitution keeps the buffer, or empties it when a placeholder was used. */
  lemma PreparedKeeps(entries: seq<Entry>, oracle: Oracle, history: seq<Statement>,
                      executed: seq<Statement>, k: nat)
    requires k <= |executed| && k < |entries| && PreparedAt(entries, oracle, history, executed, k).Success?
    ensures PreparedAt(entries, oracle, history, executed, k).value.1
            == if Consumes(entries[k].args) then [] else BufferAt(entries, oracle, history, executed, k)
  {
  }

  /** The buffer after entry `i` ran: what its substitution kept, then what
      it fetched. */
  lemma BufferStep(entries: seq<Entry>, oracle: Oracle, history: seq<Statement>,
                   executed: seq<Statement>, stmt: Statement)
    requires |executed| < |entries|
    requires var p := PreparedAt(entries, oracle, history, executed, |executed|);
             p.Success? && stmt == Statement(entries[|executed|].sql, p.value.0)
    ensures BufferAt(entries, oracle, history, executed + [stmt], |executed| + 1)
            == PreparedAt(entries, oracle, history, executed, |executed|).value.1
               + Fetched(oracle(history + executed, stmt))
  {
    var i := |executed|;
    var longer := executed + [stmt];
    var w := Window(entries, i + 1);
    var kept := PreparedAt(entries, oracle, history, executed, i).value.1;
    PreparedKeeps(entries, oracle, history, executed, i);
    assert longer[..i] == executed && longer[i] == stmt;
    assert Gathered(oracle, history, longer, w, i + 1)
           == Gathered(oracle, history, longer, w, i) + Fetched(oracle(history + executed, stmt));
    GatheredPrefix(oracle, history, executed, longer, w, i);
    if Consumes(entries[i].args) {
      assert w == i && kept == [];
    } else {
      assert w == Window(entries, i) && kept == BufferAt(entries, oracle, history, executed, i);
    }
  }

  /** An entry that runs keeps the statements in queue order and leaves the
      buffer the next entry expects. */
  lemma RanFollowsQueue(entries: seq<Entry>, oracle: Oracle, history: seq<Statement>,
                        executed: seq<Statement>, stmt: Statement, results: seq<Value>)
    requires |executed| < |entries| && FollowsQueue(executed, entries, oracle, history)
    requires StepOf(entries[|executed|], oracle, history + executed, BufferAt(entries, oracle, history, executed, |executed|))
             == Ran(stmt, results)
    ensures FollowsQueue(executed + [stmt], entries, oracle, history)
    ensures results == BufferAt(entries, oracle, history, executed + [stmt], |executed| + 1)
  {
    FollowsQueueSnoc(entries, oracle, history, executed, stmt);
    BufferStep(entries, oracle, history, executed, stmt);
  }

  /** An entry that does not run ends the queue as `RunsAsQueued` says. */
  lemma StopFollowsQueue(entries: seq<Entry>, oracle: Oracle, history: seq<Statement>,
                         executed: seq<Statement>)
    requires |executed| < |entries| && FollowsQueue(executed, entries, oracle, history)
    requires !StepOf(entries[|executed|], oracle, history + executed, BufferAt(entries, oracle, history, executed, |executed|)).Ran?
    ensures RunsAsQueued(Run(entries, oracle, history, |executed|, executed, BufferAt(entries, oracle, history, executed, |executed|)),
                         entries, oracle, history)
  {
    var step := StepOf(entries[|executed|], oracle, history + executed, BufferAt(entries, oracle, history, executed, |executed|));
    if step.FetchFailed? {
      FollowsQueueSnoc(entries, oracle, history, executed, step.stmt);
    }
  }

  lemma {:induction false} RunFollowsQueue(entries: seq<Entry>, oracle: Oracle, history: seq<Statement>,
                                           i: nat, executed: seq<Statement>, results: seq<Value>)
    requires i <= |entries| && |executed| == i && FollowsQueue(executed, entries, oracle, history)
    requires results == BufferAt(entries, oracle, history, executed, i)
    ensures RunsAsQueued(Run(entries, oracle, history, i, executed, results), entries, oracle, history)
    decreases |entries| - i
  {
    if i < |entries| {
      var step := StepOf(entries[i], oracle, history + executed, results);
      if step.Ran? {
        RanFollowsQueue(entries, oracle, history, executed, step.stmt, step.results);
        RunFollowsQueue(entries, oracle, history, i + 1, executed + [step.stmt], step.results);
      } else {
        StopFollowsQueue(entries, oracle, history, executed);
      }
    }
  }

  /** The server accepted statement `k` of `executed`: it executed, and
      fetching raised nothing but ProgrammingError. */
  predicate Accepted(oracle: Oracle, history: seq<Statement>, executed: seq<Statement>, k: nat)
    requires k < |executed|
  {
    var reply := oracle(history + executed[..k], executed[k]);
    reply.Executed? && !reply.fetch.FetchError?
  }

  /** What the server answered, for each way a queue ends: a completed queue
      had every statement accepted; a rolled-back one had the statements
      before `at` accepted, and then either `execute` raised on `failed`, or
      `failed` ran and its fetch raised; an escaped exception came after
      the statements before `at` were accepted. */
  predicate RepliesAsRun(o: RunOutcome, oracle: Oracle, history: seq<Statement>) {
    match o
    case Completed(executed, _) =>
      forall k :: 0 <= k < |executed| ==> Accepted(oracle, history, executed, k)
    case RolledBack(executed, at, failed, cause) =>
      && at <= |executed|
      && (forall k :: 0 <= k < at ==> Accepted(oracle, history, executed, k))
      && ((|executed| == at && oracle(history + executed, failed) == ExecuteError(cause))
          || (|executed| == at + 1 && executed[at] == failed
              && oracle(history + executed[..at], failed) == Executed(FetchError(cause))))
    case Uncaught(executed, at, _) =>
      |executed| == at && forall k :: 0 <= k < at ==> Accepted(oracle, history, executed, k)
  }

  /** A statement the server accepted keeps the earlier ones accepted. */
  lemma AcceptedSnoc(oracle: Oracle, history: seq<Statement>, executed: seq<Statement>, stmt: Statement)
    requires forall k :: 0 <= k < |executed| ==> Accepted(oracle, history, executed, k)
    requires oracle(history + executed, stmt).Executed? && !oracle(history + executed, stmt).fetch.FetchError?
    ensures forall k :: 0 <= k < |executed| + 1 ==> Accepted(oracle, history, executed + [stmt], k)
  {
    var longer := executed + [stmt];
    forall k | 0 <= k < |longer|
      ensures Accepted(oracle, history, longer, k)
    {
      if k < |executed| {
        assert Accepted(oracle, history, executed, k);
        assert longer[..k] == executed[..k] && longer[k] == executed[k];
      } else {
        assert longer[..k] == executed;
      }
    }
  }

  lemma {:induction false} RunReplies(entries: seq<Entry>, oracle: Oracle, history: seq<Statement>,
                                      i: nat, executed: seq<Statement>, results: seq<Value>)
    requires i <= |entries| && |executed| == i
    requires forall k :: 0 <= k < i ==> Accepted(oracle, history, executed, k)
    ensures RepliesAsRun(Run(entries, oracle, history, i, executed, results), oracle, history)
    decreases |entries| - i
  {
    if i < |entries| {
      var step := StepOf(entries[i], oracle, history + executed, results);
      match step
      case Ran(stmt, results') =>
        AcceptedSnoc(oracle, history, executed, stmt);
        RunReplies(entries, oracle, history, i + 1, executed + [stmt], results');
      case FetchFailed(stmt, _) =>
        var longer := executed + [stmt];
        assert longer[..i] == executed;
        forall k | 0 <= k < i
          ensures Accepted(oracle, history, longer, k)
        {
          assert Accepted(oracle, history, executed, k);
          assert longer[..k] == executed[..k] && longer[k] == executed[k];
        }
      case _ =>
    }
  }

  /** First in, first out: the statements a queue runs are its entries, once
      each, in insertion order, each with its own arguments after
      substitution against the buffer at that point; the queue stops at the
      first entry that fails, and a completed queue returns the values
      fetched by the last statement that used a placeholder and by every
      statement after it (everything fetched, when none did). The queue
      commits only when the server accepted every statement, and rolls back
      exactly at the statement whose `execute` or fetch raised. */
  lemma ExecuteInFifoOrder(entries: seq<Entry>, oracle: Oracle, history: seq<Statement>)
    ensures RunsAsQueued(ExecuteSpec(entries, oracle, history), entries, oracle, history)
    ensures RepliesAsRun(ExecuteSpec(entries, oracle, history), oracle, history)
  {
    RunFollowsQueue(entries, oracle, history, 0, [], []);
    RunReplies(entries, oracle, history, 0, [], []);
  }
}
