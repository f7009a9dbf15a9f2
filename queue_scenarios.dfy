/**
 * The situations the handler's own test suite puts a queue in
 * (gd/test/test_sql_connection.py, lines 324-373), stated for every server
 * that answers the way the test database does.
 */
module QueueScenarios {
  import opened Results
  import opened Python
  import opened Exceptions
  import opened Driver
  import opened Placeholders
  import opened QueueSpec

  /** An argument that is passed to `execute` unchanged: not a placeholder and
      not the empty string. */
  predicate Plain(v: Value) {
    !IsPlaceholderToken(v) && v != Str([])
  }

  /** An entry whose arguments are a tuple of plain values, like `(x,)`. */
  predicate PlainEntry(e: Entry) {
    e.args.Tuple? && forall j :: 0 <= j < |e.args.items| ==> Plain(e.args.items[j])
  }

  /** The statement a plain entry becomes. */
  function AsStatement(e: Entry): Statement
    requires PlainEntry(e)
  {
    Statement(e.sql, Some(e.args.items))
  }

  function AsStatements(es: seq<Entry>): (ss: seq<Statement>)
    requires forall k :: 0 <= k < |es| ==> PlainEntry(es[k])
    ensures |ss| == |es| && forall k :: 0 <= k < |es| ==> ss[k] == AsStatement(es[k])
  {
    seq(|es|, k requires 0 <= k < |es| => AsStatement(es[k]))
  }

  /** A plain entry runs with its own arguments and leaves the buffer alone. */
  lemma PlainPrepare(e: Entry, results: seq<Value>)
    requires PlainEntry(e)
    ensures Prepare(e.args, results) == Success((Some(e.args.items), results))
  {
    var items := e.args.items;
    ResolveArgsSucceeds(items, results);
    ResolveArgsElementwise(items, results);
    ResolveArgsFlag(items, results);
    assert ResolveArgs(items, results).value.0 == items;
  }

  /** Arguments `("{0}",)`: the first buffer element, and the buffer emptied;
      GDExecutionError on an empty buffer. */
  lemma FirstResultArgument(results: seq<Value>)
    ensures |results| > 0 ==> Prepare(Tuple([Str("{0}")]), results) == Success((Some([results[0]]), []))
    ensures results == [] ==> Prepare(Tuple([Str("{0}")]), results) == Failure(MissingPlaceholderResult(0))
  {
    var arg := Str("{0}");
    assert [arg][..0] == [];
    assert ShowInt(0) == "0";
    assert arg == Str("{" + ShowInt(0) + "}");
    if |results| > 0 {
      PlaceholderPicks(0, results);
      assert ResolveArg(arg, results) == Success((results[0], true));
      assert [] + [results[0]] == [results[0]];
      assert ResolveArgs([arg], results) == Success(([results[0]], true));
      assert Consumes(Tuple([arg])) by {
        assert IsPlaceholderToken(Iterate(Tuple([arg])).value[0]);
      }
    } else {
      PlaceholderOutOfRange(0, results);
      assert ResolveArgs([arg], results) == Failure(MissingPlaceholderResult(0));
    }
  }

  /** Lines 324-337: `INSERT ... RETURNING` followed by a statement taking
      `{0}`. The second statement receives the returned value; the buffer was
      consumed and the second statement returns nothing, so the queue commits
      both and returns []. */
  lemma PlaceholderChain(oracle: Oracle, history: seq<Statement>, insert: string, update: string,
                         arg: Value, returned: Value)
    requires Plain(arg)
    requires oracle(history, Statement(insert, Some([arg]))) == Executed(Rows([[returned]]))
    requires oracle(history + [Statement(insert, Some([arg]))], Statement(update, Some([returned])))
             == Executed(NoResultSet)
    ensures ExecuteSpec([Entry(insert, Tuple([arg])), Entry(update, Tuple([Str("{0}")]))], oracle, history)
            == Completed([Statement(insert, Some([arg])), Statement(update, Some([returned]))], [])
  {
    var entries := [Entry(insert, Tuple([arg])), Entry(update, Tuple([Str("{0}")]))];
    var first := Statement(insert, Some([arg]));
    var second := Statement(update, Some([returned]));
    assert PlainEntry(entries[0]) && history + [] == history;
    PlainStep(entries, oracle, history, 0, [], []);
    assert [] + Fetched(oracle(history, first)) == [returned] by {
      assert Flatten([[returned]]) == [returned];
    }
    assert [] + [first] == [first] && [first] + [second] == [first, second];
    ConsumingLastStep(entries, oracle, history, [first], returned);
    assert Fetched(oracle(history + [first], second)) == [];
  }

  /** A last entry `(sql, ("{0}",))` after a statement that fetched one value:
      it runs with that value, and the queue returns what it fetches. */
  lemma ConsumingLastStep(entries: seq<Entry>, oracle: Oracle, history: seq<Statement>,
                          executed: seq<Statement>, returned: Value)
    requires |entries| == 2 && entries[1].args == Tuple([Str("{0}")])
    requires var stmt := Statement(entries[1].sql, Some([returned]));
             oracle(history + executed, stmt).Executed? && !oracle(history + executed, stmt).fetch.FetchError?
    ensures var stmt := Statement(entries[1].sql, Some([returned]));
            Run(entries, oracle, history, 1, executed, [returned])
            == Completed(executed + [stmt], Fetched(oracle(history + executed, stmt)))
  {
    FirstResultArgument([returned]);
    var stmt := Statement(entries[1].sql, Some([returned]));
    assert [] + Fetched(oracle(history + executed, stmt)) == Fetched(oracle(history + executed, stmt));
    RunAfterRan(entries, oracle, history, 1, executed, [returned]);
  }

  /** A plain entry the server executes runs with its own arguments and adds
      what it fetched to the buffer. */
  lemma PlainStep(entries: seq<Entry>, oracle: Oracle, history: seq<Statement>,
                  i: nat, executed: seq<Statement>, results: seq<Value>)
    requires i < |entries| && PlainEntry(entries[i])
    requires oracle(history + executed, AsStatement(entries[i])).Executed?
    requires !oracle(history + executed, AsStatement(entries[i])).fetch.FetchError?
    ensures var stmt := AsStatement(entries[i]);
            Run(entries, oracle, history, i, executed, results)
            == Run(entries, oracle, history, i + 1, executed + [stmt], results + Fetched(oracle(history + executed, stmt)))
  {
    PlainPrepare(entries[i], results);
    RunAfterRan(entries, oracle, history, i, executed, results);
  }

  /** One entry that runs moves the loop on to the next. */
  lemma RunAfterRan(entries: seq<Entry>, oracle: Oracle, history: seq<Statement>,
                    i: nat, executed: seq<Statement>, results: seq<Value>)
    requires i < |entries| && StepOf(entries[i], oracle, history + executed, results).Ran?
    ensures var step := StepOf(entries[i], oracle, history + executed, results);
            Run(entries, oracle, history, i, executed, results)
            == Run(entries, oracle, history, i + 1, executed + [step.stmt], step.results)
  {
  }

  /** Lines 339-354: the same queue when the INSERT returns no result set. The
      buffer is empty, `{0}` has nothing to pick, and GDExecutionError escapes
      the loop after the INSERT ran: it is neither committed nor rolled back,
      and the queue is not deleted. */
  lemma MissingPlaceholderResultEscapes(oracle: Oracle, history: seq<Statement>, insert: string, update: string,
                                        arg: Value)
    requires Plain(arg)
    requires oracle(history, Statement(insert, Some([arg]))) == Executed(NoResultSet)
    ensures ExecuteSpec([Entry(insert, Tuple([arg])), Entry(update, Tuple([Str("{0}")]))], oracle, history)
            == Uncaught([Statement(insert, Some([arg]))], 1, MissingPlaceholderResult(0))
  {
    var entries := [Entry(insert, Tuple([arg])), Entry(update, Tuple([Str("{0}")]))];
    var first := Statement(insert, Some([arg]));
    assert PlainEntry(entries[0]) && history + [] == history;
    PlainStep(entries, oracle, history, 0, [], []);
    FirstResultArgument([]);
    assert StepOf(entries[1], oracle, history + [first], []) == Raised(MissingPlaceholderResult(0));
  }

  /** Lines 356-373: any number of statements that succeed, then one the server
      rejects. Every statement before it ran, in order, the failing one is
      reported, and the queue is rolled back there. */
  lemma {:induction false} FailingLastStatement(writes: seq<Entry>, bad: Entry, oracle: Oracle, history: seq<Statement>,
                                                i: nat, results: seq<Value>)
    requires forall k :: 0 <= k < |writes| ==> PlainEntry(writes[k])
    requires bad.args == NoneValue
    requires forall h: seq<Statement>, k :: 0 <= k < |writes| ==>
               oracle(h, AsStatement(writes[k])).Executed? && !oracle(h, AsStatement(writes[k])).fetch.FetchError?
    requires oracle(history + AsStatements(writes), Statement(bad.sql, None)).ExecuteError?
    requires i <= |writes|
    ensures Run(writes + [bad], oracle, history, i, AsStatements(writes)[..i], results)
            == RolledBack(AsStatements(writes), |writes|, Statement(bad.sql, None),
                          oracle(history + AsStatements(writes), Statement(bad.sql, None)).cause)
    decreases |writes| - i
  {
    var entries := writes + [bad];
    var done := AsStatements(writes)[..i];
    if i == |writes| {
      assert entries[i] == bad;
      assert done == AsStatements(writes);
    } else {
      assert entries[i] == writes[i];
      var stmt := AsStatement(writes[i]);
      var reply := oracle(history + done, stmt);
      assert reply.Executed? && !reply.fetch.FetchError?;
      assert AsStatements(writes)[..i + 1] == done + [stmt];
      PlainStep(entries, oracle, history, i, done, results);
      FailingLastStatement(writes, bad, oracle, history, i + 1, results + Fetched(reply));
    }
  }

  /** The whole queue of lines 356-373: rolled back at the failing statement,
      after every earlier statement ran. */
  lemma FailingLastStatementRollsBack(writes: seq<Entry>, bad: Entry, oracle: Oracle, history: seq<Statement>)
    requires forall k :: 0 <= k < |writes| ==> PlainEntry(writes[k])
    requires bad.args == NoneValue
    requires forall h: seq<Statement>, k :: 0 <= k < |writes| ==>
               oracle(h, AsStatement(writes[k])).Executed? && !oracle(h, AsStatement(writes[k])).fetch.FetchError?
    requires oracle(history + AsStatements(writes), Statement(bad.sql, None)).ExecuteError?
    ensures ExecuteSpec(writes + [bad], oracle, history)
            == RolledBack(AsStatements(writes), |writes|, Statement(bad.sql, None),
                          oracle(history + AsStatements(writes), Statement(bad.sql, None)).cause)
  {
    FailingLastStatement(writes, bad, oracle, history, 0, []);
    assert AsStatements(writes)[..0] == [];
  }
}
