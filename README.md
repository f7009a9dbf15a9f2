# Transaction queues of `SQLConnectionHandler`, in Dafny

This project models the queue engine of `SQLConnectionHandler`
(`gd/sql_connection.py`) from glowing-dangerzone, together with the small
pieces around it:
- the admin-mode check and the connection arguments of the constructor;
- the SQL-argument shape check;
- the `autocommit` property.

A handler keeps a table of named queues. Each queue is a FIFO list of
`(sql, args)` entries. `execute_queue` runs one queue in a single transaction
and keeps a result buffer while it does so:
- Before a statement executes, each `{n}` placeholder among its arguments is
  replaced by `results[n]`, with Python indexing.
- If any placeholder was used, the buffer is then emptied.
- Each statement's fetched rows are appended to the buffer in row-major order.
- If the driver fails, the transaction is rolled back, the queue is deleted and
  `GDExecutionError` is raised.
- If every statement succeeds, the transaction is committed, the queue is
  deleted and the buffer is returned.

Modules, one per file:

- `Results` (`results.dfy`): `Option`, `Result`, `Outcome`.
- `Python` (`python.dfy`): the Python values a caller passes as SQL arguments. It covers:
  - truthiness;
  - `list(x)`;
  - indexing with negative indices;
  - `int(text)` as Python 2.7 parses a `str`: C-locale white space skipped at both ends and after the sign, one sign, and ASCII digits only.
- `Exceptions` (`exceptions.dfy`): every exception the core raises, with its Python class.
- `Driver` (`driver.dfy`): the database as seen through the driver.
  - The server is an *oracle*, a function from (the statements this connection already ran, the next statement) to the reply. A reply is either an execute failure, or a fetch that gives rows, no result set (`ProgrammingError`) or a fetch failure.
  - The connection's transaction state is a `Session`: the committed statements and the pending ones, under an isolation level. Only `commit` makes pending statements permanent.
- `Placeholders` (`placeholders.dfy`): `flatten`, and the substitution of one statement's placeholders, both as functions and as the in-place loop over the argument list.
- `QueueSpec` (`queue_spec.dfy`): `ExecuteSpec`, what executing a queue does as a function of its entries, the server and the history. It ends in one of three ways: completed, rolled back, or an exception that escapes the loop. `ExecuteInFifoOrder` states how it ends in terms of the entries: the FIFO order, the arguments each statement ran with, where the queue stopped, and which values the returned buffer holds.
- `SqlConnection` (`sql_connection.dfy`): the handler itself.
  - `class ConnectionHandler` holds the queue table (`map<string, seq<Entry>>`) and the session.
  - Its methods change both in place.
  - `RunEntries` is the statement loop of `execute_queue`, proved against `ExecuteSpec` through its loop invariants. `ExecuteQueue` calls it, then commits, rolls back or lets the exception escape according to how the loop ended.
- `QueueScenarios` (`queue_scenarios.dfy`): the queue situations of the handler's test suite (`gd/test/test_sql_connection.py`). Each is stated for every server that answers the way the test database does.

Three points of the code's behaviour are easy to misread:

- **A placeholder error is not a rollback.** Several exceptions are raised inside the loop of `execute_queue` and outside its `try` blocks (lines 469-480):
  - the `GDExecutionError` for a placeholder index with no buffer element;
  - the `ValueError` of `int()` on `{}` or `{x}`;
  - the `IndexError` of `arg[0]` on an empty string;
  - the `TypeError` of `list()` on a non-iterable.

  None of them triggers a rollback, and none deletes the queue. The transaction stays open with the earlier statements pending, and the queue stays registered. Unlike a driver failure, none of them is caught by the loop. In the model the outcome is `Uncaught`: the session is left as it was after the statements that ran, and `queues` is unchanged. In read-committed mode nothing is committed either way.
- **Placeholder indices.** The index is whatever Python 2.7's `int()` accepts, so `{-1}` picks the last buffer element, and `{ 1 }`, `{+1}` and `{- 1}` are valid. Only indices outside `-len..len-1` fail. A Python 2 `unicode` argument is not a `str`, so it is never substituted; it is an `Object` value in the model.
- **Atomicity.** A failing queue leaves no effect permanent only in read-committed mode, which is the connection's default. With `autocommit` set to True, every statement is permanent as soon as it runs, and the rollback undoes nothing (`Driver.RecordAllAutocommit`).

## Model

| member | source | states |
|---|---|---|
| Python.Truthy | gd/sql_connection.py:210 | Python's `bool(v)`; it decides the argument check (`CheckSqlArgsAccepts`) and the `many` test of `add_to_queue` (`SqlConnection.Batch`) |
| Python.Iterate | gd/sql_connection.py:469 | `list(v)`, also the `for` of line 433: items of a list or tuple, keys of a dict, one-character strings of a string, or None (`TypeError`) for a non-iterable; its use is stated by `Placeholders.Prepare` and `SqlConnection.ConnectionHandler.AddToQueue` |
| Python.PyIndex | gd/sql_connection.py:474-476 | `results[k]` reads a position exactly when `-len <= k < len`: position `k`, or `len + k` for a negative `k` |
| Python.PyIndexLast | gd/sql_connection.py:474-476 | index -1 reads the last buffer element |
| Python.ParseInt | gd/sql_connection.py:474 | `int(text)` fails on any text without a digit |
| Python.ParseIntPython2 | gd/sql_connection.py:474 | Python 2.7's `int()`: `"- 1"` is -1 and `" +\t7\n"` is 7, while `"1_0"`, `"\x1c0"`, `"-"` and `"1 2"` raise `ValueError` |
| Python.ShowNatIsDigitRun | gd/sql_connection.py:474 | the decimal digits of `n` are a digit run denoting `n` |
| Python.ParseNegativeRun | gd/sql_connection.py:474 | `int()` of a minus sign followed by a digit run is the negated value of the run |
| Python.ParseShowInt | gd/sql_connection.py:474 | `int(str(k)) == k` for every integer `k`, negative ones included |
| Placeholders.Flatten | gd/sql_connection.py:96-98 | `flatten`: the rows chained into one list; its properties are `FlattenAppend` and `FlattenRowMajor` |
| Placeholders.FlattenAppend | gd/sql_connection.py:96-98 | flattening distributes over concatenation of row lists |
| Placeholders.FlattenRowMajor | gd/sql_connection.py:96-98 | value `j` of row `i` sits right after every value of the earlier rows |
| Placeholders.IsPlaceholderToken | gd/sql_connection.py:472-473 | the placeholder test: a `str` starting with `{` and ending with `}`; `ResolveArg` and `ResolveArgsFlag` state its role |
| Placeholders.ResolveArgs | gd/sql_connection.py:470-481 | the substitution over a whole argument list; its properties are `ResolveArgsElementwise`, `ResolveArgsFlag`, `ResolveArgsFirstError` and `ResolveArgsSucceeds`, and `ResolvePlaceholders` is the loop that computes it |
| Placeholders.ResolveArg | gd/sql_connection.py:470-480 | the flag is set exactly for a placeholder token; any other argument passes unchanged; a substituted value is taken from the buffer; only an empty string or a placeholder token can raise |
| Placeholders.PlaceholderPicks | gd/sql_connection.py:474-476 | `{k}` with `-len <= k < len` becomes `results[k]`, counting from the end for a negative `k` |
| Placeholders.PlaceholderOutOfRange | gd/sql_connection.py:475-480 | `{k}` outside the buffer raises `GDExecutionError` carrying `k` |
| Placeholders.MalformedArguments | gd/sql_connection.py:472-474 | `{}` and `{x}` raise `ValueError`, `""` raises `IndexError`, `{0` passes through unchanged |
| Placeholders.ResolveArgsElementwise | gd/sql_connection.py:470-481 | after a successful substitution, every argument keeps its position and is resolved on its own against the same buffer |
| Placeholders.ResolveArgsFlag | gd/sql_connection.py:470-481 | the buffer is marked for clearing exactly when some argument is a placeholder token |
| Placeholders.ResolveArgsFirstError | gd/sql_connection.py:470-481 | a failed substitution raises the exception of one of the arguments |
| Placeholders.ResolveArgsSucceeds | gd/sql_connection.py:470-481 | a statement's arguments resolve exactly when each argument does |
| Placeholders.ResolveArgsStep | gd/sql_connection.py:470-481 | resolving one more argument extends the resolved prefix by that argument's value and flag |
| Placeholders.ResolveArgsPrefixFails | gd/sql_connection.py:470-481 | once a prefix of the arguments fails, the whole list fails with the same exception |
| Placeholders.ResolveArgsFailsAt | gd/sql_connection.py:470-481 | the first argument that fails decides the exception |
| Placeholders.Prepare | gd/sql_connection.py:466-485 | `None` arguments run as `None` with the buffer untouched; a non-iterable raises `TypeError`; otherwise it succeeds exactly when the substitution of `list(args)` does, raises the substitution's own exception when it fails, and on success runs with the substituted list and empties the buffer exactly when a placeholder was used |
| Placeholders.PrepareRaises | gd/sql_connection.py:466-481 | preparing an entry raises only `TypeError` (not iterable), `ValueError` (`int()`), `IndexError` (`arg[0]`) or `GDExecutionError` (missing buffer element) |
| Placeholders.ResolveArgRaises | gd/sql_connection.py:472-480 | one argument raises only `ValueError`, `IndexError` or `GDExecutionError` |
| Placeholders.ResolvePlaceholders | gd/sql_connection.py:470-481 | the in-place loop over the argument list computes the same list, flag or exception as the substitution function |
| Driver.Session.Record | gd/sql_connection.py:487-488 | a statement that executes keeps the isolation level and the session valid, and becomes visible after everything before it |
| Driver.RecordAllAppend | gd/sql_connection.py:487-488 | running one more statement records it after the others |
| Driver.RecordAllVisible | gd/sql_connection.py:487-488 | statements that execute become visible in the order they ran, and the isolation level does not change |
| Driver.RecordAllInTransaction | gd/sql_connection.py:437-443 | in read-committed mode, statements only join the open transaction, and a rollback restores the committed state |
| Driver.RecordAllAutocommit | gd/sql_connection.py:184-190 | in autocommit mode every statement is committed as it runs, and a rollback changes nothing |
| Driver.CommitPublishes | gd/sql_connection.py:507 | the commit makes the earlier pending statements and the queue's statements permanent, in order, and leaves nothing pending |
| QueueSpec.Fetched | gd/sql_connection.py:493-506 | what a reply adds to the buffer: the flattened rows, or nothing when the fetch raised `ProgrammingError`; `BufferStep` states its use |
| QueueSpec.StepOf | gd/sql_connection.py:466-506 | one pass of the loop body: substitution, `execute`, `fetchall`; its meaning is stated by `RanFollowsQueue`, `StopFollowsQueue` and `RunReplies` |
| QueueSpec.Run | gd/sql_connection.py:463-506 | the loop from entry `i` on; `RunFollowsQueue` and `RunReplies` state how it ends |
| QueueSpec.ExecuteSpec | gd/sql_connection.py:463-510 | executing a whole queue from an empty buffer; `ExecuteInFifoOrder` states how it ends, and `RunEntries` and `ExecuteQueue` are proved to follow it |
| QueueSpec.Window | gd/sql_connection.py:482-485 | the buffer restarts at the last of the first `n` entries that used a placeholder: no later one among them used one; it is 0 when none did |
| QueueSpec.PreparedAtPrefix | gd/sql_connection.py:466-485 | the arguments entry `k` runs with depend only on the statements before it |
| QueueSpec.FollowsQueueSnoc | gd/sql_connection.py:463-506 | running one more entry keeps the earlier statements in queue order, each with the arguments it ran with |
| QueueSpec.PreparedKeeps | gd/sql_connection.py:482-485 | after substitution the buffer is kept, or emptied when the entry used a placeholder |
| QueueSpec.BufferStep | gd/sql_connection.py:482-506 | after an entry runs, the buffer is what its substitution kept, then what it fetched |
| QueueSpec.RanFollowsQueue | gd/sql_connection.py:463-506 | an entry that runs keeps the statements in queue order and leaves the buffer the next entry expects |
| QueueSpec.StopFollowsQueue | gd/sql_connection.py:466-506 | an entry that raises or fails ends the queue there, as `RunsAsQueued` describes |
| QueueSpec.RunFollowsQueue | gd/sql_connection.py:463-510 | from any position with the loop's buffer, the run ends as `RunsAsQueued` describes |
| QueueSpec.AcceptedSnoc | gd/sql_connection.py:487-506 | a statement the server accepts keeps every earlier statement accepted |
| QueueSpec.RunReplies | gd/sql_connection.py:463-506 | from any position, a completed run had every statement accepted, a rollback happens exactly at the statement whose `execute` or fetch raised, and an escaped exception comes after accepted statements only |
| QueueSpec.ExecuteInFifoOrder | gd/sql_connection.py:463-510 | first in, first out: statement `k` is entry `k`, with its SQL and its arguments substituted against the buffer at that point; a completed queue ran every entry and returns what the statements from the last placeholder user onward fetched; a rolled-back queue failed at entry `at` after entries `0..at` ran; an escaped exception is the one entry `at`'s substitution raised. The queue commits only when the server accepted every statement (executed, and fetched without an error other than `ProgrammingError`), and it rolls back exactly at the statement whose `execute` or fetch raised |
| SqlConnection.ParseAdminMode | gd/sql_connection.py:115-118 | exactly the three admin modes are accepted; any other string raises `GDConnectionError` |
| SqlConnection.ParseModeName | gd/sql_connection.py:93 | each admin mode's name parses back to that mode |
| SqlConnection.ConnectArgs | gd/sql_connection.py:137-153 | which keyword arguments `connect` receives: the admin credentials for both admin modes, and no `database` only for `admin_without_database` |
| SqlConnection.CheckSqlArgs | gd/sql_connection.py:192-212 | the `TypeError` carries the rejected value |
| SqlConnection.CheckSqlArgsAccepts | gd/sql_connection.py:210-212 | `None`, lists, tuples and dicts pass; strings, numbers, bools and other objects pass exactly when falsy |
| SqlConnection.ValidPrefix | gd/sql_connection.py:430-435 | all argument sets before position `k` pass the check, and the one at `k`, if any, fails it |
| SqlConnection.EntriesFor | gd/sql_connection.py:433-435 | one entry per argument set, in order, all with the same SQL |
| SqlConnection.Batch | gd/sql_connection.py:430-433 | the argument sets `add_to_queue` walks: the argument alone when `many` is falsy, else what iterating over it yields, or None (`TypeError`); `AddToQueue` states its use |
| SqlConnection.ConnectionHandler.constructor | gd/sql_connection.py:115-125 | a new handler has no queues and an open connection in read-committed mode |
| SqlConnection.ConnectionHandler.Open | gd/sql_connection.py:115-159 | a bad mode raises `GDConnectionError`; a refused connection raises `GDConnectionError` with the driver's message; otherwise a fresh handler with no queues |
| SqlConnection.ConnectionHandler.GetAutocommit | gd/sql_connection.py:180-182 | the `autocommit` property: True exactly in autocommit mode; `SetAutocommit` states that it reads back what was set |
| SqlConnection.ConnectionHandler.SetAutocommit | gd/sql_connection.py:184-190 | a non-bool raises `TypeError` and changes nothing; True or False selects autocommit or read-committed, and the getter then reads the value back |
| SqlConnection.ConnectionHandler.CheckQueueExists | gd/sql_connection.py:372-374 | passes exactly when the queue exists; otherwise `KeyError` |
| SqlConnection.ConnectionHandler.CreateQueue | gd/sql_connection.py:376-392 | an existing name raises `KeyError` and leaves the queues unchanged; otherwise exactly `name -> []` is added |
| SqlConnection.ConnectionHandler.ListQueues | gd/sql_connection.py:394-402 | the names of the live queues |
| SqlConnection.ConnectionHandler.AddToQueue | gd/sql_connection.py:404-435 | a missing queue raises `KeyError` before any change. Otherwise one entry per argument set is appended, in order: one set when `many` is falsy, including `None`, and each element of the iterable when it is truthy; a non-iterable then raises `TypeError` before any change. An invalid set at position `k` raises `TypeError` after the first `k` were appended |
| SqlConnection.ConnectionHandler.RollbackRaiseError | gd/sql_connection.py:437-443 | rolls back, deletes the queue, and raises `GDExecutionError` with the queue, the SQL, the arguments and the cause |
| SqlConnection.ConnectionHandler.ExecuteQueue | gd/sql_connection.py:445-510 | the queue runs as `ExecuteSpec` says. Completed: the buffer is returned, the queue deleted and the transaction committed. Rolled back: `GDExecutionError` is raised, the queue deleted and the transaction rolled back. Escaped exception: it is raised with the queue kept and the transaction open. In read-committed mode, a failure commits nothing |
| SqlConnection.ConnectionHandler.RunEntries | gd/sql_connection.py:463-506 | the loop runs the entries as `ExecuteSpec` says, from the visible history, and the session records exactly the statements that executed; the queue table is untouched |
| SqlConnection.PrepareEntry | gd/sql_connection.py:466-485 | the loop body's argument handling computes exactly `Prepare` |
| SqlConnection.AtomicWhenRolledBack | gd/sql_connection.py:437-443 | in read-committed mode, the rollback leaves the committed state as it was before the queue ran |
| SqlConnection.AtomicWhenUncaught | gd/sql_connection.py:475-480 | in read-committed mode, an escaped exception leaves the committed state as it was before the queue ran |
| QueueScenarios.PlainPrepare | gd/sql_connection.py:466-485 | a tuple of plain arguments runs unchanged and leaves the buffer alone |
| QueueScenarios.FirstResultArgument | gd/sql_connection.py:474-485 | arguments `("{0}",)` take the first buffer element and empty the buffer; on an empty buffer they raise `GDExecutionError` |
| QueueScenarios.PlainStep | gd/sql_connection.py:493-506 | a plain entry the server executes adds what it fetched to the buffer |
| QueueScenarios.ConsumingLastStep | gd/sql_connection.py:466-510 | a last entry taking `{0}` runs with the previous statement's value and returns only what it fetches |
| QueueScenarios.RunAfterRan | gd/sql_connection.py:465-506 | an entry that runs moves the loop on to the next entry |
| QueueScenarios.PlaceholderChain | gd/test/test_sql_connection.py:324-337 | `INSERT ... RETURNING` then an update taking `{0}`: the update receives the returned value, both statements commit, and the result is `[]` |
| QueueScenarios.MissingPlaceholderResultEscapes | gd/test/test_sql_connection.py:339-354 | if the insert returns no result set, `{0}` raises `GDExecutionError` after the insert ran, with no rollback and no deletion |
| QueueScenarios.FailingLastStatement | gd/test/test_sql_connection.py:356-373 | from any position, statements that succeed are followed by the rollback at the statement the server rejects |
| QueueScenarios.FailingLastStatementRollsBack | gd/test/test_sql_connection.py:356-373 | any number of successful writes, then a rejected statement: all writes ran in order, and the queue is rolled back at the rejected one |

## Left out

- The driver itself is an oracle and a session value. This covers `connect`, cursors, `DictCursor`, `execute`, `fetchall`, `commit`, `rollback` and the isolation-level constants. Their real behaviour is foreign code.
- `commit` and `rollback` always succeed in the model. In the code, a `commit()` that raises at line 507 (a deferred constraint, say) escapes with the queue still registered, because the `del` at line 508 never runs.
- Message texts are left out. Each exception carries its data, not its formatted string.
- `get_postgres_cursor` is left out: its reconnect when the connection is closed and its translation of cursor errors are connection plumbing. `__del__` is left out for the same reason.
- `_sql_executor`, `execute`, `executemany`, `execute_fetchone` and `execute_fetchall` are left out. They are single-statement wrappers outside the queue engine.
- `gd/config.py` is left out: it reads files and the environment. Its seven fields are the `Config` given to `Open`.
- The `connect` call is a parameter of `Open`. It answers with the driver's error message, or with none.
- The connection a handler opens starts in read-committed mode, which is the driver's default.
- `set_isolation_level` is taken to roll back an open transaction before it switches (`SwitchLevel`), as the driver does.
- `int()` is modelled for a Python 2 `str`. An embedded NUL character raises `ValueError` there, and it does in the model too, since NUL is neither a digit nor white space.
- `Entry` stores the argument value. `add_to_queue` stores a reference to the caller's object (line 435), and `execute_queue` copies it only at line 469. So a caller who mutates a queued list before the queue runs changes what runs. This aliasing is not modelled.
- `AddToQueue` takes every parameter explicitly. The Python defaults (`sql_args=None`, `many=False`, and `admin='no_admin'` for the constructor) are not modelled as defaults. `many` is any Python value, tested by truthiness as at line 430.
- Dict iteration order is given by the `Dict` value's entry order. Python 2.7's hash order is not computed.
- Floats are real numbers. NaN and infinities are not modelled, so neither is their truthiness.
- Only `ProgrammingError` is the benign fetch condition. Any other fetch failure is a `PostgresError`. A non-Postgres exception at fetch time, which the code lets escape, is not modelled.
- SqlConnection.ConnectionHandler.ListQueues: returns the set of names. The order of Python's `keys()` is not modelled.
