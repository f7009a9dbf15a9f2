/**
 * SQLConnectionHandler (gd/sql_connection.py): the admin-mode check and the
 * connection arguments it builds, the argument-shape check, the autocommit
 * property and the transaction queues. A queue is a named list of (sql, args)
 * entries; executing it runs every entry in one transaction on the handler's
 * single connection and deletes the queue.
 */
module SqlConnection {
  import opened Results
  import opened Python
  import opened Exceptions
  import opened Driver
  import opened Placeholders
  import opened QueueSpec

  /** INIT_ADMIN_OPTS: which credentials and which target the connection uses. */
  datatype AdminMode = NoAdmin | AdminWithDatabase | AdminWithoutDatabase

  function ModeName(m: AdminMode): string {
    match m
    case NoAdmin => "no_admin"
    case AdminWithDatabase => "admin_with_database"
    case AdminWithoutDatabase => "admin_without_database"
  }

  /** The check at the start of `__init__`: any other string raises
      GDConnectionError. */
  function ParseAdminMode(admin: string): (r: Result<AdminMode, Error>)
    ensures r.Success? <==> admin in {"no_admin", "admin_with_database", "admin_without_database"}
    ensures r.Success? ==> ModeName(r.value) == admin
    ensures r.Failure? ==> r.error == BadAdminMode(admin)
  {
    if admin == "no_admin" then Success(NoAdmin)
    else if admin == "admin_with_database" then Success(AdminWithDatabase)
    else if admin == "admin_without_database" then Success(AdminWithoutDatabase)
    else Failure(BadAdminMode(admin))
  }

  lemma ParseModeName(m: AdminMode)
    ensures ParseAdminMode(ModeName(m)) == Success(m)
  {
  }

  /** The seven configuration fields; empty passwords and admin names read as None. */
  datatype Config = Config(user: string, password: Option<string>, database: string, host: string, port: int,
                           adminUser: Option<string>, adminPassword: Option<string>)

  /** A keyword argument of `connect`. */
  datatype Param = Text(text: string) | Number(n: int) | Null

  function OptText(o: Option<string>): Param {
    if o.Some? then Text(o.value) else Null
  }

  /** The keyword arguments `_open_connection` passes to `connect`: the normal
      user's credentials, or the admin's in both admin modes; the database is
      left out only for admin_without_database. */
  function ConnectArgs(mode: AdminMode, cfg: Config): (args: map<string, Param>)
    ensures args.Keys == {"user", "password", "host", "port"} + (if mode == AdminWithoutDatabase then {} else {"database"})
    ensures args["user"] == if mode == NoAdmin then Text(cfg.user) else OptText(cfg.adminUser)
    ensures args["password"] == if mode == NoAdmin then OptText(cfg.password) else OptText(cfg.adminPassword)
    ensures "database" in args ==> args["database"] == Text(cfg.database)
    ensures args["host"] == Text(cfg.host) && args["port"] == Number(cfg.port)
  {
    var normal := map["user" := Text(cfg.user), "password" := OptText(cfg.password),
                      "database" := Text(cfg.database), "host" := Text(cfg.host), "port" := Number(cfg.port)];
    var withCredentials := if mode != NoAdmin
      then normal["user" := OptText(cfg.adminUser)]["password" := OptText(cfg.adminPassword)]
      else normal;
    if mode == AdminWithoutDatabase then withCredentials - {"database"} else withCredentials
  }

  /** `_check_sql_args`: falsy values and tuples, lists and dicts pass; any
      other truthy value raises TypeError. */
  function CheckSqlArgs(sqlArgs: Value): (r: Outcome<Error>)
    ensures r.Fail? ==> r.error == BadSqlArgs(sqlArgs)
  {
    if Truthy(sqlArgs) && !(sqlArgs.Tuple? || sqlArgs.List? || sqlArgs.Dict?) then Fail(BadSqlArgs(sqlArgs))
    else Pass
  }

  /** Which values the check accepts, shape by shape. */
  lemma CheckSqlArgsAccepts(v: Value)
    ensures (v.NoneValue? || v.List? || v.Tuple? || v.Dict?) ==> CheckSqlArgs(v) == Pass
    ensures v.Str? ==> (CheckSqlArgs(v).Pass? <==> v.s == "")
    ensures v.Int? ==> (CheckSqlArgs(v).Pass? <==> v.i == 0)
    ensures v.Float? ==> (CheckSqlArgs(v).Pass? <==> v.f == 0.0)
    ensures v.Bool? ==> (CheckSqlArgs(v).Pass? <==> !v.b)
    ensures v.Object? ==> (CheckSqlArgs(v).Pass? <==> !v.truthy)
  {
  }

  /** How many leading argument sets of a batch pass the check: the loop at
      lines 433-435 appends exactly these before it raises. */
  function ValidPrefix(batch: seq<Value>): (k: nat)
    ensures k <= |batch|
    ensures forall j :: 0 <= j < k ==> CheckSqlArgs(batch[j]).Pass?
    ensures k < |batch| ==> CheckSqlArgs(batch[k]).Fail?
  {
    if batch == [] || CheckSqlArgs(batch[0]).Fail? then 0 else 1 + ValidPrefix(batch[1..])
  }

  /** The loop stops exactly at the first argument set that fails the check. */
  lemma ValidPrefixAt(batch: seq<Value>, i: nat)
    requires i <= |batch|
    requires forall j :: 0 <= j < i ==> CheckSqlArgs(batch[j]).Pass?
    requires i == |batch| || CheckSqlArgs(batch[i]).Fail?
    ensures ValidPrefix(batch) == i
  {
  }

  /** One queue entry per argument set, in order, all with the same SQL. */
  function EntriesFor(sql: string, batch: seq<Value>): (es: seq<Entry>)
    ensures |es| == |batch| && forall j :: 0 <= j < |batch| ==> es[j] == Entry(sql, batch[j])
  {
    seq(|batch|, j requires 0 <= j < |batch| => Entry(sql, batch[j]))
  }

  lemma EntriesForEmpty(sql: string, batch: seq<Value>)
    ensures EntriesFor(sql, batch[..0]) == []
  {
  }

  /** Appending the entry for one more argument set. */
  lemma EntriesForSnoc(sql: string, batch: seq<Value>, i: nat)
    requires i < |batch|
    ensures forall base: seq<Entry> {:trigger base + EntriesFor(sql, batch[..i + 1])} ::
              base + EntriesFor(sql, batch[..i]) + [Entry(sql, batch[i])] == base + EntriesFor(sql, batch[..i + 1])
  {
    assert EntriesFor(sql, batch[..i + 1]) == EntriesFor(sql, batch[..i]) + [Entry(sql, batch[i])];
  }

  /** The argument sets add_to_queue walks through: the single one given, or,
      when `many` is truthy, whatever iterating over the argument yields. */
  function Batch(sqlArgs: Value, many: Value): Option<seq<Value>> {
    if Truthy(many) then Iterate(sqlArgs) else Some([sqlArgs])
  }

  class ConnectionHandler {
    const admin: AdminMode
    /** The database server behind the connection. */
    const oracle: Oracle
    /** The connection's transaction state. */
    var session: Session
    /** `self.queues`: queue name to its entries, oldest first. */
    var queues: map<string, seq<Entry>>

    ghost predicate Valid()
      reads this
    {
      session.Valid()
    }

    /** A handler on a freshly opened connection to a database whose earlier
        history is `database`; the driver starts in read-committed mode. */
    constructor (admin: AdminMode, database: seq<Statement>, oracle: Oracle)
      ensures Valid() && this.admin == admin && this.oracle == oracle
      ensures session == Session(ReadCommitted, database, []) && queues == map[]
    {
      this.admin := admin;
      this.oracle := oracle;
      session := Session(ReadCommitted, database, []);
      queues := map[];
    }

    /** `SQLConnectionHandler(admin)`: check the mode, build the connection
        arguments, connect. `connect` answers with the driver's error message
        when the connection is refused. */
    static method Open(admin: string, cfg: Config, connect: map<string, Param> -> Option<string>,
                       database: seq<Statement>, oracle: Oracle)
      returns (r: Result<ConnectionHandler, Error>)
      ensures ParseAdminMode(admin).Failure? ==> r == Failure(BadAdminMode(admin))
      ensures ParseAdminMode(admin).Success? && connect(ConnectArgs(ParseAdminMode(admin).value, cfg)).Some? ==>
                r == Failure(CannotConnect(connect(ConnectArgs(ParseAdminMode(admin).value, cfg)).value))
      ensures ParseAdminMode(admin).Success? && connect(ConnectArgs(ParseAdminMode(admin).value, cfg)).None? ==>
                r.Success?
      ensures r.Success? ==> && ParseAdminMode(admin) == Success(r.value.admin)
                             && connect(ConnectArgs(r.value.admin, cfg)).None?
                             && fresh(r.value) && r.value.Valid() && r.value.oracle == oracle
                             && r.value.queues == map[] && r.value.session == Session(ReadCommitted, database, [])
    {
      var mode := ParseAdminMode(admin);
      if mode.Failure? {
        return Failure(mode.error);
      }
      var refused := connect(ConnectArgs(mode.value, cfg));
      if refused.Some? {
        return Failure(CannotConnect(refused.value));
      }
      var handler := new ConnectionHandler(mode.value, database, oracle);
      r := Success(handler);
    }

    /** The `autocommit` property. */
    function GetAutocommit(): bool
      reads this
    {
      session.level == Autocommit
    }

    /** The `autocommit` setter: only a bool is accepted, and it selects
        autocommit or read-committed isolation. */
    method SetAutocommit(value: Value) returns (r: Outcome<Error>)
      requires Valid()
      modifies this
      ensures Valid() && queues == old(queues)
      ensures !value.Bool? ==> r == Fail(NotABoolean(value)) && session == old(session)
      ensures value.Bool? ==> && r == Pass
                              && session == old(session).SwitchLevel(if value.b then Autocommit else ReadCommitted)
                              && GetAutocommit() == value.b
    {
      if !value.Bool? {
        return Fail(NotABoolean(value));
      }
      var level := if value.b then Autocommit else ReadCommitted;
      session := session.SwitchLevel(level);
      r := Pass;
    }

    /** `_check_queue_exists`. */
    method CheckQueueExists(name: string) returns (r: Outcome<Error>)
      ensures r.Pass? <==> name in queues
      ensures r.Fail? ==> r.error == MissingQueue(name)
    {
      if name !in queues {
        return Fail(MissingQueue(name));
      }
      r := Pass;
    }

    /** `create_queue`: register an empty queue under a new name. */
    method CreateQueue(name: string) returns (r: Outcome<Error>)
      requires Valid()
      modifies this
      ensures Valid() && session == old(session)
      ensures name in old(queues) ==> r == Fail(DuplicateQueue(name)) && queues == old(queues)
      ensures name !in old(queues) ==> r == Pass && queues == old(queues)[name := []]
    {
      if name in queues {
        return Fail(DuplicateQueue(name));
      }
      queues := queues[name := []];
      r := Pass;
    }

    /** `list_queues`: the names of the live queues. */
    method ListQueues() returns (names: set<string>)
      ensures names == queues.Keys
    {
      names := queues.Keys;
    }

    /** `add_to_queue`: append one entry per argument set, checking each set
        just before appending it, so an invalid set at position k raises after
        the k sets before it were appended. */
    method AddToQueue(name: string, sql: string, sqlArgs: Value, many: Value) returns (r: Outcome<Error>)
      requires Valid()
      modifies this
      ensures Valid() && session == old(session)
      ensures name !in old(queues) ==> r == Fail(MissingQueue(name)) && queues == old(queues)
      ensures name in old(queues) && Batch(sqlArgs, many).None? ==>
                r == Fail(NotIterable(sqlArgs)) && queues == old(queues)
      ensures name in old(queues) && Batch(sqlArgs, many).Some? ==>
                var batch := Batch(sqlArgs, many).value;
                var k := ValidPrefix(batch);
                && queues == old(queues)[name := old(queues)[name] + EntriesFor(sql, batch[..k])]
                && r == if k < |batch| then Fail(BadSqlArgs(batch[k])) else Pass
    {
      var present := CheckQueueExists(name);
      if present.Fail? {
        return present;
      }
      var batch := Batch(sqlArgs, many);
      if batch.None? {
        return Fail(NotIterable(sqlArgs));
      }
      var argSets := batch.value;
      ghost var base := old(queues)[name];
      var i := 0;
      EntriesForEmpty(sql, argSets);
      assert base + [] == base;
      assert old(queues)[name := base + EntriesFor(sql, argSets[..0])] == old(queues);
      while i < |argSets|
        invariant i <= |argSets|
        invariant forall j :: 0 <= j < i ==> CheckSqlArgs(argSets[j]).Pass?
        invariant queues == old(queues)[name := base + EntriesFor(sql, argSets[..i])]
        invariant session == old(session)
      {
        var check := CheckSqlArgs(argSets[i]);
        if check.Fail? {
          ValidPrefixAt(argSets, i);
          return check;
        }
        EntriesForSnoc(sql, argSets, i);
        queues := queues[name := queues[name] + [Entry(sql, argSets[i])]];
        i := i + 1;
      }
      ValidPrefixAt(argSets, i);
      assert argSets[..i] == argSets;
      r := Pass;
    }

    /** `_rollback_raise_error`: roll back, delete the queue, and give the
        GDExecutionError to raise. */
    method RollbackRaiseError(name: string, stmt: Statement, cause: string) returns (e: Error)
      requires Valid() && name in queues
      modifies this
      ensures Valid()
      ensures session == old(session).Rollback() && queues == old(queues) - {name}
      ensures e == StatementFailed(name, stmt.sql, stmt.args, cause)
    {
      session := session.Rollback();
      queues := queues - {name};
      e := StatementFailed(name, stmt.sql, stmt.args, cause);
    }

    /** `execute_queue`: run every entry of the queue, in order, in one
        transaction. On success commit, delete the queue and return the
        buffer; on a driver failure roll back, delete the queue and raise;
        an exception while resolving placeholders escapes with neither. */
    method ExecuteQueue(name: string) returns (r: Result<seq<Value>, Error>)
      requires Valid()
      modifies this
      ensures Valid() && session.level == old(session).level
      ensures name !in old(queues) ==>
                r == Failure(MissingQueue(name)) && queues == old(queues) && session == old(session)
      ensures name in old(queues) ==>
                Settled(ExecuteSpec(old(queues)[name], oracle, old(session).Visible()), name,
                        old(queues), old(session), r, queues, session)
      // Atomicity: inside a transaction, a queue that does not complete makes
      // none of its statements permanent.
      ensures old(session).level == ReadCommitted && r.Failure? ==> session.committed == old(session).committed
    {
      var present := CheckQueueExists(name);
      if present.Fail? {
        return Failure(present.error);
      }
      var o := RunEntries(queues[name]);
      match o {
        case Completed(_, results) =>
          session := session.Commit();
          queues := queues - {name};
          r := Success(results);
        case RolledBack(executed, _, failed, cause) =>
          var e := RollbackRaiseError(name, failed, cause);
          r := Failure(e);
          AtomicWhenRolledBack(old(session), executed);
        case Uncaught(executed, _, error) =>
          r := Failure(error);
          AtomicWhenUncaught(old(session), executed);
      }
    }

    /** The loop of execute_queue (lines 463-506): for each entry in turn,
        resolve its placeholders, execute it and fetch its rows into the
        buffer, up to the first entry that fails. The statements that executed
        are recorded in the session; what follows the loop (commit, or rollback
        and deletion) is left to ExecuteQueue. */
    method RunEntries(entries: seq<Entry>) returns (o: RunOutcome)
      requires Valid()
      modifies this
      ensures Valid() && queues == old(queues) && session.level == old(session).level
      ensures o == ExecuteSpec(entries, oracle, old(session).Visible())
      ensures session == RecordAll(old(session), o.executed)
    {
      ghost var history := session.Visible();
      var executed: seq<Statement> := [];
      var results: seq<Value> := [];
      var i := 0;
      while i < |entries|
        invariant i <= |entries| && queues == old(queues)
        invariant session == RecordAll(old(session), executed) && session.Valid()
        invariant session.level == old(session).level && session.Visible() == history + executed
        invariant ExecuteSpec(entries, oracle, history) == Run(entries, oracle, history, i, executed, results)
      {
        var prepared := PrepareEntry(entries[i].args, results);
        if prepared.Failure? {
          return Uncaught(executed, i, prepared.error);
        }
        var stmt := Statement(entries[i].sql, prepared.value.0);
        var reply := oracle(session.Visible(), stmt);
        if reply.ExecuteError? {
          return RolledBack(executed, i, stmt, reply.cause);
        }
        session := session.Record(stmt);
        RecordAllAppend(old(session), executed, stmt);
        if reply.fetch.FetchError? {
          return RolledBack(executed + [stmt], i, stmt, reply.fetch.cause);
        }
        assert Run(entries, oracle, history, i, executed, results)
            == Run(entries, oracle, history, i + 1, executed + [stmt], prepared.value.1 + Fetched(reply));
        executed := executed + [stmt];
        results := prepared.value.1;
        if reply.fetch.Rows? {
          results := results + Flatten(reply.fetch.rows);
        } else {
          assert results + Fetched(reply) == results;
        }
        i := i + 1;
      }
      o := Completed(executed, results);
    }
  }

  /** Lines 467-485 of execute_queue: the entry's arguments as a list with
      every placeholder substituted, and the buffer emptied if one was used. */
  method PrepareEntry(sqlArgs: Value, results: seq<Value>) returns (p: Result<(Option<seq<Value>>, seq<Value>), Error>)
    ensures p == Prepare(sqlArgs, results)
  {
    if sqlArgs == NoneValue {
      return Success((None, results));
    }
    var items := Iterate(sqlArgs);
    if items.None? {
      return Failure(NotIterable(sqlArgs));
    }
    var resolved := ResolvePlaceholders(items.value, results);
    if resolved.Failure? {
      return Failure(resolved.error);
    }
    var kept := results;
    if resolved.value.1 {
      kept := [];
    }
    p := Success((Some(resolved.value.0), kept));
  }

  /** The handler's queues and session after execute_queue, given how running
      the queue ended. */
  ghost predicate Settled(o: RunOutcome, name: string, queues0: map<string, seq<Entry>>, session0: Session,
                          r: Result<seq<Value>, Error>, queues: map<string, seq<Entry>>, session: Session)
  {
    match o
    case Completed(executed, results) =>
      && r == Success(results)
      && queues == queues0 - {name}
      && session == RecordAll(session0, executed).Commit()
    case RolledBack(executed, _, failed, cause) =>
      && r == Failure(StatementFailed(name, failed.sql, failed.args, cause))
      && queues == queues0 - {name}
      && session == RecordAll(session0, executed).Rollback()
    case Uncaught(executed, _, error) =>
      && r == Failure(error)
      && queues == queues0
      && session == RecordAll(session0, executed)
  }

  lemma AtomicWhenRolledBack(s: Session, xs: seq<Statement>)
    requires s.Valid()
    ensures s.level == ReadCommitted ==> RecordAll(s, xs).Rollback().committed == s.committed
    ensures RecordAll(s, xs).Rollback().Valid() && RecordAll(s, xs).Rollback().level == s.level
  {
    RecordAllVisible(s, xs);
    if s.level == ReadCommitted {
      RecordAllInTransaction(s, xs);
    }
  }

  lemma AtomicWhenUncaught(s: Session, xs: seq<Statement>)
    requires s.Valid()
    ensures s.level == ReadCommitted ==> RecordAll(s, xs).committed == s.committed
  {
    if s.level == ReadCommitted {
      RecordAllInTransaction(s, xs);
    }
  }
}
