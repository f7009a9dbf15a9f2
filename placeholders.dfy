/**
 * Placeholder substitution in execute_queue (gd/sql_connection.py, lines
 * 466-485) and the flattening of fetched rows (lines 96-98, 506). A string
 * argument that starts with `{` and ends with `}` is a placeholder: the text
 * between the braces goes through `int()` and the result picks an element of
 * the result buffer with Python indexing, so `{-1}` is the last element.
 */
module Placeholders {
  import opened Results
  import opened Python
  import opened Exceptions

  /** `chain.from_iterable(rows)`: the rows' values in row-major order. */
  function Flatten(rows: seq<seq<Value>>): seq<Value> {
    if rows == [] then [] else rows[0] + Flatten(rows[1..])
  }

  lemma {:induction false} FlattenAppend(a: seq<seq<Value>>, b: seq<seq<Value>>)
    ensures Flatten(a + b) == Flatten(a) + Flatten(b)
    decreases |a|
  {
    if a == [] {
      assert a + b == b;
    } else {
      assert (a + b)[1..] == a[1..] + b;
      FlattenAppend(a[1..], b);
    }
  }

  /** Row-major order: value `j` of row `i` sits right after all values of the
      rows before row `i`. */
  lemma FlattenRowMajor(rows: seq<seq<Value>>, i: nat, j: nat)
    requires i < |rows| && j < |rows[i]|
    ensures |Flatten(rows[..i])| + j < |Flatten(rows)|
    ensures Flatten(rows)[|Flatten(rows[..i])| + j] == rows[i][j]
  {
    assert rows == rows[..i] + [rows[i]] + rows[i + 1..];
    FlattenAppend(rows[..i] + [rows[i]], rows[i + 1..]);
    FlattenAppend(rows[..i], [rows[i]]);
    assert Flatten([rows[i]]) == rows[i] + Flatten([]);
  }

  /** The test at line 472-473: a string whose first character is `{` and whose
      last is `}`. */
  predicate IsPlaceholderToken(v: Value) {
    v.Str? && |v.s| > 0 && v.s[0] == '{' && v.s[|v.s| - 1] == '}'
  }

  /** The argument as it is passed to `execute`, and whether it was a
      placeholder; or the exception raised while looking at it. */
  function ResolveArg(arg: Value, results: seq<Value>): (r: Result<(Value, bool), Error>)
    ensures r.Success? ==> (r.value.1 <==> IsPlaceholderToken(arg))
    ensures r.Success? && !r.value.1 ==> r.value.0 == arg
    ensures r.Success? && r.value.1 ==> r.value.0 in results
    ensures r.Failure? ==> arg == Str([]) || IsPlaceholderToken(arg)
  {
    match arg
    case Str(s) =>
      if |s| == 0 then Failure(EmptyStringIndex)
      else if s[0] == '{' && s[|s| - 1] == '}' then
        var inner := s[1..|s| - 1];
        match ParseInt(inner)
        case None => Failure(BadIntLiteral(inner))
        case Some(k) =>
          match PyIndex(k, |results|)
          case None => Failure(MissingPlaceholderResult(k))
          case Some(j) => Success((results[j], true))
      else Success((arg, false))
    case _ => Success((arg, false))
  }

  /** The placeholder `{k}` picks `results[k]`, counting from the end when `k`
      is negative. */
  lemma PlaceholderPicks(k: int, results: seq<Value>)
    requires -|results| <= k < |results|
    ensures ResolveArg(Str("{" + ShowInt(k) + "}"), results)
            == Success((results[if k >= 0 then k else |results| + k], true))
  {
    var s := "{" + ShowInt(k) + "}";
    assert s[1..|s| - 1] == ShowInt(k);
    ParseShowInt(k);
  }

  /** A placeholder whose index lies outside the buffer raises GDExecutionError. */
  lemma PlaceholderOutOfRange(k: int, results: seq<Value>)
    requires k < -|results| || |results| <= k
    ensures ResolveArg(Str("{" + ShowInt(k) + "}"), results) == Failure(MissingPlaceholderResult(k))
  {
    var s := "{" + ShowInt(k) + "}";
    assert s[1..|s| - 1] == ShowInt(k);
    ParseShowInt(k);
  }

  /** `{}` and `{x}` raise ValueError from `int()`; an empty string raises
      IndexError; other strings pass through. */
  lemma MalformedArguments(results: seq<Value>)
    ensures ResolveArg(Str("{}"), results) == Failure(BadIntLiteral(""))
    ensures ResolveArg(Str("{x}"), results) == Failure(BadIntLiteral("x"))
    ensures ResolveArg(Str(""), results) == Failure(EmptyStringIndex)
    ensures ResolveArg(Str("{0"), results) == Success((Str("{0"), false))
  {
    assert "{x}"[1..2] == "x";
    assert "{}"[1..1] == "";
  }

  /** The loop of lines 470-481 over one statement's arguments: every argument
      resolved against the same buffer, left to right, stopping at the first
      exception; the flag says whether any placeholder was replaced. */
  function ResolveArgs(args: seq<Value>, results: seq<Value>): (r: Result<(seq<Value>, bool), Error>)
    decreases |args|
  {
    if args == [] then Success(([], false))
    else
      match ResolveArgs(args[..|args| - 1], results)
      case Failure(e) => Failure(e)
      case Success((vs, used)) =>
        match ResolveArg(args[|args| - 1], results)
        case Failure(e) => Failure(e)
        case Success((v, u)) => Success((vs + [v], used || u))
  }

  /** On success every argument is resolved on its own, against the same
      buffer, and keeps its position. */
  lemma {:induction false} ResolveArgsElementwise(args: seq<Value>, results: seq<Value>)
    requires ResolveArgs(args, results).Success?
    ensures |ResolveArgs(args, results).value.0| == |args|
    ensures forall i :: 0 <= i < |args| ==>
              ResolveArg(args[i], results) == Success((ResolveArgs(args, results).value.0[i], IsPlaceholderToken(args[i])))
    decreases |args|
  {
    if args != [] {
      var init := args[..|args| - 1];
      ResolveArgsElementwise(init, results);
      assert forall i :: 0 <= i < |init| ==> init[i] == args[i];
    }
  }

  /** On success the flag tells whether any argument was a placeholder. */
  lemma {:induction false} ResolveArgsFlag(args: seq<Value>, results: seq<Value>)
    requires ResolveArgs(args, results).Success?
    ensures ResolveArgs(args, results).value.1 <==> exists i :: 0 <= i < |args| && IsPlaceholderToken(args[i])
    decreases |args|
  {
    if args != [] {
      var init := args[..|args| - 1];
      var last := args[|args| - 1];
      ResolveArgsFlag(init, results);
      assert ResolveArgs(args, results).value.1
          == (ResolveArgs(init, results).value.1 || ResolveArg(last, results).value.1);
      if ResolveArg(last, results).value.1 {
        assert IsPlaceholderToken(args[|args| - 1]);
      } else if ResolveArgs(init, results).value.1 {
        var i :| 0 <= i < |init| && IsPlaceholderToken(init[i]);
        assert args[i] == init[i];
      } else {
        forall i | 0 <= i < |args|
          ensures !IsPlaceholderToken(args[i])
        {
          if i < |init| {
            assert args[i] == init[i];
          }
        }
      }
    }
  }

  /** On failure the exception is that of the first argument that raises. */
  lemma {:induction false} ResolveArgsFirstError(args: seq<Value>, results: seq<Value>)
    requires ResolveArgs(args, results).Failure?
    ensures exists i :: 0 <= i < |args| && ResolveArg(args[i], results) == Failure(ResolveArgs(args, results).error)
              && forall j :: 0 <= j < i ==> ResolveArg(args[j], results).Success?
    decreases |args|
  {
    var init := args[..|args| - 1];
    assert forall i :: 0 <= i < |init| ==> init[i] == args[i];
    if ResolveArgs(init, results).Failure? {
      ResolveArgsFirstError(init, results);
    } else {
      ResolveArgsElementwise(init, results);
    }
  }

  /** A statement's arguments resolve exactly when each one does. */
  lemma ResolveArgsSucceeds(args: seq<Value>, results: seq<Value>)
    ensures ResolveArgs(args, results).Success? <==>
            forall i :: 0 <= i < |args| ==> ResolveArg(args[i], results).Success?
  {
    if ResolveArgs(args, results).Success? {
      ResolveArgsElementwise(args, results);
    } else {
      ResolveArgsFirstError(args, results);
    }
  }

  /** Lines 466-485 for one queued entry: the arguments `execute` receives (None
      stays None; anything else goes through `list()` and substitution), and
      the result buffer once the substitution is done, emptied when any
      placeholder was used. */
  function Prepare(sqlArgs: Value, results: seq<Value>): (r: Result<(Option<seq<Value>>, seq<Value>), Error>)
    ensures sqlArgs == NoneValue ==> r == Success((None, results))
    ensures sqlArgs != NoneValue && Iterate(sqlArgs).None? ==> r == Failure(NotIterable(sqlArgs))
    ensures sqlArgs != NoneValue && Iterate(sqlArgs).Some? ==>
              var resolved := ResolveArgs(Iterate(sqlArgs).value, results);
              && (r.Success? <==> resolved.Success?)
              && (r.Failure? ==> r.error == resolved.error)
              && (r.Success? ==> r.value.0 == Some(resolved.value.0)
                                 && r.value.1 == if Consumes(sqlArgs) then [] else results)
  {
    if sqlArgs == NoneValue then Success((None, results))
    else match Iterate(sqlArgs)
      case None => Failure(NotIterable(sqlArgs))
      case Some(items) =>
        match ResolveArgs(items, results)
        case Failure(e) => Failure(e)
        case Success((resolved, clearRes)) =>
          ResolveArgsFlag(items, results);
          Success((Some(resolved), if clearRes then [] else results))
  }

  /** The exceptions preparing an entry's arguments can raise, none of which
      the loop of lines 463-506 catches: TypeError from `list()`, ValueError
      from `int()`, IndexError from `arg[0]`, and GDExecutionError for a
      placeholder with no buffer element. */
  lemma PrepareRaises(sqlArgs: Value, results: seq<Value>)
    requires Prepare(sqlArgs, results).Failure?
    ensures var e := Prepare(sqlArgs, results).error;
      || (e.NotIterable? && PythonClass(e) == "TypeError")
      || (e.BadIntLiteral? && PythonClass(e) == "ValueError")
      || (e.EmptyStringIndex? && PythonClass(e) == "IndexError")
      || (e.MissingPlaceholderResult? && PythonClass(e) == "GDExecutionError")
  {
    if sqlArgs != NoneValue && Iterate(sqlArgs).Some? {
      var items := Iterate(sqlArgs).value;
      ResolveArgsFirstError(items, results);
      var i :| 0 <= i < |items| && ResolveArg(items[i], results) == Failure(ResolveArgs(items, results).error);
      ResolveArgRaises(items[i], results);
    }
  }

  /** One argument raises ValueError from `int()`, IndexError from `arg[0]`,
      or GDExecutionError for a missing buffer element. */
  lemma ResolveArgRaises(arg: Value, results: seq<Value>)
    requires ResolveArg(arg, results).Failure?
    ensures var e := ResolveArg(arg, results).error;
      || (e.BadIntLiteral? && PythonClass(e) == "ValueError")
      || (e.EmptyStringIndex? && PythonClass(e) == "IndexError")
      || (e.MissingPlaceholderResult? && PythonClass(e) == "GDExecutionError")
  {
  }

  /** Whether a queued argument set holds a placeholder, so that running its
      statement empties the result buffer. */
  predicate Consumes(sqlArgs: Value) {
    && sqlArgs != NoneValue
    && Iterate(sqlArgs).Some?
    && exists i :: 0 <= i < |Iterate(sqlArgs).value| && IsPlaceholderToken(Iterate(sqlArgs).value[i])
  }

  /** Resolving one more argument extends the resolved prefix. */
  lemma ResolveArgsStep(args: seq<Value>, results: seq<Value>, pos: nat)
    requires pos < |args|
    requires ResolveArgs(args[..pos], results).Success? && ResolveArg(args[pos], results).Success?
    ensures ResolveArgs(args[..pos + 1], results)
            == Success((ResolveArgs(args[..pos], results).value.0 + [ResolveArg(args[pos], results).value.0],
                        ResolveArgs(args[..pos], results).value.1 || ResolveArg(args[pos], results).value.1))
  {
    assert args[..pos + 1][..pos] == args[..pos];
  }

  /** Once a prefix of the arguments raises, the whole list raises the same. */
  lemma {:induction false} ResolveArgsPrefixFails(args: seq<Value>, results: seq<Value>, n: nat)
    requires n <= |args| && ResolveArgs(args[..n], results).Failure?
    ensures ResolveArgs(args, results) == ResolveArgs(args[..n], results)
    decreases |args|
  {
    if n < |args| {
      var init := args[..|args| - 1];
      assert init[..n] == args[..n];
      ResolveArgsPrefixFails(init, results, n);
    } else {
      assert args[..n] == args;
    }
  }

  /** The first argument that raises decides the exception for the whole list. */
  lemma ResolveArgsFailsAt(args: seq<Value>, results: seq<Value>, pos: nat)
    requires pos < |args|
    requires ResolveArgs(args[..pos], results).Success? && ResolveArg(args[pos], results).Failure?
    ensures ResolveArgs(args, results) == Failure(ResolveArg(args[pos], results).error)
  {
    assert args[..pos + 1][..pos] == args[..pos];
    ResolveArgsPrefixFails(args, results, pos + 1);
  }

  /** One pass of the substitution loop: writing the resolved value at `pos`
      extends the resolved prefix. */
  lemma ResolvedPrefixGrows(args: seq<Value>, results: seq<Value>, sqlArgs: seq<Value>, pos: nat)
    requires pos < |args| == |sqlArgs| && sqlArgs[pos] == args[pos]
    requires ResolveArgs(args[..pos], results).Success? && ResolveArgs(args[..pos], results).value.0 == sqlArgs[..pos]
    requires ResolveArg(args[pos], results).Success?
    ensures var v := ResolveArg(args[pos], results).value.0;
            && ResolveArgs(args[..pos + 1], results).Success?
            && ResolveArgs(args[..pos + 1], results).value.0 == sqlArgs[pos := v][..pos + 1]
            && ResolveArgs(args[..pos + 1], results).value.1
               == (ResolveArgs(args[..pos], results).value.1 || ResolveArg(args[pos], results).value.1)
  {
    var v := ResolveArg(args[pos], results).value.0;
    ResolveArgsStep(args, results, pos);
    assert sqlArgs[pos := v][..pos + 1] == sqlArgs[..pos] + [v];
  }

  /** The substitution loop of lines 470-481, as the handler runs it: it
      replaces each placeholder in the argument list in place and sets the
      clear flag, and stops at the first exception. */
  method ResolvePlaceholders(args: seq<Value>, results: seq<Value>) returns (r: Result<(seq<Value>, bool), Error>)
    ensures r == ResolveArgs(args, results)
  {
    var sqlArgs := args;
    var clearRes := false;
    var pos := 0;
    while pos < |sqlArgs|
      invariant 0 <= pos <= |sqlArgs| == |args|
      invariant forall k :: pos <= k < |args| ==> sqlArgs[k] == args[k]
      invariant ResolveArgs(args[..pos], results) == Success((sqlArgs[..pos], clearRes))
    {
      var resolved := ResolveArg(sqlArgs[pos], results);
      if resolved.Failure? {
        r := Failure(resolved.error);
        ResolveArgsFailsAt(args, results, pos);
        return;
      }
      ghost var before := sqlArgs;
      var v := resolved.value.0;
      if resolved.value.1 {
        sqlArgs := sqlArgs[pos := v];
        clearRes := true;
      }
      assert sqlArgs == before[pos := v];
      ResolvedPrefixGrows(args, results, before, pos);
      pos := pos + 1;
    }
    assert args[..pos] == args && sqlArgs[..pos] == sqlArgs;
    r := Success((sqlArgs, clearRes));
  }
}
