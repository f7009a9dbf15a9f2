/**
 * The few Python semantics the queue engine relies on: the shapes of the values
 * a caller passes as SQL arguments, their truthiness, what `list(x)` makes of
 * them, Python's sequence indexing with negative indices, and `int(text)`.
 */
module Python {
  import opened Results

  /** A Python value, as far as the connection handler inspects it. */
  datatype Value =
    | NoneValue
    | Bool(b: bool)
    | Int(i: int)
    | Float(f: real)
    | Str(s: string)
    | List(items: seq<Value>)
    | Tuple(items: seq<Value>)
    | Dict(entries: seq<(Value, Value)>)  // in iteration order
      /** An object of any other class: its class name, its truthiness and what
          iterating over it yields (None when it is not iterable). */
    | Object(typeName: string, truthy: bool, iteration: Option<seq<Value>>)

  /** Python's `bool(v)`. */
  predicate Truthy(v: Value) {
    match v
    case NoneValue => false
    case Bool(b) => b
    case Int(i) => i != 0
    case Float(f) => f != 0.0
    case Str(s) => s != []
    case List(items) => items != []
    case Tuple(items) => items != []
    case Dict(entries) => entries != []
    case Object(_, truthy, _) => truthy
  }

  /** `list(v)`: the elements that iterating over `v` yields, in order, or None
      where Python raises TypeError ("object is not iterable"). A dict yields its
      keys and a string its one-character strings. */
  function Iterate(v: Value): Option<seq<Value>> {
    match v
    case List(items) => Some(items)
    case Tuple(items) => Some(items)
    case Dict(entries) => Some(seq(|entries|, i requires 0 <= i < |entries| => entries[i].0))
    case Str(s) => Some(seq(|s|, i requires 0 <= i < |s| => Str([s[i]])))
    case Object(_, _, iteration) => iteration
    case _ => None
  }

  /** The position that `xs[k]` reads in a sequence of length `n`, or None where
      Python raises IndexError: a negative `k` counts from the end. */
  function PyIndex(k: int, n: nat): (r: Option<nat>)
    ensures r.Some? <==> -(n as int) <= k < n
    ensures r.Some? ==> r.value < n && (r.value == k || r.value == n + k)
  {
    if 0 <= k < n then Some(k)
    else if -(n as int) <= k < 0 then Some(n + k)
    else None
  }

  lemma PyIndexLast(n: nat)
    requires n > 0
    ensures PyIndex(-1, n) == Some(n - 1)
  {
  }

  /** The white space Python 2.7's `int()` skips: C's `isspace` in the C
      locale, i.e. space, tab, newline, vertical tab, form feed and carriage
      return. */
  predicate IsSpace(c: char) {
    c == ' ' || 9 <= c as int <= 13
  }

  predicate IsDigit(c: char) {
    '0' <= c <= '9'
  }

  /** Every character an ASCII digit (read from the end, as `DigitsValue`
      consumes it). */
  predicate AllDigits(s: string)
    decreases |s|
  {
    s == [] || (IsDigit(s[|s| - 1]) && AllDigits(s[..|s| - 1]))
  }

  lemma {:induction false} AllDigitsEach(s: string)
    requires AllDigits(s)
    ensures forall i :: 0 <= i < |s| ==> IsDigit(s[i])
    decreases |s|
  {
    if s != [] {
      AllDigitsEach(s[..|s| - 1]);
      assert forall i :: 0 <= i < |s| - 1 ==> s[i] == s[..|s| - 1][i];
    }
  }

  /** The digit strings `int()` accepts in base 10: one or more ASCII digits. */
  predicate IsDigitRun(s: string) {
    |s| > 0 && AllDigits(s)
  }

  /** The number an all-digit string denotes in base 10. */
  function DigitsValue(s: string): nat
    requires AllDigits(s)
    decreases |s|
  {
    if s == [] then 0 else DigitsValue(s[..|s| - 1]) * 10 + (s[|s| - 1] as int - '0' as int)
  }

  /** After the sign: blanks, then a digit run, which ends the text. */
  function UnsignedValue(d: string): (r: Option<nat>)
    ensures r.Some? ==> |d| > 0 && IsDigit(d[|d| - 1])
    decreases |d|
  {
    if d != [] && IsSpace(d[0]) then UnsignedValue(d[1..])
    else if IsDigitRun(d) then Some(DigitsValue(d))
    else None
  }

  /** The value of an optional sign followed by blanks and a digit run, or None. */
  function SignedValue(t: string): (r: Option<int>)
    ensures r.Some? ==> |t| > 0 && IsDigit(t[|t| - 1])
  {
    if |t| > 0 && (t[0] == '+' || t[0] == '-') then
      match UnsignedValue(t[1..])
      case None => None
      case Some(m) =>
        assert t[1..][|t| - 2] == t[|t| - 1];
        Some(if t[0] == '-' then -(m as int) else m)
    else if IsDigitRun(t) then Some(DigitsValue(t))
    else None
  }

  /** Python 2.7's `int(text)` for a `str` in base 10, or None where it raises
      ValueError: white space is skipped at both ends and between the sign and
      the digits. The exact value is returned; a value too large for a C long
      becomes a Python `long` with the same value. */
  function ParseInt(text: string): (r: Option<int>)
    ensures (forall i :: 0 <= i < |text| ==> !IsDigit(text[i])) ==> r.None?
    decreases |text|
  {
    if text != [] && IsSpace(text[0]) then
      ParseInt(text[1..])
    else if text != [] && IsSpace(text[|text| - 1]) then
      ParseInt(text[..|text| - 1])
    else
      SignedValue(text)
  }

  /** How Python 2.7's `int()` differs from the Python 3 rules: a blank after
      the sign is allowed, an underscore is not, and only the six C-locale
      white-space characters are skipped. */
  lemma ParseIntPython2()
    ensures ParseInt("- 1") == Some(-1)
    ensures ParseInt(" +\t7\n") == Some(7)
    ensures ParseInt("1_0") == None
    ensures ParseInt("\U{1C}0") == None
    ensures ParseInt("-") == None
    ensures ParseInt("1 2") == None
  {
    assert "- 1"[1..] == " 1" && " 1"[1..] == "1";
    assert " +\t7\n"[1..] == "+\t7\n" && "+\t7\n"[..3] == "+\t7";
    assert "+\t7"[1..] == "\t7" && "\t7"[1..] == "7";
    assert "1_0"[..2] == "1_";
    assert "1 2"[..2] == "1 ";
  }

  function DigitChar(d: nat): (c: char)
    requires d < 10
    ensures IsDigit(c) && c as int - '0' as int == d
  {
    ('0' as int + d) as char
  }

  /** `str(n)` for a non-negative integer: its decimal digits. */
  function ShowNat(n: nat): (r: string)
    ensures |r| > 0 && forall i :: 0 <= i < |r| ==> IsDigit(r[i])
  {
    if n < 10 then [DigitChar(n)] else ShowNat(n / 10) + [DigitChar(n % 10)]
  }

  /** `str(k)` for any integer. */
  function ShowInt(k: int): string {
    if k < 0 then "-" + ShowNat(-k) else ShowNat(k)
  }

  /** `str(n)` is a digit run denoting `n`. */
  lemma {:induction false} ShowNatIsDigitRun(n: nat)
    ensures IsDigitRun(ShowNat(n))
    ensures DigitsValue(ShowNat(n)) == n
  {
    var s := ShowNat(n);
    if n >= 10 {
      assert s[..|s| - 1] == ShowNat(n / 10);
      ShowNatIsDigitRun(n / 10);
    }
  }

  /** `int()` of a minus sign followed by a digit run. */
  lemma ParseNegativeRun(digits: string)
    requires IsDigitRun(digits)
    ensures ParseInt("-" + digits) == Some(-(DigitsValue(digits) as int))
  {
    var s := "-" + digits;
    AllDigitsEach(digits);
    assert s[1..] == digits && !IsSpace(digits[0]);
    assert s[0] == '-' && s[|s| - 1] == digits[|digits| - 1];
  }

  lemma ParseShowNat(n: nat)
    ensures ParseInt(ShowNat(n)) == Some(n)
  {
    ShowNatIsDigitRun(n);
    assert !IsSpace(ShowNat(n)[0]) && !IsSpace(ShowNat(n)[|ShowNat(n)| - 1]);
  }

  /** `int(str(k)) == k`: every integer written in decimal parses back to itself,
      negative ones included. */
  lemma ParseShowInt(k: int)
    ensures ParseInt(ShowInt(k)) == Some(k)
  {
    if k < 0 {
      var n: nat := -k;
      ShowNatIsDigitRun(n);
      ParseNegativeRun(ShowNat(n));
      assert ShowInt(k) == "-" + ShowNat(n);
    } else {
      ParseShowNat(k);
    }
  }
}
