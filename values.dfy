/**
 * Values shared by every view: the JSON-compatible property values that the
 * graph store keeps in a node's property bag, Python's truthiness and `or`
 * on them, and the few string operations the views apply to form input
 * (`lower`, `upper`, `strip`, `isdigit`, `int`). Characters are treated as
 * ASCII; see README.md for what that leaves out.
 */
module Values {

  datatype Option<+T> = None | Some(value: T)

  datatype Result<+T, +E> = Ok(value: T) | Err(error: E)

  /** A property value. A float keeps the decimal text it was written as. */
  datatype Value =
    | Null
    | Bool(b: bool)
    | Int(i: int)
    | Float(text: string)
    | Str(s: string)
    | List(items: seq<Value>)
    | Dict(entries: map<string, Value>)

  /** A node's `custom_properties`: property name to value. */
  type PropertyBag = map<string, Value>

  /** Python's truth value of a property value. */
  predicate Truthy(v: Value)
  {
    match v
    case Null => false
    case Bool(b) => b
    case Int(i) => i != 0
    case Float(t) => exists k :: 0 <= k < |t| && '1' <= t[k] <= '9'
    case Str(s) => s != ""
    case List(items) => items != []
    case Dict(m) => |m| != 0
  }

  /** Python's `v or fallback`. */
  function Or(v: Value, fallback: Value): Value {
    if Truthy(v) then v else fallback
  }

  /**
   * None, False, zero and the empty text and containers are false; `or`
   * gives its left operand when that is true and its fallback otherwise, so
   * a true fallback makes the result true.
   */
  lemma Truthiness(v: Value, fallback: Value)
    ensures v == Null || v == Bool(false) || v == Int(0) || v == Str("") || v == List([]) || v == Dict(map[]) ==> !Truthy(v)
    ensures Truthy(v) ==> Or(v, fallback) == v
    ensures !Truthy(v) ==> Or(v, fallback) == fallback
    ensures Truthy(fallback) ==> Truthy(Or(v, fallback))
  {
  }

  /** Python's `bag.get(key, default)`. */
  function Get(bag: PropertyBag, key: string, default: Value): Value {
    if key in bag then bag[key] else default
  }

  /** Python's `type(v).__name__`. */
  function TypeName(v: Value): string {
    match v
    case Null => "NoneType"
    case Bool(_) => "bool"
    case Int(_) => "int"
    case Float(_) => "float"
    case Str(_) => "str"
    case List(_) => "list"
    case Dict(_) => "dict"
  }

  // ---------------------------------------------------------------------
  // Characters and strings

  predicate IsDigit(c: char) {
    '0' <= c <= '9'
  }

  /** Python's `str.isdigit()`: non-empty and every character a digit. */
  predicate AllDigits(s: string) {
    |s| > 0 && forall k :: 0 <= k < |s| ==> IsDigit(s[k])
  }

  /** The characters Python's `str.strip()` removes (the ASCII ones). */
  predicate IsSpace(c: char) {
    c == ' ' || (9 <= c as int <= 13) || (28 <= c as int <= 31)
  }

  /** `s` without its leading blanks. */
  function TrimStart(s: string): (r: string)
    ensures |r| <= |s|
    ensures r != [] ==> !IsSpace(r[0])
  {
    if s != [] && IsSpace(s[0]) then TrimStart(s[1..]) else s
  }

  /** `s` without its trailing blanks. */
  function TrimEnd(s: string): (r: string)
    ensures |r| <= |s|
    ensures r != [] ==> !IsSpace(r[|r| - 1]) && r[0] == s[0]
  {
    if s != [] && IsSpace(s[|s| - 1]) then TrimEnd(s[..|s| - 1]) else s
  }

  /** Python's `str.strip()`: the result neither starts nor ends with a blank. */
  function Strip(s: string): (r: string)
    ensures |r| <= |s|
    ensures r != [] ==> !IsSpace(r[0]) && !IsSpace(r[|r| - 1])
  {
    TrimEnd(TrimStart(s))
  }

  function LowerChar(c: char): char {
    if 'A' <= c <= 'Z' then (c as int + 32) as char else c
  }

  function UpperChar(c: char): char {
    if 'a' <= c <= 'z' then (c as int - 32) as char else c
  }

  /** Python's `str.lower()`: no upper-case letter is left. */
  function Lower(s: string): (r: string)
    ensures |r| == |s|
    ensures forall k :: 0 <= k < |r| ==> !('A' <= r[k] <= 'Z')
  {
    seq(|s|, k requires 0 <= k < |s| => LowerChar(s[k]))
  }

  /** Python's `str.upper()`: no lower-case letter is left. */
  function Upper(s: string): (r: string)
    ensures |r| == |s|
    ensures forall k :: 0 <= k < |r| ==> !('a' <= r[k] <= 'z')
  {
    seq(|s|, k requires 0 <= k < |s| => UpperChar(s[k]))
  }

  /** Python's `s.replace(c, '', 1)`: drops the first occurrence of `c`. */
  function RemoveFirst(s: string, c: char): (r: string)
    ensures c in s ==> |r| == |s| - 1
    ensures c !in s ==> r == s
  {
    if s == [] then []
    else if s[0] == c then s[1..]
    else [s[0]] + RemoveFirst(s[1..], c)
  }

  /** Removing the first `c` keeps every other character and adds none. */
  lemma {:induction false} RemoveFirstChars(s: string, c: char)
    ensures forall x :: x in RemoveFirst(s, c) ==> x in s
    ensures forall x :: x in s && x != c ==> x in RemoveFirst(s, c)
  {
    if s != [] && s[0] != c {
      RemoveFirstChars(s[1..], c);
      assert s == [s[0]] + s[1..];
    } else if s != [] {
      assert s == [s[0]] + s[1..];
    }
  }

  /** Text without blanks is left as it is by `strip()`. */
  lemma StripNoBlanks(s: string)
    requires forall k :: 0 <= k < |s| ==> !IsSpace(s[k])
    ensures Strip(s) == s
  {
  }

  function DigitOf(c: char): nat
    requires IsDigit(c)
  {
    c as int - '0' as int
  }

  /** The value of a string of decimal digits (empty is 0). */
  function DigitsValue(s: string): nat
    requires forall k :: 0 <= k < |s| ==> IsDigit(s[k])
  {
    if s == [] then 0
    else DigitsValue(s[..|s| - 1]) * 10 + DigitOf(s[|s| - 1])
  }

  /** The decimal text of a natural number, without leading zeros. */
  function DecimalText(n: nat): string {
    if n < 10 then [('0' as int + n) as char]
    else DecimalText(n / 10) + [('0' as int + n % 10) as char]
  }

  /** The decimal text of an integer, with a leading '-' when negative. */
  function IntText(n: int): string {
    if n < 0 then "-" + DecimalText(-n) else DecimalText(n)
  }

  /** Every character is a digit or an underscore. */
  predicate DigitsOrUnderscores(s: string) {
    forall k :: 0 <= k < |s| ==> IsDigit(s[k]) || s[k] == '_'
  }

  /**
   * The digit part `int()` accepts: digits, where a single underscore may
   * stand between two digits ("1_000"), but not first, last or doubled.
   */
  predicate IntDigits(s: string) {
    && |s| > 0
    && DigitsOrUnderscores(s)
    && forall k :: 0 <= k < |s| && s[k] == '_' ==> 0 < k < |s| - 1 && IsDigit(s[k - 1]) && IsDigit(s[k + 1])
  }

  /** `s` with its underscores dropped. */
  function Ungroup(s: string): (r: string)
    ensures '_' !in s ==> r == s
    ensures DigitsOrUnderscores(s) ==> forall k :: 0 <= k < |r| ==> IsDigit(r[k])
  {
    if s == [] then []
    else (if s[0] == '_' then [] else [s[0]]) + Ungroup(s[1..])
  }

  /**
   * Python's `int(s)` on text: optional surrounding blanks, an optional
   * sign, then digits possibly grouped by single underscores. Any accepted
   * text ends in a digit, and a negative result needs a leading '-'.
   */
  function PythonInt(s: string): (r: Option<int>)
    ensures r.Some? ==> |Strip(s)| > 0 && IsDigit(Strip(s)[|Strip(s)| - 1])
    ensures r.Some? && r.value < 0 ==> Strip(s)[0] == '-'
  {
    var t := Strip(s);
    if |t| > 0 && (t[0] == '-' || t[0] == '+') then
      if IntDigits(t[1..]) then
        var n := DigitsValue(Ungroup(t[1..]));
        Some(if t[0] == '-' then -(n as int) else n)
      else None
    else if IntDigits(t) then Some(DigitsValue(Ungroup(t)))
    else None
  }

  /** Plain digit text is valid `int()` digit text with nothing to drop. */
  lemma PlainDigits(d: string)
    requires AllDigits(d)
    ensures IntDigits(d) && Ungroup(d) == d
  {
    assert forall k :: 0 <= k < |d| ==> d[k] != '_';
  }

  /** `int()` on unsigned digit text without blanks. */
  lemma PythonIntUnsigned(t: string)
    requires Strip(t) == t && IntDigits(t)
    ensures PythonInt(t) == Some(DigitsValue(Ungroup(t)) as int)
  {
    assert IsDigit(t[0]);
  }

  /** `int()` on a '-' followed by digit text, without blanks. */
  lemma PythonIntNegative(t: string)
    requires Strip(t) == t && |t| > 0 && t[0] == '-' && IntDigits(t[1..])
    ensures PythonInt(t) == Some(-(DigitsValue(Ungroup(t[1..])) as int))
  {
  }

  /** Dropping underscores works piece by piece. */
  lemma {:induction false} UngroupAppend(a: string, b: string)
    ensures Ungroup(a + b) == Ungroup(a) + Ungroup(b)
  {
    if a != [] {
      assert (a + b)[0] == a[0] && (a + b)[1..] == a[1..] + b;
      UngroupAppend(a[1..], b);
      var head := if a[0] == '_' then [] else [a[0]];
      assert Ungroup(a + b) == head + Ungroup(a[1..] + b);
      assert Ungroup(a) == head + Ungroup(a[1..]);
    } else {
      assert a + b == b;
    }
  }

  /** The longest prefix of `s` made of digits. */
  function LeadingDigits(s: string): (r: string)
    ensures forall k :: 0 <= k < |r| ==> IsDigit(r[k])
  {
    if s != [] && IsDigit(s[0]) then [s[0]] + LeadingDigits(s[1..]) else []
  }

  /** Python's `int(f)` for a float written as decimal text: truncation toward zero. */
  function FloatToInt(t: string): int {
    if |t| > 0 && t[0] == '-' then -(DigitsValue(LeadingDigits(t[1..])) as int)
    else DigitsValue(LeadingDigits(t))
  }

  /** Decimal text is digits only, and reading it back gives the number. */
  lemma {:induction false} DecimalTextRoundTrip(n: nat)
    ensures AllDigits(DecimalText(n))
    ensures DigitsValue(DecimalText(n)) == n
  {
    if n >= 10 {
      DecimalTextRoundTrip(n / 10);
      var t := DecimalText(n);
      assert t[..|t| - 1] == DecimalText(n / 10);
    }
  }

  /** `int()` reads back the decimal text of every integer. */
  lemma PythonIntRoundTrip(n: int)
    ensures PythonInt(IntText(n)) == Some(n)
  {
    var m: nat := if n < 0 then -n else n;
    var d := DecimalText(m);
    DecimalTextRoundTrip(m);
    PlainDigits(d);
    var t := IntText(n);
    forall k | 0 <= k < |t|
      ensures !IsSpace(t[k])
    {
      if n < 0 && k > 0 {
        assert t[k] == d[k - 1];
      }
    }
    StripNoBlanks(t);
    if n < 0 {
      assert t[1..] == d;
      PythonIntNegative(t);
    } else {
      PythonIntUnsigned(t);
    }
  }

  /** One underscore between two digit groups is dropped: `int("4_2") == 42`. */
  lemma PythonIntGrouped(a: string, b: string)
    requires AllDigits(a) && AllDigits(b)
    ensures AllDigits(a + b)
    ensures PythonInt(a + "_" + b) == Some(DigitsValue(a + b))
  {
    var t := a + "_" + b;
    assert forall k :: 0 <= k < |a + b| ==> IsDigit((a + b)[k]) by {
      forall k | 0 <= k < |a + b|
        ensures IsDigit((a + b)[k])
      {
        if k >= |a| {
          assert (a + b)[k] == b[k - |a|];
        }
      }
    }
    GroupedIntDigits(a, b);
    StripNoBlanks(t);
    UngroupedGroups(a, b);
    PythonIntUnsigned(t);
  }

  lemma UngroupedGroups(a: string, b: string)
    requires AllDigits(a) && AllDigits(b)
    ensures Ungroup(a + "_" + b) == a + b
  {
    PlainDigits(a);
    PlainDigits(b);
    var u := a + "_";
    UngroupAppend(a, "_");
    assert Ungroup("_") == [] + Ungroup("_"[1..]);
    assert Ungroup(u) == a;
    UngroupAppend(u, b);
  }

  lemma GroupedIntDigits(a: string, b: string)
    requires AllDigits(a) && AllDigits(b)
    ensures IntDigits(a + "_" + b)
    ensures forall k :: 0 <= k < |a + "_" + b| ==> !IsSpace((a + "_" + b)[k])
  {
    var t := a + "_" + b;
    forall k | 0 <= k < |t|
      ensures if k == |a| then t[k] == '_' else IsDigit(t[k])
    {
      if k < |a| {
        assert t[k] == a[k];
      } else if k > |a| {
        assert t[k] == b[k - |a| - 1];
      }
    }
    assert t[|a| - 1] == a[|a| - 1] && t[|a| + 1] == b[0];
  }

  /** An underscore may not lead or trail the digits: `int("_42")` and `int("42_")` fail. */
  lemma PythonIntUnderscoreEdges(d: string)
    requires AllDigits(d)
    ensures PythonInt("_" + d).None?
    ensures PythonInt(d + "_").None?
  {
    var lead, trail := "_" + d, d + "_";
    assert forall k :: 0 <= k < |lead| ==> !IsSpace(lead[k]);
    assert forall k :: 0 <= k < |trail| ==> !IsSpace(trail[k]);
    StripNoBlanks(lead);
    StripNoBlanks(trail);
    assert !IsDigit(lead[0]) && lead[0] != '-' && lead[0] != '+';
    assert !IntDigits(lead);
    assert !IsDigit(trail[|trail| - 1]) && trail[0] == d[0];
    assert !IntDigits(trail);
  }

  // ---------------------------------------------------------------------
  // Python's ordering of strings (by code point, lexicographic)

  predicate TextLess(a: string, b: string) {
    if a == [] then b != []
    else if b == [] then false
    else if a[0] != b[0] then a[0] < b[0]
    else TextLess(a[1..], b[1..])
  }

  lemma {:induction false} TextLessIrreflexive(a: string)
    ensures !TextLess(a, a)
  {
    if a != [] {
      TextLessIrreflexive(a[1..]);
    }
  }

  lemma {:induction false} TextLessTransitive(a: string, b: string, c: string)
    requires TextLess(a, b) && TextLess(b, c)
    ensures TextLess(a, c)
  {
    if a != [] && b != [] && c != [] && a[0] == b[0] && b[0] == c[0] {
      TextLessTransitive(a[1..], b[1..], c[1..]);
    }
  }

  lemma {:induction false} TextLessTotal(a: string, b: string)
    requires a != b
    ensures TextLess(a, b) || TextLess(b, a)
  {
    if a != [] && b != [] && a[0] == b[0] {
      assert a == [a[0]] + a[1..] && b == [b[0]] + b[1..];
      TextLessTotal(a[1..], b[1..]);
    }
  }
}
