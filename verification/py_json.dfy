/**
 * A value produced by Python's JSON decoder (`response.json()`), and the few
 * built-in operations the bot applies to it: truthiness, `dict.get`, `==`,
 * and the `str()`/`repr()` text that ends up inside error messages.
 */
module PyJson {
  import opened Wrappers

  /** A decoded JSON value. A dict keeps its fields in document order. */
  datatype Json =
    | JNull
    | JBool(b: bool)
    | JInt(n: int)
    | JStr(s: string)
    | JArray(items: seq<Json>)
    | JObject(fields: seq<Field>)

  datatype Field = Field(key: string, value: Json)

  /** Python truthiness: None, False, 0, "", [] and {} are falsy. */
  predicate IsTruthy(j: Json) {
    match j
    case JNull => false
    case JBool(b) => b
    case JInt(n) => n != 0
    case JStr(s) => s != ""
    case JArray(items) => items != []
    case JObject(fields) => fields != []
  }

  predicate HasKey(fields: seq<Field>, key: string) {
    exists i :: 0 <= i < |fields| && fields[i].key == key
  }

  /** Field `i` is the last one carrying its key, so it is the one the dict holds. */
  predicate IsLastOf(fields: seq<Field>, i: int) {
    0 <= i < |fields| && forall j :: i < j < |fields| ==> fields[j].key != fields[i].key
  }

  function Keys(fields: seq<Field>): set<string> {
    set f | f in fields :: f.key
  }

  /**
   * `d.get(key)`: the value the dict holds for `key` (for a repeated key the
   * decoder keeps the last one), or None when the key is absent.
   */
  function Get(fields: seq<Field>, key: string): (r: Json)
    ensures !HasKey(fields, key) ==> r == JNull
    decreases |fields|
  {
    if fields == [] then JNull
    else if fields[|fields| - 1].key == key then fields[|fields| - 1].value
    else Get(fields[..|fields| - 1], key)
  }

  lemma {:induction false} GetIsLast(fields: seq<Field>, i: int)
    requires IsLastOf(fields, i)
    ensures Get(fields, fields[i].key) == fields[i].value
    decreases |fields|
  {
    if i < |fields| - 1 {
      var prefix := fields[..|fields| - 1];
      assert IsLastOf(prefix, i);
      GetIsLast(prefix, i);
    }
  }

  /** The number a bool or an int stands for in a comparison (True == 1). */
  function Numeric(j: Json): int
    requires j.JBool? || j.JInt?
  {
    if j.JBool? then (if j.b then 1 else 0) else j.n
  }

  /**
   * Python's `x == y` on decoded values: bools compare as the numbers 0 and 1,
   * lists element by element, dicts by their key sets and the values held.
   */
  predicate PyEq(x: Json, y: Json)
    decreases x
  {
    match x
    case JNull => y.JNull?
    case JBool(_) => (y.JBool? || y.JInt?) && Numeric(x) == Numeric(y)
    case JInt(_) => (y.JBool? || y.JInt?) && Numeric(x) == Numeric(y)
    case JStr(s) => y == JStr(s)
    case JArray(xs) =>
      && y.JArray?
      && |xs| == |y.items|
      && forall i :: 0 <= i < |xs| ==> PyEq(xs[i], y.items[i])
    case JObject(fs) =>
      && y.JObject?
      && Keys(fs) == Keys(y.fields)
      && forall i :: 0 <= i < |fs| && IsLastOf(fs, i) ==> PyEq(fs[i].value, Get(y.fields, fs[i].key))
  }

  /** Every decoded value equals itself, whatever keys its dicts repeat. */
  lemma {:induction false} PyEqReflexive(x: Json)
    ensures PyEq(x, x)
    decreases x
  {
    match x
    case JArray(xs) =>
      forall i | 0 <= i < |xs|
        ensures PyEq(xs[i], xs[i])
      {
        PyEqReflexive(xs[i]);
      }
    case JObject(fs) =>
      forall i | 0 <= i < |fs| && IsLastOf(fs, i)
        ensures PyEq(fs[i].value, Get(fs, fs[i].key))
      {
        GetIsLast(fs, i);
        PyEqReflexive(fs[i].value);
      }
    case _ =>
  }

  /** A key the dict holds is carried by some field that is the last with that key. */
  lemma {:induction false} LastFieldOf(fields: seq<Field>, key: string) returns (i: int)
    requires key in Keys(fields)
    ensures IsLastOf(fields, i) && fields[i].key == key
    decreases |fields|
  {
    var last := |fields| - 1;
    if fields[last].key == key {
      i := last;
    } else {
      var prefix := fields[..last];
      var f :| f in fields && f.key == key;
      assert f in prefix by {
        var k :| 0 <= k < |fields| && fields[k] == f;
        assert k != last;
        assert prefix[k] == f;
      }
      i := LastFieldOf(prefix, key);
      assert prefix[i] == fields[i];
    }
  }

  /** `x == y` and `y == x` agree, so `previous_report != current_report` does not depend on the order of its operands. */
  lemma {:induction false} PyEqSymmetric(x: Json, y: Json)
    requires PyEq(x, y)
    ensures PyEq(y, x)
    decreases x
  {
    match x
    case JArray(xs) =>
      forall i | 0 <= i < |xs|
        ensures PyEq(y.items[i], xs[i])
      {
        PyEqSymmetric(xs[i], y.items[i]);
      }
    case JObject(fs) =>
      var gs := y.fields;
      forall j | 0 <= j < |gs| && IsLastOf(gs, j)
        ensures PyEq(gs[j].value, Get(fs, gs[j].key))
      {
        var key := gs[j].key;
        assert key in Keys(gs);
        var i := LastFieldOf(fs, key);
        GetIsLast(fs, i);
        GetIsLast(gs, j);
        PyEqSymmetric(fs[i].value, Get(gs, key));
      }
    case _ =>
  }

  // ---------------------------------------------------------------------
  // Decimal text of integers: `str(n)` and its inverse `int(s)`.

  predicate IsDigit(c: char) {
    '0' <= c <= '9'
  }

  predicate AllDigits(s: string) {
    forall i :: 0 <= i < |s| ==> IsDigit(s[i])
  }

  function DigitChar(d: nat): (c: char)
    requires d < 10
    ensures IsDigit(c)
  {
    (('0' as int) + d) as char
  }

  /** `str(n)` for a natural number: its decimal digits, no leading zeros. */
  function NatStr(n: nat): (r: string)
    ensures |r| > 0 && AllDigits(r)
    decreases n
  {
    if n < 10 then [DigitChar(n)] else NatStr(n / 10) + [DigitChar(n % 10)]
  }

  /** `str(n)` for any integer. */
  function IntStr(n: int): (r: string)
    ensures |r| > 0
    ensures n >= 0 <==> IsDigit(r[0])
  {
    if n < 0 then "-" + NatStr(-n) else NatStr(n)
  }

  /** The value of a string of decimal digits. */
  function DigitsValue(s: string): nat
    requires AllDigits(s)
    decreases |s|
  {
    if s == [] then 0 else 10 * DigitsValue(s[..|s| - 1]) + (s[|s| - 1] as int - '0' as int)
  }

  /** `int(s)` restricted to plain decimal text with an optional minus sign. */
  function ParseInt(s: string): Option<int> {
    if |s| > 1 && s[0] == '-' && AllDigits(s[1..]) then
      var magnitude: int := DigitsValue(s[1..]);
      Some(-magnitude)
    else if |s| > 0 && AllDigits(s) then Some(DigitsValue(s))
    else None
  }

  lemma {:induction false} NatStrValue(n: nat)
    ensures DigitsValue(NatStr(n)) == n
    decreases n
  {
    if n >= 10 {
      NatStrValue(n / 10);
      var s := NatStr(n);
      assert s[..|s| - 1] == NatStr(n / 10);
    }
  }

  /** `int(str(n)) == n`. */
  lemma IntStrRoundTrip(n: int)
    ensures ParseInt(IntStr(n)) == Some(n)
  {
    if n < 0 {
      NatStrValue(-n);
      assert IntStr(n)[1..] == NatStr(-n);
    } else {
      NatStrValue(n);
    }
  }

  /** Distinct integers have distinct decimal text. */
  lemma IntStrInjective(a: int, b: int)
    ensures IntStr(a) == IntStr(b) ==> a == b
  {
    IntStrRoundTrip(a);
    IntStrRoundTrip(b);
  }

  // ---------------------------------------------------------------------
  // `repr()` and `str()` of decoded values.

  const HEX_DIGITS := "0123456789abcdef"

  /** The quote `repr` puts around a string: double quotes only when the text holds a single quote and no double quote. */
  function QuoteFor(s: string): char {
    if '\'' in s && '"' !in s then '"' else '\''
  }

  /**
   * How `repr` writes one character inside quotes `q`. Characters up to
   * U+00FF that Python does not consider printable come out as `\xhh`.
   */
  function EscapeChar(c: char, q: char): string {
    if c == q || c == '\\' then ['\\', c]
    else if c == '\t' then "\\t"
    else if c == '\n' then "\\n"
    else if c == '\r' then "\\r"
    else if c as int < 0x20 || 0x7f <= c as int <= 0xa0 || c as int == 0xad then
      "\\x" + [HEX_DIGITS[c as int / 16], HEX_DIGITS[c as int % 16]]
    else [c]
  }

  function EscapeAll(s: string, q: char): string
    decreases |s|
  {
    if s == [] then "" else EscapeChar(s[0], q) + EscapeAll(s[1..], q)
  }

  /** `repr(s)` of a string. */
  function StrRepr(s: string): (r: string)
    ensures |r| >= 2 && r[0] == r[|r| - 1] == QuoteFor(s)
  {
    [QuoteFor(s)] + EscapeAll(s, QuoteFor(s)) + [QuoteFor(s)]
  }

  /** The value of a lower-case hexadecimal digit. */
  function HexValue(h: char): (v: nat)
    ensures v < 16
  {
    if '0' <= h <= '9' then h as int - '0' as int
    else if 'a' <= h <= 'f' then h as int - 'a' as int + 10
    else 0
  }

  lemma HexDigitValue(i: nat)
    requires i < 16
    ensures HexValue(HEX_DIGITS[i]) == i
  {
    if i < 8 {
      if i < 4 { assert i == 0 || i == 1 || i == 2 || i == 3; }
      else { assert i == 4 || i == 5 || i == 6 || i == 7; }
    } else {
      if i < 12 { assert i == 8 || i == 9 || i == 10 || i == 11; }
      else { assert i == 12 || i == 13 || i == 14 || i == 15; }
    }
  }

  /**
   * Reads the first character of the text between the quotes of a string's
   * repr, undoing one escape; also gives how many characters it took.
   */
  function ReadEscaped(t: string): (r: (char, nat))
    requires t != []
    ensures 1 <= r.1 <= |t|
  {
    if t[0] != '\\' || |t| == 1 then (t[0], 1)
    else if t[1] == 't' then ('\t', 2)
    else if t[1] == 'n' then ('\n', 2)
    else if t[1] == 'r' then ('\r', 2)
    else if t[1] == 'x' && |t| >= 4 then ((16 * HexValue(t[2]) + HexValue(t[3])) as char, 4)
    else (t[1], 2)
  }

  /** The text a string literal's body stands for (what `ast.literal_eval` recovers). */
  function Unescape(t: string): string
    decreases |t|
  {
    if t == [] then "" else [ReadEscaped(t).0] + Unescape(t[ReadEscaped(t).1..])
  }

  /** Reading back the escape of `c` gives `c` and consumes exactly that escape. */
  lemma ReadEscapeChar(c: char, q: char, rest: string)
    requires q == '\'' || q == '"'
    ensures ReadEscaped(EscapeChar(c, q) + rest) == (c, |EscapeChar(c, q)|)
  {
    if !(c == q || c == '\\' || c == '\t' || c == '\n' || c == '\r')
       && (c as int < 0x20 || 0x7f <= c as int <= 0xa0 || c as int == 0xad) {
      HexDigitValue(c as int / 16);
      HexDigitValue(c as int % 16);
    }
  }

  lemma {:induction false} UnescapeEscapeAll(s: string, q: char)
    requires q == '\'' || q == '"'
    ensures Unescape(EscapeAll(s, q)) == s
    decreases |s|
  {
    if s != [] {
      var e, rest := EscapeChar(s[0], q), EscapeAll(s[1..], q);
      ReadEscapeChar(s[0], q, rest);
      assert (e + rest)[|e|..] == rest;
      UnescapeEscapeAll(s[1..], q);
    }
  }

  /** The text between the quotes of `repr(s)` stands for `s` again. */
  lemma StrReprRoundTrip(s: string)
    ensures var r := StrRepr(s); Unescape(r[1..|r| - 1]) == s
  {
    var r := StrRepr(s);
    assert r[1..|r| - 1] == EscapeAll(s, QuoteFor(s));
    UnescapeEscapeAll(s, QuoteFor(s));
  }

  /** Distinct strings have distinct reprs. */
  lemma StrReprInjective(a: string, b: string)
    ensures StrRepr(a) == StrRepr(b) ==> a == b
  {
    StrReprRoundTrip(a);
    StrReprRoundTrip(b);
  }

  function Join(parts: seq<string>, sep: string): string
    decreases |parts|
  {
    if parts == [] then ""
    else if |parts| == 1 then parts[0]
    else parts[0] + sep + Join(parts[1..], sep)
  }

  /** `repr(j)`. */
  function Repr(j: Json): string
    decreases j
  {
    match j
    case JNull => "None"
    case JBool(b) => if b then "True" else "False"
    case JInt(n) => IntStr(n)
    case JStr(s) => StrRepr(s)
    case JArray(items) =>
      "[" + Join(seq(|items|, i requires 0 <= i < |items| => Repr(items[i])), ", ") + "]"
    case JObject(fields) =>
      "{" + Join(seq(|fields|, i requires 0 <= i < |fields| =>
                       StrRepr(fields[i].key) + ": " + Repr(fields[i].value)), ", ") + "}"
  }

  /** `str(j)`, what an f-string inserts: a string as it is, anything else as its repr. */
  function Str(j: Json): string {
    if j.JStr? then j.s else Repr(j)
  }

  /** `type(j).__name__`. */
  function TypeName(j: Json): string {
    match j
    case JNull => "NoneType"
    case JBool(_) => "bool"
    case JInt(_) => "int"
    case JStr(_) => "str"
    case JArray(_) => "list"
    case JObject(_) => "dict"
  }
}
