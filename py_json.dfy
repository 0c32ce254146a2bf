/** The values Python's `json` decoder produces, and the few pieces of Python
    semantics the relay applies to them: truthiness, the `in` operator, string
    subscripts, and `str()`/`repr()` as used by f-strings and exception texts. */
module PyJson {
  import opened Wrappers

  /** A decoded JSON value. An object keeps its members in document order as
      (key, value) pairs, as a Python dict keeps insertion order. */
  datatype Json =
    | JNull
    | JBool(b: bool)
    | JInt(i: int)
    | JStr(s: string)
    | JArray(items: seq<Json>)
    | JObject(fields: seq<(string, Json)>)

  /** `d[key]` on a decoded dict: when a key is repeated in the document the
      decoder keeps the last value given for it. */
  function Get(fields: seq<(string, Json)>, key: string): (r: Option<Json>)
    ensures r.None? <==> forall i :: 0 <= i < |fields| ==> fields[i].0 != key
    ensures r.Some? ==>
      exists i :: 0 <= i < |fields| && fields[i] == (key, r.value) && LastWith(fields, key, i)
    decreases |fields|
  {
    if |fields| == 0 then None
    else
      var n := |fields| - 1;
      if fields[n].0 == key then
        assert LastWith(fields, key, n);
        Some(fields[n].1)
      else
        var init := fields[..n];
        var r := Get(init, key);
        assert forall i :: 0 <= i < n ==> init[i] == fields[i];
        if r.None? then r
        else
          var i :| 0 <= i < n && init[i] == (key, r.value) && LastWith(init, key, i);
          assert LastWith(fields, key, i);
          r
  }

  /** Position `i` holds the last member of `fields` with that key. */
  predicate LastWith(fields: seq<(string, Json)>, key: string, i: int)
    requires 0 <= i < |fields|
  {
    forall j :: i < j < |fields| ==> fields[j].0 != key
  }

  /** `key in d` on a decoded dict. */
  predicate HasKey(fields: seq<(string, Json)>, key: string) {
    Get(fields, key).Some?
  }

  /** Python truthiness (`bool(v)`) of a decoded value. */
  predicate Truthy(v: Json) {
    match v
    case JNull => false
    case JBool(b) => b
    case JInt(i) => i != 0
    case JStr(s) => s != ""
    case JArray(xs) => xs != []
    case JObject(fs) => fs != []
  }

  /** `type(v).__name__`. */
  function TypeName(v: Json): string {
    match v
    case JNull => "NoneType"
    case JBool(_) => "bool"
    case JInt(_) => "int"
    case JStr(_) => "str"
    case JArray(_) => "list"
    case JObject(_) => "dict"
  }

  /** The TypeErrors Python itself raises on the operations the relay applies
      to values of an unexpected shape. */
  datatype PyError =
    | NotIterable(operand: Json)   // `k in v` with v None, a bool or an int
    | StrIndices                   // `s['key']` on a str
    | ListIndices                  // `xs['key']` on a list
    | Unhashable(operand: Json)    // `v in d` with v a list or a dict

  /** `str()` of the TypeError, in CPython 3.10's wording. */
  function PyErrorText(e: PyError): (r: string)
    ensures |r| > 0
  {
    match e
    case NotIterable(v) => "argument of type '" + TypeName(v) + "' is not iterable"
    case StrIndices => "string indices must be integers"
    case ListIndices => "list indices must be integers or slices, not str"
    case Unhashable(v) => "unhashable type: '" + TypeName(v) + "'"
  }

  /** `needle` occurs as a contiguous slice of `hay`. */
  predicate IsSubstring(needle: string, hay: string) {
    exists i :: 0 <= i <= |hay| - |needle| && OccursAt(needle, hay, i)
  }

  predicate OccursAt(needle: string, hay: string, i: int)
    requires 0 <= i <= |hay| - |needle|
  {
    hay[i..i + |needle|] == needle
  }

  /** Python's `key in container` for a str key: a key test on a dict, an
      element test on a list, a substring test on a str, and a TypeError on
      anything that is not iterable. */
  function Contains(container: Json, key: string): (r: Result<bool, PyError>)
    ensures r.Err? <==> container.JNull? || container.JBool? || container.JInt?
    ensures r.Err? ==> r.error == NotIterable(container)
    ensures container.JObject? ==> r == Ok(HasKey(container.fields, key))
    ensures container.JArray? ==>
      r == Ok(exists i :: 0 <= i < |container.items| && container.items[i] == JStr(key))
    ensures container.JStr? ==> r == Ok(IsSubstring(key, container.s))
  {
    match container
    case JObject(fs) => Ok(HasKey(fs, key))
    case JArray(xs) => Ok(JStr(key) in xs)
    case JStr(s) => Ok(IsSubstring(key, s))
    case _ => Err(NotIterable(container))
  }

  /** Python's `container[key]` for a str key, used only right after
      `key in container` held: a dict yields the value, a str or a list
      raises the TypeError of its type. */
  function Subscript(container: Json, key: string): (r: Result<Json, PyError>)
    requires Contains(container, key) == Ok(true)
    ensures r.Ok? <==> container.JObject?
    ensures r.Ok? ==> Get(container.fields, key) == Some(r.value)
    ensures container.JStr? ==> r == Err(StrIndices)
    ensures container.JArray? ==> r == Err(ListIndices)
  {
    match container
    case JObject(fs) => Ok(Get(fs, key).value)
    case JStr(_) => Err(StrIndices)
    case JArray(_) => Err(ListIndices)
  }

  // ---------------------------------------------------------------------------
  // str() and repr()
  // ---------------------------------------------------------------------------

  /** The decimal digit character for `d`. */
  function Digit(d: nat): (c: char)
    requires d < 10
    ensures '0' <= c <= '9' && c as int - '0' as int == d
  {
    ('0' as int + d) as char
  }

  /** The decimal numeral Python prints for a natural number. */
  function NatDecimal(n: nat): (r: string)
    ensures |r| > 0
    ensures forall k :: 0 <= k < |r| ==> '0' <= r[k] <= '9'
    decreases n
  {
    (if n < 10 then "" else NatDecimal(n / 10)) + [Digit(n % 10)]
  }

  /** The value a string of decimal digits denotes. */
  function DecimalValue(s: string): nat
    requires forall k :: 0 <= k < |s| ==> '0' <= s[k] <= '9'
  {
    if s == [] then 0
    else DecimalValue(s[..|s| - 1]) * 10 + (s[|s| - 1] as int - '0' as int)
  }

  /** `str(i)` / `repr(i)` for an int: an optional minus sign and the decimal
      numeral of its magnitude. */
  function IntDecimal(i: int): (r: string)
    ensures |r| > 0
    ensures (r[0] == '-') <==> i < 0
  {
    if i < 0 then "-" + NatDecimal(-i) else NatDecimal(i)
  }

  /** The quote `repr` puts around a string: a double quote only when the text
      holds a single quote and no double quote. */
  function QuoteFor(s: string): char {
    if '\'' in s && '"' !in s then '"' else '\''
  }

  /** How `repr` writes one character inside quote `q`. Other non-printable
      characters, which Python writes as hex escapes, are kept as they are. */
  function EscapeChar(c: char, q: char): (r: string)
    ensures 1 <= |r| <= 2
  {
    if c == '\\' || c == q then ['\\', c]
    else if c == '\n' then "\\n"
    else if c == '\r' then "\\r"
    else if c == '\t' then "\\t"
    else [c]
  }

  function Escape(s: string, q: char): string {
    if s == [] then "" else EscapeChar(s[0], q) + Escape(s[1..], q)
  }

  /** Reads back what `Escape` wrote: a backslash and the character after it
      stand for one character. */
  function Unescape(t: string): string {
    if t == [] then ""
    else if t[0] == '\\' && |t| >= 2 then
      [if t[1] == 'n' then '\n' else if t[1] == 'r' then '\r'
       else if t[1] == 't' then '\t' else t[1]] + Unescape(t[2..])
    else [t[0]] + Unescape(t[1..])
  }

  /** `repr(s)` for a str. */
  function StrRepr(s: string): (r: string)
    ensures |r| >= 2 && r[0] == r[|r| - 1] == QuoteFor(s)
  {
    [QuoteFor(s)] + Escape(s, QuoteFor(s)) + [QuoteFor(s)]
  }

  /** The items of a list or dict display, separated by ", ". */
  function Join(parts: seq<string>): string {
    if parts == [] then ""
    else if |parts| == 1 then parts[0]
    else parts[0] + ", " + Join(parts[1..])
  }

  /** `repr(v)`: the text Python prints for a decoded value inside a list or
      dict display, or for any non-str value in an f-string. */
  function Repr(v: Json): (r: string)
    ensures |r| > 0
    ensures v.JStr? ==> r == StrRepr(v.s)
    ensures v.JInt? ==> r == IntDecimal(v.i)
    ensures v.JArray? ==> r[0] == '[' && r[|r| - 1] == ']'
    ensures v.JObject? ==> r[0] == '{' && r[|r| - 1] == '}'
    decreases v
  {
    match v
    case JNull => "None"
    case JBool(b) => if b then "True" else "False"
    case JInt(i) => IntDecimal(i)
    case JStr(s) => StrRepr(s)
    case JArray(xs) =>
      "[" + Join(seq(|xs|, k requires 0 <= k < |xs| => Repr(xs[k]))) + "]"
    case JObject(fs) =>
      "{" + Join(seq(|fs|, k requires 0 <= k < |fs| =>
                       StrRepr(fs[k].0) + ": " + Repr(fs[k].1))) + "}"
  }

  /** `str(v)`, which is what `{v}` in an f-string inserts: a str as it is,
      anything else as its `repr`. */
  function Str(v: Json): (r: string)
    ensures v.JStr? ==> r == v.s
    ensures !v.JStr? ==> r == Repr(v) && |r| > 0
  {
    if v.JStr? then v.s else Repr(v)
  }

  // ---------------------------------------------------------------------------
  // Lemmas
  // ---------------------------------------------------------------------------

  /** Reading the decimal numeral of a natural number back gives that
      number. */
  lemma {:induction false} NatDecimalRoundTrip(n: nat)
    ensures DecimalValue(NatDecimal(n)) == n
    decreases n
  {
    var q, d := n / 10, n % 10;
    assert n == q * 10 + d;
    var prefix := if n < 10 then "" else NatDecimal(q);
    var r := NatDecimal(n);
    assert r == prefix + [Digit(d)];
    assert r[..|r| - 1] == prefix;
    if n >= 10 {
      NatDecimalRoundTrip(q);
    }
    assert DecimalValue(r) == DecimalValue(prefix) * 10 + d;
  }

  /** Distinct ints, negative ones included, print differently. */
  lemma IntDecimalInjective(i: int, j: int)
    requires IntDecimal(i) == IntDecimal(j)
    ensures i == j
  {
    var r := IntDecimal(i);
    assert (r[0] == '-') == (i < 0) == (j < 0);
    var m: nat, n: nat := if i < 0 then -i else i, if j < 0 then -j else j;
    if i < 0 {
      var a, b := NatDecimal(m), NatDecimal(n);
      assert r == "-" + a == "-" + b;
      assert a == r[1..] == b;
    }
    assert NatDecimal(m) == NatDecimal(n);
    NatDecimalRoundTrip(m);
    NatDecimalRoundTrip(n);
  }

  /** Escaping inside either quote loses nothing: `Unescape` recovers the text,
      so `repr` of distinct strings differs. */
  lemma {:induction false} EscapeRoundTrip(s: string, q: char)
    requires q == '\'' || q == '"'
    ensures Unescape(Escape(s, q)) == s
  {
    if s != [] {
      var head := EscapeChar(s[0], q);
      var rest := Escape(s[1..], q);
      assert Escape(s, q) == head + rest;
      EscapeRoundTrip(s[1..], q);
      if |head| == 2 {
        assert (head + rest)[2..] == rest;
      } else {
        assert head[0] != '\\';
        assert (head + rest)[1..] == rest;
      }
    }
  }

  /** `repr` of a str is injective. */
  lemma StrReprInjective(s: string, t: string)
    requires StrRepr(s) == StrRepr(t)
    ensures s == t
  {
    var r := StrRepr(s);
    assert QuoteFor(s) == r[0] == QuoteFor(t);
    var q := QuoteFor(s);
    assert Escape(s, q) == r[1..|r| - 1] == Escape(t, q);
    EscapeRoundTrip(s, q);
    EscapeRoundTrip(t, q);
  }
}
