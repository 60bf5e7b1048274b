/** The decoded JSON values the plan generator produces and the pipeline inspects,
    with Python's `str()` of such a value. */
module Json {
  import opened Text

  /** A decoded JSON value. An object keeps its entries in insertion order, as a Python dict does. */
  datatype Json =
    | Null
    | Bool(b: bool)
    | Int(i: int)
    | Str(s: string)
    | List(items: seq<Json>)
    | Object(fields: seq<(string, Json)>)
  {
    /** Neither a list nor an object. */
    predicate IsScalar() { !List? && !Object? }
  }

  function HexDigit(d: nat): (c: char)
    requires d < 16
  {
    if d < 10 then ('0' as int + d) as char else ('a' as int + d - 10) as char
  }

  /** The value of a lower-case hexadecimal digit. */
  function HexValue(c: char): (d: nat)
    ensures d < 16
  {
    if '0' <= c <= '9' then c as int - '0' as int
    else if 'a' <= c <= 'f' then c as int - 'a' as int + 10
    else 0
  }

  /** The quote `repr()` puts around a string: double quotes when it holds a single quote and
      no double quote, single quotes otherwise. */
  function Quote(s: string): (q: char)
    ensures q == '"' <==> '\'' in s && '"' !in s
    ensures q == '\'' || q == '"'
  {
    if '\'' in s && '"' !in s then '"' else '\''
  }

  /** How `repr()` writes one character inside quotes `q`: the backslash and the quote behind a
      backslash, tab, newline and carriage return by name, the other ASCII control characters
      as `\xhh`, any other character as itself. */
  function EscapeChar(c: char, q: char): (e: string)
    ensures |e| > 0
    ensures c != q && c != '\\' && ' ' <= c && c != '\U{7F}' ==> e == [c]
  {
    if c == '\\' || c == q then ['\\', c]
    else if c == '\n' then "\\n"
    else if c == '\r' then "\\r"
    else if c == '\t' then "\\t"
    else if c < ' ' || c == '\U{7F}' then ['\\', 'x', HexDigit(c as int / 16), HexDigit(c as int % 16)]
    else [c]
  }

  /** The characters of `s`, each written as `repr()` writes it inside quotes `q`. */
  function Escaped(s: string, q: char): (e: string)
    ensures |e| >= |s|
    ensures (forall k :: 0 <= k < |s| ==> s[k] != q && s[k] != '\\' && ' ' <= s[k] && s[k] != '\U{7F}') ==> e == s
  {
    if |s| == 0 then [] else EscapeChar(s[0], q) + Escaped(s[1..], q)
  }

  /** Reading the inside of a string literal back: each escape sequence stands for the
      character it names. */
  function Unescape(e: string): string
  {
    if |e| == 0 then []
    else if e[0] == '\\' && |e| >= 4 && e[1] == 'x' then [(16 * HexValue(e[2]) + HexValue(e[3])) as char] + Unescape(e[4..])
    else if e[0] == '\\' && |e| >= 2 then [Unescaped(e[1])] + Unescape(e[2..])
    else [e[0]] + Unescape(e[1..])
  }

  /** The character a backslash followed by `c` stands for. */
  function Unescaped(c: char): char
  {
    if c == 'n' then '\n' else if c == 'r' then '\r' else if c == 't' then '\t' else c
  }

  /** One escaped character reads back as that character. */
  lemma UnescapeChar(c: char, q: char, rest: string)
    requires q == '\'' || q == '"'
    ensures Unescape(EscapeChar(c, q) + rest) == [c] + Unescape(rest)
  {
    var e := EscapeChar(c, q) + rest;
    if c == '\\' || c == q || c == '\n' || c == '\r' || c == '\t' {
      assert e[2..] == rest;
    } else if c < ' ' || c == '\U{7F}' {
      var v := c as int;
      assert HexValue(HexDigit(v / 16)) == v / 16;
      assert HexValue(HexDigit(v % 16)) == v % 16;
      assert e[4..] == rest;
    } else {
      assert e[1..] == rest;
    }
  }

  /** Reading back the escaped text of a string gives the string again. */
  lemma {:induction false} EscapedRoundTrip(s: string, q: char)
    requires q == '\'' || q == '"'
    ensures Unescape(Escaped(s, q)) == s
  {
    if |s| > 0 {
      UnescapeChar(s[0], q, Escaped(s[1..], q));
      EscapedRoundTrip(s[1..], q);
    }
  }

  /** Python's `repr()` of a string: quoted, with the quote character and the backslash
      escaped, so that the literal reads back as the string. */
  function ReprString(s: string): (r: string)
    ensures |r| >= 2 && r[0] == Quote(s) && r[|r| - 1] == Quote(s)
    ensures Unescape(r[1..|r| - 1]) == s
  {
    var q := Quote(s);
    var r := [q] + Escaped(s, q) + [q];
    assert r[1..|r| - 1] == Escaped(s, q);
    EscapedRoundTrip(s, q);
    r
  }

  /** A word without quotes, backslashes or control characters is just put in single quotes. */
  lemma ReprPlainString(s: string)
    requires forall k :: 0 <= k < |s| ==> s[k] != '\'' && s[k] != '"' && s[k] != '\\' && ' ' <= s[k] && s[k] != '\U{7F}'
    ensures ReprString(s) == "'" + s + "'"
  {
    assert '\'' !in s;
  }

  /** Python's `repr()` of a decoded value: strings quoted and escaped, containers bracketed,
      dict keys written as strings. */
  function Repr(v: Json): (r: string)
    ensures |r| > 0
    ensures v.Null? ==> r == "None"
    ensures v.Bool? ==> r == if v.b then "True" else "False"
    ensures v.Int? ==> r == IntToString(v.i)
    ensures v.Str? ==> r == ReprString(v.s)
    ensures v.List? ==> r[0] == '[' && r[|r| - 1] == ']'
    ensures v.Object? ==> r[0] == '{' && r[|r| - 1] == '}'
    decreases v, 1
  {
    match v
    case Null => "None"
    case Bool(b) => if b then "True" else "False"
    case Int(i) => IntToString(i)
    case Str(s) => ReprString(s)
    case List(items) => "[" + Join(", ", seq(|items|, k requires 0 <= k < |items| => Repr(items[k]))) + "]"
    case Object(fields) =>
      "{" + Join(", ", seq(|fields|, k requires 0 <= k < |fields| =>
                          ReprString(fields[k].0) + ": " + Repr(fields[k].1))) + "}"
  }

  /** Python's `str()`: like `repr()` except that a string is itself. */
  function Render(v: Json): (r: string)
    ensures v.Str? ==> r == v.s
    ensures !v.Str? ==> r == Repr(v)
  {
    if v.Str? then v.s else Repr(v)
  }

  /** `str()` of scalar cells: `42` and `-7` in decimal, `True` as Python writes it. */
  lemma RenderScalars()
    ensures Render(Int(42)) == "42" && Render(Int(-7)) == "-7" && Render(Bool(true)) == "True"
  {
    assert NatToString(42) == NatToString(4) + [DigitChar(2)];
  }
}
