/** String operations the pipeline relies on, written out with Python's meaning:
    slicing `s[:n]`, `lower()`, `strip()`, `t in s`, `replace(p, "")`, `sep.join(xs)`
    and `str(i)` for integers. Strings are sequences of Unicode code points. */
module Text {

  /** Python's `s[:n]`: the first `n` elements, or all of `s` when it is shorter. */
  function Take<T>(s: seq<T>, n: nat): (r: seq<T>)
    ensures |r| <= n && |r| <= |s|
    ensures r <= s
    ensures |r| == n || r == s
  {
    if |s| <= n then s else s[..n]
  }

  /** `str.lower()` restricted to ASCII letters. */
  function LowerChar(c: char): (d: char)
    ensures 'A' <= c <= 'Z' ==> 'a' <= d <= 'z' && d as int - c as int == 32
    ensures !('A' <= c <= 'Z') ==> d == c
  {
    if 'A' <= c <= 'Z' then (c as int + 32) as char else c
  }

  function Lower(s: string): (r: string)
    ensures |r| == |s|
    ensures forall i :: 0 <= i < |s| ==> r[i] == LowerChar(s[i])
  {
    seq(|s|, i requires 0 <= i < |s| => LowerChar(s[i]))
  }

  /** The characters for which Python's `str.isspace()` holds, which `strip()` removes. */
  predicate IsSpace(c: char)
  {
    || c == ' ' || c == '\t' || c == '\n' || c == '\r' || c == '\U{0B}' || c == '\U{0C}'
    || ('\U{1C}' <= c <= '\U{1F}') || c == '\U{85}' || c == '\U{A0}' || c == '\U{1680}'
    || ('\U{2000}' <= c <= '\U{200A}') || c == '\U{2028}' || c == '\U{2029}'
    || c == '\U{202F}' || c == '\U{205F}' || c == '\U{3000}'
  }

  /** The number of whitespace characters at the start of `s`. */
  function LeadingSpaces(s: string): (n: nat)
    ensures n <= |s|
    ensures forall k :: 0 <= k < n ==> IsSpace(s[k])
    ensures n < |s| ==> !IsSpace(s[n])
  {
    if |s| > 0 && IsSpace(s[0]) then 1 + LeadingSpaces(s[1..]) else 0
  }

  /** The number of whitespace characters at the end of `s`. */
  function TrailingSpaces(s: string): (n: nat)
    ensures n <= |s|
    ensures forall k :: |s| - n <= k < |s| ==> IsSpace(s[k])
    ensures n < |s| ==> !IsSpace(s[|s| - 1 - n])
  {
    if |s| > 0 && IsSpace(s[|s| - 1]) then 1 + TrailingSpaces(s[..|s| - 1]) else 0
  }

  /** `str.strip()`: the longest slice of `s` that neither starts nor ends with whitespace,
      dropping only whitespace around it. */
  function Strip(s: string): (r: string)
    ensures |r| <= |s|
    ensures r == [] || (!IsSpace(r[0]) && !IsSpace(r[|r| - 1]))
    ensures var i := LeadingSpaces(s);
              i + |r| <= |s| && r == s[i..i + |r|] && forall k :: i + |r| <= k < |s| ==> IsSpace(s[k])
  {
    var i := LeadingSpaces(s);
    var t := s[i..];
    var r := t[..|t| - TrailingSpaces(t)];
    assert r == s[i..i + |r|];
    r
  }

  /** Stripping twice is stripping once. */
  lemma StripIdempotent(s: string)
    ensures Strip(Strip(s)) == Strip(s)
  {
    var r := Strip(s);
    if r != [] {
      assert LeadingSpaces(r) == 0;
      assert TrailingSpaces(r) == 0;
    }
  }

  /** `t` sits in `s` starting at offset `i`. */
  predicate OccursAt(s: string, t: string, i: int)
  {
    0 <= i <= |s| - |t| && s[i..i + |t|] == t
  }

  /** Python's `t in s` for strings: `t` occurs somewhere in `s` as a contiguous piece. */
  predicate Contains(s: string, t: string)
  {
    exists i | 0 <= i <= |s| - |t| :: OccursAt(s, t, i)
  }

  /** Every text contains itself. */
  lemma ContainsSelf(s: string)
    ensures Contains(s, s)
  {
    assert OccursAt(s, s, 0);
  }

  /** Text that does not contain `t` still does not once its first character is dropped. */
  lemma ContainsTail(s: string, t: string)
    requires |s| > 0 && !Contains(s, t)
    ensures !Contains(s[1..], t) && !(t <= s)
  {
    assert !OccursAt(s, t, 0);
    forall i | 0 <= i <= |s| - 1 - |t| ensures !OccursAt(s[1..], t, i) {
      assert s[1..][i..i + |t|] == s[i + 1..i + 1 + |t|];
      assert !OccursAt(s, t, i + 1);
    }
  }

  /** Python's `s.replace(p, "")`: removes every occurrence of `p`, scanning left to right
      without overlap, from the original text. */
  function Erase(s: string, p: string): (r: string)
    requires |p| > 0
    ensures |r| <= |s|
    ensures !Contains(s, p) ==> r == s
  {
    if |s| == 0 then s
    else if p <= s then
      assert OccursAt(s, p, 0);
      Erase(s[|p|..], p)
    else
      if !Contains(s, p) then ContainsTail(s, p); [s[0]] + Erase(s[1..], p)
      else [s[0]] + Erase(s[1..], p)
  }

  /** The first occurrence of `p` is erased and the scan resumes right after it: a piece of text
      in which `p` does not start before that occurrence is kept as it is. */
  lemma {:induction false} EraseAtFirst(a: string, p: string, b: string)
    requires |p| > 0 && !Contains(a + p[..|p| - 1], p)
    ensures Erase(a + p + b, p) == a + Erase(b, p)
    decreases |a|
  {
    var s := a + p + b;
    if |a| == 0 {
      assert s == p + b && s[|p|..] == b;
    } else {
      var h := a + p[..|p| - 1];
      assert !(p <= s) by {
        assert !OccursAt(h, p, 0);
        assert s[..|p|] == h[..|p|];
      }
      assert !Contains(a[1..] + p[..|p| - 1], p) by {
        ContainsTail(h, p);
        assert h[1..] == a[1..] + p[..|p| - 1];
      }
      var e := Erase(b, p);
      calc {
        Erase(s, p);
        [s[0]] + Erase(s[1..], p);
        { assert s[1..] == a[1..] + p + b; }
        [a[0]] + Erase(a[1..] + p + b, p);
        { EraseAtFirst(a[1..], p, b); }
        [a[0]] + (a[1..] + e);
        { assert [a[0]] + a[1..] == a; }
        a + e;
      }
    }
  }

  /** The replacement works on the original text only: erasing `r/` from `rr//` joins
      a new `r/` that is kept. */
  lemma EraseIsOnePass()
    ensures Erase("rr//", "r/") == "r/"
  {
    assert "r/"[..1] == "r" && "r" + "r" == "rr";
    assert !Contains("rr", "r/") by {
      assert "rr"[0..2] == "rr";
    }
    EraseAtFirst("r", "r/", "/");
    assert "r" + "r/" + "/" == "rr//";
    assert !Contains("/", "r/");
  }

  /** Python's `sep.join(xs)`. */
  function Join(sep: string, xs: seq<string>): (r: string)
    ensures |xs| == 1 ==> r == xs[0]
    ensures |xs| > 0 ==> xs[0] <= r
  {
    if |xs| == 0 then ""
    else if |xs| == 1 then xs[0]
    else xs[0] + sep + Join(sep, xs[1..])
  }

  /** Joining a longer list only adds text after what joining its prefix produced. */
  lemma {:induction false} JoinPrefix(sep: string, xs: seq<string>, k: nat)
    requires k <= |xs|
    ensures Join(sep, xs[..k]) <= Join(sep, xs)
  {
    if k >= 2 {
      JoinPrefix(sep, xs[1..], k - 1);
      assert xs[..k][1..] == xs[1..][..k - 1];
      var tail, whole := Join(sep, xs[1..][..k - 1]), Join(sep, xs[1..]);
      assert Join(sep, xs[..k]) == xs[0] + sep + tail;
      assert Join(sep, xs) == xs[0] + sep + whole;
      assert tail == whole[..|tail|];
      assert (xs[0] + sep + whole)[..|xs[0] + sep + tail|] == xs[0] + sep + tail;
    } else if k == 1 {
      assert xs[..k] == [xs[0]];
    }
  }

  /** Appending one more item adds the separator and the item. */
  lemma {:induction false} JoinSnoc(sep: string, xs: seq<string>, x: string)
    requires |xs| > 0
    ensures Join(sep, xs + [x]) == Join(sep, xs) + sep + x
  {
    if |xs| == 1 {
      assert (xs + [x])[1..] == [x];
    } else {
      assert (xs + [x])[1..] == xs[1..] + [x];
      JoinSnoc(sep, xs[1..], x);
    }
  }

  function DigitChar(d: nat): (c: char)
    requires d < 10
    ensures '0' <= c <= '9' && c as int - '0' as int == d
  {
    ('0' as int + d) as char
  }

  /** Python's `str(n)` for a non-negative integer: its decimal digits, most significant first. */
  function NatToString(n: nat): (r: string)
    ensures |r| > 0
    ensures forall k :: 0 <= k < |r| ==> '0' <= r[k] <= '9'
    ensures r[|r| - 1] == DigitChar(n % 10)
    decreases n
  {
    if n < 10 then [DigitChar(n)] else NatToString(n / 10) + [DigitChar(n % 10)]
  }

  /** The number a string of decimal digits denotes. */
  function DigitsValue(s: string): nat
    requires forall k :: 0 <= k < |s| ==> '0' <= s[k] <= '9'
  {
    if |s| == 0 then 0 else 10 * DigitsValue(s[..|s| - 1]) + (s[|s| - 1] as int - '0' as int)
  }

  /** Reading back the decimal digits gives the number again. */
  lemma {:induction false} NatToStringRoundTrip(n: nat)
    ensures DigitsValue(NatToString(n)) == n
    decreases n
  {
    if n >= 10 {
      NatToStringRoundTrip(n / 10);
      var r := NatToString(n);
      assert r[..|r| - 1] == NatToString(n / 10);
    }
  }

  /** Python's `str(i)` for any integer. */
  function IntToString(i: int): (r: string)
    ensures |r| > 0 && (r[0] == '-' <==> i < 0)
    ensures var d := if i < 0 then r[1..] else r;
            && |d| > 0
            && (forall k :: 0 <= k < |d| ==> '0' <= d[k] <= '9')
            && DigitsValue(d) == if i < 0 then -i else i
  {
    if i < 0 then
      var r := "-" + NatToString(-i);
      assert r[1..] == NatToString(-i);
      NatToStringRoundTrip(-i);
      r
    else
      NatToStringRoundTrip(i);
      NatToString(i)
  }
}
