/** The few JavaScript string operations the core relies on: printing an
    integer in a template literal, `String.prototype.split` on one character,
    and `String.prototype.trim`. */
module Text {

  predicate IsDigit(c: char) {
    '0' <= c <= '9'
  }

  function DigitChar(d: nat): (c: char)
    requires d < 10
    ensures IsDigit(c) && c as int - '0' as int == d
  {
    ('0' as int + d) as char
  }

  /** Decimal digits of `n`, as `${n}` prints a non-negative integer. */
  function NatToString(n: nat): (s: string)
    ensures |s| >= 1
    ensures forall i :: 0 <= i < |s| ==> IsDigit(s[i])
  {
    if n < 10 then [DigitChar(n)] else NatToString(n / 10) + [DigitChar(n % 10)]
  }

  /** `${i}` for any integer: a minus sign exactly for negative numbers,
      then digits. */
  function IntToString(i: int): (s: string)
    ensures |s| >= 1
    ensures s[0] == '-' <==> i < 0
    ensures forall k :: 0 <= k < |s| ==> IsDigit(s[k]) || (k == 0 && s[k] == '-')
  {
    if i < 0 then "-" + NatToString(-i) else NatToString(i)
  }

  /** Reads a string of decimal digits back as a number. */
  function DigitsValue(s: string): nat
    requires forall i :: 0 <= i < |s| ==> IsDigit(s[i])
  {
    if s == [] then 0
    else
      assert IsDigit(s[|s| - 1]);
      DigitsValue(s[..|s| - 1]) * 10 + (s[|s| - 1] as int - '0' as int)
  }

  /** Printing a number and reading it back gives the number: distinct ids
      therefore give distinct keys, routes and file names. */
  lemma {:induction false} DigitsValueOfNatToString(n: nat)
    ensures DigitsValue(NatToString(n)) == n
  {
    if n >= 10 {
      var s := NatToString(n);
      assert s[..|s| - 1] == NatToString(n / 10);
      DigitsValueOfNatToString(n / 10);
    }
  }

  lemma NatToStringInjective(m: nat, n: nat)
    requires NatToString(m) == NatToString(n)
    ensures m == n
  {
    DigitsValueOfNatToString(m);
    DigitsValueOfNatToString(n);
  }

  lemma IntToStringInjective(i: int, j: int)
    requires IntToString(i) == IntToString(j)
    ensures i == j
  {
    if i < 0 {
      assert IntToString(i)[1..] == NatToString(-i);
      assert IntToString(j)[1..] == NatToString(-j);
      NatToStringInjective(-i, -j);
    } else {
      NatToStringInjective(i, j);
    }
  }

  /** `s.split(sep)` for a one-character separator: the pieces between
      separators, an empty piece at either end where `s` starts or ends with
      one. */
  function Split(s: string, sep: char): (parts: seq<string>)
    ensures |parts| >= 1
    ensures forall k :: 0 <= k < |parts| ==> sep !in parts[k]
  {
    if s == [] then [""]
    else
      var rest := Split(s[1..], sep);
      if s[0] == sep then [""] + rest else [[s[0]] + rest[0]] + rest[1..]
  }

  lemma {:induction false} SplitWithoutSeparator(s: string, sep: char)
    requires sep !in s
    ensures Split(s, sep) == [s]
  {
    if s != [] {
      assert s[0] != sep && sep !in s[1..];
      SplitWithoutSeparator(s[1..], sep);
      assert [s[0]] + s[1..] == s;
    }
  }

  lemma {:induction false} SplitPrefix(a: string, t: string, sep: char)
    requires sep !in a
    ensures Split(a + t, sep) == [a + Split(t, sep)[0]] + Split(t, sep)[1..]
  {
    if a != [] {
      var u := Split(t, sep);
      assert (a + t)[0] == a[0] != sep;
      assert (a + t)[1..] == a[1..] + t;
      SplitPrefix(a[1..], t, sep);
      var rest := Split(a[1..] + t, sep);
      assert rest == [a[1..] + u[0]] + u[1..];
      assert Split(a + t, sep) == [[a[0]] + rest[0]] + rest[1..];
      assert rest[0] == a[1..] + u[0] && rest[1..] == u[1..];
      assert [a[0]] + (a[1..] + u[0]) == a + u[0];
    } else {
      var u := Split(t, sep);
      assert a + t == t && a + u[0] == u[0];
      assert [u[0]] + u[1..] == u;
    }
  }

  /** `(a + "/" + b).split("/")` is `[a, b]` when neither half holds a slash. */
  lemma SplitAtSeparator(a: string, b: string, sep: char)
    requires sep !in a && sep !in b
    ensures Split(a + [sep] + b, sep) == [a, b]
  {
    var t := [sep] + b;
    SplitWithoutSeparator(b, sep);
    assert t[0] == sep && t[1..] == b;
    assert Split(t, sep) == [""] + [b];
    assert a + [sep] + b == a + t;
    SplitPrefix(a, t, sep);
    assert a + "" == a;
  }

  /** The second piece of `a + sep + b + sep + rest` is `b` when neither
      `a` nor `b` holds the separator. */
  lemma SecondPiece(a: string, b: string, rest: string, sep: char)
    requires sep !in a && sep !in b
    ensures |Split(a + [sep] + b + [sep] + rest, sep)| >= 2
    ensures Split(a + [sep] + b + [sep] + rest, sep)[1] == b
  {
    var u := [sep] + rest;
    assert u[0] == sep && u[1..] == rest;
    SplitPrefix(b, u, sep);
    assert b + "" == b;
    var t := [sep] + (b + u);
    assert t[0] == sep && t[1..] == b + u;
    SplitPrefix(a, t, sep);
    assert a + [sep] + b + [sep] + rest == a + t;
  }

  /** The characters `String.prototype.trim` removes: ECMAScript WhiteSpace
      (tab, vertical tab, form feed, space, no-break space, zero width
      no-break space and the Unicode space separators) and LineTerminator. */
  predicate IsJsWhitespace(c: char) {
    || c == '\t' || c == '\n' || c == '\U{000B}' || c == '\U{000C}' || c == '\r'
    || c == ' ' || c == '\U{00A0}' || c == '\U{1680}'
    || ('\U{2000}' <= c <= '\U{200A}')
    || c == '\U{2028}' || c == '\U{2029}' || c == '\U{202F}' || c == '\U{205F}'
    || c == '\U{3000}' || c == '\U{FEFF}'
  }

  function TrimStart(s: string): (r: string)
    ensures |r| <= |s| && r == s[|s| - |r|..]
    ensures r != [] ==> !IsJsWhitespace(r[0])
  {
    if s != [] && IsJsWhitespace(s[0]) then TrimStart(s[1..]) else s
  }

  function TrimEnd(s: string): (r: string)
    ensures |r| <= |s| && r == s[..|r|]
    ensures r != [] ==> !IsJsWhitespace(r[|r| - 1])
  {
    if s != [] && IsJsWhitespace(s[|s| - 1]) then TrimEnd(s[..|s| - 1]) else s
  }

  /** `s.trim()` */
  function Trim(s: string): string {
    TrimEnd(TrimStart(s))
  }

  predicate IsBlank(s: string) {
    forall i :: 0 <= i < |s| ==> IsJsWhitespace(s[i])
  }

  lemma {:induction false} TrimStartEmpty(s: string)
    ensures TrimStart(s) == [] <==> IsBlank(s)
  {
    if s != [] {
      TrimStartEmpty(s[1..]);
      if IsJsWhitespace(s[0]) {
        assert IsBlank(s) <==> IsBlank(s[1..]) by {
          if IsBlank(s[1..]) {
            forall i | 0 <= i < |s| ensures IsJsWhitespace(s[i]) {
              if i > 0 { assert s[i] == s[1..][i - 1]; }
            }
          }
        }
      }
    }
  }

  /** `!s.trim()` holds exactly for strings made only of whitespace, the
      empty string included. */
  lemma TrimEmptyIffBlank(s: string)
    ensures Trim(s) == [] <==> IsBlank(s)
  {
    TrimStartEmpty(s);
    var t := TrimStart(s);
    if t != [] {
      assert TrimEnd(t) != [] by {
        if TrimEnd(t) == [] { TrimEndKeepsHead(t); }
      }
    }
  }

  lemma {:induction false} TrimEndKeepsHead(t: string)
    requires t != [] && !IsJsWhitespace(t[0])
    ensures TrimEnd(t) != []
  {
    if IsJsWhitespace(t[|t| - 1]) {
      TrimEndKeepsHead(t[..|t| - 1]);
    }
  }
}
