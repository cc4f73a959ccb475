/** The handful of Python string operations these models rely on, over `seq<char>`. */
module Text {

  /** `s.startswith(p)`. */
  predicate IsPrefix(p: string, s: string) {
    |p| <= |s| && s[..|p|] == p
  }

  /** Python's substring test `sub in s`: a plain search, with no notion of domain boundaries. */
  predicate Contains(s: string, sub: string)
    decreases |s|
  {
    IsPrefix(sub, s) || (|s| > 0 && Contains(s[1..], sub))
  }

  /** A substring of a suffix is a substring of the whole string. */
  lemma {:induction false} ContainsInSuffix(prefix: string, s: string, sub: string)
    requires Contains(s, sub)
    ensures Contains(prefix + s, sub)
    decreases |prefix|
  {
    if prefix == [] {
      assert prefix + s == s;
    } else {
      assert (prefix + s)[1..] == prefix[1..] + s;
      ContainsInSuffix(prefix[1..], s, sub);
      assert Contains((prefix + s)[1..], sub);
    }
  }

  /** A string that starts with `sub` contains it, whatever follows. */
  lemma ContainsAtStart(sub: string, rest: string)
    ensures Contains(sub + rest, sub)
  {
    assert (sub + rest)[..|sub|] == sub;
  }

  /** Python's `str.lower()` on one character, restricted to ASCII letters. */
  function LowerChar(c: char): char {
    if 'A' <= c <= 'Z' then (c as int + 32) as char else c
  }

  /** Python's `str.lower()`, restricted to ASCII letters. */
  function Lower(s: string): (r: string)
    ensures |r| == |s|
  {
    seq(|s|, i requires 0 <= i < |s| => LowerChar(s[i]))
  }

  /** Lower-casing works character by character, so it distributes over concatenation. */
  lemma LowerAppend(a: string, b: string)
    ensures Lower(a + b) == Lower(a) + Lower(b)
  {
  }

  /** `"".join(parts)`, and equally the result of `acc += part` over `parts`. */
  function Concat(parts: seq<string>): string
    decreases |parts|
  {
    if parts == [] then "" else Concat(parts[..|parts| - 1]) + parts[|parts| - 1]
  }

  /** `"".join` distributes over list concatenation. */
  lemma {:induction false} ConcatAppend(a: seq<string>, b: seq<string>)
    ensures Concat(a + b) == Concat(a) + Concat(b)
    decreases |b|
  {
    if b == [] {
      assert a + b == a;
    } else {
      var b' := b[..|b| - 1];
      assert (a + b)[..|a + b| - 1] == a + b';
      ConcatAppend(a, b');
    }
  }

  /** A join starts with whatever its first part starts with. */
  lemma {:induction false} ConcatStartsWith(parts: seq<string>, p: string)
    requires parts != [] && IsPrefix(p, parts[0])
    ensures IsPrefix(p, Concat(parts))
    decreases |parts|
  {
    if |parts| > 1 {
      ConcatStartsWith(parts[..|parts| - 1], p);
      var init := Concat(parts[..|parts| - 1]);
      assert (init + parts[|parts| - 1])[..|p|] == init[..|p|];
    } else {
      assert parts[..0] == [];
    }
  }

  /** Python's `s[:n]` for any integer `n`: a negative bound counts from the end. */
  function PyPrefix(s: string, n: int): (r: string)
    ensures IsPrefix(r, s)
    ensures 0 <= n ==> |r| == if n <= |s| then n else |s|
    ensures n < 0 ==> |r| == if -n <= |s| then |s| + n else 0
  {
    if 0 <= n then
      (if n <= |s| then s[..n] else s)
    else
      (if -n <= |s| then s[..|s| + n] else "")
  }

  /** `c * n` for a one-character string `c`. */
  function Repeat(c: char, n: nat): (r: string)
    ensures |r| == n && forall i :: 0 <= i < n ==> r[i] == c
  {
    seq(n, _ => c)
  }

  predicate IsDigit(c: char) {
    '0' <= c <= '9'
  }

  function DigitChar(d: nat): (c: char)
    requires d < 10
    ensures IsDigit(c) && c as int - '0' as int == d
  {
    (d + '0' as int) as char
  }

  /** Python's `str(n)` for a non-negative integer, as an f-string renders it. */
  function NatToString(n: nat): string
    decreases n
  {
    if n < 10 then [DigitChar(n)] else NatToString(n / 10) + [DigitChar(n % 10)]
  }

  /** Python's `int(s)` on a string of decimal digits. */
  function ParseNat(s: string): nat
    decreases |s|
  {
    if s == [] then 0
    else
      var d := s[|s| - 1] as int - '0' as int;
      ParseNat(s[..|s| - 1]) * 10 + (if 0 <= d < 10 then d else 0)
  }

  predicate AllDigits(s: string) {
    forall i :: 0 <= i < |s| ==> IsDigit(s[i])
  }

  /** `str(n)` is a non-empty run of digits that `int` reads back as `n`. */
  lemma {:induction false} NatToStringRoundTrip(n: nat)
    ensures NatToString(n) != [] && AllDigits(NatToString(n))
    ensures ParseNat(NatToString(n)) == n
    decreases n
  {
    if n >= 10 {
      NatToStringRoundTrip(n / 10);
      var s := NatToString(n);
      assert s[..|s| - 1] == NatToString(n / 10);
    }
  }

  /** The longest prefix of `s` made of digits. */
  function LeadingDigits(s: string): (r: string)
    ensures IsPrefix(r, s)
    decreases |s|
  {
    if s != [] && IsDigit(s[0]) then [s[0]] + LeadingDigits(s[1..]) else ""
  }

  /** Digits followed by a non-digit: the digits are exactly the leading run. */
  lemma {:induction false} LeadingDigitsOf(ds: string, rest: string)
    requires AllDigits(ds)
    requires rest != [] && !IsDigit(rest[0])
    ensures LeadingDigits(ds + rest) == ds
    decreases |ds|
  {
    if ds != [] {
      assert (ds + rest)[1..] == ds[1..] + rest;
      LeadingDigitsOf(ds[1..], rest);
      assert [ds[0]] + ds[1..] == ds;
    }
  }
  predicate NoCarriageReturn(s: string) {
    forall i :: 0 <= i < |s| ==> s[i] != '\r'
  }

  lemma NoCarriageReturnAppend(a: string, b: string)
    requires NoCarriageReturn(a) && NoCarriageReturn(b)
    ensures NoCarriageReturn(a + b)
  {
  }

  /** A string built from pieces without carriage returns has none. */
  lemma {:induction false} ConcatNoCarriageReturn(parts: seq<string>)
    requires forall i :: 0 <= i < |parts| ==> NoCarriageReturn(parts[i])
    ensures NoCarriageReturn(Concat(parts))
    decreases |parts|
  {
    if parts != [] {
      ConcatNoCarriageReturn(parts[..|parts| - 1]);
      NoCarriageReturnAppend(Concat(parts[..|parts| - 1]), parts[|parts| - 1]);
    }
  }

  /**
   * What a file opened in text mode with `newline=None` reads back: every
   * "\r\n" and every lone "\r" becomes "\n".
   */
  function UniversalNewlines(s: string): (r: string)
    ensures NoCarriageReturn(r)
    ensures r == "" <==> s == ""
    decreases |s|
  {
    if s == [] then ""
    else if s[0] == '\r' then "\n" + UniversalNewlines(if |s| > 1 && s[1] == '\n' then s[2..] else s[1..])
    else [s[0]] + UniversalNewlines(s[1..])
  }

  /** Text without a carriage return reads back unchanged. */
  lemma {:induction false} UniversalNewlinesClean(s: string)
    requires NoCarriageReturn(s)
    ensures UniversalNewlines(s) == s
    decreases |s|
  {
    if s != [] {
      UniversalNewlinesClean(s[1..]);
      assert [s[0]] + s[1..] == s;
    }
  }

  /** A prefix without a carriage return passes through untouched. */
  lemma {:induction false} UniversalNewlinesCleanPrefix(a: string, b: string)
    requires NoCarriageReturn(a)
    ensures UniversalNewlines(a + b) == a + UniversalNewlines(b)
    decreases |a|
  {
    if a != [] {
      assert a[0] != '\r';
      assert (a + b)[0] == a[0] && (a + b)[1..] == a[1..] + b;
      UniversalNewlinesCleanPrefix(a[1..], b);
      calc {
        UniversalNewlines(a + b);
        [a[0]] + UniversalNewlines(a[1..] + b);
        [a[0]] + (a[1..] + UniversalNewlines(b));
        { assert [a[0]] + a[1..] == a; }
        a + UniversalNewlines(b);
      }
    } else {
      assert a + b == b;
    }
  }

  /** A "\r\n" pair is read back as one "\n". */
  lemma CrLfReadBack()
    ensures UniversalNewlines("a\r\nb") == "a\nb"
  {
    assert "a\r\nb"[1..] == "\r\nb";
    assert "\r\nb"[2..] == "b";
    assert "b"[1..] == "";
  }
}
