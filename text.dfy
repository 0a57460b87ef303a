/**
 * String helpers shared by the components: JavaScript's notion of whitespace,
 * `String.prototype.trim`, `split` on a one-character separator,
 * `Array.prototype.join`, and the decimal rendering of integers used by
 * template literals (`${n}`).
 */
module Text {

  /** A JavaScript whitespace code point: the WhiteSpace and LineTerminator
      sets of ECMAScript, which both `trim()` and the regular-expression class
      `\s` use. */
  predicate IsSpace(c: char) {
    || c == '\t' || c == '\n' || c == '\U{B}' || c == '\U{C}' || c == '\r'
    || c == ' ' || c == '\U{A0}' || c == '\U{1680}'
    || ('\U{2000}' <= c <= '\U{200A}')
    || c == '\U{2028}' || c == '\U{2029}' || c == '\U{202F}' || c == '\U{205F}'
    || c == '\U{3000}' || c == '\U{FEFF}'
  }

  /** The regular-expression class `\d`: ASCII digits only. */
  predicate IsDigit(c: char) {
    '0' <= c <= '9'
  }

  predicate AllSpace(s: string) {
    forall i | 0 <= i < |s| :: IsSpace(s[i])
  }

  predicate AllDigits(s: string) {
    forall i | 0 <= i < |s| :: IsDigit(s[i])
  }

  predicate EndsWith(s: string, suffix: string) {
    |suffix| <= |s| && s[|s| - |suffix|..] == suffix
  }

  /** `.length` of a JavaScript string: the number of UTF-16 code units, two
      for a character outside the Basic Multilingual Plane, one otherwise. */
  function Utf16Length(s: string): (n: nat)
    ensures |s| <= n <= 2 * |s|
  {
    if s == [] then 0
    else (if s[0] >= '\U{10000}' then 2 else 1) + Utf16Length(s[1..])
  }

  /** A string that `trim()` leaves alone: empty, or no whitespace at either end. */
  predicate IsTrimmed(s: string) {
    s == [] || (!IsSpace(s[0]) && !IsSpace(s[|s| - 1]))
  }

  // ---------------------------------------------------------------------------
  // trim()

  function TrimStart(s: string): (r: string)
    ensures |r| <= |s| && r == s[|s| - |r|..]
    ensures r == [] || !IsSpace(r[0])
    ensures AllSpace(s[..|s| - |r|])
    decreases |s|
  {
    if |s| > 0 && IsSpace(s[0]) then
      var r := TrimStart(s[1..]);
      assert s[1..][..|s| - 1 - |r|] == s[1..|s| - |r|];
      r
    else s
  }

  function TrimEnd(s: string): (r: string)
    ensures |r| <= |s| && r == s[..|r|]
    ensures r == [] || !IsSpace(r[|r| - 1])
    ensures AllSpace(s[|r|..])
    decreases |s|
  {
    if |s| > 0 && IsSpace(s[|s| - 1]) then
      var r := TrimEnd(s[..|s| - 1]);
      forall i | |r| <= i < |s| ensures IsSpace(s[i]) {
        if i < |s| - 1 {
          assert s[i] == s[..|s| - 1][|r|..][i - |r|];
        }
      }
      r
    else s
  }

  /** `s.trim()`: the result is `s` with a run of whitespace removed from each
      end; `TrimOfPadded` shows that this run is all the whitespace there is. */
  function Trim(s: string): (r: string)
    ensures |r| <= |s|
    ensures IsTrimmed(r)
    ensures AllSpace(s) <==> r == []
  {
    var t := TrimStart(s);
    TrimPieces(s, t, TrimEnd(t));
    TrimEnd(t)
  }

  /** Trimming only removes characters: nothing absent from `s` appears in its trim. */
  lemma TrimKeepsAbsent(s: string, c: char)
    requires c !in s
    ensures c !in Trim(s)
  {
    var t := TrimStart(s);
    DropKeepsAbsent(s, c, |s| - |t|);
    var r := TrimEnd(t);
    TakeKeepsAbsent(t, c, |r|);
    assert Trim(s) == r;
  }

  lemma DropKeepsAbsent(s: string, c: char, i: nat)
    requires i <= |s| && c !in s
    ensures c !in s[i..]
  {
    forall k | 0 <= k < |s| - i ensures s[i..][k] != c {
      assert s[i..][k] == s[i + k];
    }
  }

  lemma TakeKeepsAbsent(s: string, c: char, j: nat)
    requires j <= |s| && c !in s
    ensures c !in s[..j]
  {
    forall k | 0 <= k < j ensures s[..j][k] != c {
      assert s[..j][k] == s[k];
    }
  }

  lemma TrimPieces(s: string, t: string, r: string)
    requires t == TrimStart(s) && r == TrimEnd(t)
    ensures IsTrimmed(r)
    ensures AllSpace(s) <==> r == []
  {
    if r != [] {
      TrimKeepsNonSpace(s, t, r);
    } else {
      TrimOfBlank(s, t);
    }
  }

  lemma TrimKeepsNonSpace(s: string, t: string, r: string)
    requires t == TrimStart(s) && r == TrimEnd(t) && r != []
    ensures !IsSpace(r[0]) && !IsSpace(r[|r| - 1])
    ensures !AllSpace(s)
  {
    assert r[0] == t[0];
    assert t[0] == s[|s| - |t|];
  }

  lemma TrimOfBlank(s: string, t: string)
    requires t == TrimStart(s) && TrimEnd(t) == []
    ensures AllSpace(s)
  {
    var k := |s| - |t|;
    assert AllSpace(t) by { assert t[0..] == t; }
    assert AllSpace(s[..k]) && t == s[k..];
    forall i | 0 <= i < |s| ensures IsSpace(s[i]) {
      if i < k {
        assert s[i] == s[..k][i];
      } else {
        assert s[i] == t[i - k];
      }
    }
  }

  lemma {:induction false} TrimStartOfPadded(pre: string, r: string)
    requires AllSpace(pre)
    requires r == [] || !IsSpace(r[0])
    ensures TrimStart(pre + r) == r
    decreases |pre|
  {
    if pre != [] {
      assert (pre + r)[1..] == pre[1..] + r;
      TrimStartOfPadded(pre[1..], r);
    }
  }

  lemma {:induction false} TrimEndOfPadded(r: string, post: string)
    requires AllSpace(post)
    requires r == [] || !IsSpace(r[|r| - 1])
    ensures TrimEnd(r + post) == r
    decreases |post|
  {
    if post != [] {
      var post' := post[..|post| - 1];
      assert (r + post)[..|r + post| - 1] == r + post';
      TrimEndOfPadded(r, post');
    } else {
      assert r + post == r;
    }
  }

  /** Whitespace on either side of a trimmed string is exactly what `trim()`
      removes. */
  lemma TrimOfPadded(pre: string, r: string, post: string)
    requires AllSpace(pre) && AllSpace(post) && IsTrimmed(r)
    ensures Trim(pre + r + post) == r
  {
    if r == [] {
      assert pre + r + post == pre + post;
      TrimStartOfPadded(pre + post, []);
      assert pre + post + [] == pre + post;
    } else {
      assert pre + r + post == pre + (r + post);
      TrimStartOfPadded(pre, r + post);
      TrimEndOfPadded(r, post);
    }
  }

  // ---------------------------------------------------------------------------
  // split(c) and join(sep)

  /** `s.split(c)` for a one-character separator: the pieces between
      separators, including empty ones; the empty string gives `[""]`. */
  function Split(s: string, c: char): (parts: seq<string>)
    ensures |parts| >= 1
    ensures forall i | 0 <= i < |parts| :: c !in parts[i]
    decreases |s|
  {
    if s == [] then [""]
    else
      var rest := Split(s[1..], c);
      if s[0] == c then [""] + rest
      else [[s[0]] + rest[0]] + rest[1..]
  }

  /** `parts.join(sep)`. */
  function Join(parts: seq<string>, sep: string): string
    decreases |parts|
  {
    if |parts| == 0 then ""
    else if |parts| == 1 then parts[0]
    else parts[0] + sep + Join(parts[1..], sep)
  }

  lemma {:induction false} SplitWithoutSeparator(s: string, c: char)
    requires c !in s
    ensures Split(s, c) == [s]
    decreases |s|
  {
    if s != [] {
      SplitWithoutSeparator(s[1..], c);
      assert [s[0]] + s[1..] == s;
    }
  }

  lemma {:induction false} SplitAtFirst(a: string, c: char, b: string)
    requires c !in a
    ensures Split(a + [c] + b, c) == [a] + Split(b, c)
    decreases |a|
  {
    if a == [] {
      assert a + [c] + b == [c] + b;
      assert ([c] + b)[1..] == b;
    } else {
      assert (a + [c] + b)[1..] == a[1..] + [c] + b;
      SplitAtFirst(a[1..], c, b);
      assert [a[0]] + a[1..] == a;
    }
  }

  /** Splitting at a last separator ends with the text after it. */
  lemma {:induction false} SplitAtLast(a: string, c: char, b: string)
    requires c !in b
    ensures Split(a + [c] + b, c) == Split(a, c) + [b]
    decreases |a|
  {
    if a == [] {
      assert a + [c] + b == [c] + b;
      assert ([c] + b)[1..] == b;
      SplitWithoutSeparator(b, c);
    } else {
      assert (a + [c] + b)[1..] == a[1..] + [c] + b;
      SplitAtLast(a[1..], c, b);
      var rest := Split(a[1..], c);
      if a[0] != c {
        assert (rest + [b])[1..] == rest[1..] + [b];
      }
    }
  }

  /** Joining the pieces of a split with the separator gives the string back. */
  lemma {:induction false} JoinSplit(s: string, c: char)
    ensures Join(Split(s, c), [c]) == s
    decreases |s|
  {
    if s != [] {
      var rest := Split(s[1..], c);
      JoinSplit(s[1..], c);
      if s[0] == c {
        assert Join([""] + rest, [c]) == "" + [c] + Join(rest, [c]);
        assert [s[0]] + s[1..] == s;
      } else {
        var parts := [[s[0]] + rest[0]] + rest[1..];
        if |rest| == 1 {
          assert Join(parts, [c]) == [s[0]] + rest[0];
        } else {
          assert parts[1..] == rest[1..];
          assert Join(rest, [c]) == rest[0] + [c] + Join(rest[1..], [c]);
        }
        assert [s[0]] + s[1..] == s;
      }
    }
  }

  // ---------------------------------------------------------------------------
  // Decimal rendering of integers, as `${n}` prints them

  function DigitChar(d: nat): (c: char)
    requires d < 10
    ensures IsDigit(c)
  {
    "0123456789"[d]
  }

  function DigitValue(c: char): (d: nat)
    requires IsDigit(c)
    ensures d < 10 && DigitChar(d) == c
  {
    (c - '0') as nat
  }

  /** The shortest decimal numeral of `n`. */
  function NatToString(n: nat): (s: string)
    ensures s != [] && AllDigits(s)
    ensures |s| > 1 ==> s[0] != '0'
    decreases n
  {
    if n < 10 then [DigitChar(n)]
    else
      var s := NatToString(n / 10) + [DigitChar(n % 10)];
      assert s[0] == NatToString(n / 10)[0];
      s
  }

  /** `${n}` for an integer: a minus sign before the magnitude when negative. */
  function IntToString(n: int): (s: string)
    ensures s != []
    ensures (n < 0) <==> s[0] == '-'
  {
    if n < 0 then "-" + NatToString(-n) else NatToString(n)
  }

  /** The value of a string of decimal digits (the partner of NatToString). */
  function ParseNat(s: string): nat
    requires AllDigits(s)
    decreases |s|
  {
    if s == [] then 0
    else ParseNat(s[..|s| - 1]) * 10 + DigitValue(s[|s| - 1])
  }

  function ParseInt(s: string): int
    requires s != []
    requires if s[0] == '-' then AllDigits(s[1..]) else AllDigits(s)
  {
    if s[0] == '-' then -(ParseNat(s[1..]) as int) else ParseNat(s)
  }

  lemma {:induction false} ParseNatToString(n: nat)
    ensures ParseNat(NatToString(n)) == n
    decreases n
  {
    if n >= 10 {
      var s := NatToString(n);
      assert s[..|s| - 1] == NatToString(n / 10);
      ParseNatToString(n / 10);
    }
  }

  /** Rendering an integer and reading it back gives the same integer, so
      distinct numbers are printed differently. */
  lemma IntToStringRoundTrip(n: int)
    ensures var s := IntToString(n);
      s != [] && (if s[0] == '-' then AllDigits(s[1..]) else AllDigits(s)) && ParseInt(s) == n
  {
    if n < 0 {
      ParseNatToString(-n);
      assert IntToString(n)[1..] == NatToString(-n);
    } else {
      ParseNatToString(n);
    }
  }
}
