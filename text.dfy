/** The few Python `str` operations the engine relies on: `strip()`, `lower()`,
    `isdigit()`, `int()` of a digit string, `str()` of an int and `split(",")`.
    Characters are restricted to ASCII: whitespace is the ASCII whitespace that
    `str.isspace()` accepts and only `A`..`Z` have a lower-case form. */
module Text {

  /** ASCII characters that Python's `str.strip()` removes. */
  predicate IsSpace(c: char) {
    c == ' ' || (9 <= c as int <= 13) || (28 <= c as int <= 31)
  }

  predicate IsDigit(c: char) {
    '0' <= c <= '9'
  }

  /** Python's `s.isdigit()`: non-empty and every character a decimal digit. */
  predicate IsDigits(s: string) {
    |s| > 0 && forall i :: 0 <= i < |s| ==> IsDigit(s[i])
  }

  predicate AllSpace(s: string) {
    forall i :: 0 <= i < |s| ==> IsSpace(s[i])
  }

  /** Length of the longest prefix of `s` made of decimal digits. */
  function LeadingDigitCount(s: string): (k: nat)
    ensures k <= |s|
    ensures forall i :: 0 <= i < k ==> IsDigit(s[i])
    ensures k < |s| ==> !IsDigit(s[k])
  {
    if |s| > 0 && IsDigit(s[0]) then 1 + LeadingDigitCount(s[1..]) else 0
  }

  function DigitValue(c: char): (d: nat)
    requires IsDigit(c)
    ensures d < 10
  {
    c as int - '0' as int
  }

  function DigitChar(d: nat): (c: char)
    requires d < 10
    ensures IsDigit(c) && DigitValue(c) == d
  {
    ('0' as int + d) as char
  }

  /** Python's `int(s)` on a string of decimal digits (leading zeros allowed). */
  function DigitsValue(s: string): nat
    requires forall i :: 0 <= i < |s| ==> IsDigit(s[i])
  {
    if s == [] then 0 else 10 * DigitsValue(s[..|s| - 1]) + DigitValue(s[|s| - 1])
  }

  /** Python's `str(n)` for a non-negative int. */
  function NatToString(n: nat): (s: string)
    ensures IsDigits(s)
  {
    if n < 10 then [DigitChar(n)] else NatToString(n / 10) + [DigitChar(n % 10)]
  }

  /** Python's `str(n)` for any int. */
  function IntToString(n: int): string {
    if n < 0 then "-" + NatToString(-n) else NatToString(n)
  }

  lemma {:induction false} NatToStringRoundTrip(n: nat)
    ensures DigitsValue(NatToString(n)) == n
  {
    var s := NatToString(n);
    if n >= 10 {
      NatToStringRoundTrip(n / 10);
      assert s[..|s| - 1] == NatToString(n / 10);
    }
  }

  /** Python's `str.lower()` on one character. */
  function LowerChar(c: char): (l: char)
    ensures IsSpace(l) <==> IsSpace(c)
    ensures IsDigit(l) <==> IsDigit(c)
    ensures !('A' <= l <= 'Z')
    ensures !('A' <= c <= 'Z') ==> l == c
  {
    if 'A' <= c <= 'Z' then (c as int - 'A' as int + 'a' as int) as char else c
  }

  /** Python's `str.lower()`. */
  function Lower(s: string): (r: string)
    ensures |r| == |s|
    ensures forall i :: 0 <= i < |s| ==> r[i] == LowerChar(s[i])
  {
    seq(|s|, i requires 0 <= i < |s| => LowerChar(s[i]))
  }

  /** `lower()` leaves no upper-case letter, and it leaves a text unchanged
      exactly when the text has none. */
  lemma LowerUnchanged(s: string)
    ensures forall i :: 0 <= i < |s| ==> !('A' <= Lower(s)[i] <= 'Z')
    ensures Lower(s) == s <==> forall i :: 0 <= i < |s| ==> !('A' <= s[i] <= 'Z')
  {
    if forall i :: 0 <= i < |s| ==> !('A' <= s[i] <= 'Z') {
      assert forall i :: 0 <= i < |s| ==> Lower(s)[i] == s[i];
    }
  }

  /** `s.lstrip()`: drops the longest all-whitespace prefix. */
  function TrimLeft(s: string): (r: string)
    ensures |r| <= |s|
    ensures |r| > 0 ==> !IsSpace(r[0])
  {
    if |s| > 0 && IsSpace(s[0]) then TrimLeft(s[1..]) else s
  }

  /** What `lstrip()` keeps is a suffix, and what it drops is whitespace. */
  lemma {:induction false} TrimLeftSuffix(s: string)
    ensures TrimLeft(s) == s[|s| - |TrimLeft(s)|..]
    ensures AllSpace(s[..|s| - |TrimLeft(s)|])
  {
    if |s| > 0 && IsSpace(s[0]) {
      TrimLeftSuffix(s[1..]);
      var k := |s| - |TrimLeft(s)|;
      assert s[1..][k - 1..] == s[k..];
      forall i | 0 <= i < k ensures IsSpace(s[i]) {
        if i > 0 {
          assert s[1..][..k - 1][i - 1] == s[i];
        }
      }
    }
  }

  /** `s.rstrip()`: drops the longest all-whitespace suffix. */
  function TrimRight(s: string): (r: string)
    ensures |r| <= |s|
    ensures |r| > 0 ==> !IsSpace(r[|r| - 1])
  {
    if |s| > 0 && IsSpace(s[|s| - 1]) then TrimRight(s[..|s| - 1]) else s
  }

  /** What `rstrip()` keeps is a prefix, and what it drops is whitespace. */
  lemma {:induction false} TrimRightPrefix(s: string)
    ensures TrimRight(s) == s[..|TrimRight(s)|]
    ensures AllSpace(s[|TrimRight(s)|..])
  {
    if |s| > 0 && IsSpace(s[|s| - 1]) {
      var init := s[..|s| - 1];
      TrimRightPrefix(init);
      var n := |TrimRight(s)|;
      assert init[..n] == s[..n];
      forall i | n <= i < |s| ensures IsSpace(s[i]) {
        if i < |s| - 1 {
          assert init[n..][i - n] == s[i];
        }
      }
    }
  }

  /** Python's `s.strip()`: neither starts nor ends with whitespace. */
  function Strip(s: string): (r: string)
    ensures |r| <= |s|
    ensures |r| > 0 ==> !IsSpace(r[0]) && !IsSpace(r[|r| - 1])
  {
    var l := TrimLeft(s);
    var r := TrimRight(l);
    TrimRightPrefix(l);
    assert |r| > 0 ==> r[0] == l[0];
    r
  }

  /** What `strip()` removes is whitespace at both ends and nothing else: the
      result is the infix of `s` between an all-whitespace prefix and an
      all-whitespace suffix. */
  lemma StripRemovesOnlySpace(s: string)
    ensures var r, k := Strip(s), |s| - |TrimLeft(s)|;
      && k + |r| <= |s| && r == s[k..k + |r|]
      && AllSpace(s[..k]) && AllSpace(s[k + |r|..])
  {
    StripInfix(s);
    StripSuffixSpace(s);
  }

  lemma StripInfix(s: string)
    ensures var r, k := Strip(s), |s| - |TrimLeft(s)|;
      k + |r| <= |s| && r == s[k..k + |r|]
  {
    var l := TrimLeft(s);
    var k := |s| - |l|;
    var r := TrimRight(l);
    TrimLeftSuffix(s);
    TrimRightPrefix(l);
    assert Strip(s) == r;
    assert l[..|r|] == s[k..k + |r|];
  }

  lemma StripSuffixSpace(s: string)
    ensures var r, k := Strip(s), |s| - |TrimLeft(s)|;
      k + |r| <= |s| && AllSpace(s[k + |r|..])
  {
    var l := TrimLeft(s);
    var k := |s| - |l|;
    var n := |Strip(s)|;
    TrimLeftSuffix(s);
    TrimRightPrefix(l);
    assert s[k + n..] == l[n..];
  }

  /** Text that neither starts nor ends with whitespace is its own strip. */
  lemma StripOfStripped(s: string)
    requires |s| > 0 ==> !IsSpace(s[0]) && !IsSpace(s[|s| - 1])
    ensures Strip(s) == s
  {
    if |s| > 0 {
      assert TrimLeft(s) == s;
      assert TrimRight(s) == s;
    }
  }

  lemma {:induction false} TrimLeftPadded(w: string, s: string)
    requires AllSpace(w)
    ensures TrimLeft(w + s) == TrimLeft(s)
  {
    if w == [] {
      assert w + s == s;
    } else {
      assert (w + s)[0] == w[0];
      assert (w + s)[1..] == w[1..] + s;
      assert AllSpace(w[1..]) by {
        forall i | 0 <= i < |w| - 1 ensures IsSpace(w[1..][i]) {
          assert w[1..][i] == w[i + 1];
        }
      }
      TrimLeftPadded(w[1..], s);
    }
  }

  lemma {:induction false} TrimRightPadded(s: string, w: string)
    requires AllSpace(w)
    ensures TrimRight(s + w) == TrimRight(s)
  {
    if w == [] {
      assert s + w == s;
    } else {
      assert (s + w)[|s + w| - 1] == w[|w| - 1];
      assert (s + w)[..|s + w| - 1] == s + w[..|w| - 1];
      var init := w[..|w| - 1];
      assert AllSpace(init) by {
        forall i | 0 <= i < |init| ensures IsSpace(init[i]) {
          assert init[i] == w[i];
        }
      }
      TrimRightPadded(s, init);
    }
  }

  lemma {:induction false} TrimLeftAppend(s: string, w: string)
    requires !AllSpace(s)
    ensures TrimLeft(s + w) == TrimLeft(s) + w
  {
    assert |s| > 0;
    if IsSpace(s[0]) {
      assert (s + w)[1..] == s[1..] + w;
      assert !AllSpace(s[1..]) by {
        var i :| 0 <= i < |s| && !IsSpace(s[i]);
        assert s[1..][i - 1] == s[i];
      }
      TrimLeftAppend(s[1..], w);
    }
  }

  lemma {:induction false} TrimRightOfBlank(s: string)
    requires AllSpace(s)
    ensures TrimRight(s) == []
  {
    if s != [] {
      TrimRightOfBlank(s[..|s| - 1]);
    }
  }

  lemma TrimLeftOfBlank(s: string)
    requires AllSpace(s)
    ensures TrimLeft(s) == []
  {
  }

  /** Surrounding whitespace does not change what `strip()` returns. */
  lemma StripPadded(w1: string, s: string, w2: string)
    requires AllSpace(w1) && AllSpace(w2)
    ensures Strip(w1 + s + w2) == Strip(s)
  {
    var padded := w1 + s + w2;
    assert padded == w1 + (s + w2);
    TrimLeftPadded(w1, s + w2);
    assert Strip(padded) == TrimRight(TrimLeft(s + w2));
    assert Strip(s) == TrimRight(TrimLeft(s));
    if AllSpace(s) {
      assert AllSpace(s + w2);
      TrimLeftOfBlank(s + w2);
      TrimLeftOfBlank(s);
    } else {
      TrimLeftAppend(s, w2);
      TrimRightPadded(TrimLeft(s), w2);
    }
  }

  lemma {:induction false} LowerTrimLeft(s: string)
    ensures TrimLeft(Lower(s)) == Lower(TrimLeft(s))
  {
    if |s| > 0 && IsSpace(s[0]) {
      assert Lower(s)[1..] == Lower(s[1..]);
      LowerTrimLeft(s[1..]);
    }
  }

  lemma {:induction false} LowerTrimRight(s: string)
    ensures TrimRight(Lower(s)) == Lower(TrimRight(s))
  {
    if |s| > 0 && IsSpace(s[|s| - 1]) {
      assert Lower(s)[..|s| - 1] == Lower(s[..|s| - 1]);
      LowerTrimRight(s[..|s| - 1]);
    }
  }

  /** `s.strip().lower()` and `s.lower().strip()` agree. */
  lemma LowerStrip(s: string)
    ensures Strip(Lower(s)) == Lower(Strip(s))
  {
    LowerTrimLeft(s);
    LowerTrimRight(TrimLeft(s));
  }

  lemma LowerIdempotent(s: string)
    ensures Lower(Lower(s)) == Lower(s)
  {
  }

  function CountChar(s: string, c: char): nat {
    if s == [] then 0 else (if s[0] == c then 1 else 0) + CountChar(s[1..], c)
  }

  /** Python's `s.split(sep)` for a one-character separator: the fields between
      separators, in order, one more than the separators. */
  function Split(s: string, sep: char): (fields: seq<string>)
    ensures |fields| == CountChar(s, sep) + 1
  {
    if s == [] then [[]]
    else
      var rest := Split(s[1..], sep);
      if s[0] == sep then [[]] + rest else [[s[0]] + rest[0]] + rest[1..]
  }

  /** No field contains the separator. */
  lemma {:induction false} SplitFieldsOmitSeparator(s: string, sep: char)
    ensures forall i, j :: 0 <= i < |Split(s, sep)| && 0 <= j < |Split(s, sep)[i]| ==> Split(s, sep)[i][j] != sep
  {
    if s != [] {
      SplitFieldsOmitSeparator(s[1..], sep);
      var rest := Split(s[1..], sep);
      var fields := Split(s, sep);
      if s[0] == sep {
        forall i, j | 0 <= i < |fields| && 0 <= j < |fields[i]| ensures fields[i][j] != sep {
          assert fields[i] == ([[]] + rest)[i];
          if i > 0 {
            assert fields[i] == rest[i - 1];
          }
        }
      } else {
        forall i, j | 0 <= i < |fields| && 0 <= j < |fields[i]| ensures fields[i][j] != sep {
          if i == 0 {
            assert fields[0] == [s[0]] + rest[0];
            if j > 0 {
              assert fields[0][j] == rest[0][j - 1];
            }
          } else {
            assert fields[i] == rest[i];
          }
        }
      }
    }
  }

  /** Python's `sep.join(fields)`. */
  function Join(fields: seq<string>, sep: char): string {
    if fields == [] then []
    else if |fields| == 1 then fields[0]
    else fields[0] + [sep] + Join(fields[1..], sep)
  }

  /** Joining the fields back with the separator gives the original text. */
  lemma {:induction false} SplitJoin(s: string, sep: char)
    ensures Join(Split(s, sep), sep) == s
  {
    if s != [] {
      var rest := Split(s[1..], sep);
      SplitJoin(s[1..], sep);
      if s[0] == sep {
        assert Split(s, sep)[1..] == rest;
      } else if |rest| == 1 {
        assert Split(s, sep) == [[s[0]] + rest[0]];
      } else {
        var fs := Split(s, sep);
        assert fs[1..] == rest[1..];
        assert Join(rest, sep) == rest[0] + [sep] + Join(rest[1..], sep);
      }
    }
  }

  /** Text without the separator is a single field. */
  lemma SplitWithout(s: string, sep: char)
    requires forall i :: 0 <= i < |s| ==> s[i] != sep
    ensures Split(s, sep) == [s]
  {
    SplitJoin(s, sep);
    NoSeparatorCount(s, sep);
  }

  lemma {:induction false} NoSeparatorCount(s: string, sep: char)
    requires forall i :: 0 <= i < |s| ==> s[i] != sep
    ensures CountChar(s, sep) == 0
  {
    if s != [] {
      NoSeparatorCount(s[1..], sep);
    }
  }

  /** Splitting at a separator splits the field list there. */
  lemma {:induction false} SplitAppend(a: string, b: string, sep: char)
    ensures Split(a + [sep] + b, sep) == Split(a, sep) + Split(b, sep)
  {
    if a == [] {
      assert a + [sep] + b == [sep] + b;
      SplitCons(sep, b, sep);
    } else {
      SplitAppend(a[1..], b, sep);
      SplitAppendStep(a[0], a[1..], b, sep);
      assert [a[0]] + a[1..] == a;
    }
  }

  /** The first character either ends the first field or joins it. */
  lemma SplitCons(c: char, t: string, sep: char)
    ensures Split([c] + t, sep) ==
      if c == sep then [[]] + Split(t, sep) else [[c] + Split(t, sep)[0]] + Split(t, sep)[1..]
  {
    assert ([c] + t)[1..] == t;
  }

  lemma SplitAppendStep(c: char, t: string, b: string, sep: char)
    requires Split(t + [sep] + b, sep) == Split(t, sep) + Split(b, sep)
    ensures Split([c] + t + [sep] + b, sep) == Split([c] + t, sep) + Split(b, sep)
  {
    assert [c] + t + [sep] + b == [c] + (t + [sep] + b);
    SplitCons(c, t + [sep] + b, sep);
    SplitCons(c, t, sep);
    ConsFieldAppend(c, sep, Split(t, sep), Split(b, sep));
  }

  lemma ConsFieldAppend(c: char, sep: char, left: seq<string>, right: seq<string>)
    requires |left| > 0
    ensures (if c == sep then [[]] + (left + right) else [[c] + (left + right)[0]] + (left + right)[1..]) ==
      (if c == sep then [[]] + left else [[c] + left[0]] + left[1..]) + right
  {
    if c == sep {
      PrependAppend([], left, right);
    } else {
      var first := [c] + left[0];
      assert (left + right)[0] == left[0];
      assert (left + right)[1..] == left[1..] + right;
      PrependAppend(first, left[1..], right);
    }
  }

  lemma PrependAppend<T>(x: T, l: seq<T>, r: seq<T>)
    ensures [x] + (l + r) == ([x] + l) + r
  {
  }
}
