/**
 * The PHP string built-ins the core relies on, over ASCII: `strtolower`,
 * `strtoupper`, `trim`, `explode`, and decimal formatting (`%s`/`%d` of an
 * integer) with its inverse on digit strings.
 */
module Text {

  predicate IsDigit(c: char) {
    '0' <= c <= '9'
  }

  /** Every character is a decimal digit (stated from the last character back, as the digits are read). */
  predicate AllDigits(s: string) {
    |s| == 0 || (AllDigits(s[..|s| - 1]) && IsDigit(s[|s| - 1]))
  }

  /** `AllDigits` character by character. */
  lemma {:induction false} AllDigitsAt(s: string)
    ensures AllDigits(s) <==> forall i :: 0 <= i < |s| ==> IsDigit(s[i])
  {
    if |s| > 0 {
      AllDigitsAt(s[..|s| - 1]);
      assert forall i :: 0 <= i < |s| - 1 ==> s[..|s| - 1][i] == s[i];
    }
  }

  /** Two runs of digits joined are one run of digits, and only they are. */
  lemma AllDigitsConcat(a: string, b: string)
    ensures AllDigits(a + b) <==> AllDigits(a) && AllDigits(b)
  {
    AllDigitsAt(a);
    AllDigitsAt(b);
    AllDigitsAt(a + b);
    if AllDigits(a) && AllDigits(b) {
      assert forall i :: 0 <= i < |a + b| ==> IsDigit((a + b)[i]) by {
        forall i | 0 <= i < |a + b| ensures IsDigit((a + b)[i]) {
          if i >= |a| { assert (a + b)[i] == b[i - |a|]; }
        }
      }
    }
    if AllDigits(a + b) {
      assert forall i :: 0 <= i < |b| ==> IsDigit(b[i]) by {
        forall i | 0 <= i < |b| ensures IsDigit(b[i]) {
          assert (a + b)[|a| + i] == b[i];
        }
      }
      assert forall i :: 0 <= i < |a| ==> IsDigit(a[i]) by {
        forall i | 0 <= i < |a| ensures IsDigit(a[i]) {
          assert (a + b)[i] == a[i];
        }
      }
    }
  }

  /** Any slice of a run of digits is a run of digits. */
  lemma AllDigitsSlice(s: string, i: nat, j: nat)
    requires AllDigits(s) && i <= j <= |s|
    ensures AllDigits(s[i..j])
  {
    AllDigitsAt(s);
    AllDigitsAt(s[i..j]);
    assert forall k :: 0 <= k < j - i ==> s[i..j][k] == s[i + k];
  }

  function DigitValue(c: char): (d: nat)
    requires IsDigit(c)
    ensures d < 10
  {
    c as int - '0' as int
  }

  function DigitChar(d: nat): (c: char)
    requires d < 10
    ensures IsDigit(c) && DigitValue(c) == d
  {
    ('0' as int + d) as char
  }

  /** `strtolower` on one character: ASCII letters only. */
  function LowerChar(c: char): char {
    if 'A' <= c <= 'Z' then (c as int + 32) as char else c
  }

  /** `strtoupper` on one character: ASCII letters only. */
  function UpperChar(c: char): char {
    if 'a' <= c <= 'z' then (c as int - 32) as char else c
  }

  function ToLower(s: string): (r: string)
    ensures |r| == |s| && forall i :: 0 <= i < |s| ==> r[i] == LowerChar(s[i])
  {
    if |s| == 0 then [] else [LowerChar(s[0])] + ToLower(s[1..])
  }

  function ToUpper(s: string): (r: string)
    ensures |r| == |s| && forall i :: 0 <= i < |s| ==> r[i] == UpperChar(s[i])
  {
    if |s| == 0 then [] else [UpperChar(s[0])] + ToUpper(s[1..])
  }

  /** The characters PHP's `trim` strips by default: space, tab, LF, CR, NUL and vertical tab. */
  predicate IsTrimmable(c: char) {
    c == ' ' || c == '\t' || c == '\n' || c == '\r' || c as int == 0 || c as int == 11
  }

  function TrimLeft(s: string): (r: string)
    ensures |r| <= |s| && r == s[|s| - |r|..]
    ensures |r| > 0 ==> !IsTrimmable(r[0])
    ensures forall i :: 0 <= i < |s| - |r| ==> IsTrimmable(s[i])
  {
    if |s| > 0 && IsTrimmable(s[0]) then
      var r := TrimLeft(s[1..]);
      assert s[1..][|s| - 1 - |r|..] == s[|s| - |r|..];
      assert forall i :: 0 <= i < |s| - |r| ==> IsTrimmable(s[i]) by {
        forall i | 0 <= i < |s| - |r| ensures IsTrimmable(s[i]) {
          if i > 0 { assert s[i] == s[1..][i - 1]; }
        }
      }
      r
    else s
  }

  function TrimRight(s: string): (r: string)
    ensures |r| <= |s| && r == s[..|r|]
    ensures |r| > 0 ==> !IsTrimmable(r[|r| - 1])
    ensures forall i :: |r| <= i < |s| ==> IsTrimmable(s[i])
  {
    if |s| > 0 && IsTrimmable(s[|s| - 1]) then
      var r := TrimRight(s[..|s| - 1]);
      assert s[..|s| - 1][..|r|] == s[..|r|];
      assert forall i :: |r| <= i < |s| ==> IsTrimmable(s[i]) by {
        forall i | |r| <= i < |s| ensures IsTrimmable(s[i]) {
          if i < |s| - 1 { assert s[i] == s[..|s| - 1][i]; }
        }
      }
      r
    else s
  }

  /** PHP `trim`: strip trimmable characters from both ends. */
  function Trim(s: string): string {
    TrimRight(TrimLeft(s))
  }

  /** Every character of `s` is one `trim` strips. */
  predicate AllTrimmable(s: string) {
    forall i :: 0 <= i < |s| ==> IsTrimmable(s[i])
  }

  /** Trimming from the left removes a leading run of strippable characters and nothing after it. */
  lemma {:induction false} TrimLeftPrefix(pre: string, s: string)
    requires AllTrimmable(pre)
    ensures TrimLeft(pre + s) == TrimLeft(s)
  {
    if |pre| > 0 {
      assert (pre + s)[0] == pre[0] && IsTrimmable(pre[0]);
      assert (pre + s)[1..] == pre[1..] + s;
      assert AllTrimmable(pre[1..]) by {
        forall i | 0 <= i < |pre| - 1 ensures IsTrimmable(pre[1..][i]) {
          assert pre[1..][i] == pre[i + 1];
        }
      }
      TrimLeftPrefix(pre[1..], s);
    } else {
      assert pre + s == s;
    }
  }

  /** Trimming from the right removes a trailing run of strippable characters and nothing before it. */
  lemma {:induction false} TrimRightSuffix(s: string, post: string)
    requires AllTrimmable(post)
    ensures TrimRight(s + post) == TrimRight(s)
  {
    if |post| > 0 {
      var p := post[..|post| - 1];
      assert (s + post)[|s + post| - 1] == post[|post| - 1];
      assert (s + post)[..|s + post| - 1] == s + p;
      assert AllTrimmable(p) by {
        forall i | 0 <= i < |p| ensures IsTrimmable(p[i]) {
          assert p[i] == post[i];
        }
      }
      TrimRightSuffix(s, p);
    } else {
      assert s + post == s;
    }
  }

  /** Trimming from the left stops at the first kept character, so a strippable tail stays. */
  lemma {:induction false} TrimLeftAppend(s: string, post: string)
    requires AllTrimmable(post)
    ensures TrimLeft(s + post) == if TrimLeft(s) == [] then [] else TrimLeft(s) + post
  {
    if |s| == 0 {
      assert post == [] + post;
      TrimLeftPrefix(post, []);
      assert post + [] == post;
    } else if IsTrimmable(s[0]) {
      assert (s + post)[1..] == s[1..] + post;
      TrimLeftAppend(s[1..], post);
    }
  }

  /** `trim` ignores strippable characters around the text. */
  lemma TrimPadding(pre: string, s: string, post: string)
    requires AllTrimmable(pre) && AllTrimmable(post)
    ensures Trim(pre + s + post) == Trim(s)
  {
    TrimLeftPadded(pre, s, post);
    TrimRightPadded(TrimLeft(pre + s + post), TrimLeft(s), post);
  }

  /** Trimming a padded string from the left drops the leading padding and keeps the trailing one. */
  lemma TrimLeftPadded(pre: string, s: string, post: string)
    requires AllTrimmable(pre) && AllTrimmable(post)
    ensures TrimLeft(pre + s + post) == if TrimLeft(s) == [] then [] else TrimLeft(s) + post
  {
    ConcatAssociative(pre, s, post);
    TrimLeftPrefix(pre, s + post);
    TrimLeftAppend(s, post);
  }

  lemma ConcatAssociative(a: string, b: string, c: string)
    ensures a + b + c == a + (b + c)
  {
  }

  /** Trimming from the right drops the strippable tail a left trim kept. */
  lemma TrimRightPadded(x: string, left: string, post: string)
    requires AllTrimmable(post)
    requires x == if left == [] then [] else left + post
    ensures TrimRight(x) == TrimRight(left)
  {
    if left != [] {
      TrimRightSuffix(left, post);
    }
  }

  /** `a` and `b` differ at most in the case of their letters. */
  predicate SameUpToCase(a: string, b: string) {
    |a| == |b| && forall i :: 0 <= i < |a| ==> LowerChar(a[i]) == LowerChar(b[i])
  }

  /** Characters equal up to case are both strippable or both kept. */
  lemma TrimmableUpToCase(c: char, d: char)
    requires LowerChar(c) == LowerChar(d)
    ensures IsTrimmable(c) <==> IsTrimmable(d)
  {
  }

  lemma {:induction false} TrimLeftUpToCase(a: string, b: string)
    requires SameUpToCase(a, b)
    ensures SameUpToCase(TrimLeft(a), TrimLeft(b))
  {
    if |a| > 0 {
      TrimmableUpToCase(a[0], b[0]);
      if IsTrimmable(a[0]) {
        TrimLeftUpToCase(a[1..], b[1..]);
      }
    }
  }

  lemma {:induction false} TrimRightUpToCase(a: string, b: string)
    requires SameUpToCase(a, b)
    ensures SameUpToCase(TrimRight(a), TrimRight(b))
  {
    if |a| > 0 {
      TrimmableUpToCase(a[|a| - 1], b[|b| - 1]);
      if IsTrimmable(a[|a| - 1]) {
        TrimRightUpToCase(a[..|a| - 1], b[..|b| - 1]);
      }
    }
  }

  /** Strings equal up to case trim and lower-case to the same string. */
  lemma LowerTrimUpToCase(a: string, b: string)
    requires SameUpToCase(a, b)
    ensures ToLower(Trim(a)) == ToLower(Trim(b))
  {
    TrimLeftUpToCase(a, b);
    TrimRightUpToCase(TrimLeft(a), TrimLeft(b));
  }

  /** Upper-casing changes only the case of letters. */
  lemma UpperIsSameUpToCase(s: string)
    ensures SameUpToCase(ToUpper(s), s)
  {
  }

  /** Number of occurrences of `c` in `s`. */
  function Count(s: string, c: char): nat {
    if |s| == 0 then 0 else (if s[0] == c then 1 else 0) + Count(s[1..], c)
  }

  /**
   * PHP `explode(sep, s)`: the pieces between separators, so always one
   * piece more than there are separators (the empty string gives `[""]`).
   */
  function Split(s: string, sep: char): (pieces: seq<string>)
    ensures |pieces| == Count(s, sep) + 1
    ensures forall k :: 0 <= k < |pieces| ==> sep !in pieces[k]
  {
    if |s| == 0 then [""]
    else if s[0] == sep then [""] + Split(s[1..], sep)
    else
      var rest := Split(s[1..], sep);
      [[s[0]] + rest[0]] + rest[1..]
  }

  /** Decimal digits of `n` with no leading zero, as `sprintf('%s', $n)` writes an integer. */
  function NatToDecimal(n: nat): (s: string)
    ensures |s| > 0 && AllDigits(s)
    ensures (s[0] == '0') <==> n == 0
  {
    if n < 10 then [DigitChar(n)] else NatToDecimal(n / 10) + [DigitChar(n % 10)]
  }

  /** The number a string of decimal digits denotes (leading zeros allowed). */
  function DecimalValue(s: string): nat
    requires AllDigits(s)
  {
    if |s| == 0 then 0 else 10 * DecimalValue(s[..|s| - 1]) + DigitValue(s[|s| - 1])
  }

  /** Reading back the decimal form of `n` gives `n`. */
  lemma {:induction false} DecimalRoundTrip(n: nat)
    ensures DecimalValue(NatToDecimal(n)) == n
  {
    if n >= 10 {
      DecimalRoundTrip(n / 10);
      var s := NatToDecimal(n);
      assert s[..|s| - 1] == NatToDecimal(n / 10);
    }
  }

  /** Distinct numbers have distinct decimal forms. */
  lemma DecimalInjective(m: nat, n: nat)
    requires m != n
    ensures NatToDecimal(m) != NatToDecimal(n)
  {
    DecimalRoundTrip(m);
    DecimalRoundTrip(n);
  }
}
