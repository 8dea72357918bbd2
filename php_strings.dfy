/**
 * The PHP and WordPress string primitives the plugin relies on:
 * `strpos(...) !== false`, `str_replace`, `substr_count`, PHP truthiness of a string,
 * `trailingslashit` and the decimal rendering of an integer.
 */
module PhpStrings {

  /** `x` occurs in `s` starting at position `i`. */
  predicate OccursAt(s: string, x: string, i: nat) {
    i + |x| <= |s| && s[i..i + |x|] == x
  }

  /** `strpos($s, $x) !== false`: `x` occurs somewhere in `s`. */
  predicate Contains(s: string, x: string) {
    exists i: nat | i <= |s| :: OccursAt(s, x, i)
  }

  /**
   * PHP `str_replace($search, $replace, $subject)` for string arguments: scan the
   * subject left to right and replace every non-overlapping occurrence of `search`.
   * An empty search string leaves the subject as it is.
   */
  function ReplaceAll(subject: string, search: string, replace: string): string
    decreases |subject|
  {
    if search == [] || |subject| < |search| then subject
    else if subject[..|search|] == search then replace + ReplaceAll(subject[|search|..], search, replace)
    else [subject[0]] + ReplaceAll(subject[1..], search, replace)
  }

  /**
   * PHP `substr_count($haystack, $needle)`: the number of non-overlapping occurrences,
   * counted left to right. PHP refuses an empty needle.
   */
  function SubstrCount(haystack: string, needle: string): nat
    requires needle != []
    decreases |haystack|
  {
    if |haystack| < |needle| then 0
    else if haystack[..|needle|] == needle then 1 + SubstrCount(haystack[|needle|..], needle)
    else SubstrCount(haystack[1..], needle)
  }

  /** PHP truthiness of a string: only "" and "0" are falsy. */
  predicate Truthy(s: string) {
    s != "" && s != "0"
  }

  lemma ContainsShift(s: string, x: string)
    requires |s| > 0
    ensures Contains(s, x) <==> OccursAt(s, x, 0) || Contains(s[1..], x)
  {
    if Contains(s, x) && !OccursAt(s, x, 0) {
      var i: nat :| i <= |s| && OccursAt(s, x, i);
      assert i > 0;
      assert s[1..][i - 1..i - 1 + |x|] == s[i..i + |x|];
      assert OccursAt(s[1..], x, i - 1);
    }
    if Contains(s[1..], x) {
      var i: nat :| i <= |s[1..]| && OccursAt(s[1..], x, i);
      assert s[1..][i..i + |x|] == s[i + 1..i + 1 + |x|];
      assert OccursAt(s, x, i + 1);
    }
  }

  lemma ContainsShort(s: string, x: string)
    requires |s| < |x|
    ensures !Contains(s, x)
  {
  }

  /** A subject without any occurrence of the search string comes back unchanged. */
  lemma {:induction false} ReplaceAllAbsent(s: string, x: string, r: string)
    requires !Contains(s, x)
    ensures ReplaceAll(s, x, r) == s
    decreases |s|
  {
    if x != [] && |s| >= |x| {
      assert !OccursAt(s, x, 0);
      ContainsShift(s, x);
      ReplaceAllAbsent(s[1..], x, r);
    }
  }

  /** A prefix that lacks the search string's first character is copied through unchanged. */
  lemma {:induction false} ReplaceAllSkip(a: string, b: string, x: string, r: string)
    requires x != [] && x[0] !in a
    ensures ReplaceAll(a + b, x, r) == a + ReplaceAll(b, x, r)
    decreases |a|
  {
    if a != [] {
      var s := a + b;
      assert s[0] == a[0];
      assert s[1..] == a[1..] + b;
      ReplaceAllSkip(a[1..], b, x, r);
      if |s| >= |x| {
        assert s[..|x|] != x by {
          assert s[..|x|][0] == a[0];
        }
        calc {
          ReplaceAll(s, x, r);
          [s[0]] + ReplaceAll(s[1..], x, r);
          [a[0]] + (a[1..] + ReplaceAll(b, x, r));
          { assert [a[0]] + a[1..] == a; }
          a + ReplaceAll(b, x, r);
        }
      } else {
        assert ReplaceAll(b, x, r) == b;
      }
    } else {
      assert a + b == b;
    }
  }

  /** Replacing a string by itself changes nothing. */
  lemma {:induction false} ReplaceAllSame(s: string, x: string)
    ensures ReplaceAll(s, x, x) == s
    decreases |s|
  {
    if x != [] && |s| >= |x| {
      if s[..|x|] == x {
        ReplaceAllSame(s[|x|..], x);
        assert x + s[|x|..] == s;
      } else {
        ReplaceAllSame(s[1..], x);
        assert [s[0]] + s[1..] == s;
      }
    }
  }

  /** A replacement no longer than the search string never lengthens the subject. */
  lemma {:induction false} ReplaceAllShrinks(s: string, x: string, r: string)
    requires |r| <= |x|
    ensures |ReplaceAll(s, x, r)| <= |s|
    decreases |s|
  {
    if x != [] && |s| >= |x| {
      if s[..|x|] == x {
        ReplaceAllShrinks(s[|x|..], x, r);
      } else {
        ReplaceAllShrinks(s[1..], x, r);
      }
    }
  }

  /**
   * Each of the `SubstrCount(s, x)` occurrences trades `|x|` characters for `|r|`,
   * and nothing else changes length.
   */
  lemma {:induction false} ReplaceAllLength(s: string, x: string, r: string)
    requires x != []
    ensures |ReplaceAll(s, x, r)| + SubstrCount(s, x) * |x| == |s| + SubstrCount(s, x) * |r|
    decreases |s|
  {
    if |s| >= |x| {
      if s[..|x|] == x {
        var rest := s[|x|..];
        ReplaceAllLength(rest, x, r);
        var k := SubstrCount(rest, x);
        assert ReplaceAll(s, x, r) == r + ReplaceAll(rest, x, r);
        assert SubstrCount(s, x) == 1 + k;
        MulSucc(k, |x|);
        MulSucc(k, |r|);
      } else {
        ReplaceAllLength(s[1..], x, r);
      }
    }
  }

  lemma MulSucc(k: nat, a: nat)
    ensures (1 + k) * a == a + k * a
  {
  }

  /** With a replacement no longer than the search string, each occurrence shortens the subject by the difference. */
  lemma ReplaceAllShortening(s: string, x: string, r: string)
    requires x != [] && |r| <= |x|
    ensures |ReplaceAll(s, x, r)| == |s| - SubstrCount(s, x) * (|x| - |r|)
  {
  }

  /** `substr_count` is zero exactly when `strpos` finds nothing. */
  lemma {:induction false} SubstrCountZeroIff(s: string, x: string)
    requires x != []
    ensures SubstrCount(s, x) == 0 <==> !Contains(s, x)
    decreases |s|
  {
    if |s| < |x| {
      ContainsShort(s, x);
    } else {
      ContainsShift(s, x);
      if s[..|x|] == x {
        assert OccursAt(s, x, 0);
      } else {
        SubstrCountZeroIff(s[1..], x);
      }
    }
  }

  /** A strictly shorter replacement of a string that occurs strictly shortens the subject. */
  lemma {:induction false} ReplaceAllStrictlyShrinks(s: string, x: string, r: string)
    requires |r| < |x| && Contains(s, x)
    ensures |ReplaceAll(s, x, r)| < |s|
    decreases |s|
  {
    if |s| < |x| {
      ContainsShort(s, x);
    } else {
      ContainsShift(s, x);
      if s[..|x|] == x {
        ReplaceAllShrinks(s[|x|..], x, r);
      } else {
        ReplaceAllStrictlyShrinks(s[1..], x, r);
      }
    }
  }

  /** A single-character needle occurs when the character is in the string. */
  lemma ContainsChar(s: string, c: char)
    ensures Contains(s, [c]) <==> c in s
  {
    if c in s {
      var i :| 0 <= i < |s| && s[i] == c;
      assert OccursAt(s, [c], i);
    }
    if Contains(s, [c]) {
      var i: nat :| i <= |s| && OccursAt(s, [c], i);
      assert s[i] == s[i..i + 1][0];
    }
  }

  /** `substr_count($s, '/') >= 1` holds exactly when `s` holds a slash. */
  lemma SubstrCountSlash(s: string)
    ensures SubstrCount(s, "/") >= 1 <==> '/' in s
  {
    SubstrCountZeroIff(s, "/");
    ContainsChar(s, '/');
  }

  predicate IsSlash(c: char) {
    c == '/' || c == '\\'
  }

  /**
   * WordPress `untrailingslashit`, `rtrim($s, '/\\')`: the longest prefix of `s`
   * that does not end in a forward or backward slash.
   */
  function UntrailingSlashIt(s: string): (r: string)
    ensures r <= s
    ensures r == [] || !IsSlash(r[|r| - 1])
    ensures forall i | |r| <= i < |s| :: IsSlash(s[i])
    decreases |s|
  {
    if s != [] && IsSlash(s[|s| - 1]) then UntrailingSlashIt(s[..|s| - 1]) else s
  }

  /** WordPress `trailingslashit`: strip trailing slashes, then append exactly one '/'. */
  function TrailingSlashIt(s: string): string {
    UntrailingSlashIt(s) + "/"
  }

  /** The result ends in one '/', preceded by a character that is no slash. */
  lemma TrailingSlashItShape(s: string)
    ensures var r := TrailingSlashIt(s);
      |r| >= 1 && r[|r| - 1] == '/' && (|r| == 1 || !IsSlash(r[|r| - 2]))
  {
  }

  /** Adding a trailing slash twice is the same as adding it once. */
  lemma TrailingSlashItIdempotent(s: string)
    ensures TrailingSlashIt(TrailingSlashIt(s)) == TrailingSlashIt(s)
  {
  }

  function DigitChar(d: nat): char
    requires d < 10
  {
    (48 + d) as char
  }

  predicate IsDigit(c: char) {
    '0' <= c <= '9'
  }

  /** PHP's conversion of a non-negative integer to its decimal string. */
  function NatToString(n: nat): (r: string)
    ensures |r| >= 1
    ensures forall i | 0 <= i < |r| :: IsDigit(r[i])
    ensures r[0] == '0' ==> n == 0
  {
    if n < 10 then [DigitChar(n)] else NatToString(n / 10) + [DigitChar(n % 10)]
  }

  function DigitValue(c: char): nat
    requires IsDigit(c)
  {
    c as int - '0' as int
  }

  /** The value of a string of decimal digits. */
  function ParseDecimal(s: string): nat
    requires forall i | 0 <= i < |s| :: IsDigit(s[i])
  {
    if s == [] then 0 else ParseDecimal(s[..|s| - 1]) * 10 + DigitValue(s[|s| - 1])
  }

  /** The decimal rendering of an id reads back as the same id. */
  lemma {:induction false} ParseNatToString(n: nat)
    ensures ParseDecimal(NatToString(n)) == n
  {
    if n >= 10 {
      var s := NatToString(n);
      assert s[..|s| - 1] == NatToString(n / 10);
      ParseNatToString(n / 10);
    }
  }
}
