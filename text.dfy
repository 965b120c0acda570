/** The string operations of JavaScript that the site's logic relies on: printing a
    non-negative integer, `includes`/`indexOf`, `split` and `join` on a non-empty
    separator, and ASCII case-insensitive suffix tests. */
module Text {
  import opened Optional

  predicate IsDigit(c: char) { '0' <= c <= '9' }

  predicate AllDigits(s: string) { forall i | 0 <= i < |s| :: IsDigit(s[i]) }

  function DigitChar(d: nat): (c: char)
    requires d < 10
    ensures IsDigit(c) && c as int - '0' as int == d
  {
    (d + '0' as int) as char
  }

  /** Decimal rendering of a non-negative integer, as a template literal prints it. */
  function NatToString(n: nat): (s: string)
    ensures |s| > 0 && AllDigits(s)
    ensures s[0] == '0' <==> n == 0
    decreases n
  {
    if n < 10 then [DigitChar(n)] else NatToString(n / 10) + [DigitChar(n % 10)]
  }

  /** The value of a string of decimal digits (the reading direction of NatToString). */
  function DecimalValue(s: string): nat
    requires AllDigits(s)
  {
    if s == [] then 0 else DecimalValue(s[..|s| - 1]) * 10 + (s[|s| - 1] as int - '0' as int)
  }

  /** Printing a number and reading it back gives the number. */
  lemma {:induction false} DecimalValueOfNatToString(n: nat)
    ensures DecimalValue(NatToString(n)) == n
    decreases n
  {
    if n >= 10 {
      var s := NatToString(n);
      assert s[..|s| - 1] == NatToString(n / 10);
      DecimalValueOfNatToString(n / 10);
    }
  }

  /** Distinct numbers print differently. */
  lemma NatToStringInjective(m: nat, n: nat)
    requires NatToString(m) == NatToString(n)
    ensures m == n
  {
    DecimalValueOfNatToString(m);
    DecimalValueOfNatToString(n);
  }

  /** `pat` occurs in `s` starting at position `i`. */
  predicate OccursAt(s: string, pat: string, i: nat) {
    i + |pat| <= |s| && s[i..i + |pat|] == pat
  }

  /** The first occurrence of `pat` at or after `from`, as `s.indexOf(pat, from)`. */
  function IndexOfFrom(s: string, pat: string, from: nat): (r: Option<nat>)
    ensures r.Some? ==> from <= r.value && OccursAt(s, pat, r.value)
    ensures r.Some? ==> forall k | from <= k < r.value :: !OccursAt(s, pat, k)
    ensures r.None? ==> forall k: nat | from <= k :: !OccursAt(s, pat, k)
    decreases |s| - from
  {
    if from + |pat| > |s| then None
    else if s[from..from + |pat|] == pat then Some(from)
    else IndexOfFrom(s, pat, from + 1)
  }

  /** `s.indexOf(pat)`, with None for -1. */
  function IndexOf(s: string, pat: string): (r: Option<nat>)
    ensures r.Some? ==> OccursAt(s, pat, r.value) && forall k | 0 <= k < r.value :: !OccursAt(s, pat, k)
    ensures r.None? ==> forall k: nat :: !OccursAt(s, pat, k)
  {
    IndexOfFrom(s, pat, 0)
  }

  /** `s.includes(pat)`. */
  function Contains(s: string, pat: string): (b: bool)
    ensures b <==> exists k: nat :: OccursAt(s, pat, k)
  {
    IndexOf(s, pat).Some?
  }

  lemma ContainsAt(s: string, pat: string, i: nat)
    requires OccursAt(s, pat, i)
    ensures Contains(s, pat)
  {
  }

  /** An occurrence inside a prefix of `s` is an occurrence in `s`. */
  lemma OccursInPrefix(s: string, pat: string, n: nat, k: nat)
    requires n <= |s| && OccursAt(s[..n], pat, k)
    ensures OccursAt(s, pat, k)
  {
    assert s[..n][k..k + |pat|] == s[k..k + |pat|];
  }

  /** `parts.join(sep)`. */
  function Join(parts: seq<string>, sep: string): (joined: string)
    ensures parts == [] ==> joined == ""
    ensures |parts| > 0 ==> parts[0] <= joined
    ensures |parts| > 1 ==> OccursAt(joined, sep, |parts[0]|)
  {
    if parts == [] then ""
    else if |parts| == 1 then parts[0]
    else parts[0] + sep + Join(parts[1..], sep)
  }

  /** `s.split(sep)` for a non-empty separator: the pieces between the occurrences of
      `sep` found by a left-to-right scan that resumes after each occurrence. */
  function Split(s: string, sep: string): (parts: seq<string>)
    requires |sep| > 0
    ensures |parts| >= 1
    ensures Join(parts, sep) == s
    ensures forall i | 0 <= i < |parts| :: !Contains(parts[i], sep)
    ensures |parts| > 1 ==> IndexOf(s, sep) == Some(|parts[0]|)
    decreases |s|
  {
    match IndexOf(s, sep)
    case None => [s]
    case Some(i) =>
      var head := s[..i];
      assert !Contains(head, sep) by {
        forall k: nat | OccursAt(head, sep, k) ensures false {
          OccursInPrefix(s, sep, i, k);
        }
      }
      var rest := Split(s[i + |sep|..], sep);
      assert s == head + sep + s[i + |sep|..];
      [head] + rest
  }

  /** The split is the whole string alone exactly when the separator does not occur. */
  lemma SplitWhole(s: string, sep: string)
    requires |sep| > 0
    ensures |Split(s, sep)| == 1 <==> !Contains(s, sep)
    ensures !Contains(s, sep) ==> Split(s, sep) == [s]
  {
    if Contains(s, sep) {
      var i := IndexOf(s, sep).value;
      assert Split(s, sep) == [s[..i]] + Split(s[i + |sep|..], sep);
    }
  }

  /** Splitting yields exactly the two pieces `a` and `b` if and only if `s` is
      `a + sep + b`, the scan meets no occurrence before the end of `a`, and `b` holds
      no occurrence. */
  lemma SplitInTwo(s: string, sep: string, a: string, b: string)
    requires |sep| > 0
    ensures Split(s, sep) == [a, b] <==>
              s == a + sep + b && (forall k | 0 <= k < |a| :: !OccursAt(s, sep, k)) && !Contains(b, sep)
  {
    if s == a + sep + b && (forall k | 0 <= k < |a| :: !OccursAt(s, sep, k)) && !Contains(b, sep) {
      assert OccursAt(s, sep, |a|) by { assert s[|a|..|a| + |sep|] == sep; }
      assert IndexOf(s, sep) == Some(|a|);
      assert s[..|a|] == a && s[|a| + |sep|..] == b;
    }
    if Split(s, sep) == [a, b] {
      var i := IndexOf(s, sep).value;
      assert Split(s[i + |sep|..], sep) == [b];
    }
  }

  /** Two occurrences that do not overlap make the split yield at least three pieces. */
  lemma SplitSeveral(s: string, sep: string, i: nat, j: nat)
    requires |sep| > 0
    requires OccursAt(s, sep, i) && OccursAt(s, sep, j) && i + |sep| <= j
    ensures |Split(s, sep)| >= 3
  {
    var f := IndexOf(s, sep).value;
    var rest := s[f + |sep|..];
    assert OccursAt(rest, sep, j - (f + |sep|)) by {
      assert rest[j - (f + |sep|)..j - (f + |sep|) + |sep|] == s[j..j + |sep|];
    }
    ContainsAt(rest, sep, j - (f + |sep|));
    assert Split(s, sep) == [s[..f]] + Split(rest, sep);
  }

  /** ASCII lower-casing of one character; every other character is kept. */
  function LowerAscii(c: char): char {
    if 'A' <= c <= 'Z' then (c as int - 'A' as int + 'a' as int) as char else c
  }

  /** `s` with every ASCII capital letter lower-cased. */
  function LowerAsciiString(s: string): (r: string)
    ensures |r| == |s| && forall i | 0 <= i < |s| :: r[i] == LowerAscii(s[i])
  {
    seq(|s|, i requires 0 <= i < |s| => LowerAscii(s[i]))
  }

  /** `s.endsWith(suffix)`. */
  predicate EndsWith(s: string, suffix: string) {
    |suffix| <= |s| && s[|s| - |suffix|..] == suffix
  }

  /** For a suffix written in lower case, ending with it regardless of case is ending
      with it once the string is lower-cased. */
  lemma EndsWithIgnoringCaseLowered(s: string, suffix: string)
    requires LowerAsciiString(suffix) == suffix
    ensures EndsWithIgnoringCase(s, suffix) <==> EndsWith(LowerAsciiString(s), suffix)
  {
    var lowered := LowerAsciiString(s);
    if EndsWithIgnoringCase(s, suffix) {
      assert forall i | 0 <= i < |suffix| :: lowered[|s| - |suffix|..][i] == suffix[i] by {
        forall i | 0 <= i < |suffix| ensures lowered[|s| - |suffix|..][i] == suffix[i] {
          assert LowerAscii(suffix[i]) == LowerAsciiString(suffix)[i];
        }
      }
    }
    if EndsWith(lowered, suffix) {
      forall i | 0 <= i < |suffix| ensures LowerAscii(s[|s| - |suffix| + i]) == LowerAscii(suffix[i]) {
        assert lowered[|s| - |suffix|..][i] == suffix[i];
        assert LowerAscii(suffix[i]) == LowerAsciiString(suffix)[i];
      }
    }
  }

  /** `s` ends with `suffix` when ASCII letters are compared without regard to case. */
  predicate EndsWithIgnoringCase(s: string, suffix: string) {
    |suffix| <= |s| &&
    forall i | 0 <= i < |suffix| :: LowerAscii(s[|s| - |suffix| + i]) == LowerAscii(suffix[i])
  }
}
