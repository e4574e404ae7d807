/** The two string operations the warehouse needs: Python's decimal rendering
    of an id inside f'Cliente_{i}'-style names, and str.replace. */
module Text {

  predicate IsDigit(c: char) {
    '0' <= c <= '9'
  }

  function DigitChar(d: int): (c: char)
    requires 0 <= d < 10
    ensures IsDigit(c)
  {
    (d + '0' as int) as char
  }

  function DigitValue(c: char): int {
    c as int - '0' as int
  }

  /** f'{n}' for a non-negative int: decimal digits, no leading zeros. */
  function DecimalString(n: nat): (s: string)
    ensures |s| >= 1
    ensures forall i :: 0 <= i < |s| ==> IsDigit(s[i])
  {
    if n < 10 then [DigitChar(n)] else DecimalString(n / 10) + [DigitChar(n % 10)]
  }

  /** int(s) for a string of decimal digits. */
  function ParseDecimal(s: string): int {
    if s == [] then 0 else ParseDecimal(s[..|s| - 1]) * 10 + DigitValue(s[|s| - 1])
  }

  /** Reading the rendered digits back gives the number. */
  lemma {:induction false} DecimalRoundTrip(n: nat)
    ensures ParseDecimal(DecimalString(n)) == n
  {
    var s := DecimalString(n);
    if n < 10 {
      assert s[..|s| - 1] == [];
    } else {
      assert s[..|s| - 1] == DecimalString(n / 10);
      DecimalRoundTrip(n / 10);
    }
  }

  /** Names built as prefix + f'{n}' are distinct for distinct n. */
  lemma LabelInjective(prefix: string, a: nat, b: nat)
    requires prefix + DecimalString(a) == prefix + DecimalString(b)
    ensures a == b
  {
    var sa, sb := DecimalString(a), DecimalString(b);
    assert sa == (prefix + sa)[|prefix|..];
    assert sb == (prefix + sb)[|prefix|..];
    DecimalRoundTrip(a);
    DecimalRoundTrip(b);
  }

  /** pat occurs in s at position i. */
  predicate OccursAt(s: string, pat: string, i: int) {
    0 <= i && i + |pat| <= |s| && s[i..i + |pat|] == pat
  }

  /** s.replace(pat, rep): every non-overlapping occurrence of pat, scanning
      from the left, is replaced by rep. The source only calls it with a
      non-empty pat. */
  function ReplaceAll(s: string, pat: string, rep: string): string
    requires |pat| > 0
    decreases |s|
  {
    if |s| < |pat| then s
    else if s[..|pat|] == pat then rep + ReplaceAll(s[|pat|..], pat, rep)
    else [s[0]] + ReplaceAll(s[1..], pat, rep)
  }

  /** A string in which pat does not occur is left as it is. */
  lemma {:induction false} ReplaceAllAbsent(s: string, pat: string, rep: string)
    requires |pat| > 0
    requires forall i :: 0 <= i < |s| ==> !OccursAt(s, pat, i)
    ensures ReplaceAll(s, pat, rep) == s
    decreases |s|
  {
    if |s| >= |pat| {
      assert !OccursAt(s, pat, 0);
      var t := s[1..];
      forall i | 0 <= i < |t|
        ensures !OccursAt(t, pat, i)
      {
        assert !OccursAt(s, pat, i + 1);
        if i + |pat| <= |t| {
          assert t[i..i + |pat|] == s[i + 1..i + 1 + |pat|];
        }
      }
      ReplaceAllAbsent(t, pat, rep);
    }
  }

  /** When pat occurs in stem + pat only as the suffix, removing every
      occurrence of pat strips exactly that suffix. */
  lemma {:induction false} RemoveOnlySuffix(stem: string, pat: string)
    requires |pat| > 0
    requires forall i :: 0 <= i < |stem| ==> !OccursAt(stem + pat, pat, i)
    ensures ReplaceAll(stem + pat, pat, "") == stem
    decreases |stem|
  {
    var s := stem + pat;
    if stem == [] {
      assert s[..|pat|] == pat;
      assert s[|pat|..] == [];
    } else {
      assert !OccursAt(s, pat, 0);
      var rest := stem[1..];
      assert s[1..] == rest + pat;
      forall i | 0 <= i < |rest|
        ensures !OccursAt(rest + pat, pat, i)
      {
        assert !OccursAt(s, pat, i + 1);
        assert (rest + pat)[i..i + |pat|] == s[i + 1..i + 1 + |pat|];
      }
      RemoveOnlySuffix(rest, pat);
      assert [s[0]] + rest == stem;
    }
  }

  /** Replacing a one-character pattern by one character turns every a into
      b, keeps every other character in place, and so leaves no a behind. */
  lemma {:induction false} ReplaceCharRemovesIt(s: string, a: char, b: char)
    requires a != b
    ensures |ReplaceAll(s, [a], [b])| == |s|
    ensures forall i :: 0 <= i < |s| ==> ReplaceAll(s, [a], [b])[i] == (if s[i] == a then b else s[i])
    ensures forall i :: 0 <= i < |s| ==> ReplaceAll(s, [a], [b])[i] != a
    decreases |s|
  {
    if |s| >= 1 {
      ReplaceCharRemovesIt(s[1..], a, b);
      var r := ReplaceAll(s, [a], [b]);
      var t := ReplaceAll(s[1..], [a], [b]);
      assert r == [if s[0] == a then b else s[0]] + t;
      forall i | 1 <= i < |s|
        ensures r[i] == (if s[i] == a then b else s[i])
      {
        assert r[i] == t[i - 1] && s[1..][i - 1] == s[i];
      }
    }
  }
}
