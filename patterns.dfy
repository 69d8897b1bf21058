/**
 * The fixed regular expressions of the text extractor, each written out as a scanner
 * over `seq<char>` with JavaScript's leftmost-match semantics.
 *
 * None of these patterns needs backtracking to be modelled: where a quantifier is optional
 * or bounded (`\s?`, `\d{1,2}`, `[A-Z0-9]{6,12}`), the character that would follow a shorter
 * choice belongs to a class the longer choice already excludes, so at most one choice can
 * succeed and the scanner takes it directly. `IdTokenEnd` keeps the backtracking loop of
 * `{6,12}` literally and `IdTokenIsWholeRun` proves it only ever succeeds on a maximal run.
 */
module Patterns {
  import opened Wrappers
  import opened Text

  datatype Pattern =
    | Uid           // /\b\d{4}\s?\d{4}\s?\d{4}\b/
    | Year          // /\b\d{4}\b/
    | Dob           // /\b\d{2}[\/\-]\d{2}[\/\-]\d{4}\b/
    | FuzzyPan      // /\b[A-Z]{5}[0-9O]{4}[A-Z]{1}\b/
    | IdToken       // /\b[A-Z0-9]{6,12}\b/
    | DateFragment  // /\d{1,2}[\/\-]\d{1,2}/

  /** `\b` at position `i`: exactly one of the characters on either side is a word character. */
  predicate Boundary(s: string, i: nat)
    requires i <= |s|
  {
    (i > 0 && IsWordChar(s[i - 1])) != (i < |s| && IsWordChar(s[i]))
  }

  /** `\d{n}` at `i`. */
  predicate DigitsAt(s: string, i: nat, n: nat) {
    i + n <= |s| && AllDigits(s[i..i + n])
  }

  /** `[\/\-]`. */
  predicate IsDateSeparator(c: char) { c == '/' || c == '-' }

  /** `[0-9O]`. */
  predicate IsDigitOrO(c: char) { IsDigit(c) || c == 'O' }

  /** `[A-Z0-9]`. */
  predicate IsUpperOrDigit(c: char) { IsUpper(c) || IsDigit(c) }

  /** `\s?` at `j`: one whitespace character if there is one. */
  function OptSpace(s: string, j: nat): (r: nat)
    ensures r == j || (r == j + 1 && j < |s| && IsSpace(s[j]))
  {
    if j < |s| && IsSpace(s[j]) then j + 1 else j
  }

  /** Number of consecutive `[A-Z0-9]` characters from `i`, counting at most `limit`. */
  function UpperDigitRun(s: string, i: nat, limit: nat): (r: nat)
    requires i <= |s|
    ensures r <= limit && i + r <= |s|
    ensures forall k :: i <= k < i + r ==> IsUpperOrDigit(s[k])
    ensures r < limit && i + r < |s| ==> !IsUpperOrDigit(s[i + r])
    decreases limit
  {
    if limit > 0 && i < |s| && IsUpperOrDigit(s[i]) then 1 + UpperDigitRun(s, i + 1, limit - 1) else 0
  }

  /** The backtracking of `[A-Z0-9]{6,k}\b` from `i`: the longest choice `n <= k` followed by `\b`. */
  function IdTokenEnd(s: string, i: nat, k: nat): (r: Option<nat>)
    requires i + k <= |s|
    ensures r.Some? ==> 6 <= r.value - i <= k && Boundary(s, r.value)
    ensures r.None? ==> forall e :: i + 6 <= e <= i + k ==> !Boundary(s, e)
    decreases k
  {
    if k < 6 then None
    else if Boundary(s, i + k) then Some(i + k)
    else IdTokenEnd(s, i, k - 1)
  }

  /** The end of the match of `p` that starts exactly at `i`, if there is one. */
  function MatchAt(p: Pattern, s: string, i: nat): (r: Option<nat>)
    requires i <= |s|
    ensures r.Some? ==> i < r.value <= |s|
  {
    match p
    case Uid =>
      if !(Boundary(s, i) && DigitsAt(s, i, 4)) then None
      else
        var j1 := OptSpace(s, i + 4);
        if !DigitsAt(s, j1, 4) then None
        else
          var j2 := OptSpace(s, j1 + 4);
          if DigitsAt(s, j2, 4) && Boundary(s, j2 + 4) then Some(j2 + 4) else None
    case Year =>
      if Boundary(s, i) && DigitsAt(s, i, 4) && Boundary(s, i + 4) then Some(i + 4) else None
    case Dob =>
      if i + 10 <= |s| && Boundary(s, i) && DigitsAt(s, i, 2) && IsDateSeparator(s[i + 2]) &&
         DigitsAt(s, i + 3, 2) && IsDateSeparator(s[i + 5]) && DigitsAt(s, i + 6, 4) &&
         Boundary(s, i + 10)
      then Some(i + 10) else None
    case FuzzyPan =>
      if i + 10 <= |s| && Boundary(s, i) &&
         IsUpper(s[i]) && IsUpper(s[i + 1]) && IsUpper(s[i + 2]) && IsUpper(s[i + 3]) && IsUpper(s[i + 4]) &&
         IsDigitOrO(s[i + 5]) && IsDigitOrO(s[i + 6]) && IsDigitOrO(s[i + 7]) && IsDigitOrO(s[i + 8]) &&
         IsUpper(s[i + 9]) && Boundary(s, i + 10)
      then Some(i + 10) else None
    case IdToken =>
      if Boundary(s, i) then IdTokenEnd(s, i, UpperDigitRun(s, i, 12)) else None
    case DateFragment =>
      if DigitsAt(s, i, 1) then
        var j := if DigitsAt(s, i + 1, 1) then i + 2 else i + 1;
        if j < |s| && IsDateSeparator(s[j]) && DigitsAt(s, j + 1, 1) then
          Some(if DigitsAt(s, j + 2, 1) then j + 3 else j + 2)
        else None
      else None
  }

  /**
   * The leftmost match of `p` starting at or after `from`, as (start, end): the first
   * position where `MatchAt` succeeds, and no match at any earlier position.
   */
  function Search(p: Pattern, s: string, from: nat): (r: Option<(nat, nat)>)
    requires from <= |s| + 1
    ensures r.Some? ==> from <= r.value.0 <= |s| && MatchAt(p, s, r.value.0) == Some(r.value.1)
    ensures r.Some? ==> forall k :: from <= k < r.value.0 ==> MatchAt(p, s, k).None?
    ensures r.None? ==> forall k :: from <= k <= |s| ==> MatchAt(p, s, k).None?
    decreases |s| + 1 - from
  {
    if from > |s| then None
    else match MatchAt(p, s, from)
      case Some(j) => Some((from, j))
      case None => Search(p, s, from + 1)
  }

  /** `s.match(p)[0]`: the text of the leftmost match, or `None` (JavaScript's `null`). */
  function Find(p: Pattern, s: string): (r: Option<string>)
    ensures r.Some? <==> exists i :: 0 <= i <= |s| && MatchAt(p, s, i).Some?
    ensures r.Some? ==> exists i :: 0 <= i <= |s| && MatchAt(p, s, i).Some? && r.value == s[i..MatchAt(p, s, i).value]
  {
    match Search(p, s, 0)
    case Some((i, j)) => Some(s[i..j])
    case None => None
  }

  /** `p.test(s)`. */
  predicate Test(p: Pattern, s: string) {
    Search(p, s, 0).Some?
  }

  // ---------------------------------------------------------------- what each pattern matches

  /** The text `\d{4}\s?\d{4}\s?\d{4}` describes: three groups of four digits, each gap at most one whitespace character. */
  predicate IsUidText(t: string) {
    exists a: nat, b: nat :: a <= 1 && b <= 1 && UidLayout(t, a, b)
  }

  /** The layout with `a` and `b` whitespace characters in the two gaps. */
  predicate UidLayout(t: string, a: nat, b: nat)
    requires a <= 1 && b <= 1
  {
    |t| == 12 + a + b &&
    AllDigits(t[..4]) && (a == 1 ==> IsSpace(t[4])) &&
    AllDigits(t[4 + a..8 + a]) && (b == 1 ==> IsSpace(t[8 + a])) &&
    AllDigits(t[8 + a + b..])
  }

  /**
   * The Aadhaar number scanner agrees with the regular expression: it ends a match at `j`
   * exactly when the text from `i` to `j` is three four-digit groups separated by at most
   * one whitespace character each, with a word boundary on both sides.
   */
  lemma UidMatchIff(s: string, i: nat, j: nat)
    requires i <= j <= |s|
    ensures MatchAt(Uid, s, i) == Some(j) <==> Boundary(s, i) && Boundary(s, j) && IsUidText(s[i..j])
  {
    if MatchAt(Uid, s, i) == Some(j) {
      UidMatchIsUidText(s, i, j);
    }
    if Boundary(s, i) && Boundary(s, j) && IsUidText(s[i..j]) {
      var a: nat, b: nat :| a <= 1 && b <= 1 && UidLayout(s[i..j], a, b);
      UidTextIsMatch(s, i, j, a, b);
    }
  }

  lemma UidMatchIsUidText(s: string, i: nat, j: nat)
    requires i <= j <= |s| && MatchAt(Uid, s, i) == Some(j)
    ensures Boundary(s, i) && Boundary(s, j) && IsUidText(s[i..j])
  {
    assert Boundary(s, i) && DigitsAt(s, i, 4);
    var j1 := OptSpace(s, i + 4);
    assert DigitsAt(s, j1, 4);
    var j2 := OptSpace(s, j1 + 4);
    assert DigitsAt(s, j2, 4) && Boundary(s, j2 + 4) && j == j2 + 4;
    var a: nat, b: nat := j1 - (i + 4), j2 - (j1 + 4);
    var t := s[i..j];
    assert |t| == 12 + a + b && a <= 1 && b <= 1;
    SliceOfSlice(s, i, j, 0, 4);
    SliceOfSlice(s, i, j, 4 + a, 8 + a);
    SliceOfSlice(s, i, j, 8 + a + b, 12 + a + b);
    assert t[8 + a + b..] == t[8 + a + b..12 + a + b];
    assert a == 1 ==> t[4] == s[i + 4];
    assert b == 1 ==> t[8 + a] == s[j1 + 4];
    assert UidLayout(t, a, b);
  }

  /** A slice of a slice is a slice. */
  lemma SliceOfSlice(s: string, i: nat, j: nat, p: nat, q: nat)
    requires i <= j <= |s| && p <= q <= j - i
    ensures s[i..j][p..q] == s[i + p..i + q]
  {
    assert forall k :: 0 <= k < q - p ==> s[i..j][p..q][k] == s[i + p + k] == s[i + p..i + q][k];
  }

  lemma UidTextIsMatch(s: string, i: nat, j: nat, a: nat, b: nat)
    requires i <= j <= |s| && a <= 1 && b <= 1
    requires Boundary(s, i) && Boundary(s, j) && UidLayout(s[i..j], a, b)
    ensures MatchAt(Uid, s, i) == Some(j)
  {
    var t := s[i..j];
    assert t[8 + a + b..] == t[8 + a + b..12 + a + b];
    UidGroupAt(s, t, i, 0);
    UidGroupAt(s, t, i, 4 + a);
    UidGroupAt(s, t, i, 8 + a + b);
    UidGapAt(s, t, i, 4, a);
    UidGapAt(s, t, i, 8 + a, b);
  }

  /** Four digits of the matched text at `x` are four digits of `s` at `i + x`. */
  lemma UidGroupAt(s: string, t: string, i: nat, x: nat)
    requires i + |t| <= |s| && t == s[i..i + |t|] && x + 4 <= |t| && AllDigits(t[x..x + 4])
    ensures DigitsAt(s, i + x, 4) && IsDigit(s[i + x])
  {
    var u, v := s[i + x..i + x + 4], t[x..x + 4];
    forall k | 0 <= k < 4
      ensures u[k] == v[k]
    {
      assert t[x + k] == s[i + x + k];
    }
    assert u == v;
    AllDigitsAt(t[x..x + 4]);
    assert t[x..x + 4][0] == s[i + x];
  }

  /** The optional space after a group of the matched text: taken when `gap` is 1. */
  lemma UidGapAt(s: string, t: string, i: nat, x: nat, gap: nat)
    requires i + |t| <= |s| && t == s[i..i + |t|] && x + gap < |t| && gap <= 1
    requires gap == 1 ==> IsSpace(t[x])
    requires gap == 0 ==> IsDigit(s[i + x])
    ensures OptSpace(s, i + x) == i + x + gap
  {
    assert s[i + x] == t[x];
  }

  /** A match of `[A-Z0-9]{6,12}` bounded by `\b` is always a whole run of `[A-Z0-9]` characters of length 6 to 12. */
  lemma IdTokenIsWholeRun(s: string, i: nat)
    requires i <= |s| && MatchAt(IdToken, s, i).Some?
    ensures var j := MatchAt(IdToken, s, i).value;
      6 <= j - i <= 12 && (forall k :: i <= k < j ==> IsUpperOrDigit(s[k])) &&
      (i == 0 || !IsWordChar(s[i - 1])) && (j == |s| || !IsWordChar(s[j]))
  {
    var r := UpperDigitRun(s, i, 12);
    var j := MatchAt(IdToken, s, i).value;
    assert IsWordChar(s[i]) && IsWordChar(s[j - 1]);
  }

  /** A date fragment `\d{1,2}[\/\-]\d{1,2}` always contains a `/` or a `-`. */
  lemma DateFragmentHasSeparator(s: string)
    ensures Test(DateFragment, s) ==> exists k :: 0 <= k < |s| && IsDateSeparator(s[k])
  {
    if Test(DateFragment, s) {
      var (i, _) := Search(DateFragment, s, 0).value;
      var j := if DigitsAt(s, i + 1, 1) then i + 2 else i + 1;
      assert IsDateSeparator(s[j]);
    }
  }

  /** Hence text made only of `[A-Z0-9]` never contains a date fragment. */
  lemma NoDateFragmentInToken(t: string)
    requires forall k :: 0 <= k < |t| ==> IsUpperOrDigit(t[k])
    ensures !Test(DateFragment, t)
  {
    DateFragmentHasSeparator(t);
  }

  /** What `Find` returns is a whole `[A-Z0-9]` token of 6 to 12 characters. */
  lemma FoundIdTokenShape(s: string)
    requires Find(IdToken, s).Some?
    ensures var t := Find(IdToken, s).value;
      6 <= |t| <= 12 && forall k :: 0 <= k < |t| ==> IsUpperOrDigit(t[k])
  {
    var (i, j) := Search(IdToken, s, 0).value;
    IdTokenIsWholeRun(s, i);
    RunSlice(s, i, j);
  }

  /** The slice over a run of `[A-Z0-9]` characters is such a run. */
  lemma RunSlice(s: string, i: nat, j: nat)
    requires i <= j <= |s| && 6 <= j - i <= 12 && forall k :: i <= k < j ==> IsUpperOrDigit(s[k])
    ensures 6 <= |s[i..j]| <= 12 && forall k :: 0 <= k < |s[i..j]| ==> IsUpperOrDigit(s[i..j][k])
  {
  }
}
