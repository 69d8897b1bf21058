/**
 * Character classes and string primitives of JavaScript that the extractor and the
 * request handler rely on: `\d`, `\w`, `\s`, `String.prototype.trim`, `split("\n")`
 * and the ASCII case folding that a case-insensitive (`/i`) regular expression applies
 * to an ASCII-only pattern.
 */
module Text {

  /** `\d`: an ASCII decimal digit. */
  predicate IsDigit(c: char) { '0' <= c <= '9' }

  /** `[A-Z]`. */
  predicate IsUpper(c: char) { 'A' <= c <= 'Z' }

  /** `[a-z]`. */
  predicate IsLower(c: char) { 'a' <= c <= 'z' }

  /** `\w`, and the characters a `\b` word boundary separates from the rest: `[A-Za-z0-9_]`. */
  predicate IsWordChar(c: char) { IsDigit(c) || IsUpper(c) || IsLower(c) || c == '_' }

  /**
   * `\s`, which is also the set `trim()` removes: the WhiteSpace and LineTerminator
   * code points of ECMAScript (tab, line feed, vertical tab, form feed, carriage return,
   * space, no-break space, the Unicode space separators, the line and paragraph
   * separators and the byte-order mark).
   */
  predicate IsSpace(c: char) {
    var n := c as int;
    (0x09 <= n <= 0x0D) || n == 0x20 || n == 0xA0 || n == 0x1680 ||
    (0x2000 <= n <= 0x200A) || n == 0x2028 || n == 0x2029 || n == 0x202F ||
    n == 0x205F || n == 0x3000 || n == 0xFEFF
  }

  /** Every character of `t` is an ASCII digit (`/^\d*$/`). */
  predicate AllDigits(t: string) {
    |t| == 0 || (IsDigit(t[0]) && AllDigits(t[1..]))
  }

  lemma {:induction false} AllDigitsAt(t: string)
    ensures AllDigits(t) <==> forall k :: 0 <= k < |t| ==> IsDigit(t[k])
  {
    if |t| > 0 {
      AllDigitsAt(t[1..]);
      assert forall k :: 1 <= k < |t| ==> t[k] == t[1..][k - 1];
    }
  }

  // ---------------------------------------------------------------- trim

  /** Drops leading whitespace. */
  function TrimStart(s: string): (r: string)
    ensures |r| <= |s| && r == s[|s| - |r|..]
    ensures forall k :: 0 <= k < |s| - |r| ==> IsSpace(s[k])
    ensures |r| > 0 ==> !IsSpace(r[0])
  {
    if |s| > 0 && IsSpace(s[0]) then
      var r := TrimStart(s[1..]);
      assert forall k :: 1 <= k < |s| - |r| ==> s[k] == s[1..][k - 1];
      r
    else s
  }

  /** Drops trailing whitespace. */
  function TrimEnd(s: string): (r: string)
    ensures |r| <= |s| && r == s[..|r|]
    ensures forall k :: |r| <= k < |s| ==> IsSpace(s[k])
    ensures |r| > 0 ==> !IsSpace(r[|r| - 1])
  {
    if |s| > 0 && IsSpace(s[|s| - 1]) then TrimEnd(s[..|s| - 1]) else s
  }

  /** `String.prototype.trim`. */
  function Trim(s: string): string {
    TrimEnd(TrimStart(s))
  }

  /** `s[a..b]` is `s` with whitespace cut from both ends and none left at either end. */
  predicate CutAt(s: string, a: nat, b: nat) {
    && a <= b <= |s|
    && (forall k :: 0 <= k < a ==> IsSpace(s[k]))
    && (forall k :: b <= k < |s| ==> IsSpace(s[k]))
    && (a < b ==> !IsSpace(s[a]) && !IsSpace(s[b - 1]))
  }

  /**
   * What `TrimStart` and `TrimEnd` promise of `t == TrimStart(s)` and `r == TrimEnd(t)`,
   * without their definitions (which make proofs about slices of `s` costly).
   */
  predicate TrimParts(s: string, t: string, r: string) {
    && |t| <= |s| && t == s[|s| - |t|..]
    && (forall k :: 0 <= k < |s| - |t| ==> IsSpace(s[k]))
    && (|t| > 0 ==> !IsSpace(t[0]))
    && |r| <= |t| && r == t[..|r|]
    && (forall k :: |r| <= k < |t| ==> IsSpace(t[k]))
    && (|r| > 0 ==> !IsSpace(r[|r| - 1]))
  }

  /**
   * `Trim(s)` is a piece of `s` left once whitespace at both ends is cut off: what is
   * cut is whitespace, and what is kept neither starts nor ends with whitespace.
   */
  lemma TrimIsCore(s: string)
    ensures CutAt(s, |s| - |TrimStart(s)|, |s| - |TrimStart(s)| + |Trim(s)|)
  {
    var t := TrimStart(s);
    TrimCut(s, t, TrimEnd(t));
  }

  /** And any such cut of `s` gives exactly its trim. */
  lemma TrimUnique(s: string, a: nat, b: nat)
    requires CutAt(s, a, b)
    ensures Trim(s) == s[a..b]
  {
    var t := TrimStart(s);
    var r := TrimEnd(t);
    assert Trim(s) == r;
    TrimCutUnique(s, t, r, a, b);
  }

  /** The uniqueness of the cut, on the promises of `TrimStart` and `TrimEnd`. */
  lemma TrimCutUnique(s: string, t: string, r: string, a: nat, b: nat)
    requires TrimParts(s, t, r)
    requires CutAt(s, a, b)
    ensures r == s[a..b]
  {
    TrimCut(s, t, r);
    CutsAgree(s, a, b, |s| - |t|, |s| - |t| + |r|);
  }

  /** Two cuts of the same string keep the same piece. */
  lemma CutsAgree(s: string, a: nat, b: nat, a0: nat, b0: nat)
    requires CutAt(s, a, b) && CutAt(s, a0, b0)
    ensures s[a..b] == s[a0..b0]
  {
    if a < b && a0 < b0 {
      assert !IsSpace(s[a]) && !IsSpace(s[a0]);
      assert a == a0;
      assert !IsSpace(s[b - 1]) && !IsSpace(s[b0 - 1]);
      assert b == b0;
    } else if a < b || a0 < b0 {
      assert false;
    }
  }

  /** The cut `TrimStart` and `TrimEnd` make, on their promises. */
  lemma TrimCut(s: string, t: string, r: string)
    requires TrimParts(s, t, r)
    ensures CutAt(s, |s| - |t|, |s| - |t| + |r|) && r == s[|s| - |t|..|s| - |t| + |r|]
  {
    var a := |s| - |t|;
    var b := a + |r|;
    TrimCutSlice(s, t, r, a, b);
    TrimCutTail(s, t, r, a, b);
    if a < b {
      assert s[a] == r[0];
      assert s[b - 1] == r[|r| - 1];
    }
  }

  lemma TrimCutSlice(s: string, t: string, r: string, a: nat, b: nat)
    requires a == |s| - |t| && b == a + |r| && |r| <= |t| <= |s|
    requires t == s[a..] && r == t[..|r|]
    ensures r == s[a..b]
  {
  }

  lemma TrimCutTail(s: string, t: string, r: string, a: nat, b: nat)
    requires a == |s| - |t| && b == a + |r| && |r| <= |t| <= |s|
    requires t == s[a..] && forall k :: |r| <= k < |t| ==> IsSpace(t[k])
    ensures forall k :: b <= k < |s| ==> IsSpace(s[k])
  {
    forall k | b <= k < |s| ensures IsSpace(s[k]) {
      assert s[k] == t[k - a];
    }
  }

  /** Trimming adds no character: what `s` lacks, its trim lacks. */
  lemma TrimKeeps(s: string, c: char)
    requires c !in s
    ensures c !in Trim(s)
  {
    var t := TrimStart(s);
    var r := TrimEnd(t);
    assert t == s[|s| - |t|..] && r == t[..|r|];
  }

  /** A string that neither starts nor ends with whitespace is its own trim. */
  lemma TrimOfTrimmed(s: string)
    requires |s| > 0 ==> !IsSpace(s[0]) && !IsSpace(s[|s| - 1])
    ensures Trim(s) == s
  {
  }

  /** Trimming twice is trimming once. */
  lemma TrimIdempotent(s: string)
    ensures Trim(Trim(s)) == Trim(s)
  {
    var t := Trim(s);
    if |t| > 0 {
      var u := TrimStart(s);
      assert t == u[..|t|];
      assert t[0] == u[0];
    }
    TrimOfTrimmed(t);
  }

  // ---------------------------------------------------------------- split

  /** `s.split("\n")`: the pieces between line feeds, at least one, none holding a line feed. */
  function SplitLines(s: string): (r: seq<string>)
    ensures |r| >= 1
    ensures forall k :: 0 <= k < |r| ==> '\n' !in r[k]
  {
    if |s| == 0 then [""]
    else if s[0] == '\n' then [""] + SplitLines(s[1..])
    else
      var rest := SplitLines(s[1..]);
      [[s[0]] + rest[0]] + rest[1..]
  }

  /** `pieces.join("\n")`. */
  function JoinLines(pieces: seq<string>): string
    requires |pieces| >= 1
  {
    if |pieces| == 1 then pieces[0] else pieces[0] + "\n" + JoinLines(pieces[1..])
  }

  /** Splitting on line feeds loses nothing: joining the pieces gives the text back. */
  lemma {:induction false} JoinSplit(s: string)
    ensures JoinLines(SplitLines(s)) == s
  {
    if |s| > 0 {
      JoinSplit(s[1..]);
      var rest := SplitLines(s[1..]);
      if s[0] != '\n' && |rest| > 1 {
        assert SplitLines(s)[1..] == rest[1..];
      }
    }
  }

  /** Joining pieces free of line feeds and splitting again gives the same pieces. */
  lemma {:induction false} SplitJoin(pieces: seq<string>)
    requires |pieces| >= 1
    requires forall k :: 0 <= k < |pieces| ==> '\n' !in pieces[k]
    ensures SplitLines(JoinLines(pieces)) == pieces
  {
    if |pieces| == 1 {
      SplitNoBreak(pieces[0]);
    } else {
      SplitJoin(pieces[1..]);
      SplitPrefix(pieces[0], JoinLines(pieces[1..]));
    }
  }

  lemma {:induction false} SplitNoBreak(p: string)
    requires '\n' !in p
    ensures SplitLines(p) == [p]
  {
    if |p| > 0 {
      assert '\n' !in p[1..];
      SplitNoBreak(p[1..]);
      assert p[0] != '\n';
      assert [p[0]] + p[1..] == p;
    }
  }

  lemma {:induction false} SplitPrefix(p: string, rest: string)
    requires '\n' !in p
    ensures SplitLines(p + "\n" + rest) == [p] + SplitLines(rest)
  {
    if |p| == 0 {
      assert p + "\n" + rest == "\n" + rest;
      assert ("\n" + rest)[1..] == rest;
    } else {
      assert '\n' !in p[1..];
      SplitPrefix(p[1..], rest);
      assert (p + "\n" + rest)[1..] == p[1..] + "\n" + rest;
      assert [p[0]] + p[1..] == p;
    }
  }

  // ---------------------------------------------------------------- case-insensitive search

  /** The ASCII case folding that `/i` applies to the ASCII letters of these patterns. */
  function Fold(c: char): (f: char)
    ensures !IsUpper(f)
    ensures IsUpper(c) ==> f as int == c as int + 32
    ensures !IsUpper(c) ==> f == c
  {
    if IsUpper(c) then (c as int + 32) as char else c
  }

  /** `t` begins with `w`, ignoring ASCII case. */
  predicate StartsWithFolded(t: string, w: string) {
    |w| == 0 || (|t| > 0 && Fold(t[0]) == Fold(w[0]) && StartsWithFolded(t[1..], w[1..]))
  }

  /** `/w/i.test(t)`: `w` occurs somewhere in `t`, ignoring ASCII case. */
  predicate ContainsFolded(t: string, w: string) {
    StartsWithFolded(t, w) || (|t| > 0 && ContainsFolded(t[1..], w))
  }

  /** `ContainsFolded` is "there is an offset where `t` starts with `w`". */
  lemma ContainsFoldedAt(t: string, w: string)
    ensures ContainsFolded(t, w) <==> exists i :: 0 <= i <= |t| && StartsWithFolded(t[i..], w)
  {
    if ContainsFolded(t, w) {
      ContainsFoldedOffset(t, w);
    }
    if i :| 0 <= i <= |t| && StartsWithFolded(t[i..], w) {
      OffsetContainsFolded(t, w, i);
    }
  }

  lemma {:induction false} ContainsFoldedOffset(t: string, w: string)
    requires ContainsFolded(t, w)
    ensures exists i :: 0 <= i <= |t| && StartsWithFolded(t[i..], w)
  {
    if StartsWithFolded(t, w) {
      assert t[0..] == t;
    } else {
      ContainsFoldedOffset(t[1..], w);
      var i :| 0 <= i <= |t[1..]| && StartsWithFolded(t[1..][i..], w);
      assert t[1..][i..] == t[i + 1..];
    }
  }

  lemma {:induction false} OffsetContainsFolded(t: string, w: string, i: nat)
    requires i <= |t| && StartsWithFolded(t[i..], w)
    ensures ContainsFolded(t, w)
  {
    if i == 0 {
      assert t[0..] == t;
    } else {
      assert t[1..][i - 1..] == t[i..];
      OffsetContainsFolded(t[1..], w, i - 1);
    }
  }

  /** A longer word occurring means every piece of it occurs too. */
  lemma {:induction false} ContainsFoldedInfix(t: string, w: string, a: nat, b: nat)
    requires a <= b <= |w|
    requires ContainsFolded(t, w)
    ensures ContainsFolded(t, w[a..b])
  {
    ContainsFoldedAt(t, w);
    var i :| 0 <= i <= |t| && StartsWithFolded(t[i..], w);
    StartsWithFoldedInfix(t[i..], w, a, b);
    assert t[i..][a..] == t[i + a..];
    ContainsFoldedAt(t, w[a..b]);
  }

  lemma {:induction false} StartsWithFoldedInfix(t: string, w: string, a: nat, b: nat)
    requires a <= b <= |w|
    requires StartsWithFolded(t, w)
    ensures a <= |t| && StartsWithFolded(t[a..], w[a..b])
  {
    if a > 0 {
      StartsWithFoldedInfix(t[1..], w[1..], a - 1, b - 1);
      assert t[1..][a - 1..] == t[a..];
      assert w[1..][a - 1..b - 1] == w[a..b];
    } else if b > 0 {
      StartsWithFoldedInfix(t[1..], w[1..], 0, b - 1);
      assert t[1..][0..] == t[1..];
      assert w[1..][0..b - 1] == w[1..b];
      assert w[0..b][1..] == w[1..b];
    }
  }

  /** `/w1|w2|.../i.test(t)`: some word of the alternation occurs in `t`, ignoring ASCII case. */
  predicate ContainsAnyFolded(t: string, words: seq<string>) {
    |words| > 0 && (ContainsFolded(t, words[0]) || ContainsAnyFolded(t, words[1..]))
  }

  lemma {:induction false} ContainsAnyFoldedAt(t: string, words: seq<string>)
    ensures ContainsAnyFolded(t, words) <==> exists k :: 0 <= k < |words| && ContainsFolded(t, words[k])
  {
    if |words| > 0 {
      ContainsAnyFoldedAt(t, words[1..]);
      if k :| 0 <= k < |words| && ContainsFolded(t, words[k]) {
        if k > 0 { assert words[k] == words[1..][k - 1]; }
      }
    }
  }

  /** A word occurring means each of its characters occurs, up to case. */
  lemma ContainsFoldedHasChar(t: string, w: string, j: nat)
    requires j < |w|
    ensures ContainsFolded(t, w) ==> exists k :: 0 <= k < |t| && Fold(t[k]) == Fold(w[j])
  {
    if ContainsFolded(t, w) {
      ContainsFoldedInfix(t, w, j, j + 1);
      ContainsFoldedAt(t, w[j..j + 1]);
      var i :| 0 <= i <= |t| && StartsWithFolded(t[i..], w[j..j + 1]);
      assert Fold(t[i..][0]) == Fold(w[j]);
    }
  }
}
