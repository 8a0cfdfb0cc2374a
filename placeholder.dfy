/**
 * The reference grammar `$$STEP_<digits>_OUTPUT$$` (the regular expression
 * `\$\$(STEP_\d+_OUTPUT)\$\$`) and a scanner for it: `MatchAt` recognises one
 * reference at a position and `FindAll` collects the captured keys of the
 * non-overlapping references from left to right, as `re.findall` does.
 */
module Placeholder {
  import opened Wrappers
  import opened Json
  import opened Text

  const Open: string := "$$STEP_"
  const Close: string := "_OUTPUT$$"

  predicate DigitsBetween(s: string, a: int, b: int)
    requires 0 <= a <= b <= |s|
  {
    forall k :: a <= k < b ==> IsDigit(s[k])
  }

  /** `s[i..j]` is exactly one reference. */
  predicate PlaceholderAt(s: string, i: int, j: int) {
    && 0 <= i && i + |Open| + |Close| < j <= |s|
    && OccursAt(s, Open, i)
    && OccursAt(s, Close, j - |Close|)
    && DigitsBetween(s, i + |Open|, j - |Close|)
  }

  /** `t` is exactly one reference (`re.fullmatch`). */
  predicate IsPlaceholder(t: string) {
    PlaceholderAt(t, 0, |t|)
  }

  lemma PlaceholderAtSlice(s: string, i: int, j: int)
    requires 0 <= i <= j <= |s|
    ensures PlaceholderAt(s, i, j) <==> IsPlaceholder(s[i..j])
  {
    if j - i > |Open| + |Close| {
      OccursInSlice(s, i, j, Open, 0);
      OccursInSlice(s, i, j, Close, j - i - |Close|);
    }
  }

  /** The captured group of a reference: the state key `STEP_<digits>_OUTPUT`. */
  function KeyOf(t: string): string
    requires |t| >= 4
  {
    t[2..|t| - 2]
  }

  /** The reference that names `key`. */
  function Wrap(key: string): string {
    "$$" + key + "$$"
  }

  lemma WrapKeyOf(t: string)
    requires IsPlaceholder(t)
    ensures Wrap(KeyOf(t)) == t
  {
    assert t[..2] == "$$" && t[|t| - 2..] == "$$";
    assert t == t[..2] + t[2..|t| - 2] + t[|t| - 2..];
  }

  /** A reference begins and ends with `$$`. */
  lemma PlaceholderEnds(t: string)
    requires IsPlaceholder(t)
    ensures StartsWith(t, "$$") && EndsWith(t, "$$")
    ensures t[0] == '$' && t[|t| - 1] == '$'
  {
    assert t[..2] == t[..|Open|][..2];
    assert t[|t| - 2..] == t[|t| - |Close|..][|Close| - 2..];
    assert t[0] == t[..|Open|][0];
    assert t[|t| - 1] == t[|t| - |Close|..][|Close| - 1];
  }

  /** The length of the run of digits that starts at `i`. */
  function DigitRun(s: string, i: nat): (n: nat)
    requires i <= |s|
    ensures i + n <= |s| && DigitsBetween(s, i, i + n)
    ensures i + n == |s| || !IsDigit(s[i + n])
    decreases |s| - i
  {
    if i < |s| && IsDigit(s[i]) then 1 + DigitRun(s, i + 1) else 0
  }

  /** `Open` at `i`, compared character by character. */
  predicate OpensAt(s: string, i: nat) {
    && i + 7 <= |s|
    && s[i] == '$' && s[i + 1] == '$' && s[i + 2] == 'S' && s[i + 3] == 'T'
    && s[i + 4] == 'E' && s[i + 5] == 'P' && s[i + 6] == '_'
  }

  /** `Close` at `i`, compared character by character. */
  predicate ClosesAt(s: string, i: nat) {
    && i + 9 <= |s|
    && s[i] == '_' && s[i + 1] == 'O' && s[i + 2] == 'U' && s[i + 3] == 'T' && s[i + 4] == 'P'
    && s[i + 5] == 'U' && s[i + 6] == 'T' && s[i + 7] == '$' && s[i + 8] == '$'
  }

  lemma OpensAtIff(s: string, i: nat)
    ensures OpensAt(s, i) <==> OccursAt(s, Open, i)
  {
    if i + |Open| <= |s| {
      var t := s[i..i + |Open|];
      assert forall k :: 0 <= k < |Open| ==> t[k] == s[i + k];
      if OpensAt(s, i) {
        assert forall k :: 0 <= k < |Open| ==> t[k] == Open[k];
      }
      if t == Open {
        assert t[0] == Open[0] && t[1] == Open[1] && t[2] == Open[2] && t[3] == Open[3] && t[4] == Open[4] && t[5] == Open[5] && t[6] == Open[6];
      }
    }
  }

  lemma ClosesAtIff(s: string, i: nat)
    ensures ClosesAt(s, i) <==> OccursAt(s, Close, i)
  {
    if i + |Close| <= |s| {
      var t := s[i..i + |Close|];
      assert forall k :: 0 <= k < |Close| ==> t[k] == s[i + k];
      if ClosesAt(s, i) {
        assert forall k :: 0 <= k < |Close| ==> t[k] == Close[k];
      }
      if t == Close {
        assert t[0] == Close[0] && t[1] == Close[1] && t[2] == Close[2] && t[3] == Close[3] && t[4] == Close[4] && t[5] == Close[5] && t[6] == Close[6] && t[7] == Close[7] && t[8] == Close[8];
      }
    }
  }

  /** The length of the reference that starts at `i`, if one does. */
  function MatchAt(s: string, i: nat): (r: Option<nat>)
    requires i <= |s|
    ensures r.Some? ==> 4 <= r.value && i + r.value <= |s|
  {
    if !OpensAt(s, i) then None
    else
      var d := DigitRun(s, i + 7);
      if d > 0 && ClosesAt(s, i + 7 + d) then Some(7 + d + 9) else None
  }

  /** A length `MatchAt` reports spans exactly one reference. */
  lemma MatchAtSound(s: string, i: nat)
    requires i <= |s|
    ensures MatchAt(s, i).Some? ==> PlaceholderAt(s, i, i + MatchAt(s, i).value)
  {
    if MatchAt(s, i).Some? {
      var d := DigitRun(s, i + 7);
      OpensAtIff(s, i);
      ClosesAtIff(s, i + 7 + d);
    }
  }

  lemma {:induction false} DigitRunAtLeast(s: string, i: nat, d: nat)
    requires i + d <= |s| && DigitsBetween(s, i, i + d)
    ensures DigitRun(s, i) >= d
    decreases d
  {
    if d > 0 {
      DigitRunAtLeast(s, i + 1, d - 1);
    }
  }

  /** The scanner misses no reference: whatever reference starts at `i` is the one it reports. */
  lemma MatchAtComplete(s: string, i: nat, j: nat)
    requires PlaceholderAt(s, i, j)
    ensures MatchAt(s, i) == Some(j - i)
  {
    assert |Open| == 7 && |Close| == 9;
    var d := j - i - 16;
    OpensAtIff(s, i);
    ClosesAtIff(s, j - 9);
    DigitRunAtLeast(s, i + 7, d);
    assert i + 7 + d == j - 9 && !IsDigit(s[j - 9]);
    assert DigitRun(s, i + 7) == d;
  }

  /** `re.findall`: the keys of the non-overlapping references in `s[i..]`, left to right. */
  function FindAllFrom(s: string, i: nat): seq<string>
    requires i <= |s|
    decreases |s| - i
  {
    if i == |s| then []
    else
      match MatchAt(s, i)
      case Some(n) => [KeyOf(s[i..i + n])] + FindAllFrom(s, i + n)
      case None => FindAllFrom(s, i + 1)
  }

  function FindAll(s: string): seq<string> {
    FindAllFrom(s, 0)
  }

  /** `s` holds a reference somewhere. */
  ghost predicate HasPlaceholder(s: string) {
    exists i, j :: PlaceholderAt(s, i, j)
  }

  /** The scanner reports nothing exactly when the text holds no reference. */
  lemma FindAllEmptyIff(s: string)
    ensures FindAll(s) == [] <==> !HasPlaceholder(s)
  {
    if HasPlaceholder(s) {
      var i, j :| PlaceholderAt(s, i, j);
      FindAllFromNonEmpty(s, 0, i, j);
    } else {
      FindAllFromEmpty(s, 0);
    }
  }

  lemma {:induction false} FindAllFromEmpty(s: string, i: nat)
    requires i <= |s| && !HasPlaceholder(s)
    ensures FindAllFrom(s, i) == []
    decreases |s| - i
  {
    if i < |s| {
      MatchAtSound(s, i);
      assert MatchAt(s, i).None?;
      FindAllFromEmpty(s, i + 1);
    }
  }

  lemma {:induction false} FindAllFromNonEmpty(s: string, from: nat, i: nat, j: nat)
    requires from <= i && PlaceholderAt(s, i, j)
    ensures FindAllFrom(s, from) != []
    decreases |s| - from
  {
    if from == i {
      MatchAtComplete(s, i, j);
    } else if MatchAt(s, from).None? {
      FindAllFromNonEmpty(s, from + 1, i, j);
    }
  }

  /** Positions at which no reference starts are skipped. */
  lemma {:induction false} FindAllFromSkip(s: string, from: nat, to: int)
    requires from <= to <= |s|
    requires forall k :: from <= k < to ==> MatchAt(s, k).None?
    ensures FindAllFrom(s, from) == FindAllFrom(s, to)
    decreases |s| - from
  {
    if from < to {
      FindAllFromSkip(s, from + 1, to);
    }
  }

  /** No reference starts at a character other than `$`. */
  lemma NoMatchWithoutDollar(s: string, k: nat)
    requires k < |s| && s[k] != '$'
    ensures MatchAt(s, k).None?
  {
  }

  /** A character other than `$`. */
  predicate DollarFree(s: string) {
    forall i :: 0 <= i < |s| ==> s[i] != '$'
  }

  /** A stretch without `$` holds no reference start, so the scanner skips it. */
  lemma SkipDollarFree(s: string, from: nat, to: int)
    requires from <= to <= |s|
    requires forall k :: from <= k < to ==> s[k] != '$'
    ensures FindAllFrom(s, from) == FindAllFrom(s, to)
  {
    forall k | from <= k < to ensures MatchAt(s, k).None? {
      NoMatchWithoutDollar(s, k);
    }
    FindAllFromSkip(s, from, to);
  }

  /** A reference at `i` is reported, and the scan resumes after it. */
  lemma FindAllFromAt(s: string, i: nat, j: nat)
    requires PlaceholderAt(s, i, j)
    ensures FindAllFrom(s, i) == [KeyOf(s[i..j])] + FindAllFrom(s, j)
  {
    MatchAtComplete(s, i, j);
    FindAllFromMatchEnd(s, i, j);
  }

  lemma FindAllFromMatchEnd(s: string, i: nat, j: nat)
    requires i < j <= |s| && MatchAt(s, i) == Some(j - i)
    ensures FindAllFrom(s, i) == [KeyOf(s[i..j])] + FindAllFrom(s, j)
  {
    var n := j - i;
    assert i + n == j;
    FindAllFromMatch(s, i, n);
  }

  lemma FindAllFromMatch(s: string, i: nat, n: nat)
    requires i < |s| && MatchAt(s, i) == Some(n)
    ensures FindAllFrom(s, i) == [KeyOf(s[i..i + n])] + FindAllFrom(s, i + n)
  {
  }

  lemma FindAllFromNoMatch(s: string, i: nat)
    requires i < |s| && MatchAt(s, i).None?
    ensures FindAllFrom(s, i) == FindAllFrom(s, i + 1)
  {
  }

  /** A reference with no `$` before or after it is all the scanner reports. */
  lemma FindAllOnly(s: string, a: nat, b: nat)
    requires PlaceholderAt(s, a, b)
    requires forall k :: 0 <= k < a ==> s[k] != '$'
    requires forall k :: b <= k < |s| ==> s[k] != '$'
    ensures FindAll(s) == [KeyOf(s[a..b])]
  {
    SkipDollarFree(s, 0, a);
    FindAllFromAt(s, a, b);
    SkipDollarFree(s, b, |s|);
  }

  /** In text free of `$` around one reference, the scanner reports exactly that reference's key. */
  lemma FindAllSingle(pre: string, p: string, post: string)
    requires IsPlaceholder(p) && DollarFree(pre) && DollarFree(post)
    ensures FindAll(pre + p + post) == [KeyOf(p)]
  {
    var s := pre + p + post;
    var a, b := |pre|, |pre| + |p|;
    assert s[a..b] == p;
    assert PlaceholderAt(s, a, b) by {
      PlaceholderAtSlice(s, a, b);
    }
    assert forall k :: 0 <= k < a ==> s[k] != '$' by {
      assert forall k :: 0 <= k < a ==> s[k] == pre[k];
    }
    assert forall k :: b <= k < |s| ==> s[k] != '$' by {
      assert forall k :: b <= k < |s| ==> s[k] == post[k - b];
    }
    FindAllOnly(s, a, b);
  }

  /** On a string that is exactly one reference, the scanner reports that reference's key alone. */
  lemma FindAllExact(p: string)
    requires IsPlaceholder(p)
    ensures FindAll(p) == [KeyOf(p)]
  {
    var e: string := [];
    assert e + p + e == p;
    FindAllSingle(e, p, e);
  }

  /** When the stripped text is one reference, the first key the scanner reports is that reference's key. */
  lemma FindAllOfPadded(s: string)
    requires IsPlaceholder(Strip(s))
    ensures FindAll(s) != [] && FindAll(s)[0] == KeyOf(Strip(s))
  {
    var a, b := StripBounds(s);
    SkipDollarFree(s, 0, a);
    PlaceholderAtSlice(s, a, b);
    FindAllFromAt(s, a, b);
  }

  /** A reference holds `$` only in its two opening and two closing characters, and its third is `S`. */
  lemma PlaceholderShape(t: string)
    requires IsPlaceholder(t)
    ensures |t| > |Open| + |Close|
    ensures t[0] == '$' && t[1] == '$' && t[2] == 'S' && t[|t| - 2] == '$' && t[|t| - 1] == '$'
    ensures forall i :: 2 <= i < |t| - 2 ==> t[i] != '$'
  {
    assert forall i :: 0 <= i < |Open| ==> t[i] == t[..|Open|][i];
    assert forall i :: |t| - |Close| <= i < |t| ==> t[i] == t[|t| - |Close|..][i - (|t| - |Close|)];
  }

  lemma {:induction false} DigitRunShift(x: string, y: string, i: nat)
    requires i <= |y|
    ensures DigitRun(x + y, |x| + i) == DigitRun(y, i)
    decreases |y| - i
  {
    if i < |y| {
      DigitRunShift(x, y, i + 1);
    }
  }

  lemma OccursShift(x: string, y: string, p: string, k: nat)
    ensures OccursAt(x + y, p, |x| + k) <==> OccursAt(y, p, k)
  {
    if k + |p| <= |y| {
      assert (x + y)[|x| + k..|x| + k + |p|] == y[k..k + |p|];
    }
  }

  /** Whether a reference starts at a position depends only on the text from there on. */
  lemma MatchAtShift(x: string, y: string, i: nat)
    requires i <= |y|
    ensures MatchAt(x + y, |x| + i) == MatchAt(y, i)
  {
    var s := x + y;
    OpensAtShift(x, y, i);
    if OpensAt(y, i) {
      DigitRunShift(x, y, i + 7);
      var d := DigitRun(y, i + 7);
      assert |x| + (i + 7) == |x| + i + 7;
      assert DigitRun(s, |x| + i + 7) == d;
      ClosesAtShift(x, y, i + 7 + d);
      assert |x| + (i + 7 + d) == |x| + i + 7 + d;
    }
  }

  lemma OpensAtShift(x: string, y: string, i: nat)
    ensures OpensAt(x + y, |x| + i) == OpensAt(y, i)
  {
    var s := x + y;
    if i + 7 <= |y| {
      assert forall k :: i <= k < i + 7 ==> s[|x| + k] == y[k];
    }
  }

  lemma ClosesAtShift(x: string, y: string, c: nat)
    ensures ClosesAt(x + y, |x| + c) == ClosesAt(y, c)
  {
    var s := x + y;
    if c + 9 <= |y| {
      assert forall k :: c <= k < c + 9 ==> s[|x| + k] == y[k];
    }
  }

  lemma {:induction false} FindAllFromShift(x: string, y: string, i: nat)
    requires i <= |y|
    ensures FindAllFrom(x + y, |x| + i) == FindAllFrom(y, i)
    decreases |y| - i
  {
    if i < |y| {
      var m := MatchAt(y, i);
      if m.Some? {
        FindAllFromShift(x, y, i + m.value);
        ShiftOverMatch(x, y, i, m.value);
      } else {
        FindAllFromShift(x, y, i + 1);
        ShiftOverNoMatch(x, y, i);
      }
    }
  }

  lemma ShiftOverMatch(x: string, y: string, i: nat, n: nat)
    requires i < |y| && MatchAt(y, i) == Some(n)
    requires FindAllFrom(x + y, |x| + i + n) == FindAllFrom(y, i + n)
    ensures FindAllFrom(x + y, |x| + i) == FindAllFrom(y, i)
  {
    MatchAtShift(x, y, i);
    assert (x + y)[|x| + i..|x| + i + n] == y[i..i + n];
    FindAllFromMatch(x + y, |x| + i, n);
    FindAllFromMatch(y, i, n);
  }

  lemma ShiftOverNoMatch(x: string, y: string, i: nat)
    requires i < |y| && MatchAt(y, i).None?
    requires FindAllFrom(x + y, |x| + i + 1) == FindAllFrom(y, i + 1)
    ensures FindAllFrom(x + y, |x| + i) == FindAllFrom(y, i)
  {
    MatchAtShift(x, y, i);
    FindAllFromNoMatch(x + y, |x| + i);
    FindAllFromNoMatch(y, i);
  }

  /** `gaps[0] + refs[0] + gaps[1] + ... + refs[n - 1] + gaps[n]`. */
  function Splice(gaps: seq<string>, refs: seq<string>): string
    requires |gaps| == |refs| + 1
    decreases |refs|
  {
    if refs == [] then gaps[0] else gaps[0] + refs[0] + Splice(gaps[1..], refs[1..])
  }

  /** The keys of a sequence of references, in order. */
  function KeysOf(refs: seq<string>): (keys: seq<string>)
    requires forall m :: 0 <= m < |refs| ==> IsPlaceholder(refs[m])
    ensures |keys| == |refs|
    ensures forall m :: 0 <= m < |refs| ==> IsPlaceholder(refs[m]) && keys[m] == KeyOf(refs[m])
  {
    if refs == [] then []
    else
      assert IsPlaceholder(refs[0]);
      [KeyOf(refs[0])] + KeysOf(refs[1..])
  }

  /**
   * References separated by text without `$` are found one by one: the
   * scanner reports their keys in order, repeats included.
   */
  lemma {:induction false} FindAllSplice(gaps: seq<string>, refs: seq<string>)
    requires |gaps| == |refs| + 1
    requires forall k :: 0 <= k < |gaps| ==> DollarFree(gaps[k])
    requires forall m :: 0 <= m < |refs| ==> IsPlaceholder(refs[m])
    ensures FindAll(Splice(gaps, refs)) == KeysOf(refs)
    decreases |refs|
  {
    if refs == [] {
      FindAllDollarFree(gaps[0]);
    } else {
      FindAllAfterGap(gaps[0], refs[0], Splice(gaps[1..], refs[1..]));
      FindAllSplice(gaps[1..], refs[1..]);
    }
  }

  lemma FindAllDollarFree(g: string)
    requires DollarFree(g)
    ensures FindAll(g) == []
  {
    SkipDollarFree(g, 0, |g|);
  }

  /** After text free of `$`, the first reference is reported and the scan goes on after it. */
  lemma FindAllAfterGap(g: string, r: string, rest: string)
    requires DollarFree(g) && IsPlaceholder(r)
    ensures FindAll(g + r + rest) == [KeyOf(r)] + FindAll(rest)
  {
    assert g + r + rest == g + (r + rest);
    FindAllSkipGap(g, r + rest);
    FindAllLeading(r, rest);
  }

  lemma FindAllSkipGap(g: string, t: string)
    requires DollarFree(g)
    ensures FindAll(g + t) == FindAll(t)
  {
    var s := g + t;
    assert forall k :: 0 <= k < |g| ==> s[k] == g[k];
    SkipDollarFree(s, 0, |g|);
    FindAllAfter(g, t);
  }

  lemma FindAllLeading(r: string, rest: string)
    requires IsPlaceholder(r)
    ensures FindAll(r + rest) == [KeyOf(r)] + FindAll(rest)
  {
    var s := r + rest;
    assert PlaceholderAt(s, 0, |r|) by {
      assert s[0..|r|] == r;
      PlaceholderAtSlice(s, 0, |r|);
    }
    FindAllFromAt(s, 0, |r|);
    assert s[0..|r|] == r;
    FindAllAfter(r, rest);
  }

  /** The scan of `x + y` from the end of `x` is the scan of `y`. */
  lemma FindAllAfter(x: string, y: string)
    ensures FindAllFrom(x + y, |x|) == FindAll(y)
  {
    FindAllFromShift(x, y, 0);
  }

  /**
   * What may follow a reference without forming another reference across
   * its closing `$$`: nothing, or text that does not begin with `$` and,
   * if it begins with `S`, holds no `$` at all.
   */
  predicate ClearAfter(u: string) {
    u == [] || (u[0] != '$' && (u[0] == 'S' ==> DollarFree(u)))
  }

  /** A different reference `pat` cannot start inside a reference `x`, except in its closing `$$`. */
  lemma NoMatchInsideReference(x: string, u: string, pat: string)
    requires IsPlaceholder(x) && IsPlaceholder(pat) && x != pat
    ensures forall i :: 0 <= i < |x| - 2 ==> !OccursAt(x + u, pat, i)
  {
    PlaceholderShape(x);
    PlaceholderShape(pat);
    var s := x + u;
    forall i | 0 <= i < |x| - 2 ensures !OccursAt(s, pat, i) {
      if i == 0 && |pat| < |x| {
        assert s[..|pat|][|pat| - 2] == x[|pat| - 2];
      } else if i == 0 && |x| < |pat| <= |s| {
        assert s[..|pat|][|x| - 2] == x[|x| - 2];
      }
    }
  }

  /** A reference other than `pat`, followed by clear text, is copied by the replacement. */
  lemma ReplaceSkipReference(x: string, u: string, pat: string, rep: string)
    requires IsPlaceholder(x) && IsPlaceholder(pat) && x != pat && ClearAfter(u)
    ensures Replace(x + u, pat, rep) == x + Replace(u, pat, rep)
  {
    PlaceholderShape(x);
    PlaceholderShape(pat);
    NoMatchInsideReference(x, u, pat);
    var s := x + u;
    ReplaceSkip(s, |x|, pat, rep);
    assert s[..|x|] == x && s[|x|..] == u;
  }

  /** A placeholder followed by more text ending in `$` is not one placeholder, even once stripped. */
  lemma OverlapNotOne(r: string, u: string)
    requires IsPlaceholder(r) && u != [] && u[|u| - 1] == '$'
    ensures !IsPlaceholder(Strip(r + u))
  {
    var s := r + u;
    PlaceholderShape(r);
    assert s[0] == r[0] && s[|s| - 1] == u[|u| - 1];
    StripDollarEnds(s);
    assert s[|r| - 2] == '$';
    if IsPlaceholder(s) {
      PlaceholderShape(s);
    }
  }

  /** `refs` with every copy of `pat` replaced by `rep`. */
  function Swap(refs: seq<string>, pat: string, rep: string): (r: seq<string>)
    ensures |r| == |refs|
    ensures forall m :: 0 <= m < |refs| ==> r[m] == if refs[m] == pat then rep else refs[m]
  {
    if refs == [] then [] else [if refs[0] == pat then rep else refs[0]] + Swap(refs[1..], pat, rep)
  }

  /**
   * `str.replace` of a reference over text spliced from references and
   * `$`-free pieces replaces exactly the pieces that are that reference,
   * provided the text between two pieces is not empty and does not begin with `S`.
   */
  lemma {:induction false} ReplaceSplice(gaps: seq<string>, pieces: seq<string>, pat: string, rep: string)
    requires |gaps| == |pieces| + 1 && IsPlaceholder(pat)
    requires forall k :: 0 <= k < |gaps| ==> DollarFree(gaps[k])
    requires forall k :: 1 <= k < |pieces| ==> gaps[k] != [] && gaps[k][0] != 'S'
    requires forall m :: 0 <= m < |pieces| ==> IsPlaceholder(pieces[m]) || DollarFree(pieces[m])
    ensures Replace(Splice(gaps, pieces), pat, rep) == Splice(gaps, Swap(pieces, pat, rep))
    decreases |pieces|
  {
    PlaceholderShape(pat);
    var g := gaps[0];
    if pieces == [] {
      ReplaceAfterFree(g, [], pat, rep);
      assert g + [] == g;
    } else {
      var x := pieces[0];
      var u := Splice(gaps[1..], pieces[1..]);
      assert Splice(gaps, pieces) == g + (x + u);
      ReplaceAfterFree(g, x + u, pat, rep);
      ReplaceSplice(gaps[1..], pieces[1..], pat, rep);
      if x == pat {
        ReplaceAtStart(pat, u, rep);
      } else if IsPlaceholder(x) {
        assert ClearAfter(u) by {
          if |pieces| > 1 {
            assert u[0] == gaps[1][0];
          } else {
            assert u == gaps[1];
          }
        }
        ReplaceSkipReference(x, u, pat, rep);
      } else {
        ReplaceAfterFree(x, u, pat, rep);
      }
      assert Swap(pieces, pat, rep)[1..] == Swap(pieces[1..], pat, rep);
    }
  }

  /** The key a step numbered `n` is stored under is exactly what the reference `$$STEP_n_OUTPUT$$` names. */
  lemma StepReference(n: nat)
    ensures IsPlaceholder(Wrap("STEP_" + NatToString(n) + "_OUTPUT"))
    ensures KeyOf(Wrap("STEP_" + NatToString(n) + "_OUTPUT")) == "STEP_" + NatToString(n) + "_OUTPUT"
  {
    NatToStringRoundTrip(n);
    var d := NatToString(n);
    var t := Wrap("STEP_" + d + "_OUTPUT");
    assert t == Open + d + Close;
    assert t[..|Open|] == Open;
    assert t[|t| - |Close|..] == Close;
    assert forall k :: |Open| <= k < |t| - |Close| ==> t[k] == d[k - |Open|];
  }
}
