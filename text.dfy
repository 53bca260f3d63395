/**
 * The string operations the pages use: lower-casing, `trim`, substring
 * search and the `/\s+/g` whitespace-run replacement. Only ASCII is
 * modelled: upper-case letters are A-Z and whitespace is the space and the
 * control characters 9 to 13.
 */
module Text {

  /** A whitespace character as `\s` and `trim` see it (ASCII part only). */
  predicate IsSpace(c: char) {
    c == ' ' || 9 <= c as int <= 13
  }

  function LowerChar(c: char): char {
    if 'A' <= c <= 'Z' then (c as int + 32) as char else c
  }

  /** `toLowerCase`: every character lower-cased, length kept. */
  function Lower(s: string): (r: string)
    ensures |r| == |s|
    ensures forall i :: 0 <= i < |s| ==> r[i] == LowerChar(s[i])
  {
    if s == [] then [] else [LowerChar(s[0])] + Lower(s[1..])
  }

  /** `sub` occurs in `s` starting at position `i`. */
  predicate OccursAt(s: string, sub: string, i: int) {
    0 <= i && i + |sub| <= |s| && s[i..i + |sub|] == sub
  }

  /** `s.includes(sub)`: `sub` occurs in `s` at some position. */
  predicate Contains(s: string, sub: string) {
    exists i | 0 <= i <= |s| :: OccursAt(s, sub, i)
  }

  /** The empty string occurs in every string. */
  lemma ContainsEmpty(s: string)
    ensures Contains(s, "")
  {
    assert OccursAt(s, "", 0);
  }

  /** Leading whitespace removed: what is left is a suffix not starting with whitespace. */
  function TrimStart(s: string): (r: string)
    ensures |r| <= |s| && r == s[|s| - |r|..]
    ensures r == [] || !IsSpace(r[0])
    ensures forall i :: 0 <= i < |s| - |r| ==> IsSpace(s[i])
  {
    if s != [] && IsSpace(s[0]) then TrimStart(s[1..]) else s
  }

  /** Trailing whitespace removed: what is left is a prefix not ending with whitespace. */
  function TrimEnd(s: string): (r: string)
    ensures |r| <= |s| && r == s[..|r|]
    ensures r == [] || !IsSpace(r[|r| - 1])
    ensures forall i :: |r| <= i < |s| ==> IsSpace(s[i])
  {
    if s != [] && IsSpace(s[|s| - 1]) then TrimEnd(s[..|s| - 1]) else s
  }

  /** No character of `s` is whitespace. */
  predicate NoSpace(s: string) {
    forall i :: 0 <= i < |s| ==> !IsSpace(s[i])
  }

  /** `r` is `s` with an all-whitespace prefix and an all-whitespace suffix cut off. */
  predicate CutFromEnds(s: string, r: string) {
    exists i, j | 0 <= i <= j <= |s| :: r == s[i..j] && AllSpace(s[..i]) && AllSpace(s[j..])
  }

  /** Every character of `s` is whitespace. */
  predicate AllSpace(s: string) {
    forall i :: 0 <= i < |s| ==> IsSpace(s[i])
  }

  /**
   * `trim`: the result is what is left of `s` once whitespace is cut from
   * both ends only; it neither starts nor ends with whitespace, and it is
   * empty exactly when `s` is all whitespace.
   */
  function Trim(s: string): (r: string)
    ensures r == [] <==> AllSpace(s)
    ensures r != [] ==> !IsSpace(r[0]) && !IsSpace(r[|r| - 1])
    ensures CutFromEnds(s, r)
    ensures Contains(s, r)
  {
    var t := TrimStart(s);
    var r := TrimEnd(t);
    TrimPieces(s, t, r);
    assert OccursAt(s, r, |s| - |t|);
    r
  }

  /** Cutting a whitespace prefix and then a whitespace suffix leaves a middle piece `s[i..j]`, with whitespace only on either side of it. */
  lemma TrimPieces(s: string, t: string, r: string)
    requires |t| <= |s| && t == s[|s| - |t|..] && forall k :: 0 <= k < |s| - |t| ==> IsSpace(s[k])
    requires |r| <= |t| && r == t[..|r|] && forall k :: |r| <= k < |t| ==> IsSpace(t[k])
    requires r == [] || !IsSpace(r[0])
    ensures var i, j := |s| - |t|, |s| - |t| + |r|;
      0 <= i <= j <= |s| && r == s[i..j] && AllSpace(s[..i]) && AllSpace(s[j..])
    ensures r == [] <==> AllSpace(s)
  {
    var i, j := |s| - |t|, |s| - |t| + |r|;
    assert forall k :: j <= k < |s| ==> s[k] == t[k - i];
    assert forall k :: j <= k < |s| ==> IsSpace(s[k]);
    SliceSpace(s, 0, i);
    SliceSpace(s, j, |s|);
    assert s[..i] == s[0..i] && s[j..] == s[j..|s|];
    assert r == s[i..j];
    if r != [] {
      assert s[i] == r[0];
    }
  }

  /** A stretch of `s` made of whitespace is a whitespace string. */
  lemma SliceSpace(s: string, lo: int, hi: int)
    requires 0 <= lo <= hi <= |s|
    requires forall k :: lo <= k < hi ==> IsSpace(s[k])
    ensures AllSpace(s[lo..hi])
  {
  }

  /** A string that `trim` leaves empty (falsy after trimming). */
  predicate IsBlank(s: string) {
    Trim(s) == ""
  }

  /**
   * `s.replace(/\s+/g, '_')`: each maximal run of whitespace becomes one `_`.
   * The result holds no whitespace and is never longer.
   */
  function Underscored(s: string): (r: string)
    ensures |r| <= |s|
    ensures forall i :: 0 <= i < |r| ==> !IsSpace(r[i])
    decreases |s|
  {
    if s == [] then []
    else if IsSpace(s[0]) then
      "_" + Underscored(TrimStart(s))
    else [s[0]] + Underscored(s[1..])
  }

  /** Cutting leading whitespace from `w + b` leaves `b` when `b` does not start with whitespace. */
  lemma {:induction false} TrimStartSpaces(w: string, b: string)
    requires AllSpace(w)
    requires b == [] || !IsSpace(b[0])
    ensures TrimStart(w + b) == b
  {
    if w == [] {
      assert w + b == b;
    } else {
      assert (w + b)[1..] == w[1..] + b;
      TrimStartSpaces(w[1..], b);
    }
  }

  /**
   * The whitespace-run replacement, one run at a time: a word, then a
   * non-empty run of whitespace, then the rest (which does not start with
   * whitespace) become the word, one `_` and the replacement of the rest.
   */
  lemma UnderscoredRun(a: string, w: string, b: string)
    requires NoSpace(a)
    requires w != [] && AllSpace(w)
    requires b == [] || !IsSpace(b[0])
    ensures Underscored(a + w + b) == a + "_" + Underscored(b)
  {
    assert a + w + b == a + (w + b);
    UnderscoredWord(a, w + b);
    UnderscoredLeadingRun(w, b);
  }

  /** A word without whitespace is copied as it is, whatever follows it. */
  lemma {:induction false} UnderscoredWord(a: string, t: string)
    requires NoSpace(a)
    ensures Underscored(a + t) == a + Underscored(t)
    decreases |a|
  {
    if a == [] {
      assert a + t == t;
    } else {
      assert a + t == [a[0]] + (a[1..] + t);
      UnderscoredWordChar(a[0], a[1..] + t);
      UnderscoredWord(a[1..], t);
    }
  }

  /** A string without whitespace is returned as it is. */
  lemma UnderscoredNoSpace(s: string)
    requires NoSpace(s)
    ensures Underscored(s) == s
  {
    assert s + [] == s;
    UnderscoredWord(s, []);
  }

  /** A leading whitespace run becomes one `_`. */
  lemma UnderscoredLeadingRun(w: string, b: string)
    requires w != [] && AllSpace(w)
    requires b == [] || !IsSpace(b[0])
    ensures Underscored(w + b) == "_" + Underscored(b)
  {
    assert (w + b)[0] == w[0];
    TrimStartSpaces(w, b);
  }

  /** A character that is not whitespace is kept as it is. */
  lemma UnderscoredWordChar(c: char, t: string)
    requires !IsSpace(c)
    ensures Underscored([c] + t) == [c] + Underscored(t)
  {
    assert ([c] + t)[0] == c && ([c] + t)[1..] == t;
  }

  /** A concrete instance: `"a  b".replace(/\s+/g, '_')` is `"a_b"`. */
  lemma UnderscoredExample()
    ensures Underscored("a  b") == "a_b"
  {
    assert "a  b" == "a" + "  " + "b";
    UnderscoredRun("a", "  ", "b");
  }
}
