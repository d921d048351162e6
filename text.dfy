/**
 * String primitives the dashboard relies on, as JavaScript defines them for the
 * values the dashboard handles: substring search (`String.prototype.includes`),
 * lower-casing (`toLowerCase`) and white-space trimming (`trim`).
 */
module Text {

  /** `s.includes(p)`, decided by a left-to-right scan. The empty pattern occurs everywhere. */
  function Contains(s: string, p: string): (r: bool)
    ensures p == [] ==> r
    ensures r ==> |p| <= |s|
    decreases |s|
  {
    |p| <= |s| && (s[..|p|] == p || Contains(s[1..], p))
  }

  /** The declarative meaning of a substring: `p` sits at some position of `s`. */
  ghost predicate OccursAt(p: string, s: string, i: int)
  {
    0 <= i && i + |p| <= |s| && s[i..i + |p|] == p
  }

  ghost predicate Occurs(p: string, s: string)
  {
    exists i :: OccursAt(p, s, i)
  }

  /** The scan finds a pattern exactly when the pattern occurs somewhere. */
  lemma ContainsIffOccurs(s: string, p: string)
    ensures Contains(s, p) <==> Occurs(p, s)
  {
    if Contains(s, p) {
      ContainsFinds(s, p);
    }
    if Occurs(p, s) {
      var i :| OccursAt(p, s, i);
      FoundByContains(s, p, i);
    }
  }

  lemma {:induction false} ContainsFinds(s: string, p: string)
    requires Contains(s, p)
    ensures Occurs(p, s)
    decreases |s|
  {
    if s[..|p|] == p {
      assert OccursAt(p, s, 0);
    } else {
      ContainsFinds(s[1..], p);
      var i :| OccursAt(p, s[1..], i);
      SliceOfSlice(s, 1, |s|, i, i + |p|);
      assert OccursAt(p, s, i + 1);
    }
  }

  lemma {:induction false} FoundByContains(s: string, p: string, i: int)
    requires OccursAt(p, s, i)
    ensures Contains(s, p)
    decreases i
  {
    if i > 0 {
      SliceOfSlice(s, 1, |s|, i - 1, i - 1 + |p|);
      FoundByContains(s[1..], p, i - 1);
    }
  }

  lemma SliceOfSlice(s: string, lo: int, hi: int, i: int, j: int)
    requires 0 <= lo <= hi <= |s| && 0 <= i <= j <= hi - lo
    ensures s[lo..hi][i..j] == s[lo + i..lo + j]
  {
    assert forall k :: 0 <= k < j - i ==> s[lo..hi][i..j][k] == s[lo + i + k];
  }

  /** A pattern found in a prefix or a suffix is found in the whole string. */
  lemma OccursInSlice(p: string, s: string, lo: int, hi: int)
    requires 0 <= lo <= hi <= |s| && Occurs(p, s[lo..hi])
    ensures Occurs(p, s)
  {
    var i :| OccursAt(p, s[lo..hi], i);
    SliceOfSlice(s, lo, hi, i, i + |p|);
    assert OccursAt(p, s, lo + i);
  }

  // ---------------------------------------------------------------------------
  // Lower-casing

  /**
   * `toLowerCase` on one character: the ASCII capitals and the Latin-1 capitals
   * U+00C0..U+00DE (except the multiplication sign U+00D7) move up by 0x20;
   * every other character is left as it is.
   */
  function LowerChar(c: char): (r: char)
    ensures IsUpper(c) ==> r as int == c as int + 0x20
    ensures !IsUpper(c) ==> r == c
  {
    if IsUpper(c) then (c as int + 0x20) as char else c
  }

  predicate IsUpper(c: char)
  {
    ('A' <= c <= 'Z') || ('\U{C0}' <= c <= '\U{DE}' && c != '\U{D7}')
  }

  function ToLower(s: string): (r: string)
    ensures |r| == |s|
    ensures forall i :: 0 <= i < |s| ==> r[i] == LowerChar(s[i])
  {
    seq(|s|, i requires 0 <= i < |s| => LowerChar(s[i]))
  }

  /** Lower-casing never yields a capital, so it is idempotent. */
  lemma ToLowerIdempotent(s: string)
    ensures ToLower(ToLower(s)) == ToLower(s)
  {
    assert forall i :: 0 <= i < |s| ==> !IsUpper(ToLower(s)[i]);
  }

  /** Lower-casing works character by character, so it commutes with slicing. */
  lemma ToLowerSlice(s: string, lo: int, hi: int)
    requires 0 <= lo <= hi <= |s|
    ensures ToLower(s)[lo..hi] == ToLower(s[lo..hi])
  {
  }

  /** Case-insensitivity: a pattern in the raw string is found, lower-cased, in the lower-cased string. */
  lemma OccursLowered(p: string, s: string)
    requires Occurs(p, s)
    ensures Occurs(ToLower(p), ToLower(s))
  {
    var i :| OccursAt(p, s, i);
    ToLowerSlice(s, i, i + |p|);
    assert OccursAt(ToLower(p), ToLower(s), i);
  }

  // ---------------------------------------------------------------------------
  // Trimming

  /**
   * The characters `trim` removes: ECMAScript WhiteSpace (TAB, VT, FF, U+FEFF and
   * every space separator) and LineTerminator (LF, CR, U+2028, U+2029).
   */
  predicate IsJsSpace(c: char)
  {
    || c == '\t' || c == '\U{0B}' || c == '\U{0C}' || c == '\U{FEFF}'
    || c == ' ' || c == '\U{A0}' || c == '\U{1680}' || ('\U{2000}' <= c <= '\U{200A}')
    || c == '\U{202F}' || c == '\U{205F}' || c == '\U{3000}'
    || c == '\n' || c == '\r' || c == '\U{2028}' || c == '\U{2029}'
  }

  ghost predicate AllSpace(s: string)
  {
    forall i :: 0 <= i < |s| ==> IsJsSpace(s[i])
  }

  function TrimStart(s: string): (r: string)
    ensures |r| <= |s| && r == s[|s| - |r|..]
    ensures r != [] ==> !IsJsSpace(r[0])
    ensures AllSpace(s[..|s| - |r|])
    decreases |s|
  {
    if s != [] && IsJsSpace(s[0]) then
      var r := TrimStart(s[1..]);
      assert s[..|s| - |r|] == [s[0]] + s[1..][..|s| - 1 - |r|];
      r
    else s
  }

  function TrimEnd(s: string): (r: string)
    ensures |r| <= |s| && r == s[..|r|]
    ensures r != [] ==> !IsJsSpace(r[|r| - 1])
    ensures AllSpace(s[|r|..])
    decreases |s|
  {
    if s != [] && IsJsSpace(s[|s| - 1]) then
      var r := TrimEnd(s[..|s| - 1]);
      assert s[|r|..] == s[..|s| - 1][|r|..] + [s[|s| - 1]];
      r
    else s
  }

  /** `r` is the part of `s` at offset `i` once white space is cut off at both ends. */
  ghost predicate TrimmedAt(s: string, i: int, r: string)
  {
    0 <= i && i + |r| <= |s| && r == s[i..i + |r|] && AllSpace(s[..i]) && AllSpace(s[i + |r|..])
  }

  /**
   * `s.trim()`: the contiguous middle of `s` left when the white space at both
   * ends is removed; it neither starts nor ends with white space.
   */
  function Trim(s: string): (r: string)
    ensures TrimmedAt(s, |s| - |TrimStart(s)|, r)
    ensures r != [] ==> !IsJsSpace(r[0]) && !IsJsSpace(r[|r| - 1])
  {
    TrimSlice(s);
    TrimEdges(s);
    TrimEnd(TrimStart(s))
  }

  lemma TrimSlice(s: string)
    ensures TrimmedAt(s, |s| - |TrimStart(s)|, TrimEnd(TrimStart(s)))
  {
    CutBothEnds(s, TrimStart(s), TrimEnd(TrimStart(s)));
  }

  /**
   * Cutting white space off the front of `s` (leaving `t`) and then off the back
   * of `t` (leaving `r`) leaves `r` trimmed at the offset where `t` starts.
   */
  lemma CutBothEnds(s: string, t: string, r: string)
    requires |t| <= |s| && t == s[|s| - |t|..] && AllSpace(s[..|s| - |t|])
    requires |r| <= |t| && r == t[..|r|] && AllSpace(t[|r|..])
    ensures TrimmedAt(s, |s| - |t|, r)
  {
    var i := |s| - |t|;
    assert forall k :: 0 <= k < |r| ==> r[k] == t[k] == s[i + k];
    assert forall k :: 0 <= k < |t| - |r| ==> t[|r|..][k] == t[|r| + k] == s[i + |r| + k];
    assert t[|r|..] == s[i + |r|..];
  }

  lemma TrimEdges(s: string)
    ensures var r := TrimEnd(TrimStart(s)); r != [] ==> !IsJsSpace(r[0]) && !IsJsSpace(r[|r| - 1])
  {
    var t := TrimStart(s);
    var r := TrimEnd(t);
    assert r != [] ==> r[0] == t[0];
  }

  /** `!s.trim()`: the trimmed string is empty exactly when every character is white space. */
  lemma TrimEmptyIffAllSpace(s: string)
    ensures Trim(s) == [] <==> AllSpace(s)
  {
    var t := TrimStart(s);
    if Trim(s) == [] {
      assert AllSpace(t[0..]);
      assert s == s[..|s| - |t|] + t;
    }
  }
}
