/** String trimming as JavaScript's `String.prototype.trim` does it: both the
    routes (`title.trim()`) and the schema's `trim: true` setter use it. */
module Text {

  /** ECMAScript's WhiteSpace and LineTerminator code points: tab, line feed,
      vertical tab, form feed, carriage return, the space separators of
      Unicode category Zs, the line and paragraph separators and the byte
      order mark. */
  const WhiteSpace: set<char> := {
    '\t', '\n', '\U{000B}', '\U{000C}', '\r', ' ', '\U{00A0}', '\U{1680}',
    '\U{2000}', '\U{2001}', '\U{2002}', '\U{2003}', '\U{2004}', '\U{2005}',
    '\U{2006}', '\U{2007}', '\U{2008}', '\U{2009}', '\U{200A}',
    '\U{2028}', '\U{2029}', '\U{202F}', '\U{205F}', '\U{3000}', '\U{FEFF}'
  }

  predicate IsSpace(c: char)
  {
    c in WhiteSpace
  }

  predicate AllSpace(s: string)
  {
    forall i :: 0 <= i < |s| ==> IsSpace(s[i])
  }

  /** Neither end of `s` is white space. */
  predicate IsTrimmed(s: string)
  {
    s == [] || (!IsSpace(s[0]) && !IsSpace(s[|s| - 1]))
  }

  /** `r` is `s` with its leading and trailing white space removed: `s` is
      `r` framed by white space on both sides, and `r` has no white space at
      either of its own ends. */
  ghost predicate Trims(s: string, r: string)
  {
    exists p, q :: s == p + r + q && AllSpace(p) && AllSpace(q) && IsTrimmed(r)
  }

  /** Drops leading white space. */
  function TrimStart(s: string): (r: string)
    ensures exists p :: s == p + r && AllSpace(p)
    ensures r != [] ==> !IsSpace(r[0])
  {
    if s != [] && IsSpace(s[0]) then
      var r := TrimStart(s[1..]);
      var p :| s[1..] == p + r && AllSpace(p);
      assert s == [s[0]] + p + r;
      r
    else
      assert s == [] + s;
      s
  }

  /** Drops trailing white space. */
  function TrimEnd(s: string): (r: string)
    ensures exists q :: s == r + q && AllSpace(q)
    ensures r != [] ==> !IsSpace(r[|r| - 1])
  {
    if s != [] && IsSpace(s[|s| - 1]) then
      var r := TrimEnd(s[..|s| - 1]);
      var q :| s[..|s| - 1] == r + q && AllSpace(q);
      assert s == r + (q + [s[|s| - 1]]);
      r
    else
      assert s == s + [];
      s
  }

  function Trim(s: string): (r: string)
    ensures Trims(s, r)
    ensures r == [] <==> AllSpace(s)
  {
    TrimBothEnds(s);
    TrimEnd(TrimStart(s))
  }

  lemma TrimBothEnds(s: string)
    ensures Trims(s, TrimEnd(TrimStart(s)))
    ensures TrimEnd(TrimStart(s)) == [] <==> AllSpace(s)
  {
    var t := TrimStart(s);
    var r := TrimEnd(t);
    var p :| s == p + t && AllSpace(p);
    var q :| t == r + q && AllSpace(q);
    FramedByBothEnds(s, p, t, r, q);
  }

  lemma FramedByBothEnds(s: string, p: string, t: string, r: string, q: string)
    requires s == p + t && AllSpace(p) && t == r + q && AllSpace(q)
    requires t != [] ==> !IsSpace(t[0])
    requires r != [] ==> !IsSpace(r[|r| - 1])
    ensures Trims(s, r)
    ensures r == [] <==> AllSpace(s)
  {
    assert s == p + r + q;
    assert r != [] ==> r[0] == t[0];
    Framed(s, p, r, q);
  }

  /** What `s == p + r + q`, with white space `p` and `q`, says about the
      individual characters of `s`. */
  lemma Framed(s: string, p: string, r: string, q: string)
    requires s == p + r + q && AllSpace(p) && AllSpace(q) && IsTrimmed(r)
    ensures forall i :: 0 <= i < |p| ==> IsSpace(s[i])
    ensures forall i :: |p| + |r| <= i < |s| ==> IsSpace(s[i])
    ensures forall i :: 0 <= i < |r| ==> s[|p| + i] == r[i]
    ensures |s| == |p| + |r| + |q| && r == s[|p|..|p| + |r|]
    ensures r == [] <==> AllSpace(s)
  {
    assert forall i :: |p| + |r| <= i < |s| ==> s[i] == q[i - |p| - |r|];
    if r != [] {
      assert s[|p|] == r[0];
    }
  }

  /** There is only one way to trim a string: `Trims` pins the result down. */
  lemma TrimsUnique(s: string, r1: string, r2: string)
    requires Trims(s, r1) && Trims(s, r2)
    ensures r1 == r2
  {
    var p1, q1 :| s == p1 + r1 + q1 && AllSpace(p1) && AllSpace(q1) && IsTrimmed(r1);
    var p2, q2 :| s == p2 + r2 + q2 && AllSpace(p2) && AllSpace(q2) && IsTrimmed(r2);
    Framed(s, p1, r1, q1);
    Framed(s, p2, r2, q2);
    if r1 != [] && r2 != [] {
      // Both start at the first and end at the last non-space character
      // of s.
      assert !IsSpace(s[|p1|]) && !IsSpace(s[|p2|]);
      assert !IsSpace(s[|p1| + |r1| - 1]) && !IsSpace(s[|p2| + |r2| - 1]);
      assert |p1| == |p2| && |r1| == |r2|;
    }
  }

  /** A string that already has no white space at its ends trims to itself. */
  lemma TrimOfTrimmed(s: string)
    requires IsTrimmed(s)
    ensures Trim(s) == s
  {
    assert Trims(s, s) by {
      var e: string := [];
      assert s == e + s + e && AllSpace(e);
    }
    TrimsUnique(s, Trim(s), s);
  }

  /** Trimming twice is trimming once, so the route's `title.trim()` followed
      by the schema's trim setter stores the same title as either alone. */
  lemma TrimIdempotent(s: string)
    ensures Trim(Trim(s)) == Trim(s)
  {
    var r := Trim(s);
    var p, q :| s == p + r + q && AllSpace(p) && AllSpace(q) && IsTrimmed(r);
    TrimOfTrimmed(r);
  }
}
