/**
 * Character classes and whitespace stripping, as used by the request
 * validators (pattern `\s`, pydantic's strip_whitespace) and by Python's
 * str.strip().
 */
module Text {

  /** The Unicode White_Space property: what `\s` matches in the pattern
      engine and what the validation layer's whitespace stripping removes. */
  predicate IsWhiteSpace(c: char)
  {
    var n := c as int;
    (0x09 <= n <= 0x0D) || n == 0x20 || n == 0x85 || n == 0xA0 || n == 0x1680
    || (0x2000 <= n <= 0x200A) || n == 0x2028 || n == 0x2029 || n == 0x202F
    || n == 0x205F || n == 0x3000
  }

  /** Python's str.isspace(): White_Space plus the separators U+001C..U+001F. */
  predicate IsPySpace(c: char)
  {
    IsWhiteSpace(c) || (0x1C <= c as int <= 0x1F)
  }

  /** Removes the longest prefix made of `isSpace` characters. */
  function StripLeft(s: string, isSpace: char -> bool): (r: string)
    ensures |r| <= |s| && r == s[|s| - |r|..]
    ensures forall i :: 0 <= i < |s| - |r| ==> isSpace(s[i])
    ensures r != [] ==> !isSpace(r[0])
  {
    if s != [] && isSpace(s[0]) then StripLeft(s[1..], isSpace) else s
  }

  /** Removes the longest suffix made of `isSpace` characters. */
  function StripRight(s: string, isSpace: char -> bool): (r: string)
    ensures |r| <= |s| && r == s[..|r|]
    ensures forall i :: |r| <= i < |s| ==> isSpace(s[i])
    ensures r != [] ==> !isSpace(r[|r| - 1])
  {
    if s == [] then []
    else
      var rest := StripRight(s[1..], isSpace);
      if rest == [] && isSpace(s[0]) then [] else [s[0]] + rest
  }

  /** Removes leading and trailing `isSpace` characters (Python's str.strip()):
      what is removed on either side is whitespace, and what is left neither
      starts nor ends with it. */
  function Strip(s: string, isSpace: char -> bool): (r: string)
    ensures var k := |s| - |StripLeft(s, isSpace)|;
      && k + |r| <= |s| && r == s[k..k + |r|]
      && (forall i :: 0 <= i < k ==> isSpace(s[i]))
      && (forall i :: k + |r| <= i < |s| ==> isSpace(s[i]))
    ensures r != [] ==> !isSpace(r[0]) && !isSpace(r[|r| - 1])
  {
    var l := StripLeft(s, isSpace);
    var r := StripRight(l, isSpace);
    StripSlices(s, l, r, isSpace);
    r
  }

  lemma StripSlices(s: string, l: string, r: string, isSpace: char -> bool)
    requires |l| <= |s| && l == s[|s| - |l|..]
    requires |r| <= |l| && r == l[..|r|]
    requires forall i :: |r| <= i < |l| ==> isSpace(l[i])
    ensures r == s[|s| - |l|..|s| - |l| + |r|]
    ensures forall i :: |s| - |l| + |r| <= i < |s| ==> isSpace(s[i])
  {
    assert r == s[|s| - |l|..][..|r|];
    forall i | |s| - |l| + |r| <= i < |s| ensures isSpace(s[i]) {
      assert s[i] == l[i - (|s| - |l|)];
    }
  }

  /** Python's str.strip(). */
  function PyStrip(s: string): string
  {
    Strip(s, IsPySpace)
  }

  /** Whitespace stripping done by the validation layer before length checks. */
  function Trim(s: string): string
  {
    Strip(s, IsWhiteSpace)
  }

  lemma {:induction false} StripLeftTwice(s: string, p: char -> bool, q: char -> bool)
    requires forall c :: p(c) ==> q(c)
    ensures StripLeft(StripLeft(s, p), q) == StripLeft(s, q)
  {
    if s != [] && p(s[0]) {
      StripLeftTwice(s[1..], p, q);
    }
  }

  lemma {:induction false} StripRightTwice(s: string, p: char -> bool, q: char -> bool)
    requires forall c :: p(c) ==> q(c)
    ensures StripRight(StripRight(s, p), q) == StripRight(s, q)
  {
    if s != [] {
      StripRightTwice(s[1..], p, q);
      var rest := StripRight(s[1..], p);
      if !(rest == [] && p(s[0])) {
        assert ([s[0]] + rest)[1..] == rest;
      }
    }
  }

  /** A string that does not start with a `q` character keeps its first
      character through a suffix strip, so the prefix strip removes nothing. */
  lemma StripRightKeepsHead(s: string, p: char -> bool, q: char -> bool)
    requires s != [] && !q(s[0])
    ensures StripLeft(StripRight(s, p), q) == StripRight(s, p)
  {
    var r := StripRight(s, p);
    if r != [] {
      assert r[0] == s[0];
    }
  }

  /** A suffix strip of a string whose first character is kept starts with
      that character; a prefix strip then skips it when it is a `q` character. */
  lemma StripRightOfSpaceHead(s: string, p: char -> bool, q: char -> bool)
    requires s != [] && q(s[0])
    ensures StripLeft(StripRight(s, p), q) == StripLeft(StripRight(s[1..], p), q)
  {
    var rest := StripRight(s[1..], p);
    if !(rest == [] && p(s[0])) {
      var t := [s[0]] + rest;
      assert StripRight(s, p) == t;
      assert t[1..] == rest;
    }
  }

  /** Stripping a prefix with one class and a suffix with another commute. */
  lemma {:induction false} StripLeftRightCommute(s: string, p: char -> bool, q: char -> bool)
    ensures StripLeft(StripRight(s, p), q) == StripRight(StripLeft(s, q), p)
  {
    if s == [] {
    } else if q(s[0]) {
      calc {
        StripLeft(StripRight(s, p), q);
        { StripRightOfSpaceHead(s, p, q); }
        StripLeft(StripRight(s[1..], p), q);
        { StripLeftRightCommute(s[1..], p, q); }
        StripRight(StripLeft(s[1..], q), p);
      }
    } else {
      StripRightKeepsHead(s, p, q);
    }
  }

  /** Stripping with a smaller class first changes nothing about a later strip
      with a larger one; with p == q this is idempotence. */
  lemma StripTwice(s: string, p: char -> bool, q: char -> bool)
    requires forall c :: p(c) ==> q(c)
    ensures Strip(Strip(s, p), q) == Strip(s, q)
  {
    var l := StripLeft(s, p);
    StripLeftRightCommute(l, p, q);
    StripLeftTwice(s, p, q);
    StripRightTwice(StripLeft(l, q), p, q);
  }

  /** Python's strip() after the validation layer's trim is Python's strip(). */
  lemma PyStripAfterTrim(s: string)
    ensures PyStrip(Trim(s)) == PyStrip(s)
  {
    StripTwice(s, IsWhiteSpace, IsPySpace);
  }

  /** Stripping is idempotent. */
  lemma PyStripIdempotent(s: string)
    ensures PyStrip(PyStrip(s)) == PyStrip(s)
  {
    StripTwice(s, IsPySpace, IsPySpace);
  }
}
