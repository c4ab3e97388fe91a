/**
 * The JavaScript string operations the front-end relies on, over strings of
 * Unicode scalar values (`seq<char>`): `trim`, `toLowerCase`, `includes`,
 * `startsWith`, `endsWith` and `slice(-n)`. Surrogate pairs are not modelled;
 * every character a serial byte decodes to is a single Latin-1 character.
 */
module JsString {

  /** The characters `String.prototype.trim` removes (WhiteSpace and LineTerminator). */
  predicate IsSpace(c: char) {
    ('\U{9}' <= c <= '\U{D}') || c == ' ' || c == '\U{A0}' || c == '\U{1680}' ||
    ('\U{2000}' <= c <= '\U{200A}') || c == '\U{2028}' || c == '\U{2029}' ||
    c == '\U{202F}' || c == '\U{205F}' || c == '\U{3000}' || c == '\U{FEFF}'
  }

  function TrimStart(s: string): (r: string)
    ensures |r| <= |s|
    ensures r == [] || !IsSpace(r[0])
    ensures forall i :: 0 <= i < |s| - |r| ==> IsSpace(s[i])
  {
    if |s| > 0 && IsSpace(s[0]) then TrimStart(s[1..]) else s
  }

  function TrimEnd(s: string): (r: string)
    ensures |r| <= |s|
    ensures r == [] || !IsSpace(r[|r| - 1])
    ensures forall i :: |r| <= i < |s| ==> IsSpace(s[i])
  {
    if |s| > 0 && IsSpace(s[|s| - 1]) then TrimEnd(s[..|s| - 1]) else s
  }

  /** `trimEnd` keeps a prefix of its input. */
  lemma {:induction false} TrimEndIsPrefix(s: string)
    ensures TrimEnd(s) == s[..|TrimEnd(s)|]
  {
    if |s| > 0 && IsSpace(s[|s| - 1]) {
      TrimEndIsPrefix(s[..|s| - 1]);
    }
  }

  /** `trimStart` keeps a suffix of its input. */
  lemma {:induction false} TrimStartIsSuffix(s: string)
    ensures TrimStart(s) == s[|s| - |TrimStart(s)|..]
  {
    if |s| > 0 && IsSpace(s[0]) {
      TrimStartIsSuffix(s[1..]);
      assert s[1..][|s| - 1 - |TrimStart(s)|..] == s[|s| - |TrimStart(s)|..];
    }
  }

  /** `s.trim()`: no leading and no trailing white space is left. */
  function Trim(s: string): (r: string)
    ensures r == [] || (!IsSpace(r[0]) && !IsSpace(r[|r| - 1]))
  {
    TrimEndIsPrefix(TrimStart(s));
    TrimEnd(TrimStart(s))
  }

  /** A string with no white space at either end is its own trim. */
  lemma TrimKeepsUnpadded(s: string)
    requires s != [] && !IsSpace(s[0]) && !IsSpace(s[|s| - 1])
    ensures Trim(s) == s
  {
    assert TrimStart(s) == s;
    assert TrimEnd(s) == s;
  }

  /**
   * `trim` only removes white space, and only at the two ends: the result is
   * the part of the input between a run of leading and a run of trailing
   * white space.
   */
  lemma TrimIsInner(s: string)
    ensures var k := |s| - |TrimStart(s)|;
      OccursAt(s, Trim(s), k) &&
      (forall i :: 0 <= i < k ==> IsSpace(s[i])) &&
      (forall i :: k + |Trim(s)| <= i < |s| ==> IsSpace(s[i]))
  {
    var t := TrimStart(s);
    TrimStartIsSuffix(s);
    TrimEndIsPrefix(t);
    PrefixOfSuffix(s, t, TrimEnd(t));
  }

  lemma PrefixOfSuffix(s: string, t: string, r: string)
    requires |t| <= |s| && t == s[|s| - |t|..]
    requires |r| <= |t| && r == t[..|r|]
    requires forall j :: |r| <= j < |t| ==> IsSpace(t[j])
    ensures OccursAt(s, r, |s| - |t|)
    ensures forall i :: |s| - |t| + |r| <= i < |s| ==> IsSpace(s[i])
  {
    var k := |s| - |t|;
    assert s[k..k + |r|] == r;
    forall i | k + |r| <= i < |s|
      ensures IsSpace(s[i])
    {
      assert s[i] == t[i - k];
    }
  }

  /**
   * `toLowerCase` on one character. Exact on Latin-1 (the characters a byte
   * decodes to); characters above U+00FF are kept as they are.
   */
  function LowerChar(c: char): (r: char)
    ensures IsSpace(r) <==> IsSpace(c)
  {
    if 'A' <= c <= 'Z' || ('\U{C0}' <= c <= '\U{DE}' && c != '\U{D7}')
    then (c as int + 32) as char
    else c
  }

  function Lower(s: string): (r: string)
    ensures |r| == |s|
    ensures forall i :: 0 <= i < |s| ==> r[i] == LowerChar(s[i])
  {
    seq(|s|, i requires 0 <= i < |s| => LowerChar(s[i]))
  }

  predicate OccursAt(s: string, p: string, i: int) {
    0 <= i && i + |p| <= |s| && s[i..i + |p|] == p
  }

  /** `s.includes(p)` */
  predicate Contains(s: string, p: string) {
    exists i :: 0 <= i <= |s| - |p| && OccursAt(s, p, i)
  }

  /** `s.startsWith(p)` */
  predicate StartsWith(s: string, p: string) {
    |p| <= |s| && s[..|p|] == p
  }

  /** `s.endsWith(p)` */
  predicate EndsWith(s: string, p: string) {
    |p| <= |s| && s[|s| - |p|..] == p
  }

  /** `s.slice(-n)` for a positive `n`: the last `n` characters, or all of `s`. */
  function SliceLast(s: string, n: nat): (r: string)
    requires n > 0
    ensures |r| == if |s| < n then |s| else n
    ensures EndsWith(s, r)
  {
    if |s| <= n then s else s[|s| - n..]
  }

  lemma EndsWithContains(s: string, p: string)
    requires EndsWith(s, p)
    ensures Contains(s, p)
  {
    assert OccursAt(s, p, |s| - |p|);
  }

  /** Dropping a first character that cannot start `p` does not change containment. */
  lemma ContainsDropFirst(s: string, p: string)
    requires |s| > 0 && |p| > 0 && s[0] != p[0]
    ensures Contains(s[1..], p) <==> Contains(s, p)
  {
    if Contains(s[1..], p) {
      var i :| 0 <= i <= |s| - 1 - |p| && OccursAt(s[1..], p, i);
      assert s[i + 1..i + 1 + |p|] == s[1..][i..i + |p|];
      assert OccursAt(s, p, i + 1);
    }
    if Contains(s, p) {
      var i :| 0 <= i <= |s| - |p| && OccursAt(s, p, i);
      assert s[i] == s[i..i + |p|][0] == p[0];
      assert s[1..][i - 1..i - 1 + |p|] == s[i..i + |p|];
      assert OccursAt(s[1..], p, i - 1);
    }
  }

  /** Dropping a last character that cannot end `p` does not change containment. */
  lemma ContainsDropLast(s: string, p: string)
    requires |s| > 0 && |p| > 0 && s[|s| - 1] != p[|p| - 1]
    ensures Contains(s[..|s| - 1], p) <==> Contains(s, p)
  {
    var t := s[..|s| - 1];
    if Contains(t, p) {
      var i :| 0 <= i <= |t| - |p| && OccursAt(t, p, i);
      assert s[i..i + |p|] == t[i..i + |p|];
      assert OccursAt(s, p, i);
    }
    if Contains(s, p) {
      var i :| 0 <= i <= |s| - |p| && OccursAt(s, p, i);
      assert s[i + |p| - 1] == s[i..i + |p|][|p| - 1] == p[|p| - 1];
      assert t[i..i + |p|] == s[i..i + |p|];
      assert OccursAt(t, p, i);
    }
  }

  lemma {:induction false} ContainsTrimStart(s: string, p: string)
    requires |p| > 0 && !IsSpace(p[0])
    ensures Contains(TrimStart(s), p) <==> Contains(s, p)
  {
    if |s| > 0 && IsSpace(s[0]) {
      ContainsTrimStart(s[1..], p);
      ContainsDropFirst(s, p);
    }
  }

  lemma {:induction false} ContainsTrimEnd(s: string, p: string)
    requires |p| > 0 && !IsSpace(p[|p| - 1])
    ensures Contains(TrimEnd(s), p) <==> Contains(s, p)
  {
    if |s| > 0 && IsSpace(s[|s| - 1]) {
      ContainsTrimEnd(s[..|s| - 1], p);
      ContainsDropLast(s, p);
    }
  }

  lemma {:induction false} LowerTrimStart(s: string)
    ensures Lower(TrimStart(s)) == TrimStart(Lower(s))
  {
    if |s| > 0 && IsSpace(s[0]) {
      LowerTrimStart(s[1..]);
      assert Lower(s)[1..] == Lower(s[1..]);
    }
  }

  lemma {:induction false} LowerTrimEnd(s: string)
    ensures Lower(TrimEnd(s)) == TrimEnd(Lower(s))
  {
    if |s| > 0 && IsSpace(s[|s| - 1]) {
      LowerTrimEnd(s[..|s| - 1]);
      assert Lower(s)[..|s| - 1] == Lower(s[..|s| - 1]);
    }
  }

  /** Trimming and lower-casing commute. */
  lemma LowerTrim(s: string)
    ensures Lower(Trim(s)) == Trim(Lower(s))
  {
    LowerTrimStart(s);
    LowerTrimEnd(TrimStart(s));
  }

  /**
   * Whether the lower-cased, trimmed text contains a marker whose first and
   * last characters are not white space does not depend on the trim.
   */
  lemma ContainsIgnoresTrim(s: string, p: string)
    requires |p| > 0 && !IsSpace(p[0]) && !IsSpace(p[|p| - 1])
    ensures Contains(Lower(Trim(s)), p) <==> Contains(Lower(s), p)
  {
    LowerTrim(s);
    ContainsTrimStart(Lower(s), p);
    ContainsTrimEnd(TrimStart(Lower(s)), p);
  }

  /** A trimmed text never ends with a suffix whose last character is white space. */
  lemma TrimmedNeverEndsWithSpace(s: string, p: string)
    requires |p| > 0 && IsSpace(p[|p| - 1])
    ensures !EndsWith(Lower(Trim(s)), p)
  {
    var t := Lower(Trim(s));
    if |p| <= |t| {
      assert !IsSpace(t[|t| - 1]);
      assert t[|t| - |p|..][|p| - 1] == t[|t| - 1];
    }
  }
}
