/** The JavaScript string operations the cleaner relies on: `trim`,
    `startsWith`, `endsWith`, `includes` and `toLowerCase`. */
module Text {

  /** The characters `String.prototype.trim` removes: the ECMAScript
      WhiteSpace code points (tab, vertical tab, form feed, space,
      no-break space, byte order mark and the Space_Separator category)
      and the LineTerminator code points. */
  predicate IsWhiteSpace(c: char) {
    c == '\t' || c == '\n' || c == '\U{000B}' || c == '\U{000C}' || c == '\r'
    || c == ' ' || c == '\U{00A0}' || c == '\U{1680}'
    || ('\U{2000}' <= c <= '\U{200A}')
    || c == '\U{2028}' || c == '\U{2029}' || c == '\U{202F}' || c == '\U{205F}'
    || c == '\U{3000}' || c == '\U{FEFF}'
  }

  /** Drops leading white space: what is dropped is all white space, and
      what is left starts with a non-white-space character or is empty. */
  function TrimStart(s: string): (r: string)
    ensures |r| <= |s| && r == s[|s| - |r|..]
    ensures forall i :: 0 <= i < |s| - |r| ==> IsWhiteSpace(s[i])
    ensures r != [] ==> !IsWhiteSpace(r[0])
  {
    if s != [] && IsWhiteSpace(s[0]) then TrimStart(s[1..]) else s
  }

  /** Drops trailing white space, symmetrically to TrimStart. */
  function TrimEnd(s: string): (r: string)
    ensures |r| <= |s| && r == s[..|r|]
    ensures forall i :: |r| <= i < |s| ==> IsWhiteSpace(s[i])
    ensures r != [] ==> !IsWhiteSpace(r[|r| - 1])
  {
    if s != [] && IsWhiteSpace(s[|s| - 1]) then TrimEnd(s[..|s| - 1]) else s
  }

  /** `s.trim()`: the longest slice of `s` that neither starts nor ends with
      white space, obtained by removing white space only. */
  function Trim(s: string): (r: string)
    ensures |r| <= |s|
    ensures r != [] ==> !IsWhiteSpace(r[0]) && !IsWhiteSpace(r[|r| - 1])
  {
    TrimEnd(TrimStart(s))
  }

  /** A string that neither starts nor ends with white space is its own trim. */
  lemma TrimOfTrimmed(s: string)
    requires s != [] && !IsWhiteSpace(s[0]) && !IsWhiteSpace(s[|s| - 1])
    ensures Trim(s) == s
  {
  }

  /** Every character of `s` is white space. */
  predicate AllWhiteSpace(s: string) {
    forall i :: 0 <= i < |s| ==> IsWhiteSpace(s[i])
  }

  /** TrimStart removes exactly a white space prefix in front of a string
      that does not start with white space. */
  lemma TrimStartPadded(pad: string, u: string)
    requires AllWhiteSpace(pad)
    requires u != [] && !IsWhiteSpace(u[0])
    ensures TrimStart(pad + u) == u
  {
    var s := pad + u;
    assert s[|pad|] == u[0];
    assert |TrimStart(s)| == |u|;
    assert s[|pad|..] == u;
  }

  /** TrimEnd removes exactly a white space suffix behind a string that does
      not end with white space. */
  lemma TrimEndPadded(u: string, pad': string)
    requires AllWhiteSpace(pad')
    requires u != [] && !IsWhiteSpace(u[|u| - 1])
    ensures TrimEnd(u + pad') == u
  {
    var s := u + pad';
    assert s[|u| - 1] == u[|u| - 1];
    assert |TrimEnd(s)| == |u|;
    assert s[..|u|] == u;
  }

  /** Trimming removes exactly the white space padding around a string that
      neither starts nor ends with white space. */
  lemma TrimPadded(pad: string, t: string, pad': string)
    requires AllWhiteSpace(pad) && AllWhiteSpace(pad')
    requires t != [] && !IsWhiteSpace(t[0]) && !IsWhiteSpace(t[|t| - 1])
    ensures Trim(pad + t + pad') == t
  {
    assert pad + t + pad' == pad + (t + pad');
    TrimStartPadded(pad, t + pad');
    TrimEndPadded(t, pad');
  }

  /** `s.startsWith(p)`. */
  predicate StartsWith(s: string, p: string) {
    |p| <= |s| && s[..|p|] == p
  }

  /** A prefix of a prefix is a prefix. */
  lemma StartsWithTransitive(s: string, p: string, p': string)
    requires StartsWith(s, p) && StartsWith(p, p')
    ensures StartsWith(s, p')
  {
    assert s[..|p'|] == s[..|p|][..|p'|];
  }

  /** `s.endsWith(p)`. */
  predicate EndsWith(s: string, p: string) {
    |p| <= |s| && s[|s| - |p|..] == p
  }

  /** `s.includes(sub)`: `sub` starts at some position of `s`. */
  predicate Contains(s: string, sub: string)
    decreases |s|
  {
    StartsWith(s, sub) || (s != [] && Contains(s[1..], sub))
  }

  /** Contains holds exactly when `sub` occurs at some offset of `s`, at the
      end of `s` or anywhere before it: it is a substring test, not a suffix
      or prefix test. */
  lemma {:induction false} ContainsIffOccurs(s: string, sub: string)
    ensures Contains(s, sub) <==> exists i :: 0 <= i <= |s| && StartsWith(s[i..], sub)
    decreases |s|
  {
    if StartsWith(s, sub) {
      assert s[0..] == s;
    } else if s == [] {
      assert forall i :: 0 <= i <= |s| ==> s[i..] == s;
    } else {
      ContainsIffOccurs(s[1..], sub);
      if Contains(s[1..], sub) {
        var i :| 0 <= i <= |s[1..]| && StartsWith(s[1..][i..], sub);
        assert s[1..][i..] == s[i + 1..];
      } else {
        forall i | 1 <= i <= |s|
          ensures !StartsWith(s[i..], sub)
        {
          assert s[1..][i - 1..] == s[i..];
        }
        assert s[0..] == s;
      }
    }
  }

  /** A string shorter than `sub` does not contain it. */
  lemma {:induction false} ShorterDoesNotContain(s: string, sub: string)
    requires |s| < |sub|
    ensures !Contains(s, sub)
    decreases |s|
  {
    if s != [] {
      ShorterDoesNotContain(s[1..], sub);
    }
  }

  /** One character of `toLowerCase`, restricted to ASCII: the result is
      never an upper-case letter, and it is a lower-case letter exactly when
      the argument is a letter of either case. */
  function LowerChar(c: char): (r: char)
    ensures !('A' <= r <= 'Z')
    ensures ('a' <= r <= 'z') <==> ('a' <= c <= 'z' || 'A' <= c <= 'Z')
  {
    if 'A' <= c <= 'Z' then (c as int + 32) as char else c
  }

  /** `s.toLowerCase()` on ASCII text: the same length, with every upper-case
      letter lowered and every other character kept. */
  function ToLower(s: string): (r: string)
    ensures |r| == |s|
    ensures forall i :: 0 <= i < |s| ==> r[i] == LowerChar(s[i])
    ensures forall i :: 0 <= i < |r| ==> !('A' <= r[i] <= 'Z')
  {
    seq(|s|, i requires 0 <= i < |s| => LowerChar(s[i]))
  }
}
