/** The JavaScript string builtins the core relies on: startsWith, trim and toLowerCase. */
module Text {

  /** `s.startsWith(prefix)`. */
  predicate StartsWith(s: string, prefix: string) {
    |prefix| <= |s| && s[..|prefix|] == prefix
  }

  /** The ECMAScript WhiteSpace and LineTerminator code points, which `trim` removes. */
  predicate IsSpace(c: char) {
    || c == '\t' || c == '\n' || c == '\U{000B}' || c == '\U{000C}' || c == '\r' || c == ' '
    || c == '\U{00A0}' || c == '\U{1680}' || ('\U{2000}' <= c <= '\U{200A}')
    || c == '\U{2028}' || c == '\U{2029}' || c == '\U{202F}' || c == '\U{205F}'
    || c == '\U{3000}' || c == '\U{FEFF}'
  }

  /** Every character of `s` at an index in `lo..hi` is white space. */
  predicate SpaceIn(s: string, lo: int, hi: int) {
    forall k :: lo <= k < hi && 0 <= k < |s| ==> IsSpace(s[k])
  }

  /** `s.trimStart()`: a suffix of `s`; everything dropped is white space and the rest does not start with it. */
  function TrimStart(s: string): (r: string)
    ensures |r| <= |s| && r == s[|s| - |r|..]
    ensures SpaceIn(s, 0, |s| - |r|)
    ensures r != [] ==> !IsSpace(r[0])
  {
    if s != [] && IsSpace(s[0]) then TrimStart(s[1..]) else s
  }

  /** `s.trimEnd()`: a prefix of `s`; everything dropped is white space and the rest does not end with it. */
  function TrimEnd(s: string): (r: string)
    ensures |r| <= |s| && r == s[..|r|]
    ensures SpaceIn(s, |r|, |s|)
    ensures r != [] ==> !IsSpace(r[|r| - 1])
  {
    if s != [] && IsSpace(s[|s| - 1]) then TrimEnd(s[..|s| - 1]) else s
  }

  /**
   * `r` is the slice of `s` that starts at `a`, everything of `s` outside it is white space, and it
   * neither starts nor ends with white space.
   */
  predicate TrimmedAt(s: string, a: nat, r: string) {
    && a + |r| <= |s| && r == s[a..a + |r|]
    && SpaceIn(s, 0, a) && SpaceIn(s, a + |r|, |s|)
    && (r != [] ==> !IsSpace(r[0]) && !IsSpace(r[|r| - 1]))
  }

  /**
   * `s.trim()`: white space dropped at both ends, so the result neither starts nor ends with it, and
   * it is empty exactly when `s` is all white space. `TrimKeepsMiddle` shows it is a slice of `s`.
   */
  function Trim(s: string): (r: string)
    ensures |r| <= |s|
    ensures r != [] ==> !IsSpace(r[0]) && !IsSpace(r[|r| - 1])
    ensures r == [] <==> SpaceIn(s, 0, |s|)
  {
    var t := TrimStart(s);
    var r := TrimEnd(t);
    TrimIsSlice(s, t, r);
    r
  }

  /** `s.trim()` is the slice of `s` starting where `trimStart` stops, with only white space outside it. */
  lemma TrimKeepsMiddle(s: string)
    ensures TrimmedAt(s, |s| - |TrimStart(s)|, Trim(s))
  {
    var t := TrimStart(s);
    TrimIsSlice(s, t, TrimEnd(t));
  }

  /** A suffix `t` of `s` past its leading white space, cut before its own trailing white space, is trimmed at `|s| - |t|`. */
  lemma TrimIsSlice(s: string, t: string, r: string)
    requires |t| <= |s| && t == s[|s| - |t|..] && SpaceIn(s, 0, |s| - |t|) && (t != [] ==> !IsSpace(t[0]))
    requires |r| <= |t| && r == t[..|r|] && SpaceIn(t, |r|, |t|) && (r != [] ==> !IsSpace(r[|r| - 1]))
    ensures TrimmedAt(s, |s| - |t|, r)
    ensures r == [] <==> SpaceIn(s, 0, |s|)
  {
    var a := |s| - |t|;
    forall k | a + |r| <= k < |s| ensures IsSpace(s[k]) {
      assert s[k] == t[k - a];
    }
    if r != [] {
      assert r[0] == s[a];
    }
  }

  /** A string with nothing to trim at either end is its own trim. */
  lemma {:induction false} TrimOfTrimmed(s: string)
    requires s != [] ==> !IsSpace(s[0]) && !IsSpace(s[|s| - 1])
    ensures Trim(s) == s
  {
  }

  /** Trimming twice is trimming once. */
  lemma TrimIdempotent(s: string)
    ensures Trim(Trim(s)) == Trim(s)
  {
    TrimOfTrimmed(Trim(s));
  }

  /** `String.prototype.toLowerCase` on one character, for the ASCII letters. */
  function LowerChar(c: char): char {
    if 'A' <= c <= 'Z' then (c as int + 32) as char else c
  }

  /** `s.toLowerCase()`: same length, each upper-case ASCII letter replaced by its lower-case one, every other character kept. */
  function ToLower(s: string): (r: string)
    ensures |r| == |s|
    ensures forall i :: 0 <= i < |r| ==> !('A' <= r[i] <= 'Z')
    ensures forall i :: 0 <= i < |s| && !('A' <= s[i] <= 'Z') ==> r[i] == s[i]
    ensures forall i :: 0 <= i < |s| && 'A' <= s[i] <= 'Z' ==> r[i] as int == s[i] as int + 32
  {
    seq(|s|, i requires 0 <= i < |s| => LowerChar(s[i]))
  }

  /** Lower-casing twice is lower-casing once. */
  lemma ToLowerIdempotent(s: string)
    ensures ToLower(ToLower(s)) == ToLower(s)
  {
  }

  /** Lower-casing never turns a character into white space or white space into something else. */
  lemma LowerKeepsSpace(c: char)
    ensures IsSpace(LowerChar(c)) == IsSpace(c)
  {
  }

  lemma {:induction false} TrimStartLower(s: string)
    ensures TrimStart(ToLower(s)) == ToLower(TrimStart(s))
    decreases |s|
  {
    if s != [] {
      LowerKeepsSpace(s[0]);
      assert ToLower(s)[1..] == ToLower(s[1..]);
      if IsSpace(s[0]) {
        TrimStartLower(s[1..]);
      }
    }
  }

  lemma {:induction false} TrimEndLower(s: string)
    ensures TrimEnd(ToLower(s)) == ToLower(TrimEnd(s))
    decreases |s|
  {
    if s != [] {
      LowerKeepsSpace(s[|s| - 1]);
      assert ToLower(s)[..|s| - 1] == ToLower(s[..|s| - 1]);
      if IsSpace(s[|s| - 1]) {
        TrimEndLower(s[..|s| - 1]);
      }
    }
  }

  /** Trimming and lower-casing commute, so `.trim().toLowerCase()` depends only on the lower-cased input. */
  lemma TrimLowerCommute(s: string)
    ensures ToLower(Trim(s)) == Trim(ToLower(s))
  {
    TrimStartLower(s);
    TrimEndLower(TrimStart(s));
  }

  /** Two strings that differ only in the case of ASCII letters trim and lower-case to the same string. */
  lemma CaseVariantsNormaliseAlike(a: string, b: string)
    requires ToLower(a) == ToLower(b)
    ensures ToLower(Trim(a)) == ToLower(Trim(b))
  {
    TrimLowerCommute(a);
    TrimLowerCommute(b);
  }
}
