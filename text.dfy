/**
 * Character classes and string operations of the two runtimes the system
 * is written for: JavaScript (`String.prototype.trim`, the regular-expression
 * class `\s`) and Python (`os.path.splitext`, `str.lower`).
 */
module Text {
  /** Concatenation regroups freely; stated once so that proofs need not rediscover it. */
  lemma AppendAssociative<T>(x: seq<T>, y: seq<T>, z: seq<T>)
    ensures (x + y) + z == x + (y + z)
  {
  }

  predicate IsAsciiLetter(c: char) {
    ('A' <= c <= 'Z') || ('a' <= c <= 'z')
  }

  predicate IsDigit(c: char) {
    '0' <= c <= '9'
  }

  /** The characters JavaScript treats as white space, both in `\s` and in `trim()`. */
  predicate IsJsWhitespace(c: char) {
    c == '\t' || c == '\n' || c == '\U{B}' || c == '\U{C}' || c == '\r' || c == ' '
    || c == '\U{A0}' || c == '\U{1680}' || ('\U{2000}' <= c <= '\U{200A}')
    || c == '\U{2028}' || c == '\U{2029}' || c == '\U{202F}' || c == '\U{205F}'
    || c == '\U{3000}' || c == '\U{FEFF}'
  }

  /** The class `[A-Za-zÁÉÍÓÚáéíóúÑñ\s]` of the name patterns: letters, accented vowels, ñ, white space. */
  predicate IsNameChar(c: char) {
    IsAsciiLetter(c) || c in "ÁÉÍÓÚáéíóúÑñ" || IsJsWhitespace(c)
  }

  /** Lower-casing of the ASCII letters; every other character is kept. */
  function AsciiLower(c: char): char {
    if 'A' <= c <= 'Z' then (c as int + 32) as char else c
  }

  function Lower(s: string): (r: string)
    ensures |r| == |s|
    ensures forall i :: 0 <= i < |s| ==> r[i] == AsciiLower(s[i])
  {
    if s == [] then [] else [AsciiLower(s[0])] + Lower(s[1..])
  }

  predicate EndsWith(s: string, suffix: string) {
    |suffix| <= |s| && s[|s| - |suffix|..] == suffix
  }

  /** Whether some character of `s` belongs to `chars` (a regular-expression test `/[...]/`). */
  predicate ContainsAnyOf(s: string, chars: set<char>) {
    exists i :: 0 <= i < |s| && s[i] in chars
  }

  /** The number of white-space characters at the start of `s`. */
  function LeadingSpaces(s: string): (n: nat)
    ensures n <= |s|
    ensures forall i :: 0 <= i < n ==> IsJsWhitespace(s[i])
    ensures n < |s| ==> !IsJsWhitespace(s[n])
  {
    if s != [] && IsJsWhitespace(s[0]) then 1 + LeadingSpaces(s[1..]) else 0
  }

  /** The number of white-space characters at the end of `s`. */
  function TrailingSpaces(s: string): (n: nat)
    ensures n <= |s|
    ensures forall i :: |s| - n <= i < |s| ==> IsJsWhitespace(s[i])
    ensures n < |s| ==> !IsJsWhitespace(s[|s| - n - 1])
  {
    if s != [] && IsJsWhitespace(s[|s| - 1]) then 1 + TrailingSpaces(s[..|s| - 1]) else 0
  }

  /** JavaScript's `trim()`: the white space at both ends is removed. */
  function Trim(s: string): (r: string)
    ensures r == [] || (!IsJsWhitespace(r[0]) && !IsJsWhitespace(r[|r| - 1]))
    ensures exists a, b :: 0 <= a <= b <= |s| && r == s[a..b]
              && (forall i :: 0 <= i < a ==> IsJsWhitespace(s[i]))
              && (forall i :: b <= i < |s| ==> IsJsWhitespace(s[i]))
  {
    var lead := LeadingSpaces(s);
    if lead == |s| then
      assert s[|s|..|s|] == [];
      []
    else
      var trail := TrailingSpaces(s);
      assert trail < |s| - lead;
      s[lead..|s| - trail]
  }

  predicate AllWhitespace(s: string) {
    forall i :: 0 <= i < |s| ==> IsJsWhitespace(s[i])
  }

  /** `trim()` is determined by its properties: the only slice with white space outside and none at its ends. */
  lemma TrimUnique(p: string, a: nat, b: nat)
    requires a <= b <= |p|
    requires forall i :: 0 <= i < a ==> IsJsWhitespace(p[i])
    requires forall i :: b <= i < |p| ==> IsJsWhitespace(p[i])
    requires a == b || (!IsJsWhitespace(p[a]) && !IsJsWhitespace(p[b - 1]))
    ensures Trim(p) == p[a..b]
  {
    var r := Trim(p);
    var a2, b2 :| 0 <= a2 <= b2 <= |p| && r == p[a2..b2]
                  && (forall i :: 0 <= i < a2 ==> IsJsWhitespace(p[i]))
                  && (forall i :: b2 <= i < |p| ==> IsJsWhitespace(p[i]));
    if a < b {
      assert a2 <= a;
      assert b <= b2;
      assert a <= a2;
      assert b2 <= b;
    }
  }

  lemma PaddingIsWhitespace(pre: string, s: string, post: string, a: nat, b: nat)
    requires AllWhitespace(pre) && AllWhitespace(post) && a <= b <= |s|
    requires forall i :: 0 <= i < a ==> IsJsWhitespace(s[i])
    requires forall i :: b <= i < |s| ==> IsJsWhitespace(s[i])
    ensures forall i :: 0 <= i < |pre| + a ==> IsJsWhitespace((pre + s + post)[i])
    ensures forall i :: |pre| + b <= i < |pre + s + post| ==> IsJsWhitespace((pre + s + post)[i])
  {
    var p := pre + s + post;
    forall i | 0 <= i < |pre| + a
      ensures IsJsWhitespace(p[i])
    {
      if i < |pre| { assert p[i] == pre[i]; } else { assert p[i] == s[i - |pre|]; }
    }
    forall i | |pre| + b <= i < |p|
      ensures IsJsWhitespace(p[i])
    {
      if i < |pre| + |s| { assert p[i] == s[i - |pre|]; } else { assert p[i] == post[i - |pre| - |s|]; }
    }
  }

  /** Where `trim()` cuts `s`. */
  lemma TrimSlice(s: string) returns (a: nat, b: nat)
    ensures a <= b <= |s| && Trim(s) == s[a..b]
    ensures forall i :: 0 <= i < a ==> IsJsWhitespace(s[i])
    ensures forall i :: b <= i < |s| ==> IsJsWhitespace(s[i])
    ensures a == b || (!IsJsWhitespace(s[a]) && !IsJsWhitespace(s[b - 1]))
  {
    var lead := LeadingSpaces(s);
    if lead == |s| {
      a, b := |s|, |s|;
    } else {
      a, b := lead, |s| - TrailingSpaces(s);
    }
  }

  /** White space added around a string is removed again by `trim()`. */
  lemma TrimIgnoresPadding(pre: string, s: string, post: string)
    requires AllWhitespace(pre) && AllWhitespace(post)
    ensures Trim(pre + s + post) == Trim(s)
  {
    var p := pre + s + post;
    var a, b := TrimSlice(s);
    PaddingIsWhitespace(pre, s, post, a, b);
    var A, B := |pre| + a, |pre| + b;
    assert p[A..B] == s[a..b];
    if a < b {
      assert p[A] == s[a] && p[B - 1] == s[b - 1];
    }
    TrimUnique(p, A, B);
  }

  /** The index of the last occurrence of `c` in `s`, or -1. */
  function LastIndexOf(s: string, c: char): (k: int)
    ensures -1 <= k < |s|
    ensures k >= 0 ==> s[k] == c
    ensures forall j :: k < j < |s| ==> s[j] != c
  {
    if s == [] then -1
    else if s[|s| - 1] == c then |s| - 1
    else LastIndexOf(s[..|s| - 1], c)
  }

  /**
   * Python's `os.path.splitext` on a POSIX path: the extension starts at the
   * last '.' of the last path component, unless every character of that
   * component before the dot is itself a dot (".avi" has no extension).
   */
  function SplitExt(p: string): (parts: (string, string))
    ensures parts.0 + parts.1 == p
    ensures parts.1 == [] || parts.1[0] == '.'
    ensures forall i :: 1 <= i < |parts.1| ==> parts.1[i] != '.' && parts.1[i] != '/'
  {
    var sepIndex := LastIndexOf(p, '/');
    var dotIndex := LastIndexOf(p, '.');
    if dotIndex > sepIndex && exists k :: sepIndex + 1 <= k < dotIndex && p[k] != '.' then
      assert p[..dotIndex] + p[dotIndex..] == p;
      (p[..dotIndex], p[dotIndex..])
    else
      assert p + [] == p;
      (p, [])
  }

  /** The last path component of `p` holds a character other than '.'. */
  predicate HasNamedComponent(p: string) {
    exists k :: LastIndexOf(p, '/') < k < |p| && p[k] != '.'
  }

  /** A well-formed extension: a dot followed by characters that are neither '.' nor '/'. */
  predicate IsExtension(ext: string) {
    |ext| >= 1 && ext[0] == '.' && forall i :: 1 <= i < |ext| ==> ext[i] != '.' && ext[i] != '/'
  }

  /** `splitext` takes back exactly the extension appended to a named component. */
  lemma SplitExtOfAppended(stem: string, ext: string)
    requires HasNamedComponent(stem) && IsExtension(ext)
    ensures SplitExt(stem + ext) == (stem, ext)
  {
    var p := stem + ext;
    var dot := LastIndexOf(p, '.');
    var sep := LastIndexOf(p, '/');
    var stemSep := LastIndexOf(stem, '/');
    assert p[|stem|] == '.';
    assert dot == |stem|;
    assert sep < |stem|;
    assert stemSep >= 0 ==> p[stemSep] == '/';
    assert sep >= 0 ==> stem[sep] == '/';
    assert sep == stemSep;
    var k :| stemSep < k < |stem| && stem[k] != '.';
    assert sep + 1 <= k < dot && p[k] != '.';
    assert p[..dot] == stem && p[dot..] == ext;
  }

  /** The root of `os.path.splitext`: the name without its last extension. */
  function Root(p: string): string {
    SplitExt(p).0
  }

  /** The extension of `os.path.splitext`, dot included, or "". */
  function Ext(p: string): string {
    SplitExt(p).1
  }

  function DigitChar(d: nat): char
    requires d < 10
  {
    ['0', '1', '2', '3', '4', '5', '6', '7', '8', '9'][d]
  }

  /** Decimal text of a natural number, as JavaScript and Python print it. */
  function NatToString(n: nat): (s: string)
    ensures |s| > 0
    ensures forall i :: 0 <= i < |s| ==> IsDigit(s[i])
  {
    if n < 10 then [DigitChar(n)] else NatToString(n / 10) + [DigitChar(n % 10)]
  }

  function IntToString(i: int): string {
    if i < 0 then "-" + NatToString(-i) else NatToString(i)
  }
}
