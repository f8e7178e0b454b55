/**
 * The string operations the core relies on: Python's `str.lower`,
 * `str.isupper`, `str.strip`, `str.startswith`, the `in` substring test,
 * `str.split('\n')` and `str.split()`.  Case mapping covers the letters of
 * ASCII and Latin-1 (which hold every accented letter of Portuguese), and
 * whitespace is Python's whitespace within Latin-1.
 */
module Text {

  /** An upper-case letter: A..Z, or À..Þ except the sign ×. */
  predicate IsUpperLetter(c: char) {
    ('A' <= c <= 'Z') || ('\U{C0}' <= c <= '\U{DE}' && c != '\U{D7}')
  }

  /** A lower-case character: a..z, ß..ÿ except the sign ÷, and the three
      Latin-1 signs Python also counts as lower case (ª, µ, º), which
      lower-casing leaves as they are. */
  predicate IsLowerLetter(c: char) {
    ('a' <= c <= 'z') || ('\U{DF}' <= c <= '\U{FF}' && c != '\U{F7}')
    || c == '\U{AA}' || c == '\U{B5}' || c == '\U{BA}'
  }

  /** Python's lower-casing of one character: in both ranges an upper-case
      letter lies 32 code points below its lower-case form. */
  function LowerChar(c: char): (r: char)
    ensures IsUpperLetter(c) ==> IsLowerLetter(r)
    ensures !IsUpperLetter(c) ==> r == c
  {
    if IsUpperLetter(c) then (c as int + 32) as char else c
  }

  /** Python's `s.lower()`. */
  function Lower(s: string): (r: string)
    ensures |r| == |s|
  {
    if s == [] then [] else [LowerChar(s[0])] + Lower(s[1..])
  }

  /** Lower-casing works character by character. */
  lemma {:induction false} LowerAt(s: string, i: int)
    requires 0 <= i < |s|
    ensures Lower(s)[i] == LowerChar(s[i])
  {
    if i > 0 {
      LowerAt(s[1..], i - 1);
      assert Lower(s)[i] == Lower(s[1..])[i - 1];
      assert s[1..][i - 1] == s[i];
    }
  }

  /** Lower-casing leaves text without upper-case letters unchanged. */
  lemma {:induction false} LowerKeepsLowerText(s: string)
    requires forall i :: 0 <= i < |s| ==> !IsUpperLetter(s[i])
    ensures Lower(s) == s
  {
    if s != [] {
      LowerKeepsLowerText(s[1..]);
    }
  }

  /** Lower-casing distributes over concatenation. */
  lemma {:induction false} LowerConcat(a: string, b: string)
    ensures Lower(a + b) == Lower(a) + Lower(b)
  {
    if a == [] {
      assert a + b == b;
    } else {
      assert (a + b)[0] == a[0];
      assert (a + b)[1..] == a[1..] + b;
      LowerConcat(a[1..], b);
    }
  }

  lemma LowerCharIdempotent(c: char)
    ensures LowerChar(LowerChar(c)) == LowerChar(c)
  {
    if IsUpperLetter(c) {
      assert IsLowerLetter(LowerChar(c));
    }
  }

  /** Lower-casing twice is lower-casing once. */
  lemma {:induction false} LowerIdempotent(s: string)
    ensures Lower(Lower(s)) == Lower(s)
  {
    if s != [] {
      var l := Lower(s);
      LowerCharIdempotent(s[0]);
      assert l == [LowerChar(s[0])] + Lower(s[1..]);
      assert l[0] == LowerChar(s[0]) && l[1..] == Lower(s[1..]);
      LowerIdempotent(s[1..]);
      assert Lower(l) == [LowerChar(l[0])] + Lower(l[1..]);
    }
  }

  /** Python's `s.isupper()`: some cased character, and no lower-case one. */
  predicate IsUpper(s: string) {
    (exists i :: 0 <= i < |s| && IsUpperLetter(s[i])) &&
    (forall i :: 0 <= i < |s| ==> !IsLowerLetter(s[i]))
  }

  /** Python's `s.startswith(p)`. */
  predicate StartsWith(s: string, p: string) {
    |p| <= |s| && s[..|p|] == p
  }

  /** Python's `sub in s`. */
  predicate Contains(s: string, sub: string)
    decreases |s|
  {
    StartsWith(s, sub) || (|s| > 0 && Contains(s[1..], sub))
  }

  /** A substring of `a` is a substring of any extension of `a`. */
  lemma {:induction false} ContainsExtends(a: string, b: string, sub: string)
    requires Contains(a, sub)
    ensures Contains(a + b, sub)
    decreases |a|
  {
    if StartsWith(a, sub) {
      assert (a + b)[..|sub|] == a[..|sub|];
    } else {
      assert (a + b)[1..] == a[1..] + b;
      ContainsExtends(a[1..], b, sub);
    }
  }

  /** Python's `any(t in s for t in terms)`. */
  predicate ContainsAny(s: string, terms: seq<string>) {
    exists i :: 0 <= i < |terms| && Contains(s, terms[i])
  }

  /** Python's `str.isspace` on one Latin-1 character: tab to carriage return,
      the four separators 0x1C..0x1F, space, NEL (0x85) and the no-break space. */
  predicate IsSpace(c: char) {
    ('\t' <= c <= '\r') || ('\U{1C}' <= c <= ' ') || c == '\U{85}' || c == '\U{A0}'
  }

  predicate AllSpace(s: string) {
    forall i :: 0 <= i < |s| ==> IsSpace(s[i])
  }

  /** `s` without its leading whitespace. */
  function TrimStart(s: string): string
    decreases |s|
  {
    if |s| > 0 && IsSpace(s[0]) then TrimStart(s[1..]) else s
  }

  /** What `TrimStart` removes is whitespace, and it stops at the first other character. */
  lemma {:induction false} TrimStartShape(s: string)
    ensures |TrimStart(s)| <= |s| && TrimStart(s) == s[|s| - |TrimStart(s)|..]
    ensures AllSpace(s[..|s| - |TrimStart(s)|])
    ensures TrimStart(s) != [] ==> !IsSpace(TrimStart(s)[0])
    decreases |s|
  {
    if |s| > 0 && IsSpace(s[0]) {
      TrimStartShape(s[1..]);
      var k := |s| - |TrimStart(s)|;
      assert s[..k] == [s[0]] + s[1..][..k - 1];
    }
  }

  /** `s` without its trailing whitespace. */
  function TrimEnd(s: string): string
    decreases |s|
  {
    if |s| > 0 && IsSpace(s[|s| - 1]) then TrimEnd(s[..|s| - 1]) else s
  }

  /** What `TrimEnd` removes is whitespace, and it stops at the last other character. */
  lemma {:induction false} TrimEndShape(s: string)
    ensures |TrimEnd(s)| <= |s| && TrimEnd(s) == s[..|TrimEnd(s)|]
    ensures AllSpace(s[|TrimEnd(s)|..])
    ensures TrimEnd(s) != [] ==> !IsSpace(TrimEnd(s)[|TrimEnd(s)| - 1])
    decreases |s|
  {
    if |s| > 0 && IsSpace(s[|s| - 1]) {
      TrimEndShape(s[..|s| - 1]);
      var k := |TrimEnd(s)|;
      assert s[k..] == s[..|s| - 1][k..] + [s[|s| - 1]];
    }
  }

  /** Python's `s.strip()`. */
  function Strip(s: string): string {
    TrimEnd(TrimStart(s))
  }

  /** The stripped text is the piece of `s` starting at `a`; all that was removed
      around it is whitespace, and it neither starts nor ends with whitespace. */
  lemma StripShape(s: string) returns (a: nat)
    ensures a + |Strip(s)| <= |s| && s[a..a + |Strip(s)|] == Strip(s)
    ensures AllSpace(s[..a]) && AllSpace(s[a + |Strip(s)|..])
    ensures Strip(s) != [] ==> !IsSpace(Strip(s)[0]) && !IsSpace(Strip(s)[|Strip(s)| - 1])
  {
    var t := TrimStart(s);
    TrimStartShape(s);
    var r := TrimEnd(t);
    TrimEndShape(t);
    a := |s| - |t|;
    assert t == s[a..];
    assert s[a..a + |r|] == t[..|r|];
    assert s[a + |r|..] == t[|r|..];
    if r != [] {
      assert r[0] == t[0];
    }
  }

  /** Stripping a stripped text changes nothing. */
  lemma StripIsIdempotent(s: string)
    ensures Strip(Strip(s)) == Strip(s)
  {
    var r := Strip(s);
    var _ := StripShape(s);
    if r != [] {
      assert TrimStart(r) == r;
      assert TrimEnd(r) == r;
    } else {
      assert TrimStart(r) == r;
    }
  }

  /** Python's `s.split(sep)` for a one-character separator. */
  function SplitOn(s: string, sep: char): (r: seq<string>)
    ensures |r| >= 1
    ensures forall i :: 0 <= i < |r| ==> sep !in r[i]
    decreases |s|
  {
    if |s| == 0 then [""]
    else
      var rest := SplitOn(s[1..], sep);
      if s[0] == sep then [""] + rest
      else [[s[0]] + rest[0]] + rest[1..]
  }

  /** Python's `sep.join(parts)`, for a non-empty list of parts. */
  function JoinOn(parts: seq<string>, sep: char): string
    requires |parts| >= 1
    decreases |parts|
  {
    if |parts| == 1 then parts[0] else parts[0] + [sep] + JoinOn(parts[1..], sep)
  }

  lemma {:induction false} JoinConsFirst(c: char, parts: seq<string>, sep: char)
    requires |parts| >= 1
    ensures JoinOn([[c] + parts[0]] + parts[1..], sep) == [c] + JoinOn(parts, sep)
  {
    var q := [[c] + parts[0]] + parts[1..];
    assert q[1..] == parts[1..];
  }

  /** Splitting on a separator and joining the pieces with it gives the text back. */
  lemma {:induction false} SplitJoin(s: string, sep: char)
    ensures JoinOn(SplitOn(s, sep), sep) == s
    decreases |s|
  {
    if |s| > 0 {
      var rest := SplitOn(s[1..], sep);
      SplitJoin(s[1..], sep);
      if s[0] == sep {
        assert ([""] + rest)[1..] == rest;
      } else {
        JoinConsFirst(s[0], rest, sep);
      }
      assert s == [s[0]] + s[1..];
    }
  }

  /** The longest prefix of `s` free of whitespace. */
  function TakeWord(s: string): (w: string)
    ensures |w| <= |s| && w == s[..|w|]
    ensures forall i :: 0 <= i < |w| ==> !IsSpace(w[i])
    ensures |w| < |s| ==> IsSpace(s[|w|])
    ensures |s| > 0 && !IsSpace(s[0]) ==> |w| >= 1
    decreases |s|
  {
    if |s| == 0 || IsSpace(s[0]) then "" else [s[0]] + TakeWord(s[1..])
  }

  /** Python's `s.split()`: the maximal runs of non-whitespace characters, in order. */
  function Words(s: string): seq<string>
    decreases |s|
  {
    TrimStartShape(s);
    var t := TrimStart(s);
    if |t| == 0 then []
    else
      var w := TakeWord(t);
      [w] + Words(t[|w|..])
  }

  /** Every piece `split()` yields is a non-empty run free of whitespace. */
  lemma {:induction false} WordsAreWords(s: string)
    ensures forall i :: 0 <= i < |Words(s)| ==> IsWord(Words(s)[i])
    decreases |s|
  {
    TrimStartShape(s);
    var t := TrimStart(s);
    if |t| > 0 {
      var w := TakeWord(t);
      assert IsWord(w);
      WordsAreWords(t[|w|..]);
    }
  }

  /** A non-empty run of non-whitespace characters. */
  predicate IsWord(w: string) {
    w != "" && forall j :: 0 <= j < |w| ==> !IsSpace(w[j])
  }

  /** The value of an ASCII decimal digit. */
  function DigitValue(c: char): (d: int)
    requires '0' <= c <= '9'
    ensures 0 <= d <= 9
  {
    c as int - '0' as int
  }

  predicate IsDigit(c: char) {
    '0' <= c <= '9'
  }
}
