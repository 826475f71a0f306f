/**
 Go strings holding valid UTF-8, as sequences of Unicode scalar values: `|s|` is the rune count
 and `Utf8Len(s)` the byte length. The functions follow the `strings` package where the program
 uses it.
 */
module Text {
  import opened Wrappers

  /** The bytes of a scalar value in UTF-8. */
  function RuneBytes(c: char): nat {
    if c < '\U{80}' then 1 else if c < '\U{800}' then 2 else if c < '\U{10000}' then 3 else 4
  }

  function Utf8Len(s: string): (n: nat)
    ensures n >= |s|
  {
    if s == [] then 0 else RuneBytes(s[0]) + Utf8Len(s[1..])
  }

  lemma {:induction false} Utf8LenConcat(a: string, b: string)
    ensures Utf8Len(a + b) == Utf8Len(a) + Utf8Len(b)
  {
    if a == [] {
      assert a + b == b;
    } else {
      assert (a + b)[1..] == a[1..] + b;
      Utf8LenConcat(a[1..], b);
    }
  }

  lemma Utf8LenSlice(s: string, lo: nat, hi: nat)
    requires lo <= hi <= |s|
    ensures Utf8Len(s[lo..hi]) <= Utf8Len(s)
  {
    hide Utf8Len;
    Utf8LenPrefix(s, hi);
    assert s[..hi] == s[..lo] + s[lo..hi];
    Utf8LenConcat(s[..lo], s[lo..hi]);
  }

  lemma Utf8LenPrefix(s: string, n: nat)
    requires n <= |s|
    ensures Utf8Len(s[..n]) <= Utf8Len(s)
  {
    hide Utf8Len;
    assert s[..n] + s[n..] == s;
    Utf8LenConcat(s[..n], s[n..]);
  }

  // ---------------------------------------------------------------- trimming

  /** `unicode.IsSpace`. */
  predicate IsSpace(c: char) {
    || '\t' <= c <= '\r' || c == ' ' || c == '\U{85}' || c == '\U{A0}' || c == '\U{1680}'
    || '\U{2000}' <= c <= '\U{200A}' || c == '\U{2028}' || c == '\U{2029}' || c == '\U{202F}'
    || c == '\U{205F}' || c == '\U{3000}'
  }

  predicate IsBlank(c: char) { c == ' ' || c == '\t' }

  /** The number of leading characters in `cut`. */
  function Leading(s: string, cut: char -> bool): (n: nat)
    ensures n <= |s|
    ensures forall i :: 0 <= i < n ==> cut(s[i])
    ensures n < |s| ==> !cut(s[n])
  {
    if s == [] || !cut(s[0]) then 0 else 1 + Leading(s[1..], cut)
  }

  /** The length of what remains when trailing characters in `cut` are dropped. */
  function Kept(s: string, cut: char -> bool): (n: nat)
    ensures n <= |s|
    ensures forall i :: n <= i < |s| ==> cut(s[i])
    ensures n > 0 ==> !cut(s[n - 1])
  {
    if s == [] || !cut(s[|s| - 1]) then |s| else Kept(s[..|s| - 1], cut)
  }

  function TrimLeft(s: string, cut: char -> bool): string { s[Leading(s, cut)..] }

  function Trim(s: string, cut: char -> bool): (r: string)
    ensures |r| <= |s|
  {
    var left := TrimLeft(s, cut);
    left[..Kept(left, cut)]
  }

  /** Neither end of `s` is in `cut`. */
  predicate Trimmed(s: string, cut: char -> bool) {
    s != [] ==> !cut(s[0]) && !cut(s[|s| - 1])
  }

  lemma TrimIsTrimmed(s: string, cut: char -> bool)
    ensures Trimmed(Trim(s, cut), cut)
    ensures Utf8Len(Trim(s, cut)) <= Utf8Len(s)
  {
    var n := Leading(s, cut);
    var left := s[n..];
    var k := Kept(left, cut);
    assert left[..k] == s[n..n + k];
    Utf8LenSlice(s, n, n + k);
  }

  /** Trimming takes off the characters in `cut` at both ends, all of them and nothing else. */
  lemma TrimUnique(a: string, middle: string, b: string, cut: char -> bool)
    requires Trimmed(middle, cut)
    requires (forall i :: 0 <= i < |a| ==> cut(a[i])) && (forall i :: 0 <= i < |b| ==> cut(b[i]))
    ensures Trim(a + middle + b, cut) == middle
  {
    if middle == [] {
      assert a + middle + b == (a + b) + [];
      LeadingIs(a + b, [], cut);
    } else {
      assert a + middle + b == a + (middle + b);
      LeadingIs(a, middle + b, cut);
      assert (a + (middle + b))[|a|..] == middle + b;
      KeptIs(middle, b, cut);
    }
  }

  lemma {:induction false} LeadingIs(a: string, rest: string, cut: char -> bool)
    requires forall i :: 0 <= i < |a| ==> cut(a[i])
    requires rest != [] ==> !cut(rest[0])
    ensures Leading(a + rest, cut) == |a|
  {
    if a == [] {
      assert a + rest == rest;
    } else {
      assert (a + rest)[1..] == a[1..] + rest;
      LeadingIs(a[1..], rest, cut);
    }
  }

  lemma {:induction false} KeptIs(rest: string, b: string, cut: char -> bool)
    requires forall i :: 0 <= i < |b| ==> cut(b[i])
    requires rest != [] ==> !cut(rest[|rest| - 1])
    ensures Kept(rest + b, cut) == |rest|
  {
    if b == [] {
      assert rest + b == rest;
    } else {
      assert (rest + b)[..|rest + b| - 1] == rest + b[..|b| - 1];
      KeptIs(rest, b[..|b| - 1], cut);
    }
  }

  lemma TrimParts(s: string, cut: char -> bool) returns (a: string, b: string)
    ensures s == a + Trim(s, cut) + b
    ensures (forall i :: 0 <= i < |a| ==> cut(a[i])) && (forall i :: 0 <= i < |b| ==> cut(b[i]))
  {
    var n := Leading(s, cut);
    var left := s[n..];
    a, b := s[..n], left[Kept(left, cut)..];
  }

  lemma TrimmedStays(s: string, cut: char -> bool)
    requires Trimmed(s, cut)
    ensures Trim(s, cut) == s
  {
    assert s[0..] == s;
  }

  function TrimSpace(s: string): string { Trim(s, IsSpace) }

  // ---------------------------------------------------------------- case

  /** `unicode.ToUpper` as far as a comparison with ASCII text can tell: besides the ASCII letters,
      exactly U+0131 and U+017F have an ASCII upper case. */
  function Upper(c: char): char {
    if 'a' <= c <= 'z' then (c as int - 32) as char
    else if c == '\U{131}' then 'I'
    else if c == '\U{17F}' then 'S'
    else c
  }

  function ToUpper(s: string): (r: string)
    ensures |r| == |s|
    ensures forall i :: 0 <= i < |s| ==> r[i] == Upper(s[i])
  {
    seq(|s|, i requires 0 <= i < |s| => Upper(s[i]))
  }

  /** Simple case folding as far as a comparison with ASCII text can tell. */
  function Fold(c: char): char {
    if 'a' <= c <= 'z' then (c as int - 32) as char
    else if c == '\U{17F}' then 'S'
    else if c == '\U{212A}' then 'K'
    else c
  }

  /** `strings.EqualFold` against an upper-case ASCII text. */
  predicate EqualFold(s: string, ascii: string) {
    |s| == |ascii| && forall i :: 0 <= i < |s| ==> Fold(s[i]) == ascii[i]
  }

  /** `unicode.ToLower` as far as a comparison with ASCII text can tell: besides the ASCII letters,
      exactly U+0130 and U+212A have an ASCII lower case. */
  function Lower(c: char): char {
    if 'A' <= c <= 'Z' then (c as int + 32) as char
    else if c == '\U{130}' then 'i'
    else if c == '\U{212A}' then 'k'
    else c
  }

  /** `strings.ToLower`, to the same extent. */
  function ToLower(s: string): (r: string)
    ensures |r| == |s|
    ensures forall i :: 0 <= i < |s| ==> r[i] == Lower(s[i])
  {
    seq(|s|, i requires 0 <= i < |s| => Lower(s[i]))
  }

  predicate IsLetter(c: char) { 'a' <= c <= 'z' || 'A' <= c <= 'Z' }

  /** `s` is the upper-case ASCII text in any letter case. */
  predicate SameLetters(s: string, ascii: string) {
    |s| == |ascii|
    && forall i :: 0 <= i < |s| ==>
         s[i] == ascii[i] || ('A' <= ascii[i] <= 'Z' && s[i] as int == ascii[i] as int + 32)
  }

  /** Upper-case letters and colons. */
  predicate MarkerText(ascii: string) { forall i :: 0 <= i < |ascii| ==> 'A' <= ascii[i] <= 'Z' || ascii[i] == ':' }

  lemma AnyCase(s: string, ascii: string)
    requires SameLetters(s, ascii) && MarkerText(ascii)
    ensures TrimSpace(s) == s && ToUpper(s) == ascii && EqualFold(s, ascii)
  {
    forall i | 0 <= i < |s| ensures !IsSpace(s[i]) && Upper(s[i]) == ascii[i] && Fold(s[i]) == ascii[i] {
    }
    hide IsSpace;
    hide Upper;
    hide Fold;
    hide MarkerText;
    hide SameLetters;
    TrimmedStays(s, IsSpace);
    assert ToUpper(s) == ascii;
  }

  /** For a text of letters, the upper case says what the letters are. */
  lemma UpperOfLetters(s: string, ascii: string)
    requires MarkerText(ascii) && forall i :: 0 <= i < |s| ==> IsLetter(s[i]) || s[i] == '-'
    ensures TrimSpace(s) == s
    ensures ToUpper(s) == ascii <==> SameLetters(s, ascii)
  {
    forall i | 0 <= i < |s| ensures !IsSpace(s[i]) {
    }
    TrimmedStays(s, IsSpace);
    hide IsSpace;
    hide TrimSpace;
    UpperIsSame(s, ascii);
    hide SameLetters;
    hide MarkerText;
    hide ToUpper;
    if SameLetters(s, ascii) {
      AnyCase(s, ascii);
    }
  }

  lemma UpperIsSame(s: string, ascii: string)
    requires forall i :: 0 <= i < |s| ==> IsLetter(s[i]) || s[i] == '-'
    ensures ToUpper(s) == ascii ==> SameLetters(s, ascii)
  {
    if ToUpper(s) == ascii {
      forall i | 0 <= i < |s|
        ensures s[i] == ascii[i] || ('A' <= ascii[i] <= 'Z' && s[i] as int == ascii[i] as int + 32)
      {
        assert Upper(s[i]) == ascii[i];
      }
    }
  }

  // ---------------------------------------------------------------- lines

  /** A text without line breaks. */
  predicate OneLine(line: string) { '\n' !in line && '\r' !in line }

  function Split(s: string): (lines: seq<string>)
    ensures lines != []
    ensures forall k :: 0 <= k < |lines| ==> '\n' !in lines[k]
  {
    if s == [] then [[]]
    else if s[0] == '\n' then [[]] + Split(s[1..])
    else var rest := Split(s[1..]); [[s[0]] + rest[0]] + rest[1..]
  }

  function Join(lines: seq<string>): string {
    if lines == [] then []
    else if |lines| == 1 then lines[0]
    else lines[0] + "\n" + Join(lines[1..])
  }

  lemma {:induction false} JoinSplit(s: string)
    ensures Join(Split(s)) == s
  {
    if s != [] {
      JoinSplit(s[1..]);
      var rest := Split(s[1..]);
      if s[0] == '\n' {
        assert Split(s)[1..] == rest;
      } else {
        assert Split(s)[1..] == rest[1..];
      }
    }
  }

  lemma {:induction false} SplitWithLine(line: string, rest: string)
    requires '\n' !in line
    ensures Split(line + "\n" + rest) == [line] + Split(rest)
  {
    if line == [] {
      assert (line + "\n" + rest)[1..] == rest;
    } else {
      assert (line + "\n" + rest)[1..] == line[1..] + "\n" + rest;
      assert line == [line[0]] + line[1..];
      SplitWithLine(line[1..], rest);
    }
  }

  lemma {:induction false} SplitSingle(line: string)
    requires '\n' !in line
    ensures Split(line) == [line]
  {
    if line != [] {
      assert line == [line[0]] + line[1..];
      SplitSingle(line[1..]);
    }
  }

  lemma {:induction false} SplitJoin(lines: seq<string>)
    requires lines != [] && forall k :: 0 <= k < |lines| ==> '\n' !in lines[k]
    ensures Split(Join(lines)) == lines
  {
    if |lines| == 1 {
      SplitSingle(lines[0]);
    } else {
      SplitJoin(lines[1..]);
      SplitWithLine(lines[0], Join(lines[1..]));
    }
  }

  lemma {:induction false} JoinConcat(a: seq<string>, b: seq<string>)
    requires a != [] && b != []
    ensures Join(a + b) == Join(a) + "\n" + Join(b)
  {
    if |a| == 1 {
      assert (a + b)[1..] == b;
    } else {
      assert (a + b)[1..] == a[1..] + b;
      JoinConcat(a[1..], b);
      assert a[0] + "\n" + (Join(a[1..]) + "\n" + Join(b)) == (a[0] + "\n" + Join(a[1..])) + "\n" + Join(b);
    }
  }

  /** The byte length of lines that are joined by one-byte separators. */
  function LinesLen(lines: seq<string>): nat {
    if lines == [] then 0 else Utf8Len(lines[0]) + 1 + LinesLen(lines[1..])
  }

  lemma {:induction false} JoinLen(lines: seq<string>)
    requires lines != []
    ensures Utf8Len(Join(lines)) + 1 == LinesLen(lines)
  {
    if |lines| > 1 {
      JoinLen(lines[1..]);
      Utf8LenConcat(lines[0] + "\n", Join(lines[1..]));
      Utf8LenConcat(lines[0], "\n");
    }
  }

  lemma {:induction false} LinesLenConcat(a: seq<string>, b: seq<string>)
    ensures LinesLen(a + b) == LinesLen(a) + LinesLen(b)
  {
    if a == [] {
      assert a + b == b;
    } else {
      assert (a + b)[1..] == a[1..] + b;
      LinesLenConcat(a[1..], b);
    }
  }

  // ---------------------------------------------------------------- newlines

  /** `strings.ReplaceAll(s, "\r\n", "\n")`. */
  function ReplaceCRLF(s: string): string {
    if s == [] then []
    else if s[0] == '\r' && |s| > 1 && s[1] == '\n' then ['\n'] + ReplaceCRLF(s[2..])
    else [s[0]] + ReplaceCRLF(s[1..])
  }

  /** `strings.ReplaceAll(s, "\r", "\n")`. */
  function ReplaceCR(s: string): string {
    if s == [] then [] else [if s[0] == '\r' then '\n' else s[0]] + ReplaceCR(s[1..])
  }

  function NormalizeNewlines(s: string): string { ReplaceCR(ReplaceCRLF(s)) }

  function SplitLines(blob: string): seq<string> { Split(NormalizeNewlines(blob)) }

  lemma {:induction false} NormalizeLen(s: string)
    ensures Utf8Len(NormalizeNewlines(s)) <= Utf8Len(s)
    ensures '\r' !in NormalizeNewlines(s)
  {
    if s != [] {
      if s[0] == '\r' && |s| > 1 && s[1] == '\n' {
        NormalizeLen(s[2..]);
        assert Utf8Len(s) == 1 + Utf8Len(s[1..]) && s[1..][1..] == s[2..];
        assert NormalizeNewlines(s) == ['\n'] + NormalizeNewlines(s[2..]);
      } else {
        NormalizeLen(s[1..]);
        assert NormalizeNewlines(s) == [if s[0] == '\r' then '\n' else s[0]] + NormalizeNewlines(s[1..]);
      }
    }
  }

  lemma {:induction false} NormalizePlain(s: string)
    requires '\r' !in s
    ensures NormalizeNewlines(s) == s
  {
    if s != [] {
      NormalizePlain(s[1..]);
    }
  }

  lemma {:induction false} SplitNoCR(s: string)
    requires '\r' !in s
    ensures forall k :: 0 <= k < |Split(s)| ==> '\r' !in Split(s)[k]
  {
    if s != [] {
      SplitNoCR(s[1..]);
    }
  }

  // ---------------------------------------------------------------- cutting

  /** The first index of `c`, or the length. */
  function Index(s: string, c: char): (n: nat)
    ensures n <= |s|
    ensures n < |s| ==> s[n] == c
    ensures forall i :: 0 <= i < n ==> s[i] != c
  {
    if s == [] || s[0] == c then 0 else 1 + Index(s[1..], c)
  }

  /** `strings.Cut` at one character: what is before it and, if it occurs, what is after it. */
  function Cut(s: string, c: char): (string, Option<string>) {
    var n := Index(s, c);
    (s[..n], if n < |s| then Some(s[n + 1..]) else None)
  }

  /** `string([]rune(value)[:maximum])` for longer texts. */
  function Truncate(value: string, maximum: nat): (r: string)
    ensures r <= value && |r| == if |value| <= maximum then |value| else maximum
  {
    if |value| <= maximum then value else value[..maximum]
  }
}
