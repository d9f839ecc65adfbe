/** The few Python `str` operations the extractor relies on, over `string`
    (a sequence of Unicode scalar values): `isspace`, ASCII `lower`/`upper`,
    `strip`, `split()`, `sep.join`, `find`, `in` and `endswith`. */
module PyText {

  /** The non-breaking space U+00A0. */
  const NBSP: char := '\U{A0}'

  /** Python's `str.isspace` on one character: the separators that the
      argument-less `split()` and `strip()` use. */
  predicate IsSpace(c: char) {
    || c == ' '
    || ('\t' <= c <= '\r')
    || ('\U{1C}' <= c <= '\U{1F}')
    || c == '\U{85}'
    || c == NBSP
    || c == '\U{1680}'
    || ('\U{2000}' <= c <= '\U{200A}')
    || c == '\U{2028}' || c == '\U{2029}'
    || c == '\U{202F}' || c == '\U{205F}' || c == '\U{3000}'
  }

  predicate IsUpperAscii(c: char) { 'A' <= c <= 'Z' }

  predicate IsLowerAscii(c: char) { 'a' <= c <= 'z' }

  /** A character map that turns spaces into spaces and nothing else into one. */
  ghost predicate PreservesSpace(f: char -> char) {
    forall c :: IsSpace(f(c)) <==> IsSpace(c)
  }

  function ToLower(c: char): (d: char)
    ensures !IsUpperAscii(d)
    ensures IsSpace(d) <==> IsSpace(c)
  {
    if IsUpperAscii(c) then (c as int + 32) as char else c
  }

  function ToUpper(c: char): (d: char)
    ensures !IsLowerAscii(d)
    ensures IsSpace(d) <==> IsSpace(c)
  {
    if IsLowerAscii(c) then (c as int - 32) as char else c
  }

  function NbspToSpace(c: char): (d: char)
    ensures d != NBSP
    ensures IsSpace(d) <==> IsSpace(c)
  {
    if c == NBSP then ' ' else c
  }

  /** Applies a character map position by position (length-preserving). */
  function MapChars(f: char -> char, s: string): (r: string)
    ensures |r| == |s|
    ensures forall i :: 0 <= i < |s| ==> r[i] == f(s[i])
  {
    seq(|s|, i requires 0 <= i < |s| => f(s[i]))
  }

  /** `s.lower()` restricted to ASCII letters. */
  function Lower(s: string): (r: string)
    ensures |r| == |s|
    ensures forall i :: 0 <= i < |r| ==> !IsUpperAscii(r[i])
  {
    MapChars(ToLower, s)
  }

  /** `s.upper()` restricted to ASCII letters. */
  function Upper(s: string): (r: string)
    ensures |r| == |s|
    ensures forall i :: 0 <= i < |r| ==> !IsLowerAscii(r[i])
  {
    MapChars(ToUpper, s)
  }

  /** Python's `str.upper` on one character, for the ASCII letters and for
      three letters whose upper case is ASCII: 'ß' becomes "SS" (two
      characters), the dotless 'ı' becomes "I" and the long 'ſ' becomes "S".
      Every other character is left as it is. */
  function FullUpperChar(c: char): string {
    if c == '\U{DF}' then "SS"
    else if c == '\U{131}' then "I"
    else if c == '\U{17F}' then "S"
    else [ToUpper(c)]
  }

  /** `s.upper()` over the table of `FullUpperChar`: unlike `Upper`, it can
      make the text longer. */
  function FullUpper(s: string): string {
    if s == [] then [] else FullUpperChar(s[0]) + FullUpper(s[1..])
  }

  /** A text of characters up to 'Z' is its own `FullUpper`. */
  lemma {:induction false} FullUpperOfUpperCase(t: string)
    requires forall k :: 0 <= k < |t| ==> t[k] <= 'Z'
    ensures FullUpper(t) == t
  {
    if t != [] {
      FullUpperOfUpperCase(t[1..]);
      assert t == [t[0]] + t[1..];
    }
  }

  /** 'ß' in front of such a text becomes "SS". */
  lemma FullUpperSharpS(t: string)
    requires forall k :: 0 <= k < |t| ==> t[k] <= 'Z'
    ensures FullUpper(['\U{DF}'] + t) == "SS" + t
  {
    assert (['\U{DF}'] + t)[1..] == t;
    FullUpperOfUpperCase(t);
  }

  /** A text with no lower-case ASCII letter is its own `Upper`. */
  lemma UpperOfUpperCase(t: string)
    requires forall k :: 0 <= k < |t| ==> !IsLowerAscii(t[k])
    ensures Upper(t) == t
  {
    forall k | 0 <= k < |t| ensures Upper(t)[k] == t[k] {
      assert ToUpper(t[k]) == t[k];
    }
  }

  /** `s.replace('\xa0', ' ')`. */
  function ReplaceNbsp(s: string): (r: string)
    ensures |r| == |s|
    ensures forall i :: 0 <= i < |r| ==> r[i] != NBSP
  {
    MapChars(NbspToSpace, s)
  }

  /** `s.lstrip()`: drops the leading whitespace. */
  function LStrip(s: string): (r: string)
    ensures |r| <= |s| && r == s[|s| - |r|..]
    ensures forall k :: 0 <= k < |s| - |r| ==> IsSpace(s[k])
    ensures r == [] || !IsSpace(r[0])
  {
    if |s| > 0 && IsSpace(s[0]) then LStrip(s[1..]) else s
  }

  /** `s.rstrip()`: drops the trailing whitespace. */
  function RStrip(s: string): (r: string)
    ensures |r| <= |s| && r == s[..|r|]
    ensures forall k :: |r| <= k < |s| ==> IsSpace(s[k])
    ensures r == [] || !IsSpace(r[|r| - 1])
  {
    if |s| > 0 && IsSpace(s[|s| - 1]) then RStrip(s[..|s| - 1]) else s
  }

  /** A non-empty text with no whitespace at either end. */
  predicate IsStripped(s: string) {
    s != [] && !IsSpace(s[0]) && !IsSpace(s[|s| - 1])
  }

  /** `s.strip()`: the result has no whitespace at either end, and a string
      without whitespace at its ends is left as it is. */
  function Strip(s: string): (r: string)
    ensures r == [] || IsStripped(r)
    ensures IsStripped(s) ==> r == s
  {
    RStrip(LStrip(s))
  }

  /** A word of `split()`: non-empty and free of whitespace. */
  predicate IsWord(w: string) {
    |w| > 0 && forall k :: 0 <= k < |w| ==> !IsSpace(w[k])
  }

  predicate AllWords(ws: seq<string>) {
    forall i :: 0 <= i < |ws| ==> IsWord(ws[i])
  }

  /** The longest whitespace-free prefix of `s`. */
  function WordPrefix(s: string): (w: string)
    ensures |w| <= |s| && w == s[..|w|]
    ensures forall k :: 0 <= k < |w| ==> !IsSpace(w[k])
    ensures |w| == |s| || IsSpace(s[|w|])
  {
    if |s| == 0 || IsSpace(s[0]) then [] else [s[0]] + WordPrefix(s[1..])
  }

  /** A text that starts with a non-space starts with a word. */
  lemma WordPrefixIsWord(t: string)
    requires t != [] && !IsSpace(t[0])
    ensures IsWord(WordPrefix(t))
  {
  }

  lemma AllWordsCons(w: string, ws: seq<string>)
    requires IsWord(w) && AllWords(ws)
    ensures AllWords([w] + ws)
  {
    forall i | 0 <= i < |[w] + ws| ensures IsWord(([w] + ws)[i]) {
      if i > 0 { assert ([w] + ws)[i] == ws[i - 1]; }
    }
  }

  /** `s.split()` with no argument: the maximal whitespace-free runs, in order. */
  function Split(s: string): (ws: seq<string>)
    ensures AllWords(ws)
    decreases |s|
  {
    var t := LStrip(s);
    if t == [] then []
    else
      var w := WordPrefix(t);
      WordPrefixIsWord(t);
      var rest := Split(t[|w|..]);
      AllWordsCons(w, rest);
      [w] + rest
  }

  /** `sep.join(ws)`. */
  function Join(sep: string, ws: seq<string>): string {
    if |ws| == 0 then []
    else if |ws| == 1 then ws[0]
    else ws[0] + sep + Join(sep, ws[1..])
  }

  /** `p` occurs in `s` at offset `i`. */
  ghost predicate OccursAt(s: string, p: string, i: int) {
    0 <= i && i + |p| <= |s| && s[i..i + |p|] == p
  }

  /** `s.find(p, start)`: the least offset at or after `start` where `p`
      occurs, or -1 when there is none. */
  function FindFrom(s: string, p: string, start: nat): (r: int)
    ensures r == -1 || (start <= r && OccursAt(s, p, r))
    ensures r == -1 ==> forall i :: start <= i ==> !OccursAt(s, p, i)
    ensures r != -1 ==> forall i :: start <= i < r ==> !OccursAt(s, p, i)
    decreases |s| - start
  {
    if start + |p| > |s| then -1
    else if s[start..start + |p|] == p then start
    else FindFrom(s, p, start + 1)
  }

  /** `p in s`. */
  function Contains(s: string, p: string): (b: bool)
    ensures b <==> exists i :: OccursAt(s, p, i)
  {
    FindFrom(s, p, 0) != -1
  }

  /** `s[i:j]` for non-negative bounds: both are clipped to the length, and
      the slice is empty when they cross. */
  function PySlice(s: string, i: nat, j: nat): string {
    var a := if i < |s| then i else |s|;
    var b := if j < |s| then j else |s|;
    if a <= b then s[a..b] else []
  }

  /** `s.endswith(suffix)`. */
  function EndsWith(s: string, suffix: string): bool {
    |suffix| <= |s| && s[|s| - |suffix|..] == suffix
  }
}
