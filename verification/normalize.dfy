/** The text normalizer used only for matching section headings:
    non-breaking spaces become spaces, whitespace runs collapse to one space,
    the ends are stripped and the text is lower-cased. */
module TextNormalizer {
  import opened PyText

  /** `" ".join(text.replace('\xa0', ' ').split()).strip().lower()` */
  function Normalize(text: string): string {
    Lower(Strip(Join(" ", Split(ReplaceNbsp(text)))))
  }

  /** What a normalized string looks like: no non-breaking space, no
      upper-case letter, no whitespace at either end, no two whitespace
      characters in a row, and plain spaces as the only whitespace. */
  ghost predicate IsNormalized(r: string) {
    && (forall k :: 0 <= k < |r| ==> r[k] != NBSP && !IsUpperAscii(r[k]))
    && (|r| > 0 ==> !IsSpace(r[0]) && !IsSpace(r[|r| - 1]))
    && (forall k :: 0 <= k < |r| - 1 ==> !(IsSpace(r[k]) && IsSpace(r[k + 1])))
    && (forall k :: 0 <= k < |r| && IsSpace(r[k]) ==> r[k] == ' ')
  }

  /** Applies a character map to every word. */
  function MapWords(f: char -> char, ws: seq<string>): (vs: seq<string>)
    ensures |vs| == |ws|
    ensures forall i :: 0 <= i < |ws| ==> vs[i] == MapChars(f, ws[i])
  {
    seq(|ws|, i requires 0 <= i < |ws| => MapChars(f, ws[i]))
  }

  // ---------------------------------------------------------------------
  // Facts about the Python primitives that normalization is built from

  lemma MapCharsConcat(f: char -> char, a: string, b: string)
    ensures MapChars(f, a + b) == MapChars(f, a) + MapChars(f, b)
  {
    assert MapChars(f, a + b) == MapChars(f, a) + MapChars(f, b);
  }

  /** A space-preserving map keeps words words. */
  lemma MapWordsKeepsWords(f: char -> char, ws: seq<string>)
    requires PreservesSpace(f)
    requires AllWords(ws)
    ensures AllWords(MapWords(f, ws))
  {
    forall i | 0 <= i < |ws| ensures IsWord(MapWords(f, ws)[i]) {
      var w := ws[i];
      forall k | 0 <= k < |w| ensures !IsSpace(MapChars(f, w)[k]) {
        assert !IsSpace(w[k]);
      }
    }
  }

  /** The joined text of words: every whitespace character is a single
      space strictly inside the text, between two non-space characters. */
  lemma {:induction false} JoinShape(ws: seq<string>)
    requires AllWords(ws)
    ensures var j := Join(" ", ws);
      forall k :: 0 <= k < |j| && IsSpace(j[k]) ==>
        j[k] == ' ' && 0 < k < |j| - 1 && !IsSpace(j[k - 1]) && !IsSpace(j[k + 1])
    ensures |ws| > 0 ==> var j := Join(" ", ws);
      |j| > 0 && !IsSpace(j[0]) && !IsSpace(j[|j| - 1])
  {
    if |ws| == 0 {
    } else if |ws| == 1 {
      assert Join(" ", ws) == ws[0];
    } else {
      var w := ws[0];
      var rest := Join(" ", ws[1..]);
      JoinShape(ws[1..]);
      var j := Join(" ", ws);
      assert j == w + " " + rest;
      assert |rest| > 0;
      forall k | 0 <= k < |j| && IsSpace(j[k])
        ensures j[k] == ' ' && 0 < k < |j| - 1 && !IsSpace(j[k - 1]) && !IsSpace(j[k + 1])
      {
        if k < |w| {
        } else if k == |w| {
          assert j[k - 1] == w[|w| - 1];
          assert j[k + 1] == rest[0];
        } else {
          assert j[k] == rest[k - |w| - 1];
          assert j[k + 1] == rest[k - |w|];
          if k - 1 > |w| {
            assert j[k - 1] == rest[k - |w| - 2];
          }
        }
      }
      assert j[|j| - 1] == rest[|rest| - 1];
      assert j[0] == w[0];
    }
  }

  /** The longest whitespace-free prefix stops at the first whitespace. */
  lemma {:induction false} WordPrefixUpTo(s: string, n: nat)
    requires n <= |s|
    requires forall k :: 0 <= k < n ==> !IsSpace(s[k])
    requires n == |s| || IsSpace(s[n])
    ensures WordPrefix(s) == s[..n]
  {
    if n > 0 {
      WordPrefixUpTo(s[1..], n - 1);
      assert s[..n] == [s[0]] + s[1..][..n - 1];
    }
  }

  /** Where a word ends and a space (or the end of text) follows, the
      longest whitespace-free prefix is that word. */
  lemma WordPrefixOfWord(w: string, rest: string)
    requires IsWord(w)
    requires rest == [] || IsSpace(rest[0])
    ensures WordPrefix(w + rest) == w
  {
    var s := w + rest;
    assert s[..|w|] == w;
    WordPrefixUpTo(s, |w|);
  }

  /** Leading spaces do not change the split. */
  lemma SplitAfterSpace(x: string)
    ensures Split(" " + x) == Split(x)
  {
    assert LStrip(" " + x) == LStrip((" " + x)[1..]);
    assert (" " + x)[1..] == x;
  }

  /** A word followed by a space or by nothing is the first item of the split. */
  lemma SplitWordThen(w: string, rest: string)
    requires IsWord(w)
    requires rest == [] || IsSpace(rest[0])
    ensures Split(w + rest) == [w] + Split(rest)
  {
    var j := w + rest;
    assert LStrip(j) == j by { assert !IsSpace(j[0]); }
    WordPrefixOfWord(w, rest);
    assert j[|w|..] == rest;
  }

  lemma JoinCons(w: string, ws: seq<string>)
    requires ws != []
    ensures Join(" ", [w] + ws) == w + (" " + Join(" ", ws))
  {
    assert ([w] + ws)[1..] == ws;
  }

  /** One induction step of `SplitJoin`: a word joined in front of words
      whose join splits back splits back too. */
  lemma SplitJoinCons(w: string, ws: seq<string>)
    requires IsWord(w) && ws != []
    requires Split(Join(" ", ws)) == ws
    ensures Split(Join(" ", [w] + ws)) == [w] + ws
  {
    JoinCons(w, ws);
    SplitWordThen(w, " " + Join(" ", ws));
    SplitAfterSpace(Join(" ", ws));
  }

  /** A single word splits back to itself. */
  lemma SplitJoinOne(w: string)
    requires IsWord(w)
    ensures Split(Join(" ", [w])) == [w]
  {
    assert Join(" ", [w]) == w + [];
    SplitWordThen(w, []);
    assert LStrip([]) == [];
  }

  /** `split()` undoes `" ".join` on a list of words. */
  lemma {:induction false} SplitJoin(ws: seq<string>)
    requires AllWords(ws)
    ensures Split(Join(" ", ws)) == ws
  {
    if |ws| == 0 {
      assert LStrip([]) == [];
    } else if |ws| == 1 {
      SplitJoinOne(ws[0]);
      assert ws == [ws[0]];
    } else {
      SplitJoin(ws[1..]);
      SplitJoinCons(ws[0], ws[1..]);
      assert [ws[0]] + ws[1..] == ws;
    }
  }

  /** A map that fixes the space character commutes with `" ".join`. */
  lemma {:induction false} MapJoin(f: char -> char, ws: seq<string>)
    requires f(' ') == ' '
    ensures MapChars(f, Join(" ", ws)) == Join(" ", MapWords(f, ws))
  {
    if |ws| <= 1 {
    } else {
      var rest := Join(" ", ws[1..]);
      MapJoin(f, ws[1..]);
      assert MapWords(f, ws)[1..] == MapWords(f, ws[1..]);
      MapCharsConcat(f, ws[0] + " ", rest);
      MapCharsConcat(f, ws[0], " ");
      assert MapChars(f, " ") == " ";
    }
  }

  lemma LStripMap(f: char -> char, s: string)
    requires PreservesSpace(f)
    ensures LStrip(MapChars(f, s)) == MapChars(f, LStrip(s))
    decreases |s|
  {
    if |s| > 0 && IsSpace(s[0]) {
      assert IsSpace(MapChars(f, s)[0]);
      assert MapChars(f, s)[1..] == MapChars(f, s[1..]);
      LStripMap(f, s[1..]);
    } else if |s| > 0 {
      assert !IsSpace(MapChars(f, s)[0]);
    }
  }

  lemma WordPrefixMap(f: char -> char, s: string)
    requires PreservesSpace(f)
    ensures WordPrefix(MapChars(f, s)) == MapChars(f, WordPrefix(s))
    decreases |s|
  {
    var m := MapChars(f, s);
    if |s| == 0 {
    } else if IsSpace(s[0]) {
      assert IsSpace(m[0]);
    } else {
      assert !IsSpace(m[0]) && m[1..] == MapChars(f, s[1..]);
      assert WordPrefix(m) == [m[0]] + WordPrefix(MapChars(f, s[1..]));
      WordPrefixMap(f, s[1..]);
      MapCharsConcat(f, [s[0]], WordPrefix(s[1..]));
    }
  }

  lemma MapCharsDrop(f: char -> char, s: string, n: nat)
    requires n <= |s|
    ensures MapChars(f, s)[n..] == MapChars(f, s[n..])
  {
  }

  lemma MapWordsCons(f: char -> char, w: string, ws: seq<string>)
    ensures MapWords(f, [w] + ws) == [MapChars(f, w)] + MapWords(f, ws)
  {
    assert MapWords(f, [w] + ws)[1..] == MapWords(f, ws);
  }

  /** A space-preserving character map commutes with `split()`. */
  lemma {:induction false} SplitMap(f: char -> char, s: string)
    requires PreservesSpace(f)
    ensures Split(MapChars(f, s)) == MapWords(f, Split(s))
    decreases |s|
  {
    var t := LStrip(s);
    var ms := MapChars(f, s);
    var mt := MapChars(f, t);
    LStripMap(f, s);
    assert LStrip(ms) == mt;
    if t != [] {
      var w := WordPrefix(t);
      var mw := MapChars(f, w);
      WordPrefixMap(f, t);
      assert WordPrefix(mt) == mw;
      MapCharsDrop(f, t, |w|);
      SplitMap(f, t[|w|..]);
      assert Split(ms) == [mw] + Split(mt[|mw|..]);
      assert Split(s) == [w] + Split(t[|w|..]);
      MapWordsCons(f, w, Split(t[|w|..]));
    }
  }

  /** A map that does nothing to non-space characters leaves words alone. */
  lemma MapWordsIdentity(f: char -> char, ws: seq<string>)
    requires AllWords(ws)
    requires forall c :: !IsSpace(c) ==> f(c) == c
    ensures MapWords(f, ws) == ws
  {
    forall i | 0 <= i < |ws| ensures MapChars(f, ws[i]) == ws[i] {
      var w := ws[i];
      forall k | 0 <= k < |w| ensures MapChars(f, w)[k] == w[k] {
        assert !IsSpace(w[k]);
      }
    }
  }

  // ---------------------------------------------------------------------
  // Properties of Normalize

  /** Normalization is the lower-cased words of the text joined by single spaces. */
  lemma NormalizeAsWords(text: string)
    ensures var ws := MapWords(ToLower, Split(ReplaceNbsp(text)));
      AllWords(ws) && Normalize(text) == Join(" ", ws)
  {
    var ws := Split(ReplaceNbsp(text));
    JoinShape(ws);
    assert Strip(Join(" ", ws)) == Join(" ", ws);
    MapJoin(ToLower, ws);
    MapWordsKeepsWords(ToLower, ws);
  }

  /** Words joined by single spaces, with no capital letter among them,
      form a normalized text. */
  lemma JoinedWordsNormalized(ws: seq<string>)
    requires AllWords(ws)
    requires forall k :: 0 <= k < |Join(" ", ws)| ==> !IsUpperAscii(Join(" ", ws)[k])
    ensures IsNormalized(Join(" ", ws))
  {
    JoinShape(ws);
    var r := Join(" ", ws);
    forall k | 0 <= k < |r| ensures r[k] != NBSP {
      if r[k] == NBSP {
        assert IsSpace(r[k]);
      }
    }
  }

  /** The normalized text has the shape that heading matching relies on. */
  lemma NormalizeIsNormalized(text: string)
    ensures IsNormalized(Normalize(text))
  {
    var ws := MapWords(ToLower, Split(ReplaceNbsp(text)));
    assert AllWords(ws) && Normalize(text) == Join(" ", ws) by {
      NormalizeAsWords(text);
    }
    JoinedWordsNormalized(ws);
  }

  /** Replacing non-breaking spaces changes nothing in a text without them. */
  lemma ReplaceNbspIdentity(t: string)
    requires forall k :: 0 <= k < |t| ==> t[k] != NBSP
    ensures ReplaceNbsp(t) == t
  {
    forall k | 0 <= k < |t| ensures ReplaceNbsp(t)[k] == t[k] {
      assert NbspToSpace(t[k]) == t[k];
    }
  }

  /** Lower-casing changes nothing in a text without ASCII capitals. */
  lemma LowerIdentity(t: string)
    requires forall k :: 0 <= k < |t| ==> !IsUpperAscii(t[k])
    ensures Lower(t) == t
  {
    forall k | 0 <= k < |t| ensures Lower(t)[k] == t[k] {
      assert ToLower(t[k]) == t[k];
    }
  }

  /** Normalizing twice is the same as normalizing once. */
  lemma NormalizeIdempotent(text: string)
    ensures Normalize(Normalize(text)) == Normalize(text)
  {
    var t := Normalize(text);
    var ws := MapWords(ToLower, Split(ReplaceNbsp(text)));
    NormalizeAsWords(text);
    NormalizeIsNormalized(text);
    ReplaceNbspIdentity(t);
    SplitJoin(ws);
    assert Split(ReplaceNbsp(t)) == ws;
    assert Strip(Join(" ", ws)) == t;
    LowerIdentity(t);
  }

  /** The replacement of non-breaking spaces is redundant: `split()`
      already treats them as whitespace. */
  lemma NbspReplacementRedundant(text: string)
    ensures Split(ReplaceNbsp(text)) == Split(text)
  {
    assert PreservesSpace(NbspToSpace);
    SplitMap(NbspToSpace, text);
    MapWordsIdentity(NbspToSpace, Split(text));
  }

  lemma NormalizeOfLower(text: string)
    ensures Normalize(Lower(text)) == Normalize(text)
  {
    assert PreservesSpace(ToLower);
    var x := ReplaceNbsp(text);
    assert ReplaceNbsp(Lower(text)) == Lower(x);
    var ws := Split(x);
    SplitMap(ToLower, x);
    NormalizeAsWords(text);
    NormalizeAsWords(Lower(text));
    assert MapWords(ToLower, MapWords(ToLower, ws)) == MapWords(ToLower, ws) by {
      forall i | 0 <= i < |ws| ensures MapChars(ToLower, MapChars(ToLower, ws[i])) == MapChars(ToLower, ws[i]) {
      }
    }
  }

  /** Normalization does not see letter case: two texts that agree once
      lower-cased normalize to the same string. */
  lemma NormalizeIgnoresCase(a: string, b: string)
    requires Lower(a) == Lower(b)
    ensures Normalize(a) == Normalize(b)
  {
    NormalizeOfLower(a);
    NormalizeOfLower(b);
  }

  /** Normalization does not see the difference between a non-breaking
      space and any other whitespace run. */
  lemma NormalizeIgnoresSpacing(a: string, b: string)
    requires Split(a) == Split(b)
    ensures Normalize(a) == Normalize(b)
  {
    NbspReplacementRedundant(a);
    NbspReplacementRedundant(b);
  }
}
