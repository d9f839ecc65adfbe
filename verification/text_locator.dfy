/** Finds the "Item 1. Business" section in a plain-text filing by offset:
    the start phrases are tried in priority order on an upper-cased copy,
    the end phrase is searched from the start offset, and the section is cut
    from the original text. */
module PlainTextSectionLocator {
  import opened PyText
  import opened Scan

  const StartPatterns: seq<string> := ["ITEM 1. BUSINESS", "ITEM 1. DESCRIPTION OF BUSINESS"]
  const EndPattern: string := "ITEM 1A."

  /** The test "`pattern` occurs in `text`", as a value. */
  function OccursIn(text: string): string -> bool {
    p => Contains(text, p)
  }

  /** The offset of the first occurrence of the first pattern, in list
      order, that occurs at all; -1 when none does. */
  function PatternStart(text: string, patterns: seq<string>): int {
    var k := FirstIndex(patterns, 0, OccursIn(text));
    if k == -1 then -1 else FindFrom(text, patterns[k], 0)
  }

  /** The start is -1 exactly when no pattern occurs; otherwise it is the
      first occurrence of a pattern that occurs, all patterns before it in
      the list being absent. */
  lemma PatternStartSpec(text: string, patterns: seq<string>)
    ensures var r := PatternStart(text, patterns);
      && (r == -1 <==> forall k :: 0 <= k < |patterns| ==> !Contains(text, patterns[k]))
      && (r != -1 ==> exists k ::
        && 0 <= k < |patterns| && Contains(text, patterns[k])
        && (forall m :: 0 <= m < k ==> !Contains(text, patterns[m]))
        && r == FindFrom(text, patterns[k], 0))
  {
    FirstIndexIsLeast(patterns, 0, OccursIn(text));
  }

  /** The pattern loop with `break`. */
  method FindStart(upper: string, patterns: seq<string>) returns (start: int)
    ensures start == PatternStart(upper, patterns)
  {
    start := -1;
    var i := 0;
    while i < |patterns|
      invariant 0 <= i <= |patterns|
      invariant FirstIndex(patterns, 0, OccursIn(upper)) == FirstIndex(patterns, i, OccursIn(upper))
    {
      var idx := FindFrom(upper, patterns[i], 0);
      if idx != -1 {
        start := idx;
        break;
      }
      i := i + 1;
    }
  }

  /** The offsets in an upper-cased text: the start phrase found by
      `PatternStart`, and the first end phrase at or after it. */
  function BoundsIn(u: string): Boundary {
    var s := PatternStart(u, StartPatterns);
    if s == -1 then NotFound
    else
      var e := FindFrom(u, EndPattern, s);
      if e == -1 then NotFound else Section(s, e)
  }

  /** The offsets the plain-text path cuts between, found in the
      upper-cased copy of the text. */
  function TextBounds(text: string): Boundary {
    BoundsIn(Upper(text))
  }

  /** No section when no start phrase occurs (case-insensitively) or no end
      phrase follows it; otherwise the start comes from the first phrase in
      priority order that occurs at all, and the end is the first occurrence
      of the end phrase at or after the start, strictly after it and inside
      the text. */
  lemma TextBoundsSpec(text: string)
    ensures var u, b := Upper(text), TextBounds(text);
      && (b.NotFound? <==>
        || (forall k :: 0 <= k < |StartPatterns| ==> !Contains(u, StartPatterns[k]))
        || (forall i :: PatternStart(u, StartPatterns) <= i ==> !OccursAt(u, EndPattern, i)))
      && (b.Section? ==>
        && b.start == PatternStart(u, StartPatterns)
        && b.start < b.end && b.end + |EndPattern| <= |text|
        && OccursAt(u, EndPattern, b.end)
        && (forall i :: b.start <= i < b.end ==> !OccursAt(u, EndPattern, i)))
  {
    var u := Upper(text);
    PatternStartSpec(u, StartPatterns);
    if PatternStart(u, StartPatterns) != -1 {
      StartIsNotEnd(u);
    }
  }

  lemma OccursAtChar(u: string, p: string, i: int, d: nat)
    requires d < |p|
    ensures OccursAt(u, p, i) ==> u[i + d] == p[d]
  {
    if OccursAt(u, p, i) {
      assert u[i + d] == u[i..i + |p|][d];
    }
  }

  /** At a start phrase there is no end phrase: they differ in their
      seventh character. */
  lemma StartIsNotEnd(u: string)
    requires PatternStart(u, StartPatterns) != -1
    ensures !OccursAt(u, EndPattern, PatternStart(u, StartPatterns))
  {
    var k := FirstIndex(StartPatterns, 0, OccursIn(u));
    var s := FindFrom(u, StartPatterns[k], 0);
    OccursAtChar(u, EndPattern, s, 6);
    OccursAtChar(u, StartPatterns[k], s, 6);
    assert StartPatterns[k][6] != EndPattern[6];
  }

  /** The section text of a plain-text document: the stripped original text
      between the bounds, and never any markup. */
  function TextSection(text: string): (r: (string, string))
    ensures r.1 == ""
  {
    match TextBounds(text)
    case NotFound => ("", "")
    case Section(s, e) => (Strip(text[s..e]), "")
  }

  /** The cut is aligned with the search: the stretch of the original text
      between the bounds upper-cases to exactly the stretch of the
      upper-cased copy that was searched, which opens with a start phrase
      and is followed by the end phrase. */
  lemma TextSectionAligned(text: string)
    ensures var b := TextBounds(text);
      b.Section? ==>
        && b.end <= |text|
        && Upper(text[b.start..b.end]) == Upper(text)[b.start..b.end]
        && (exists k :: 0 <= k < |StartPatterns| && OccursAt(Upper(text), StartPatterns[k], b.start))
        && OccursAt(Upper(text), EndPattern, b.end)
  {
    var u, b := Upper(text), TextBounds(text);
    if b.Section? {
      var k := FirstIndex(StartPatterns, 0, OccursIn(u));
      assert OccursAt(u, StartPatterns[k], b.start);
      assert Upper(text[b.start..b.end]) == u[b.start..b.end];
    }
  }

  // ---------------------------------------------------------------------
  // Offsets found in a longer upper-cased copy

  /** The plain-text path as written, with `upper()` taken from the fuller
      table `FullUpper`: the offsets are found in the upper-cased copy and
      then used to cut the original text, clipped to its length. */
  function TextSectionAsWritten(text: string): (string, string) {
    match BoundsIn(FullUpper(text))
    case NotFound => ("", "")
    case Section(s, e) => (Strip(PySlice(text, s, e)), "")
  }

  /** Searching past a prefix: the offsets move by the prefix's length. */
  lemma {:induction false} FindFromAfter(a: string, t: string, p: string, i: nat)
    ensures FindFrom(a + t, p, |a| + i) == if FindFrom(t, p, i) == -1 then -1 else |a| + FindFrom(t, p, i)
    decreases |t| - i
  {
    if i + |p| <= |t| {
      assert (a + t)[|a| + i..|a| + i + |p|] == t[i..i + |p|];
      if t[i..i + |p|] != p {
        FindFromAfter(a, t, p, i + 1);
      }
    }
  }

  /** A prefix without the pattern's first character holds no occurrence. */
  lemma FindFromSkipPrefix(a: string, t: string, p: string)
    requires p != []
    requires forall k :: 0 <= k < |a| ==> a[k] != p[0]
    ensures FindFrom(a + t, p, 0) == FindFrom(a + t, p, |a|)
  {
    var u := a + t;
    forall k | 0 <= k < |a| ensures !OccursAt(u, p, k) {
      OccursAtChar(u, p, k, 0);
    }
  }

  /** A prefix without an 'I' moves the start by its length. */
  lemma PatternStartAfter(a: string, u: string)
    requires forall k :: 0 <= k < |a| ==> a[k] != 'I'
    ensures PatternStart(a + u, StartPatterns) ==
      if PatternStart(u, StartPatterns) == -1 then -1 else |a| + PatternStart(u, StartPatterns)
  {
    forall i | 0 <= i < |StartPatterns|
      ensures FindFrom(a + u, StartPatterns[i], 0) ==
        if FindFrom(u, StartPatterns[i], 0) == -1 then -1 else |a| + FindFrom(u, StartPatterns[i], 0)
    {
      assert StartPatterns[i][0] == 'I';
      FindFromSkipPrefix(a, u, StartPatterns[i]);
      FindFromAfter(a, u, StartPatterns[i], 0);
    }
    FirstIndexAgree(StartPatterns, 0, OccursIn(a + u), OccursIn(u));
  }

  /** A prefix without an 'I' moves both bounds by its length. */
  lemma BoundsInAfter(a: string, u: string)
    requires forall k :: 0 <= k < |a| ==> a[k] != 'I'
    ensures var b := BoundsIn(u);
      BoundsIn(a + u) == if b.NotFound? then NotFound else Section(|a| + b.start, |a| + b.end)
  {
    PatternStartAfter(a, u);
    var s := PatternStart(u, StartPatterns);
    if s != -1 {
      FindFromAfter(a, u, EndPattern, s);
    }
  }

  /** A found section opens with the 'I' of a start phrase, and the end
      phrase fits in the text. */
  lemma BoundsInOpensWithI(u: string)
    ensures var b := BoundsIn(u);
      b.Section? ==> u[b.start] == 'I' && b.end + |EndPattern| <= |u|
  {
    var b := BoundsIn(u);
    if b.Section? {
      var k := FirstIndex(StartPatterns, 0, OccursIn(u));
      assert StartPatterns[k][0] == 'I';
      OccursAtChar(u, StartPatterns[k], b.start, 0);
    }
  }

  /** Before an upper-case text, 'ß' is left alone by `Upper` and moves
      the bounds by one. */
  lemma UpperKeepsSharpS(t: string)
    requires forall k :: 0 <= k < |t| ==> t[k] <= 'Z'
    ensures var b := BoundsIn(t);
      TextBounds(['\U{DF}'] + t) == if b.NotFound? then NotFound else Section(b.start + 1, b.end + 1)
  {
    UpperOfUpperCase(['\U{DF}'] + t);
    BoundsInAfter(['\U{DF}'], t);
  }

  /** Before an upper-case text, `FullUpper` turns 'ß' into "SS", one
      character longer than 'ß': the as-written offsets are those in the
      text moved by two. */
  lemma FullUpperExpandsSharpS(t: string)
    requires forall k :: 0 <= k < |t| ==> t[k] <= 'Z'
    ensures var text, b := ['\U{DF}'] + t, BoundsIn(t);
      && (b.NotFound? ==> TextSectionAsWritten(text) == ("", ""))
      && (b.Section? ==> TextSectionAsWritten(text) == (Strip(PySlice(text, b.start + 2, b.end + 2)), ""))
  {
    FullUpperSharpS(t);
    BoundsInAfter("SS", t);
  }

  /** Moved by two, the cut stays inside the text and starts just past the
      'I' the heading opens with. */
  lemma SharpSCutInText(t: string)
    ensures var text, b := ['\U{DF}'] + t, BoundsIn(t);
      b.Section? ==>
        && text[b.start + 1] == 'I' && b.end + 2 <= |text|
        && PySlice(text, b.start + 2, b.end + 2) == text[b.start + 2..b.end + 2]
  {
    BoundsInOpensWithI(t);
  }

  /** One 'ß' in front of an upper-case text: the aligned offsets are one
      past those in the text and the as-written ones two past, so the
      as-written cut skips the 'I' the heading opens with and ends one
      character late. */
  lemma ExpandingUpperShiftsSection(t: string)
    requires forall k :: 0 <= k < |t| ==> t[k] <= 'Z'
    ensures var text, b := ['\U{DF}'] + t, BoundsIn(t);
      && TextBounds(text) == (if b.NotFound? then NotFound else Section(b.start + 1, b.end + 1))
      && (b.NotFound? ==> TextSectionAsWritten(text) == ("", ""))
      && (b.Section? ==>
        && text[b.start + 1] == 'I' && b.end + 2 <= |text|
        && TextSectionAsWritten(text) == (Strip(text[b.start + 2..b.end + 2]), ""))
  {
    UpperKeepsSharpS(t);
    FullUpperExpandsSharpS(t);
    SharpSCutInText(t);
  }

  /** `extract_item_1_section_from_txt` once the file is read. */
  method SectionFromText(text: string) returns (content: string, markup: string)
    ensures (content, markup) == TextSection(text)
  {
    var cleanText := text;
    var upperText := Upper(text);
    var start := FindStart(upperText, StartPatterns);
    if start == -1 {
      return "", "";
    }
    var end := FindFrom(upperText, EndPattern, start);
    if end == -1 {
      return "", "";
    }
    content := Strip(cleanText[start..end]);
    markup := "";
  }

  /** Priority, not position: whenever the first phrase occurs anywhere,
      the start is its first occurrence, even if the second phrase occurs
      earlier; the second phrase is used only when the first is absent. */
  lemma StartByPriority(u: string)
    ensures Contains(u, StartPatterns[0]) ==>
      PatternStart(u, StartPatterns) == FindFrom(u, StartPatterns[0], 0)
    ensures !Contains(u, StartPatterns[0]) ==>
      PatternStart(u, StartPatterns) == FindFrom(u, StartPatterns[1], 0)
  {
    var k := FirstIndex(StartPatterns, 0, OccursIn(u));
    if Contains(u, StartPatterns[0]) {
      assert OccursIn(u)(StartPatterns[0]);
    } else if Contains(u, StartPatterns[1]) {
      assert OccursIn(u)(StartPatterns[1]);
    }
  }
}
