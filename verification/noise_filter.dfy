/** Drops the decorative running headers and footers from a located
    section: the `<p>` elements whose style (lower-cased) declares
    `font-size:8.5pt` and whose alignment (lower-cased) is `center`. */
module MarkupNoiseFilter {
  import opened PyText
  import opened Markup
  import opened Scan

  /** A noise paragraph: both conditions hold, compared case-insensitively. */
  predicate IsNoise(e: Element) {
    && e.kind == P
    && Contains(Lower(Attr(e, "style")), "font-size:8.5pt")
    && Contains(Lower(Attr(e, "align")), "center")
  }

  /** The elements that survive the filter, in their original order. */
  function KeepNonNoise(tags: seq<Element>): (kept: seq<Element>)
    ensures |kept| <= |tags|
    ensures forall e :: e in kept ==> e in tags && !IsNoise(e)
  {
    Without(tags, IsNoise)
  }

  /** The filter loop: every noise paragraph is decomposed, everything else
      stays where it was. */
  method RemoveNoise(tags: seq<Element>) returns (kept: seq<Element>)
    ensures kept == KeepNonNoise(tags)
  {
    kept := [];
    var i := 0;
    while i < |tags|
      invariant 0 <= i <= |tags|
      invariant kept == Without(tags[..i], IsNoise)
    {
      assert tags[..i + 1][..i] == tags[..i];
      if !IsNoise(tags[i]) {
        kept := kept + [tags[i]];
      }
      i := i + 1;
    }
    assert tags[..|tags|] == tags;
  }

  /** Filtering distributes over concatenation: the relative order of the
      kept elements is the order they had in the input. */
  lemma KeepNonNoiseConcat(a: seq<Element>, b: seq<Element>)
    ensures KeepNonNoise(a + b) == KeepNonNoise(a) + KeepNonNoise(b)
  {
    WithoutConcat(a, b, IsNoise);
  }

  /** An element is kept exactly when it is not a noise paragraph, as many
      times as it occurs: a paragraph with only one of the two conditions
      stays. */
  lemma KeepNonNoiseCount(tags: seq<Element>, e: Element)
    ensures multiset(KeepNonNoise(tags))[e] == if IsNoise(e) then 0 else multiset(tags)[e]
  {
    WithoutCount(tags, IsNoise, e);
  }
}
