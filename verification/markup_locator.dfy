/** Finds the "Item 1. Business" section in the flattened element list: the
    first anchor-free element whose normalized text holds a start phrase,
    then the first later anchor-free element whose normalized text holds an
    end phrase. Elements with an `<a>` descendant are table-of-contents
    entries and never count as a boundary. */
module MarkupSectionLocator {
  import opened PyText
  import opened TextNormalizer
  import opened Markup
  import opened Scan

  predicate IsStartHeading(norm: string) {
    Contains(norm, "item 1. business") || Contains(norm, "item 1. description of business")
  }

  predicate IsEndHeading(norm: string) {
    Contains(norm, "item 1a.") || Contains(norm, "item 1a. risk factors")
  }

  /** `tag.find("a")`: the element holds a link. */
  predicate HasAnchor(e: Element) {
    e.hasAnchor
  }

  /** The text a heading is matched against: `normalize(tag.get_text(strip=True))`. */
  function HeadingText(e: Element): string {
    Normalize(Text(e))
  }

  /** An element that can open the section: no link, and a start phrase in
      its normalized text. */
  const IsStartCandidate: Element -> bool := Candidate(HasAnchor, HeadingText, IsStartHeading)

  /** An element that can close the section: no link, and an end phrase in
      its normalized text. */
  const IsEndCandidate: Element -> bool := Candidate(HasAnchor, HeadingText, IsEndHeading)

  /** The boundary the scan settles on: the first start candidate and the
      first end candidate after it. A found section always stops at a real
      end heading and never runs on to the end of the document. */
  function Bounds(tags: seq<Element>): (b: Boundary)
    ensures b.Section? ==> b.start < b.end < |tags|
    ensures b.Section? ==> IsStartCandidate(tags[b.start]) && IsEndCandidate(tags[b.end])
  {
    var s := FirstIndex(tags, 0, IsStartCandidate);
    if s == -1 then NotFound
    else
      var e := FirstIndex(tags, s + 1, IsEndCandidate);
      if e == -1 then NotFound else Section(s, e)
  }

  /** Both boundaries are the earliest possible: no start candidate comes
      before `start`, and no end candidate lies between the two. */
  lemma BoundsAreFirst(tags: seq<Element>)
    ensures var b := Bounds(tags);
      b.Section? ==>
        && (forall j :: 0 <= j < b.start ==> !IsStartCandidate(tags[j]))
        && (forall j :: b.start < j < b.end ==> !IsEndCandidate(tags[j]))
  {
    var s := FirstIndex(tags, 0, IsStartCandidate);
    FirstIndexIsLeast(tags, 0, IsStartCandidate);
    if s != -1 {
      FirstIndexIsLeast(tags, s + 1, IsEndCandidate);
    }
  }

  /** A section is found exactly when some start candidate comes before
      some end candidate. */
  lemma NotFoundIffNoPair(tags: seq<Element>)
    ensures Bounds(tags).NotFound? <==>
      forall i, j :: 0 <= i < j < |tags| ==> !(IsStartCandidate(tags[i]) && IsEndCandidate(tags[j]))
  {
    var s := FirstIndex(tags, 0, IsStartCandidate);
    FirstIndexIsLeast(tags, 0, IsStartCandidate);
    if s != -1 {
      FirstIndexIsLeast(tags, s + 1, IsEndCandidate);
    }
  }

  /** The boundary scan over the element list: linked elements are passed
      over, the text of the others is normalized once and tested for a start
      phrase until one is found, and from the next element on for an end
      phrase, stopping at the first. */
  method LocateSection(tags: seq<Element>) returns (start: int, end: int)
    ensures start == FirstIndex(tags, 0, IsStartCandidate)
    ensures end == (if start == -1 then -1 else FirstIndex(tags, start + 1, IsEndCandidate))
  {
    start, end := ScanSection(tags, HasAnchor, HeadingText, IsStartHeading, IsEndHeading);
  }

  /** An element with an `<a>` descendant is never a boundary. */
  lemma AnchorNeverBoundary(tags: seq<Element>)
    ensures Bounds(tags).Section? ==>
      !tags[Bounds(tags).start].hasAnchor && !tags[Bounds(tags).end].hasAnchor
  {
    var b := Bounds(tags);
    if b.Section? {
      var s, e := tags[b.start], tags[b.end];
      assert Candidate(HasAnchor, HeadingText, IsStartHeading)(s) == (!HasAnchor(s) && IsStartHeading(HeadingText(s)));
      assert Candidate(HasAnchor, HeadingText, IsEndHeading)(e) == (!HasAnchor(e) && IsEndHeading(HeadingText(e)));
    }
  }

  /** The second end phrase is redundant: every text holding
      "item 1a. risk factors" also holds "item 1a.". */
  lemma EndHeadingIsItem1A(norm: string)
    ensures IsEndHeading(norm) <==> Contains(norm, "item 1a.")
  {
    var p, q := "item 1a.", "item 1a. risk factors";
    if Contains(norm, q) {
      var i :| OccursAt(norm, q, i);
      assert norm[i..i + |p|] == norm[i..i + |q|][..|p|];
      assert OccursAt(norm, p, i);
    }
  }
}
