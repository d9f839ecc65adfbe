/** The parsed markup document, abstracted: the flattened, document-order
    list of `div`, `p` and `span` elements that `soup.find_all` returns. */
module Markup {
  import opened PyText

  datatype Kind = Div | P | Span

  /** One element of the flattened list.
      - `hasAnchor`: the element has an `<a>` descendant (`tag.find("a")`);
      - `strings`: its text nodes, descendants included, in document order;
      - `attrs`: its attributes;
      - `markup`: its serialization `str(tag)`. */
  datatype Element = Element(
    kind: Kind,
    hasAnchor: bool,
    strings: seq<string>,
    attrs: map<string, string>,
    markup: string)

  predicate AllStripped(ps: seq<string>) {
    forall i :: 0 <= i < |ps| ==> IsStripped(ps[i])
  }

  lemma AllStrippedCons(p: string, ps: seq<string>)
    requires IsStripped(p) && AllStripped(ps)
    ensures AllStripped([p] + ps)
  {
    forall i | 0 <= i < |[p] + ps| ensures IsStripped(([p] + ps)[i]) {
      if i > 0 { assert ([p] + ps)[i] == ps[i - 1]; }
    }
  }

  /** The text pieces `get_text(strip=True)` keeps: each text node stripped,
      the empty ones dropped. */
  function StrippedPieces(strings: seq<string>): (r: seq<string>)
    ensures |r| <= |strings|
    ensures AllStripped(r)
  {
    if strings == [] then []
    else
      var h := Strip(strings[0]);
      var rest := StrippedPieces(strings[1..]);
      if h == [] then rest
      else
        AllStrippedCons(h, rest);
        [h] + rest
  }

  /** `get_text(separator=sep, strip=True)`. */
  function GetText(strings: seq<string>, sep: string): string {
    Join(sep, StrippedPieces(strings))
  }

  /** `tag.get_text(strip=True)`: the text the locator matches against. */
  function Text(e: Element): string {
    GetText(e.strings, "")
  }

  /** `tag.get(name, '')`. */
  function Attr(e: Element, name: string): string {
    if name in e.attrs then e.attrs[name] else ""
  }

  /** The text nodes of a list of elements, in order. */
  function AllStrings(tags: seq<Element>): seq<string> {
    if tags == [] then [] else tags[0].strings + AllStrings(tags[1..])
  }

  /** The serialization of a list of elements, in order. */
  function AllMarkup(tags: seq<Element>): string {
    if tags == [] then [] else tags[0].markup + AllMarkup(tags[1..])
  }

  /** `soup.get_text(separator="\n", strip=True)` of the elements. */
  function RenderText(tags: seq<Element>): string {
    GetText(AllStrings(tags), "\n")
  }

  /** `str(soup)` of the elements. */
  function RenderMarkup(tags: seq<Element>): string {
    AllMarkup(tags)
  }
}
