/** Extracts the section from one document: plain-text files (by a
    case-insensitive `.txt` suffix) go to the offset locator, everything else
    to the markup locator, noise filter and rendering. A file that cannot be
    opened or parsed yields the empty pair, exactly as "section not found"
    does. */
module UnifiedExtractor {
  import opened PyText
  import opened Scan
  import opened Markup
  import opened MarkupSectionLocator
  import opened MarkupNoiseFilter
  import opened PlainTextSectionLocator

  /** The outcome of parsing a file's text as markup. */
  datatype Parsed = ParseError | Tree(tags: seq<Element>)

  /** A readable local file: its text, and what the markup parser makes of it. */
  datatype FileEntry = FileEntry(raw: string, parsed: Parsed)

  /** The local storage: a path that is not a key cannot be opened. */
  type FileSystem = map<string, FileEntry>

  /** The section of a parsed markup document: the elements between the
      bounds with the noise paragraphs removed, as stripped text and markup. */
  function MarkupSection(tags: seq<Element>): (string, string) {
    match Bounds(tags)
    case NotFound => ("", "")
    case Section(s, e) =>
      var kept := KeepNonNoise(tags[s..e]);
      (Strip(RenderText(kept)), Strip(RenderMarkup(kept)))
  }

  /** The markup path once the document is parsed: locate, slice, filter,
      render. A missing or inverted boundary gives the empty pair. */
  method SectionFromMarkup(tags: seq<Element>) returns (content: string, html: string)
    ensures (content, html) == MarkupSection(tags)
  {
    var start, end := LocateSection(tags);
    if start == -1 || end == -1 || end <= start {
      return "", "";
    }
    var extracted := tags[start..end];
    var kept := RemoveNoise(extracted);
    html := Strip(RenderMarkup(kept));
    content := Strip(RenderText(kept));
  }

  /** What the markup extractor returns for a path. */
  function MarkupFile(fs: FileSystem, path: string): (string, string) {
    if path !in fs then ("", "")
    else match fs[path].parsed
      case ParseError => ("", "")
      case Tree(tags) => MarkupSection(tags)
  }

  /** What the plain-text extractor returns for a path. */
  function TextFile(fs: FileSystem, path: string): (string, string) {
    if path !in fs then ("", "") else TextSection(fs[path].raw)
  }

  /** `extract_item_1_section_from_htm`: unreadable or unparsable files give
      the empty pair. */
  method ExtractFromMarkupFile(fs: FileSystem, path: string) returns (content: string, html: string)
    ensures (content, html) == MarkupFile(fs, path)
    ensures path !in fs ==> content == "" && html == ""
  {
    if path !in fs {
      return "", "";
    }
    match fs[path].parsed
    case ParseError =>
      return "", "";
    case Tree(tags) =>
      content, html := SectionFromMarkup(tags);
  }

  /** `extract_item_1_section_from_txt`: an unreadable file gives the empty pair. */
  method ExtractFromTextFile(fs: FileSystem, path: string) returns (content: string, html: string)
    ensures (content, html) == TextFile(fs, path)
    ensures html == ""
  {
    if path !in fs {
      return "", "";
    }
    content, html := SectionFromText(fs[path].raw);
  }

  /** `path.lower().endswith('.txt')`. */
  function IsTextPath(path: string): bool {
    EndsWith(Lower(path), ".txt")
  }

  /** A path is plain text exactly when it ends in a dot followed by "txt"
      in any mix of letter case. */
  lemma TextPathSuffix(path: string)
    ensures IsTextPath(path) <==> (
      && |path| >= 4 && path[|path| - 4] == '.'
      && path[|path| - 3] in "tT" && path[|path| - 2] in "xX" && path[|path| - 1] in "tT")
  {
    if |path| >= 4 {
      var n := |path|;
      var low := Lower(path);
      assert low[n - 4..] == [ToLower(path[n - 4]), ToLower(path[n - 3]), ToLower(path[n - 2]), ToLower(path[n - 1])];
    }
  }

  /** The pair the unified extractor returns for a path. */
  function Item1Content(fs: FileSystem, path: string): (string, string) {
    if IsTextPath(path) then TextFile(fs, path) else MarkupFile(fs, path)
  }

  /** `extract_item_1_content`: dispatch on the file name. */
  method ExtractItem1Content(fs: FileSystem, path: string) returns (content: string, html: string)
    ensures (content, html) == Item1Content(fs, path)
  {
    if IsTextPath(path) {
      content, html := ExtractFromTextFile(fs, path);
    } else {
      content, html := ExtractFromMarkupFile(fs, path);
    }
  }

  /** Every outcome is either the canonical empty pair or comes from a
      located section: plain-text documents never give markup, and a
      non-empty markup result comes from an existing, parsed file with a
      start heading followed by an end heading. */
  lemma OutcomeShape(fs: FileSystem, path: string)
    ensures path !in fs ==> Item1Content(fs, path) == ("", "")
    ensures IsTextPath(path) ==> Item1Content(fs, path).1 == ""
    ensures IsTextPath(path) && Item1Content(fs, path).0 != "" ==>
      path in fs && TextBounds(fs[path].raw).Section?
    ensures !IsTextPath(path) && Item1Content(fs, path) != ("", "") ==>
      path in fs && fs[path].parsed.Tree? && Bounds(fs[path].parsed.tags).Section?
  {
  }
}
