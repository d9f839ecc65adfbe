# Item 1 section extractor

A Dafny model of the extractor that pulls the "Item 1. Business" section
out of downloaded 10-K filings and adds it as two columns to a table of
filings. The model covers these parts:

- **`normalize`.** It turns non-breaking spaces into spaces, collapses
  whitespace runs, strips the ends and lower-cases.
- **Markup section locator.** It scans the document's `div`/`p`/`span`
  elements for the first link-free start heading, then for the first
  link-free end heading after it.
- **Noise filter.** It drops centred 8.5pt paragraphs from the located
  slice.
- **Plain-text locator.** It tries the start phrases in priority order on
  an upper-cased copy. Then it finds the end phrase from the start offset
  and cuts the original text.
- **Unified extractor.** It dispatches on a case-insensitive `.txt` suffix.
  A file that cannot be read or parsed yields the empty pair.
- **Batch driver.** It builds each row's path as
  `base_dir/symbol/basename(final_link)`, runs the extractor, and collects
  the results in submission order.

Modules, one per file:

| file | module | contents |
|---|---|---|
| `text.dfy` | `PyText` | the Python `str` operations used: `isspace`, ASCII `lower`/`upper`, a fuller `upper` that can lengthen text, `replace('\xa0', ' ')`, `strip`, `split()`, `join`, `find`, `in`, slicing, `endswith` |
| `scan.dfy` | `Scan` | generic sequence scans: first index passing a test, the start/end section scan, order-preserving filtering |
| `normalize.dfy` | `TextNormalizer` | `normalize` and its properties |
| `markup.dfy` | `Markup` | the parsed document as a flat element list, `get_text(strip=True)` and rendering |
| `markup_locator.dfy` | `MarkupSectionLocator` | the boundary scan over elements |
| `noise_filter.dfy` | `MarkupNoiseFilter` | the noise-paragraph filter |
| `text_locator.dfy` | `PlainTextSectionLocator` | the offset-based plain-text locator |
| `extractor.dfy` | `UnifiedExtractor` | per-file extraction, error outcomes, dispatch |
| `batch.dfy` | `BatchOrchestrator` | `process_row` and `parallel_process` |

How the environment is represented:

- The file system is a map from path to file entry. A path that is not a
  key cannot be opened.
- A file entry holds the file's text and what the markup parser makes of it:
  either a parse error or the element list.
- Every per-document failure ends in the empty pair `("", "")`, as the
  source's `except Exception` clauses do.

## Model

| member | source | states |
|---|---|---|
| TextNormalizer.Normalize | extract_content_htm_save_in_csv.py:11-12 | definition of `normalize`: replace the non-breaking spaces, split, join with single spaces, strip, lower-case; what it guarantees is stated by NormalizeAsWords, NormalizeIsNormalized and NormalizeIdempotent |
| TextNormalizer.NormalizeIsNormalized | extract_content_htm_save_in_csv.py:11-12 | a normalized string has no non-breaking space and no ASCII capital, no whitespace at either end, no two whitespace characters in a row, and only plain spaces as whitespace |
| TextNormalizer.NormalizeIdempotent | extract_content_htm_save_in_csv.py:11-12 | normalizing twice equals normalizing once |
| TextNormalizer.NormalizeAsWords | extract_content_htm_save_in_csv.py:11-12 | the normalized text is the lower-cased words of the text joined by single spaces; the final `strip()` removes nothing |
| TextNormalizer.NbspReplacementRedundant | extract_content_htm_save_in_csv.py:11-12 | replacing `\xa0` before `split()` does not change the words, since `split()` already treats it as whitespace |
| TextNormalizer.NormalizeOfLower | extract_content_htm_save_in_csv.py:11-12 | lower-casing the input first does not change the normalized text |
| TextNormalizer.NormalizeIgnoresCase | extract_content_htm_save_in_csv.py:11-12 | two texts equal after lower-casing normalize to the same string |
| TextNormalizer.NormalizeIgnoresSpacing | extract_content_htm_save_in_csv.py:11-12 | two texts with the same words normalize to the same string, whatever whitespace separates the words |
| TextNormalizer.SplitJoin | extract_content_htm_save_in_csv.py:12 | `split()` gives back exactly the words that `" ".join` was given |
| TextNormalizer.SplitMap | extract_content_htm_save_in_csv.py:12 | a character map that keeps whitespace and non-whitespace apart commutes with `split()` |
| TextNormalizer.MapJoin | extract_content_htm_save_in_csv.py:12 | a character map that fixes the space commutes with `" ".join` |
| TextNormalizer.JoinShape | extract_content_htm_save_in_csv.py:12 | in words joined by spaces, every whitespace character is a single space with non-whitespace on both sides, and the ends are not whitespace |
| PyText.IsSpace | extract_content_htm_save_in_csv.py:12 | definition of Python's `str.isspace`: the 29 characters space, U+0009-U+000D, U+001C-U+001F, U+0085, U+00A0, U+1680, U+2000-U+200A, U+2028, U+2029, U+202F, U+205F and U+3000, which `split()`, `strip()` and `get_text(strip=True)` treat as whitespace; Split, LStrip and RStrip state how they use it |
| PyText.LStrip | extract_content_htm_save_in_csv.py:12 | the result is a suffix of the input, only whitespace was cut off, and it does not start with whitespace |
| PyText.RStrip | extract_content_htm_save_in_csv.py:12 | the result is a prefix of the input, only whitespace was cut off, and it does not end with whitespace |
| PyText.Strip | extract_content_htm_save_in_csv.py:12 | the result has no whitespace at either end, and a string already without whitespace at its ends is unchanged |
| PyText.Split | extract_content_htm_save_in_csv.py:12 | every item of `split()` is a non-empty, whitespace-free word |
| PyText.Join | extract_content_htm_save_in_csv.py:12 | definition of `sep.join(items)`; SplitJoin, MapJoin and JoinShape state its properties |
| PyText.Lower | extract_content_htm_save_in_csv.py:12 | `lower()` keeps the length and leaves no ASCII capital |
| PyText.Upper | extract_content_htm_save_in_csv.py:66 | `upper()` keeps the length and leaves no ASCII lower-case letter |
| PyText.UpperOfUpperCase | extract_content_htm_save_in_csv.py:66 | `upper()` leaves a text without lower-case ASCII letters unchanged |
| PyText.FullUpper | extract_content_htm_save_in_csv.py:66 | definition of a fuller `upper()`: the ASCII mapping plus 'ß' to "SS", 'ı' to "I" and 'ſ' to "S", so the result can be longer; only the as-written plain-text path uses it; FullUpperOfUpperCase and FullUpperSharpS state its properties |
| PyText.FullUpperOfUpperCase | extract_content_htm_save_in_csv.py:66 | the fuller `upper()` leaves a text of characters up to 'Z' unchanged |
| PyText.FullUpperSharpS | extract_content_htm_save_in_csv.py:66 | the fuller `upper()` turns a leading 'ß' into "SS", one character more, and leaves an upper-case rest unchanged |
| PyText.ReplaceNbsp | extract_content_htm_save_in_csv.py:12 | `replace('\xa0', ' ')` keeps the length and leaves no non-breaking space |
| PyText.FindFrom | extract_content_htm_save_in_csv.py:81 | `find(p, start)` is -1 exactly when `p` does not occur at or after `start`; otherwise it is the least such offset |
| PyText.Contains | extract_content_htm_save_in_csv.py:32 | `p in s` holds exactly when `p` occurs at some offset of `s` |
| PyText.EndsWith | extract_content_htm_save_in_csv.py:94 | definition of `s.endswith(suffix)`: the last characters of `s` are the suffix; TextPathSuffix states the resulting test on paths |
| PyText.PySlice | extract_content_htm_save_in_csv.py:85 | definition of `s[i:j]` for non-negative bounds: both clipped to the length, empty when they cross; SharpSCutInText states when it is the plain slice |
| Markup.StrippedPieces | extract_content_htm_save_in_csv.py:29 | the text pieces `get_text(strip=True)` keeps are each stripped and non-empty, and there are no more of them than text nodes |
| Markup.GetText | extract_content_htm_save_in_csv.py:29 | definition of `get_text(separator=sep, strip=True)`: the stripped, non-empty text nodes joined by the separator; StrippedPieces states what the pieces are |
| Markup.Text | extract_content_htm_save_in_csv.py:29 | definition of `tag.get_text(strip=True)`: GetText with the empty separator |
| Markup.Attr | extract_content_htm_save_in_csv.py:45-46 | definition of `p.get(name, '')`: the attribute's value, or "" when the element has none |
| Markup.RenderText | extract_content_htm_save_in_csv.py:51 | definition of `get_text(separator="\n", strip=True)` over the kept elements; SectionFromMarkup states the result it feeds |
| Markup.RenderMarkup | extract_content_htm_save_in_csv.py:50 | definition of `str(item_soup)` as the concatenated serializations of the kept elements; SectionFromMarkup states the result it feeds |
| Scan.FirstIndex | extract_content_htm_save_in_csv.py:32-33 | the result is -1 or an index at or after the start position whose element passes the test |
| Scan.FirstIndexIsLeast | extract_content_htm_save_in_csv.py:23-36 | no element before the result passes the test, and -1 means no element does |
| Scan.FirstIndexAgree | extract_content_htm_save_in_csv.py:72-76 | two tests that agree on every element from the start position find the same first index |
| Scan.ScanSection | extract_content_htm_save_in_csv.py:23-36 | the loop with `break` ends with the least non-skipped start match, and with the least non-skipped end match strictly after it (-1 when there is none) |
| MarkupSectionLocator.IsStartHeading | extract_content_htm_save_in_csv.py:32 | definition: the normalized text holds "item 1. business" or "item 1. description of business"; LocateSection and Bounds state how the scan uses it |
| MarkupSectionLocator.IsEndHeading | extract_content_htm_save_in_csv.py:34 | definition: the normalized text holds "item 1a." or "item 1a. risk factors"; EndHeadingIsItem1A states that the first phrase alone decides |
| MarkupSectionLocator.HasAnchor | extract_content_htm_save_in_csv.py:26 | definition of `tag.find("a")` as the element's link flag; AnchorNeverBoundary states that such an element is never a boundary |
| MarkupSectionLocator.HeadingText | extract_content_htm_save_in_csv.py:29-30 | definition of `normalize(tag.get_text(strip=True))`; NormalizeIsNormalized states the shape of the text the headings are matched against |
| MarkupSectionLocator.LocateSection | extract_content_htm_save_in_csv.py:23-36 | the scan returns the first link-free element holding a start phrase, and the first later link-free element holding an end phrase |
| MarkupSectionLocator.Bounds | extract_content_htm_save_in_csv.py:23-39 | a found section has start < end < number of elements, and both boundaries are link-free heading matches, so it never runs to the end of the document |
| MarkupSectionLocator.BoundsAreFirst | extract_content_htm_save_in_csv.py:23-36 | no start candidate comes before the start, and no end candidate lies between start and end |
| MarkupSectionLocator.NotFoundIffNoPair | extract_content_htm_save_in_csv.py:38-39 | there is no section exactly when no start candidate comes before an end candidate |
| MarkupSectionLocator.AnchorNeverBoundary | extract_content_htm_save_in_csv.py:26-27 | an element with an `<a>` descendant is never the start or the end |
| MarkupSectionLocator.EndHeadingIsItem1A | extract_content_htm_save_in_csv.py:34 | the end test holds exactly when "item 1a." occurs, so the second end phrase adds nothing |
| Scan.Without | extract_content_htm_save_in_csv.py:44-48 | the filtered sequence is no longer than the input, and holds only input elements the test does not reject |
| Scan.WithoutConcat | extract_content_htm_save_in_csv.py:44-48 | filtering distributes over concatenation |
| Scan.WithoutCount | extract_content_htm_save_in_csv.py:44-48 | a rejected value is removed entirely, and every other value keeps its number of occurrences |
| MarkupNoiseFilter.IsNoise | extract_content_htm_save_in_csv.py:44-47 | definition: a `<p>` whose lower-cased style holds "font-size:8.5pt" and whose lower-cased align holds "center"; KeepNonNoiseCount states that exactly these are removed |
| MarkupNoiseFilter.KeepNonNoise | extract_content_htm_save_in_csv.py:44-48 | what survives is no longer than the input, and contains only input elements that are not noise paragraphs |
| MarkupNoiseFilter.RemoveNoise | extract_content_htm_save_in_csv.py:44-48 | the decompose loop leaves exactly the non-noise elements, in order |
| MarkupNoiseFilter.KeepNonNoiseConcat | extract_content_htm_save_in_csv.py:44-48 | the filter keeps the kept elements in their original relative order |
| MarkupNoiseFilter.KeepNonNoiseCount | extract_content_htm_save_in_csv.py:44-48 | an element is removed, all of its occurrences, only when it is a `<p>` whose lower-cased style holds "font-size:8.5pt" and whose lower-cased align holds "center"; all other elements keep their count |
| UnifiedExtractor.MarkupSection | extract_content_htm_save_in_csv.py:38-53 | definition of the markup result of a parsed document: locate, slice, filter, render, strip; SectionFromMarkup and OutcomeShape state its properties |
| UnifiedExtractor.SectionFromMarkup | extract_content_htm_save_in_csv.py:38-53 | a missing or inverted boundary gives `("", "")`; otherwise the result is the stripped text and markup of the filtered slice between the bounds |
| UnifiedExtractor.MarkupFile | extract_content_htm_save_in_csv.py:15-21 | definition of the markup extractor on the file map; ExtractFromMarkupFile states its outcomes |
| UnifiedExtractor.ExtractFromMarkupFile | extract_content_htm_save_in_csv.py:15-57 | an unreadable or unparsable file gives `("", "")`; a parsed one gives its section |
| PlainTextSectionLocator.PatternStart | extract_content_htm_save_in_csv.py:71-76 | definition of the start offset; PatternStartSpec and FindStart state it |
| PlainTextSectionLocator.PatternStartSpec | extract_content_htm_save_in_csv.py:68-79 | the start is -1 exactly when no pattern occurs; otherwise it is the first occurrence of the first pattern in list order that occurs at all |
| PlainTextSectionLocator.FindStart | extract_content_htm_save_in_csv.py:71-76 | the pattern loop with `break` computes that start |
| PlainTextSectionLocator.StartByPriority | extract_content_htm_save_in_csv.py:68-76 | when "ITEM 1. BUSINESS" occurs, its first occurrence is the start even if the other phrase occurs earlier; otherwise the other phrase decides |
| PlainTextSectionLocator.StartIsNotEnd | extract_content_htm_save_in_csv.py:68-81 | the end phrase never occurs at the start offset |
| PlainTextSectionLocator.BoundsIn | extract_content_htm_save_in_csv.py:68-83 | definition of the two offsets in an already upper-cased text; TextBoundsSpec, BoundsInAfter and BoundsInOpensWithI state its properties |
| PlainTextSectionLocator.TextBounds | extract_content_htm_save_in_csv.py:66-83 | definition: BoundsIn of the ASCII-upper-cased text; TextBoundsSpec states it |
| PlainTextSectionLocator.TextBoundsSpec | extract_content_htm_save_in_csv.py:66-83 | no section exactly when no start phrase occurs or no end phrase follows it; otherwise the end is the first end phrase at or after the start, strictly after it and inside the text |
| PlainTextSectionLocator.TextSection | extract_content_htm_save_in_csv.py:85-86 | the markup part of a plain-text result is always empty |
| PlainTextSectionLocator.TextSectionAligned | extract_content_htm_save_in_csv.py:66-85 | the found offsets lie inside the text, a start phrase occurs at the start and the end phrase at the end of the upper-cased copy, and upper-casing the cut gives the upper-cased copy's slice: the original text is cut exactly where the phrases were found |
| PlainTextSectionLocator.TextSectionAsWritten | extract_content_htm_save_in_csv.py:65-86 | definition of the plain-text path with the fuller `upper()`: offsets found in a possibly longer upper-cased copy cut the original text, clipped to its length; ExpandingUpperShiftsSection states what that does |
| PlainTextSectionLocator.FindFromAfter | extract_content_htm_save_in_csv.py:81 | searching past a prefix finds the occurrence in the rest, moved by the prefix's length, and -1 when the rest has none |
| PlainTextSectionLocator.FindFromSkipPrefix | extract_content_htm_save_in_csv.py:73 | a prefix without the pattern's first character holds no occurrence, so the search may start after it |
| PlainTextSectionLocator.PatternStartAfter | extract_content_htm_save_in_csv.py:71-76 | a prefix without an 'I' moves the start offset by its length, and keeps it -1 when no phrase occurs |
| PlainTextSectionLocator.BoundsInAfter | extract_content_htm_save_in_csv.py:68-83 | a prefix without an 'I' moves both offsets by its length, and keeps "not found" |
| PlainTextSectionLocator.BoundsInOpensWithI | extract_content_htm_save_in_csv.py:68-83 | a found section starts at the 'I' of a start phrase, and the end phrase fits in the text |
| PlainTextSectionLocator.UpperKeepsSharpS | extract_content_htm_save_in_csv.py:66 | with the length-preserving `upper()`, a leading 'ß' before an upper-case text moves both offsets by one |
| PlainTextSectionLocator.FullUpperExpandsSharpS | extract_content_htm_save_in_csv.py:66-86 | with the fuller `upper()`, a leading 'ß' moves both offsets by two, and the result is the stripped, clipped slice between the moved offsets |
| PlainTextSectionLocator.SharpSCutInText | extract_content_htm_save_in_csv.py:85 | offsets moved by two stay inside the text, so the clipped slice is the plain slice, and it starts just past the heading's 'I' |
| PlainTextSectionLocator.ExpandingUpperShiftsSection | extract_content_htm_save_in_csv.py:65-86 | with one 'ß' before an upper-case text, the aligned offsets are those of the rest moved by one, while the as-written cut starts past the heading's 'I' and ends one character late; without a section both give the empty pair |
| PlainTextSectionLocator.SectionFromText | extract_content_htm_save_in_csv.py:65-86 | the plain-text path returns the specified section, cut from the original text and stripped |
| UnifiedExtractor.TextFile | extract_content_htm_save_in_csv.py:60-63 | definition of the plain-text extractor on the file map; ExtractFromTextFile states its outcomes |
| UnifiedExtractor.ExtractFromTextFile | extract_content_htm_save_in_csv.py:60-90 | an unreadable file gives `("", "")`, and the markup part is always empty |
| UnifiedExtractor.IsTextPath | extract_content_htm_save_in_csv.py:94 | definition of `file_path.lower().endswith('.txt')`; TextPathSuffix states it character by character |
| UnifiedExtractor.TextPathSuffix | extract_content_htm_save_in_csv.py:94 | a path is plain text exactly when it ends in '.' followed by t, x, t in either case |
| UnifiedExtractor.Item1Content | extract_content_htm_save_in_csv.py:93-97 | definition of the dispatch; ExtractItem1Content and OutcomeShape state its outcomes |
| UnifiedExtractor.ExtractItem1Content | extract_content_htm_save_in_csv.py:93-97 | a path goes to the plain-text extractor exactly when its lower-cased form ends in ".txt", and otherwise to the markup extractor |
| UnifiedExtractor.OutcomeShape | extract_content_htm_save_in_csv.py:93-97 | a missing file gives `("", "")`; plain-text documents never yield markup; a non-empty result comes from a located section |
| BatchOrchestrator.LastSlash | extract_content_htm_save_in_csv.py:103 | the result is -1 or the position of a '/', and no '/' comes after it |
| BatchOrchestrator.Basename | extract_content_htm_save_in_csv.py:103 | definition of POSIX `os.path.basename`: everything after the last '/'; BasenameSpec states it |
| BatchOrchestrator.BasenameSpec | extract_content_htm_save_in_csv.py:103 | `basename` is the longest '/'-free suffix of the link |
| BatchOrchestrator.PathJoin | extract_content_htm_save_in_csv.py:104 | definition of POSIX `os.path.join` for two parts; PathJoinSpec states it |
| BatchOrchestrator.PathJoinSpec | extract_content_htm_save_in_csv.py:104 | `os.path.join` ends in its last part; an absolute last part is the whole result; a relative last part follows the first part, with exactly one '/' between them unless the first part is empty or already ends in '/' |
| BatchOrchestrator.RowPath | extract_content_htm_save_in_csv.py:103-104 | definition of a row's path, `base_dir/symbol/basename(final_link)`; DispatchByFileName and ProcessRow state its properties |
| BatchOrchestrator.FileNameDecidesTextPath | extract_content_htm_save_in_csv.py:94 | a path ending in a file name after a '/' is plain text exactly when the file name is |
| BatchOrchestrator.JoinKeepsTextPath | extract_content_htm_save_in_csv.py:104 | joining a relative file name onto a directory keeps the name as suffix and does not change the `.txt` decision |
| BatchOrchestrator.DispatchByFileName | extract_content_htm_save_in_csv.py:103-105 | a row's path ends in the base name of its link, and the extractor is chosen by that base name alone |
| BatchOrchestrator.RowResult | extract_content_htm_save_in_csv.py:100-106 | definition of what `process_row` returns; ProcessRow and CollectResults state it |
| BatchOrchestrator.ProcessRow | extract_content_htm_save_in_csv.py:100-106 | `process_row` returns the row's own symbol and the extractor's pair for `base_dir/symbol/basename(final_link)` |
| BatchOrchestrator.MapInOrder | extract_content_htm_save_in_csv.py:111-115 | the collected list has one entry per row |
| BatchOrchestrator.MapInOrderAt | extract_content_htm_save_in_csv.py:111-115 | entry i of the collected list is the result for row i |
| BatchOrchestrator.CollectResults | extract_content_htm_save_in_csv.py:111-115 | the submit-then-collect loop yields the per-row results in submission order |
| BatchOrchestrator.OutputFor | extract_content_htm_save_in_csv.py:117-119 | definition of the output row for one input row; ParallelProcess states that row i of the result is OutputFor row i |
| BatchOrchestrator.WithColumns | extract_content_htm_save_in_csv.py:117-119 | adding the two columns keeps the number of rows |
| BatchOrchestrator.ParallelProcessAsWritten | extract_content_htm_save_in_csv.py:109-120 | a pool size below one fails; a table without rows fails at the three-way unpack; otherwise output row i carries row i's symbol, link, content and markup |
| BatchOrchestrator.ParallelProcess | extract_content_htm_save_in_csv.py:109-120 | a valid pool size always completes, with exactly one output row per input row, in input order, each carrying the extractor's pair for that row's document |

## Left out

- HTML parsing is abstracted. BeautifulSoup/lxml parsing, `find_all`, `str(tag)` and re-parsing the slice are not modelled. A document is the flat list of its `div`/`p`/`span` elements, each with its link flag, text nodes, attributes and serialization.
- Rendering is simplified. The rendered markup of the section is the concatenation of its elements' serializations. Its text is `"\n".join` of their stripped, non-empty text nodes.
- Nested elements in the slice are not modelled. A noise `<p>` nested inside a kept `div` or `span` is not removed. The `<html><body>` wrapper that re-parsing adds is also not modelled. The slice holds a parent and its nested elements side by side, so their text and markup appear more than once. That repetition is the source's own, and the model repeats them the same way.
- Case mapping is ASCII only. The model's `lower()` and `upper()` change only the letters A-Z and a-z, and keep the length. Python maps more: 'ı'.upper() is "I", 'ſ'.upper() is "S", and the Kelvin sign lower-cases to "k". On text holding such characters the source can match a start phrase or an end phrase that the model does not see. The `.txt` dispatch is exact: no character other than '.', 't', 'T', 'x' and 'X' lower-cases to '.', 't' or 'x'. Some characters, such as 'ß', become longer under Python's `upper()`.
- PlainTextSectionLocator.SectionFromText: the offsets are found in the length-preserving ASCII `upper()` of the text, so the model cuts the original text exactly at the found phrases (TextSectionAligned). The source finds them in Python's `upper()`, which makes some characters longer: 'ß' becomes two characters, 'ﬃ' three. Its cut then starts late by as many characters as `upper()` adds before the start phrase, and ends late by as many as it adds before the end phrase. TextSectionAsWritten models that path for 'ß', 'ı' and 'ſ' only, and the shift is listed under Findings.
- PyText.Strip: the contract states only that the result has no whitespace at its ends and that such a string is left unchanged. The fact that only whitespace is cut is stated on `LStrip` and `RStrip`, not on `Strip` itself.
- File I/O is a map. Reading, the UTF-8 decoding with `errors="ignore"`, and every exception a read or parse can raise become "path not in the map" or "parse error". Both yield the empty pair.
- `print` diagnostics and warning filters are not modelled.
- `os.path` is modelled as POSIX `posixpath`: '/' is the only separator, and a part starting with '/' replaces what came before it in `join`.
- The defaults `base_dir='downloads'` and `max_workers=8` are not modelled. `ProcessRow` and `ParallelProcess` take both as parameters, as every call in the source passes them.
- `ProcessPoolExecutor` parallelism is modelled as a sequential loop in submission order. Worker processes, pickling and task failures are not modelled. A pool size below one is the refusal the executor raises.
- pandas and CSV are not modelled: the DataFrame conversion, CSV reading and writing, and any columns other than `symbol` and `final_link`. The `symbols` column from the unpack is unused by the source and is dropped.
- Non-string cells are not modelled. A missing symbol or link (NaN) would make `os.path` raise for the whole batch.
- The script entry point (`__main__`) is not modelled.
- fillings_link_extractions.py is not part of this model: it is database and network I/O.
- folder_not_having_htm.py is not part of this model: it is a directory listing.

## Findings

| source | as written | input that shows it | evidently intended | confidence | as-written member | corrected member |
|---|---|---|---|---|---|---|
| extract_content_htm_save_in_csv.py:117 | `symbols, contents, htmls = zip(*results)` unpacks three names from the result list | a table with no rows: `zip()` yields nothing, and the unpack raises `ValueError` | an empty table comes back with empty `content` and `htm_content` columns | not executed | BatchOrchestrator.ParallelProcessAsWritten | BatchOrchestrator.ParallelProcess |
| extract_content_htm_save_in_csv.py:85 | `clean_text[start_idx:end_idx]` cuts the original text with offsets found in `text.upper()` (line 66) | "ß" followed by "ITEM 1. BUSINESS ... ITEM 1A.": `upper()` makes the "ß" "SS", so the offsets are one past the heading, and the cut drops its "I" and takes the "I" of "ITEM 1A." | the section of the original text from the start phrase up to the end phrase | not executed | PlainTextSectionLocator.ExpandingUpperShiftsSection | PlainTextSectionLocator.TextSectionAligned |
