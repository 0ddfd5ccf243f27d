# PaperChat text core in Dafny

PaperChat reads an academic paper and prepares it for retrieval. It works in
two text-processing stages, and this project models both.

1. `PDFExtractor` (`pdfExtractor.ts`) scans the lines of the extracted text.
   - Metadata: a title, from the lines above the first author, e-mail or
     affiliation line, and a keyword list, from the `Keywords` line and the
     lines after it.
   - Content: the text cut into sections, each opened by a recognised
     heading line. Page-marker lines are dropped.
2. `Chunker` (`src/chunker.ts`) turns those sections into chunks.
   - A section of at most 1000 words becomes one chunk. A longer section is
     cut at its paragraph breaks, and its paragraphs are packed greedily.
   - Every chunk carries a running index, an estimated page and its
     section's first line.

The project has five files.
- `strings.dfy`: the JavaScript string operations the source relies on:
  `trim`, `split` on a character, a string or a whitespace run, `join`,
  `filter(Boolean)`, and ASCII case-insensitive matching.
- `patterns.dfy`: the fixed regular expressions, written as predicates.
- `extractor.dfy`: each scanning loop is a method proved equal to a
  reference function. `PdfExtractor` is a class with the two fields its
  methods assign.
- `chunker.dfy`: the word counter and `createChunks`. The loop is split into
  one method per level (section, paragraph, push). Each is proved against a
  reference function, and the properties are proved about those functions.
- `pipeline.dfy`: the two stages together. Whatever its length, a section
  the extractor produces becomes exactly one chunk, verbatim, titled by its
  heading.

Where the code and its written intent differ, the model follows the code.
- The title is always the joined scanned lines (pdfExtractor.ts:84). When
  the embedded title is a real one, the scan does not run and the title is
  `""`. The stated intent is that a valid embedded title is kept.
- The author test splits on single spaces (pdfExtractor.ts:40), not on
  whitespace runs.
- A heading opens its section as `heading + "\n"` (pdfExtractor.ts:112).
  Body lines are joined by spaces. So a section holds at most one line
  break, never a paragraph break.
  The two-section example thus gives `"I. Introduction\nHello world."`,
  where the stated intent has a space after the heading.
- The optional numbering in front of a heading may be followed by no
  whitespace at all (`\s*`, pdfExtractor.ts:103).
- A section of at most 1000 words is emitted untrimmed (src/chunker.ts:36).
  The stated intent is that chunk contents are trimmed.
- A chunk may be empty after trimming. This happens when whitespace-only
  paragraphs come before an oversized one (src/chunker.ts:51-58).
- The first buffer of a packed section starts with `"\n\n"`
  (src/chunker.ts:65). The flush trims it away.
- The numbered-header stop of the keyword scan is case-sensitive
  (pdfExtractor.ts:71). The empty-line stop tests the untrimmed line
  (pdfExtractor.ts:72).

## Model

| member | source | states |
|---|---|---|
| Strings.Trim | src/chunker.ts:15 | `trim` yields a string with no leading or trailing whitespace, no longer than its input |
| Strings.TrimOfTrimmed | pdfExtractor.ts:110 | trimming an already trimmed string changes nothing |
| Strings.TrimSpacePrefix | src/chunker.ts:54 | leading whitespace does not survive `trim` |
| Strings.SplitChars | pdfExtractor.ts:85 | `split(/[,;]/)` yields at least one piece |
| Strings.SplitCharsAvoid | pdfExtractor.ts:85 | no piece of a character split holds a separator |
| Strings.SplitCharsConcat | pdfExtractor.ts:85 | a separator splits the pieces of its two sides apart, in order, merging nothing |

| Strings.Join | pdfExtractor.ts:84-85 | `join(sep)`: the empty list gives `""`, one piece gives itself, and longer lists put `sep` between consecutive pieces |
| Strings.JoinSplitChars | pdfExtractor.ts:39-40 | splitting on a character and joining with it again gives the string back |
| Strings.SplitJoinChars | pdfExtractor.ts:39-40 | joining pieces free of a character with it and splitting again gives the pieces back |
| Strings.SplitSep | src/chunker.ts:43 | `split(sep)` on a string separator: the leftmost non-overlapping occurrences of `sep` cut the text, an occurrence at either end or two in a row give empty pieces, and there is always at least one piece |
| Strings.JoinSplitSep | src/chunker.ts:43 | splitting on `"\n\n"` and joining with it again gives the string back |
| Strings.SplitJoinSep | src/chunker.ts:43 | joining pieces free of the separator's first character and splitting again gives the pieces back |
| Strings.SplitSepAbsent | src/chunker.ts:43 | a text in which the separator does not occur is one piece |
| Strings.Words | src/chunker.ts:15-17 | the words of a text are non-empty and hold no whitespace |
| Strings.SplitSpaces | src/chunker.ts:16 | `split(/\s+/)`: every maximal whitespace run cuts the text, so a leading or trailing run gives an empty first or last piece |
| Strings.SplitSpacesWords | src/chunker.ts:16-17 | `split(/\s+/)` with empty pieces filtered out is exactly the maximal non-whitespace runs |
| Strings.WordsTrim | src/chunker.ts:15 | `trim` changes no word |
| Strings.WordsConcat | src/chunker.ts:14-19 | two texts that meet at whitespace have the words of the first followed by those of the second |
| Strings.WordsEmptyIffSpace | src/chunker.ts:14-19 | a text has no word exactly when it is all whitespace |
| Strings.WordsJoin | src/chunker.ts:65 | joining texts with a whitespace separator neither merges nor splits their words |
| Strings.WordsOfJoinedWords | src/chunker.ts:14-19 | words re-joined with single spaces give the same words back |
| Strings.DropEmpty | pdfExtractor.ts:85 | `filter(Boolean)` keeps no empty string |
| Strings.DropEmptyConcat | pdfExtractor.ts:85 | filtering distributes over concatenation, so order is kept |
| Strings.JoinAvoids | pdfExtractor.ts:84 | joining pieces that avoid some characters, with a separator that avoids them, adds none of them |
| Patterns.IsAuthorLine | pdfExtractor.ts:40-43 | true exactly when the line split on single spaces has at most two pieces and each is a capital letter followed by one or more lower-case letters |
| Patterns.IsAffiliationLine | pdfExtractor.ts:47 | true exactly when the line contains `university`, `institute`, `college` or `school`, ignoring case |
| Patterns.IsTitleStop | pdfExtractor.ts:44-48 | true exactly when the line is author-like, contains `@`, or is an affiliation line |
| Patterns.IsPlaceholderTitle | pdfExtractor.ts:38 | true exactly when the title contains `paper title`, ignoring case |
| Patterns.HasKeywordsMarker | pdfExtractor.ts:59 | true exactly when the line contains `keywords`, ignoring case, anywhere |
| Patterns.KeywordValueHere | pdfExtractor.ts:62 | the capture of `Keywords\s*[—:-]\s*(.+)` (any case) anchored at the given position: `None` unless `keywords`, a whitespace run and a separator follow; then the longest run of non-line-terminators after the whitespace, backing off into the whitespace when that run is empty |
| Patterns.IsNumberedHeader | pdfExtractor.ts:71 | true exactly when the line starts with one or more of `IVXLC0-9` (upper case only), then `.`, then a whitespace character |
| Patterns.IsReferencesLine | pdfExtractor.ts:73 | true exactly when the line contains `references` or `acm reference format`, ignoring case |
| Patterns.IsKeywordStop | pdfExtractor.ts:71-75 | true exactly when the untrimmed line is a numbered header, empty, or a references line |
| Patterns.IsPageMarker | pdfExtractor.ts:104 | true exactly when the trimmed line matches `/^--\s*\d+\s+of\s+\d+\s*--$/i` |
| Patterns.IsSectionHeading | pdfExtractor.ts:103 | true exactly when the trimmed line matches the heading pattern: an optional numbering of `IVXLC0-9` (any case) with a dot and any whitespace, then one of the section names `Abstract` to `Appendix`, ignoring case, ending at a word boundary |
| Patterns.AuthorLineShape | pdfExtractor.ts:40-43 | a line is author-like exactly when it is one capitalised name, or two joined by one space; an author-like line has at least two characters, so the empty line never is |
| Patterns.AuthorLineTokens | pdfExtractor.ts:40-43 | an author-like line is one or two capitalised names |
| Patterns.DotCapture | pdfExtractor.ts:62 | a `(.+)` capture is non-empty and holds no line terminator |
| Patterns.InlineKeywordValue | pdfExtractor.ts:62 | an inline keyword value, when there is one, is non-empty |
| Patterns.InlineValueAfterMarker | pdfExtractor.ts:59-64 | on a line `Keywords` (any case), a whitespace run, one of `—`, `:` or `-`, another whitespace run and `v`, where `v` starts with non-whitespace and is one line, the marker is found and the inline value is exactly `v` |
| Patterns.DashLineIsNoHeading | pdfExtractor.ts:103-108 | a line that starts with `-`, as every page marker does, never matches the heading pattern |
| Patterns.EmptyIsNoHeading | pdfExtractor.ts:103 | the empty line is no heading |
| Patterns.NumberedHeading | pdfExtractor.ts:103 | numerals (any case), a dot, any whitespace run and then a section name make a heading |
| Patterns.NoNameLine | pdfExtractor.ts:103 | a line that starts with no numeral and whose first letters start no section name is no heading |

| Extractor.SplitLines | pdfExtractor.ts:39 | `split("\n")` yields at least one line, none holding a line break |
| Extractor.TwoLines | pdfExtractor.ts:39 | two line-break-free lines joined by `"\n"` split back into the two |
| Extractor.NeedsDerivedTitle | pdfExtractor.ts:38 | the title scan runs exactly when the embedded title is absent, empty, or contains `paper title` (any case) |
| Extractor.TitleLines | pdfExtractor.ts:39-52 | the kept lines are a prefix of the text's lines, none of them a stop line, and the line after them, if any, is a stop line |
| Extractor.TitleLinesUnique | pdfExtractor.ts:39-52 | any cut with no stop line before it and a stop line (or the end) at it is exactly the kept prefix |
| Extractor.ScanTitle | pdfExtractor.ts:35-54 | the title loop, with its early `break`, keeps exactly `TitleLines` |
| Extractor.TitleOf | pdfExtractor.ts:38-84 | the stored title: the kept lines joined by single spaces when the scan runs, and `""` when it does not |
| Extractor.TitleCases | pdfExtractor.ts:38-84 | a real (non-placeholder) embedded title gives the title `""`; otherwise, when no line stops the scan, the title is every line joined by spaces |
| Extractor.TitleAvoids | pdfExtractor.ts:38-84 | a derived title holds no `@` and no line break |
| Extractor.ClassifyKeywordLine | pdfExtractor.ts:59-75 | the marker test comes first: a line containing `keywords` is a marker line that pushes its inline value plus `"\n"`, if any; otherwise a stop line is a stop, and any other line is text |
| Extractor.CaptureFrom | pdfExtractor.ts:56-80 | the two-state scan: a marker line pushes its inline value and turns capture on; with capture on a stop line ends the scan and a text line is pushed with `"\n"`; with capture off stop and text lines push nothing |
| Extractor.CapturedLines | pdfExtractor.ts:56-80 | the strings the keyword scan pushes for the text's lines, starting with capture off |
| Extractor.KeywordsOf | pdfExtractor.ts:85 | the keyword list: the pushed strings joined by spaces, split on `,` and `;`, trimmed, with empty pieces dropped |
| Extractor.ScanClassified | pdfExtractor.ts:56-80 | the two-state loop, with its `capture` flag, `continue` and `break`, pushes exactly what the reference scanner captures |
| Extractor.ScanKeywords | pdfExtractor.ts:56-80 | the keyword lines pushed are `CapturedLines` of the text's lines |
| Extractor.NoMarkerCapturesNothing | pdfExtractor.ts:59-69 | with no marker line from some point on and capture off, nothing is captured |
| Extractor.NoMarkerNoKeywords | pdfExtractor.ts:59-85 | a text with no `Keywords` line (any case) has no keywords |
| Extractor.CaptureEndsAtStop | pdfExtractor.ts:69-75 | once capture is on, the first stop line ends the scan: what follows is never captured |
| Extractor.NothingAfterStop | pdfExtractor.ts:59-75 | after a `Keywords` line and lines that do not stop the scan, a stop line makes the rest of the text irrelevant to the captured lines |
| Extractor.SplitKeywords | pdfExtractor.ts:85 | every keyword is non-empty, has no leading or trailing whitespace and holds no `,` or `;` |
| Extractor.DropEmptyKeeps | pdfExtractor.ts:85 | every piece kept by the filter is one of the trimmed pieces |
| Extractor.KeywordPieces | pdfExtractor.ts:85 | keywords joined by `", "`, after any leading whitespace, split back into the same keywords |
| Extractor.SplitKeywordsJoin | pdfExtractor.ts:85 | splitting keywords joined by `", "` gives the same list, in order, duplicates kept |
| Extractor.ThreeKeywords | pdfExtractor.ts:64-85 | a captured line `a, b, c` followed by `"\n"` splits into `[a, b, c]` |
| Extractor.ScenarioStop | pdfExtractor.ts:71-75 | `I. Introduction` is no marker line and stops the keyword scan |
| Extractor.ScenarioKinds | pdfExtractor.ts:59-75 | the scenario's two lines are a marker line with an inline value, then a stop line |
| Extractor.ScenarioCaptured | pdfExtractor.ts:56-80 | the scenario captures only the inline value followed by `"\n"` |
| Extractor.KeywordScenario | pdfExtractor.ts:58-85 | `Keywords: security, privacy, systems` then `I. Introduction` gives the keywords `security`, `privacy`, `systems` |
| Extractor.ClassifyLine | pdfExtractor.ts:106-108 | a line is trimmed; a trimmed page marker is skipped, else a trimmed heading is a heading, else it is body text |
| Extractor.SegmentFrom | pdfExtractor.ts:105-118 | read backwards: a page marker changes nothing, a heading opens `heading + "\n"` followed by the body text after it, and a body line adds `trimmed + " "` to the text of the section open before it |
| Extractor.Sections | pdfExtractor.ts:101-120 | the stored sections: one per heading line, in order, each trimmed, with the text before the first heading dropped |
| Extractor.ClassifyLines | pdfExtractor.ts:105-108 | every line is classified, one kind per line |
| Extractor.HeadingStep | pdfExtractor.ts:108-112 | a heading closes the open section and opens `heading + "\n"` |
| Extractor.BodyStep | pdfExtractor.ts:113-117 | a body line adds `trimmed + " "` to the open section, and is dropped when none is open |
| Extractor.CloseStep | pdfExtractor.ts:120 | after the last line the open section, if any, is closed |
| Extractor.Close | pdfExtractor.ts:110-120 | closing a section appends it trimmed |
| Extractor.SegmentLine | pdfExtractor.ts:105-118 | one iteration of the segmenter loop does what its line does to the reference segmentation |
| Extractor.SegmentLines | pdfExtractor.ts:101-120 | the segmenter loop over classified lines yields the reference sections, each trimmed |
| Extractor.Segment | pdfExtractor.ts:101-120 | the sections built for a text are `Sections` of its lines |
| Extractor.HeadingNonEmpty | pdfExtractor.ts:103 | a heading is never empty |
| Extractor.SectionsHeaded | pdfExtractor.ts:103-120 | there are exactly as many sections as heading lines; section `k` is trimmed and is heading `k` alone or heading `k`, one line break and one line of body text; every heading is non-empty, trimmed and one line |
| Extractor.HeadinglessText | pdfExtractor.ts:103-120 | a text none of whose trimmed lines is a heading has no section |
| Extractor.EmptyTextNoSections | pdfExtractor.ts:101-120 | the empty text has no section |
| Extractor.MarkerDropped | pdfExtractor.ts:104-107 | removing a page-marker line, wherever it stands, changes no section |
| Extractor.PreambleDropped | pdfExtractor.ts:113-118 | lines before the first heading contribute nothing |
| Extractor.BodyLines | pdfExtractor.ts:113-118 | a run of non-heading lines opens no section and adds its lines in order, each trimmed and followed by a space, page markers skipped |
| Extractor.HeadingClassified | pdfExtractor.ts:107-108 | a line whose trimmed form matches the heading pattern is taken for a heading, never for a page marker |
| Extractor.OneSection | pdfExtractor.ts:106-120 | a heading line followed by lines holding no heading gives one section: the trimmed heading, `"\n"`, then the body text, all trimmed |
| Extractor.SectionsAppend | pdfExtractor.ts:108-120 | a heading line closes every section before it: when `b` opens with a heading line, the sections of `a + b` are those of `a` followed by those of `b` |
| Extractor.BlocksOf | pdfExtractor.ts:105-118 | cutting the lines before each heading line gives a preamble with no heading line and blocks that each open with a heading line and hold no other; together they are the lines again, in order |
| Extractor.BlocksSections | pdfExtractor.ts:105-120 | well-formed blocks give one section each, in order: the block's trimmed heading, `"\n"` and its body text, trimmed |
| Extractor.SectionsByBlocks | pdfExtractor.ts:101-120 | for any lines, section `k` is the section of block `k` of the cut at the heading lines, and the preamble belongs to no section |
| Extractor.TwoSectionScenario | pdfExtractor.ts:101-120 | `"I. Introduction\nHello world.\nII. Conclusion\nBye."` gives the two sections `"I. Introduction\nHello world."` and `"II. Conclusion\nBye."` |
| Extractor.PdfExtractor.constructor | pdfExtractor.ts:20-21 | both fields start empty |
| Extractor.PdfExtractor.ExtractMetadata | pdfExtractor.ts:34-88 | `metadata` becomes the derived title, the keyword list, the creation date and the page total; `content` is unchanged |
| Extractor.PdfExtractor.ReadPdf | pdfExtractor.ts:99-124 | `content` becomes the current metadata with the sections of the text; `metadata` is unchanged |
| Chunker.CalculateChunkSize | src/chunker.ts:14-19 | the count is the number of maximal non-whitespace runs of the text |
| Chunker.ChunkSizeZero | src/chunker.ts:14-19 | the count is 0 exactly when the text is empty or all whitespace |
| Chunker.ChunkSizeAdditive | src/chunker.ts:14-19 | the count is additive over texts that meet at whitespace |
| Chunker.PagesOrOne | src/chunker.ts:37 | the page count used, `pages` or else 1, is at least 1, and is the page total when that is positive |
| Chunker.PageNumber | src/chunker.ts:37 | a page estimate lies between 1 and the page total |
| Chunker.PageMonotone | src/chunker.ts:37 | a later section never gets an earlier page |

| Chunker.Paragraphs | src/chunker.ts:43 | a section has at least one paragraph |
| Chunker.SectionTitle | src/chunker.ts:31 | the title of a section is its first line, trimmed |
| Chunker.PackFrom | src/chunker.ts:44-78 | a paragraph that would take a non-empty buffer past 1000 words flushes the trimmed buffer and restarts it with itself; otherwise it is appended after `"\n\n"`; at the end the buffer is flushed, trimmed, only when it is non-empty |
| Chunker.SectionContents | src/chunker.ts:33-78 | a section of at most 1000 words is its own single content; a longer one is its `"\n\n"` paragraphs packed from an empty buffer |
| Chunker.MakeChunks | src/chunker.ts:35-40 | contents become chunks in order, all on one page under one title, with consecutive indices from a start |
| Chunker.PushChunk | src/chunker.ts:53-58 | one push appends the chunk with the next index, on the section's page, under its title |
| Chunker.PackParagraph | src/chunker.ts:47-67 | one iteration of the paragraph loop either flushes the trimmed buffer and restarts it, or appends after `"\n\n"`, as the reference packing says |
| Chunker.PackSection | src/chunker.ts:43-78 | the paragraph loop and the final flush append exactly the packed contents, numbered on from the running index |
| Chunker.ChunkSection | src/chunker.ts:26-79 | one iteration of the section loop extends the chunks of the sections before it by that section's chunks |
| Chunker.CreateChunks | src/chunker.ts:21-85 | `createChunks` returns `ChunksOf(text)` |
| Chunker.MakeChunksSnoc | src/chunker.ts:53-58 | appending one content appends one chunk whose index follows the last |
| Chunker.PackWords | src/chunker.ts:44-78 | packing drops, adds and reorders no word: the chunks' words, in order, are the buffer's words then the remaining paragraphs' |
| Chunker.SectionWords | src/chunker.ts:33-78 | the chunks of a section, concatenated in order, have exactly the section's words |
| Chunker.PackFits | src/chunker.ts:51-66 | every packed chunk has at most 1000 words or is one trimmed paragraph |
| Chunker.SectionOversized | src/chunker.ts:51-66 | a chunk over 1000 words is a single paragraph that alone has more than 1000 words |
| Chunker.PackNonEmpty | src/chunker.ts:71-78 | a non-empty buffer always yields a chunk |
| Chunker.FlushOnEmptyParagraph | src/chunker.ts:51-78 | an empty last paragraph that flushes a full buffer leaves the buffer `""`, and the final flush adds no chunk for it |
| Chunker.TrailingEmptyParagraph | src/chunker.ts:43-78 | an oversized one-line section followed by `"\n\n"` gives exactly one chunk, the trimmed line; the empty last paragraph adds none |
| Chunker.SectionNonEmpty | src/chunker.ts:33-78 | every section yields at least one chunk |
| Chunker.ChunksUpTo | src/chunker.ts:26-80 | the chunks of the first `i` sections: those of the first `i - 1`, then section `i`'s contents on its page under its title, numbered on from them |
| Chunker.ChunksOf | src/chunker.ts:21-85 | the chunks `createChunks` returns: every section's chunks, in order |
| Chunker.ChunksPrefix | src/chunker.ts:26 | the chunks of the first sections are a prefix of those of more sections |
| Chunker.GroupedUpTo | src/chunker.ts:26-79 | the chunks of section `i` sit together, after those of the sections before it |
| Chunker.ChunksGrouped | src/chunker.ts:26-79 | chunks come grouped by section, in section order: section `i`'s chunks are its contents, on its page, under its title, numbered from where the previous sections stop |
| Chunker.SmallSection | src/chunker.ts:34-40 | a section of at most 1000 words yields exactly one chunk, whose content is the section verbatim |
| Chunker.IndicesUpTo | src/chunker.ts:24-76 | the chunks of the first `i` sections have indices 0, 1, … in order |
| Chunker.ChunkIndices | src/chunker.ts:24-76 | chunk `k` of the output has index `k`: the counter runs across sections and is never reset |
| Chunker.PagesUpTo | src/chunker.ts:37 | chunk pages never decrease and never exceed the page of the last section so far |
| Chunker.ChunkPages | src/chunker.ts:37 | chunk pages lie between 1 and the page total and never decrease |
| Chunker.ThousandAndOneParagraphs | src/chunker.ts:43-78 | a section of 1001 one-word paragraphs separated by `"\n\n"` yields exactly two chunks, of 1000 words and of 1 word |
| Chunker.EmptyChunk | src/chunker.ts:51-58 | a whitespace-only paragraph before an oversized one yields an empty chunk, then the trimmed big paragraph |
| Pipeline.OneBreakParagraph | src/chunker.ts:43 | a text with a single line break is a single paragraph |
| Pipeline.SectionParagraph | src/chunker.ts:43 | a section opened by a one-line heading is a single paragraph |
| Pipeline.HeadedSectionContents | src/chunker.ts:33-78 | a trimmed section opened by a one-line heading is one chunk, verbatim, whatever its length |
| Pipeline.HeadedSectionTitle | src/chunker.ts:31 | the section title of such a section is its heading |
| Pipeline.OneChunkEachUpTo | src/chunker.ts:26-79 | when every section has one content, chunk `k` is section `k`'s, with index `k` |
| Pipeline.HeadedChunks | src/chunker.ts:21-85 | sections opened by one-line trimmed headings become one chunk each: section `k` verbatim, on its page, titled by its heading, index `k` |
| Pipeline.PaperChunks | src/chunker.ts:21-85 | for any text, the sections the extractor stores become exactly one chunk per section, in order, each holding its section verbatim under its heading |
| Pipeline.TwoHeadedChunks | src/chunker.ts:21-85 | two sections of a heading and one line each become two chunks, verbatim, titled by their headings, with indices 0 and 1 |
| Pipeline.TwoSectionChunks | src/chunker.ts:21-85 | on a one-page paper the two-section text gives two chunks, one per section, both on page 1, with indices 0 and 1 |

## Left out

- Reading the file (`fs.readFileSync`) and the PDF library (`PDFParse`, `getInfo`, `getText`) are not modelled. The extracted text, the embedded title and creation date, and the page total are inputs.
- `async`/`await` and the `try`/`catch` blocks that rewrap errors with a message are not modelled. They only carry failures of the I/O above.
- `printPDF` and the `console.log` calls are left out: they only print.
- The drivers `test.ts` and `src/test.ts` are left out: they are command-line wiring with no logic.
- The unused imports (pdfExtractor.ts:3, src/chunker.ts:1) are left out.
- `publishedDate` and `pages` are passed through unchanged. The model does not look inside them.
- Chunker.PageNumber: the floating-point `Math.floor((i / n) * p)` is modelled as the exact integer `(i * p) / n`. IEEE rounding of `i / n` could differ from it when `i * p` is an exact multiple of `n`.
- The regular expressions are hand-coded predicates over the few fixed patterns. Case-insensitive matching folds ASCII letters only, which is what JavaScript's `/i` does for these ASCII patterns.
- Whitespace is the character set of JavaScript's `\s` and `trim`. Unicode normalisation is not modelled.
- `Chunker` has no fields, so its two methods are module members.
- Concurrency between calls on one `PDFExtractor` object is not modelled. Each method runs to completion.
