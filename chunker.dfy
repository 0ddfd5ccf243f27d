/**
 * src/chunker.ts: the word counter and `createChunks`, which turns the
 * sections of a paper into chunks. A section of at most 1000 words is one
 * chunk, kept verbatim; a longer one is cut at its `"\n\n"` paragraph breaks
 * and its paragraphs are packed greedily. Every chunk records the running
 * chunk index, a page estimate and the section's first line. `Chunker` has
 * no fields, so its two methods are module members here.
 */
module Chunker {
  import opened Options
  import opened Sequences
  import opened Strings
  import opened Extractor

  /** `Chunk` (src/chunker.ts:4-9); `sectionTitle` is optional in the record, and `createChunks` always sets it. */
  datatype Chunk = Chunk(content: string, pageNumber: nat, sectionTitle: Option<string>, chunkIndex: nat)

  /** `maxChunkSize` (src/chunker.ts:23), in words. */
  const MaxChunkSize: nat := 1000

  // ------------------------------------------------------------ word count

  /** `calculateChunkSize` (src/chunker.ts:14-19): trim, split on whitespace runs, drop empty pieces, count. */
  function CalculateChunkSize(text: string): (n: nat)
    ensures n == |Words(text)|
  {
    SplitSpacesWords(Trim(text));
    WordsTrim(text);
    |DropEmpty(SplitSpaces(Trim(text)))|
  }

  /** The count is 0 exactly for whitespace (or empty) text. */
  lemma ChunkSizeZero(text: string)
    ensures CalculateChunkSize(text) == 0 <==> AllSpace(text)
  {
    WordsEmptyIffSpace(text);
  }

  /** Two texts that meet at whitespace count as many words together as apart. */
  lemma ChunkSizeAdditive(a: string, b: string)
    requires a == [] || b == [] || IsSpace(a[|a| - 1]) || IsSpace(b[0])
    ensures CalculateChunkSize(a + b) == CalculateChunkSize(a) + CalculateChunkSize(b)
  {
    WordsConcat(a, b);
  }

  // ----------------------------------------------------------- page number

  /** `text.metadata.pages || 1`: an absent or zero page total counts as one page. */
  function PagesOrOne(pages: Option<nat>): (p: nat)
    ensures p >= 1 && (pages.Some? && pages.value > 0 ==> p == pages.value)
  {
    if pages.None? || pages.value == 0 then 1 else pages.value
  }

  lemma MulMonotone(i: nat, j: nat, p: nat)
    ensures i <= j ==> i * p <= j * p
  {
    if i <= j {
      assert j * p == i * p + (j - i) * p;
    }
  }

  lemma DivBelow(a: nat, n: nat, p: nat)
    requires n > 0 && a < n * p
    ensures a / n < p
  {
    assert (a / n) * n <= a;
    assert (a / n) * n < p * n;
    MulMonotone(p, a / n, n);
  }

  lemma DivMonotone(a: nat, b: nat, n: nat)
    requires n > 0 && a <= b
    ensures a / n <= b / n
  {
    var q, r := a / n, b / n;
    assert q * n <= a;
    assert (r + 1) * n == r * n + n;
    assert b < (r + 1) * n;
    MulMonotone(r + 1, q, n);
  }

  /**
   * `Math.floor((sectionIndex / n) * p) + 1` (src/chunker.ts:37, 55, 74) in
   * exact arithmetic: the page on which section `i` of `n` is estimated to
   * lie, between 1 and the page total.
   */
  function PageNumber(i: nat, n: nat, pages: Option<nat>): (r: nat)
    requires i < n
    ensures 1 <= r <= PagesOrOne(pages)
  {
    var p := PagesOrOne(pages);
    MulMonotone(i + 1, n, p);
    DivBelow(i * p, n, p);
    i * p / n + 1
  }

  /** Later sections never get an earlier page. */
  lemma PageMonotone(i: nat, j: nat, n: nat, pages: Option<nat>)
    requires i <= j < n
    ensures PageNumber(i, n, pages) <= PageNumber(j, n, pages)
  {
    var p := PagesOrOne(pages);
    MulMonotone(i, j, p);
    DivMonotone(i * p, j * p, n);
  }

  // -------------------------------------------------------------- contents

  /** `sectionText.split('\n\n')` (src/chunker.ts:43). */
  function Paragraphs(s: string): (r: seq<string>)
    ensures |r| >= 1
  {
    SplitSep(s, "\n\n")
  }

  /** `sectionText.split('\n')[0].trim()` (src/chunker.ts:31). */
  function SectionTitle(s: string): string {
    Trim(SplitLines(s)[0])
  }

  /**
   * Reference for the paragraph loop of src/chunker.ts:44-78: the contents
   * pushed for `ps[j..]` when the buffer holds `cur` with `cnt` words. A
   * paragraph that would take a non-empty buffer past `MaxChunkSize` flushes
   * it, trimmed, and starts the next one; otherwise it is appended after
   * `"\n\n"` (the first buffer therefore starts with `"\n\n"`). A non-empty
   * buffer is flushed at the end.
   */
  function PackFrom(ps: seq<string>, j: nat, cur: string, cnt: nat): seq<string>
    requires j <= |ps|
    decreases |ps| - j
  {
    if j == |ps| then (if |cur| > 0 then [Trim(cur)] else [])
    else
      var c := |Words(ps[j])|;
      if cnt + c > MaxChunkSize && |cur| > 0 then [Trim(cur)] + PackFrom(ps, j + 1, ps[j], c)
      else PackFrom(ps, j + 1, cur + "\n\n" + ps[j], cnt + c)
  }

  /** The contents of the chunks of a section (src/chunker.ts:34-78): itself when it is small, else its packed paragraphs. */
  function SectionContents(s: string): seq<string> {
    if |Words(s)| <= MaxChunkSize then [s] else PackFrom(Paragraphs(s), 0, "", 0)
  }

  /** The chunks with contents `cs`, all on page `page` under `title`, numbered from `start`. */
  function MakeChunks(cs: seq<string>, page: nat, title: string, start: nat): seq<Chunk> {
    seq(|cs|, k requires 0 <= k < |cs| => Chunk(cs[k], page, Some(title), start + k))
  }

  /** The contents of every section, in order. */
  function AllContents(sections: seq<string>): seq<seq<string>> {
    Map(SectionContents, sections)
  }

  /** The title of every section, in order. */
  function AllTitles(sections: seq<string>): seq<string> {
    Map(SectionTitle, sections)
  }

  /**
   * The chunks of section `i` of `|contents|` when `start` chunks precede
   * them: its contents `contents[i]`, on its page, under `titles[i]`.
   */
  function SectionChunks(contents: seq<seq<string>>, titles: seq<string>, pages: Option<nat>, i: nat, start: nat): seq<Chunk>
    requires i < |contents| == |titles|
  {
    MakeChunks(contents[i], PageNumber(i, |contents|, pages), titles[i], start)
  }

  /** The chunks of the first `i` sections, in order. */
  function ChunksUpTo(contents: seq<seq<string>>, titles: seq<string>, pages: Option<nat>, i: nat): seq<Chunk>
    requires i <= |contents| == |titles|
    decreases i
  {
    if i == 0 then []
    else
      var before := ChunksUpTo(contents, titles, pages, i - 1);
      before + SectionChunks(contents, titles, pages, i - 1, |before|)
  }

  /** The chunks `createChunks` returns for `text`. */
  function ChunksOf(text: PdfContent): seq<Chunk> {
    ChunksUpTo(AllContents(text.text), AllTitles(text.text), text.metadata.pages, |text.text|)
  }

  lemma MakeChunksSnoc(cs: seq<string>, c: string, page: nat, title: string, start: nat)
    ensures MakeChunks(cs + [c], page, title, start) == MakeChunks(cs, page, title, start) + [Chunk(c, page, Some(title), start + |cs|)]
  {
  }

  // --------------------------------------------------------------- methods

  /**
   * `chunks.push({content, pageNumber, sectionTitle, chunkIndex: chunkIndex++})`
   * (src/chunker.ts:35-40, 53-58, 72-77), where the chunks after `prefix`
   * are those of the contents `emitted`, numbered from `|prefix|`.
   */
  method PushChunk(content: string, page: nat, title: string, chunks: seq<Chunk>, chunkIndex: nat,
      ghost prefix: seq<Chunk>, ghost emitted: seq<string>)
    returns (chunks': seq<Chunk>, chunkIndex': nat, ghost emitted': seq<string>)
    requires chunks == prefix + MakeChunks(emitted, page, title, |prefix|) && chunkIndex == |chunks|
    ensures chunks' == prefix + MakeChunks(emitted', page, title, |prefix|) && chunkIndex' == |chunks'|
    ensures emitted' == emitted + [content]
  {
    MakeChunksSnoc(emitted, content, page, title, |prefix|);
    ConcatAssoc(prefix, MakeChunks(emitted, page, title, |prefix|), [Chunk(content, page, Some(title), chunkIndex)]);
    chunks' := chunks + [Chunk(content, page, Some(title), chunkIndex)];
    chunkIndex' := chunkIndex + 1;
    emitted' := emitted + [content];
  }

  /** One pass of the paragraph loop of src/chunker.ts:47-68, on paragraph `ps[j]`. */
  method PackParagraph(ps: seq<string>, j: nat, page: nat, title: string, chunks: seq<Chunk>, chunkIndex: nat,
      currentChunk: string, currentWordCount: nat, ghost prefix: seq<Chunk>, ghost emitted: seq<string>)
    returns (chunks': seq<Chunk>, chunkIndex': nat, currentChunk': string, currentWordCount': nat, ghost emitted': seq<string>)
    requires j < |ps|
    requires chunks == prefix + MakeChunks(emitted, page, title, |prefix|) && chunkIndex == |chunks|
    ensures chunks' == prefix + MakeChunks(emitted', page, title, |prefix|) && chunkIndex' == |chunks'|
    ensures emitted' + PackFrom(ps, j + 1, currentChunk', currentWordCount') == emitted + PackFrom(ps, j, currentChunk, currentWordCount)
  {
    var paragraph := ps[j];
    var paragraphWordCount := CalculateChunkSize(paragraph);
    if currentWordCount + paragraphWordCount > MaxChunkSize && |currentChunk| > 0 {
      chunks', chunkIndex', emitted' := PushChunk(Trim(currentChunk), page, title, chunks, chunkIndex, prefix, emitted);
      ConcatAssoc(emitted, [Trim(currentChunk)], PackFrom(ps, j + 1, paragraph, paragraphWordCount));
      currentChunk' := paragraph;
      currentWordCount' := paragraphWordCount;
    } else {
      chunks', chunkIndex', emitted' := chunks, chunkIndex, emitted;
      currentChunk' := currentChunk + "\n\n" + paragraph;
      currentWordCount' := currentWordCount + paragraphWordCount;
    }
  }

  /** The paragraph loop of src/chunker.ts:44-78: pushes the chunks of `paragraphs` after `chunks`. */
  method PackSection(paragraphs: seq<string>, page: nat, title: string, chunks: seq<Chunk>, chunkIndex: nat)
    returns (chunks': seq<Chunk>, chunkIndex': nat)
    requires chunkIndex == |chunks|
    ensures chunks' == chunks + MakeChunks(PackFrom(paragraphs, 0, "", 0), page, title, chunkIndex)
    ensures chunkIndex' == |chunks'|
  {
    chunks', chunkIndex' := chunks, chunkIndex;
    ghost var emitted: seq<string> := [];
    var currentChunk := "";
    var currentWordCount: nat := 0;
    EmptyConcat(PackFrom(paragraphs, 0, "", 0));
    EmptyConcat(chunks);
    for j := 0 to |paragraphs|
      invariant chunks' == chunks + MakeChunks(emitted, page, title, chunkIndex) && chunkIndex' == |chunks'|
      invariant emitted + PackFrom(paragraphs, j, currentChunk, currentWordCount) == PackFrom(paragraphs, 0, "", 0)
    {
      chunks', chunkIndex', currentChunk, currentWordCount, emitted :=
        PackParagraph(paragraphs, j, page, title, chunks', chunkIndex', currentChunk, currentWordCount, chunks, emitted);
    }
    if |currentChunk| > 0 {
      chunks', chunkIndex', emitted := PushChunk(Trim(currentChunk), page, title, chunks', chunkIndex', chunks, emitted);
    } else {
      EmptyConcat(emitted);
    }
  }

  /** The body of the section loop of src/chunker.ts:27-79: after the chunks of sections before `i`, pushes those of section `i`. */
  method ChunkSection(sections: seq<string>, pages: Option<nat>, i: nat, chunks: seq<Chunk>, chunkIndex: nat)
    returns (chunks': seq<Chunk>, chunkIndex': nat)
    requires i < |sections|
    requires chunks == ChunksUpTo(AllContents(sections), AllTitles(sections), pages, i) && chunkIndex == |chunks|
    ensures chunks' == ChunksUpTo(AllContents(sections), AllTitles(sections), pages, i + 1) && chunkIndex' == |chunks'|
  {
    ChunksUpToStep(AllContents(sections), AllTitles(sections), pages, i + 1);
    var sectionText := sections[i];
    var wordCount := CalculateChunkSize(sectionText);
    var sectionTitle := Trim(SplitLines(sectionText)[0]);
    var pageNumber := i * PagesOrOne(pages) / |sections| + 1;
    assert pageNumber == PageNumber(i, |sections|, pages);
    MapAt(SectionContents, sections, i);
    MapAt(SectionTitle, sections, i);
    if wordCount <= MaxChunkSize {
      EmptyConcat(chunks);
      ghost var emitted;
      chunks', chunkIndex', emitted := PushChunk(sectionText, pageNumber, sectionTitle, chunks, chunkIndex, chunks, []);
      EmptyConcat([sectionText]);
    } else {
      var paragraphs := SplitSep(sectionText, "\n\n");
      chunks', chunkIndex' := PackSection(paragraphs, pageNumber, sectionTitle, chunks, chunkIndex);
    }
  }

  /** `createChunks` (src/chunker.ts:21-85). */
  method CreateChunks(text: PdfContent) returns (chunks: seq<Chunk>)
    ensures chunks == ChunksOf(text)
  {
    ghost var contents, titles := AllContents(text.text), AllTitles(text.text);
    chunks := [];
    var chunkIndex := 0;
    for sectionIndex := 0 to |text.text|
      invariant chunks == ChunksUpTo(contents, titles, text.metadata.pages, sectionIndex) && chunkIndex == |chunks|
    {
      chunks, chunkIndex := ChunkSection(text.text, text.metadata.pages, sectionIndex, chunks, chunkIndex);
    }
  }

  // ------------------------------------------------------ lemmas: packing

  /** Two texts joined by a paragraph break have the words of the first, then those of the second. */
  lemma WordsBreak(a: string, b: string)
    ensures Words(a + "\n\n" + b) == Words(a) + Words(b)
  {
    ConcatAssoc(a, "\n\n", b);
    WordsConcat(a, "\n\n" + b);
    assert AllSpace("\n\n");
    WordsSpacePrefix("\n\n", b);
  }

  lemma ConcatWordsFrom(ps: seq<string>, j: nat)
    requires j < |ps|
    ensures ConcatWords(ps[j..]) == Words(ps[j]) + ConcatWords(ps[j + 1..])
  {
    ConcatHead(ps[j..j + 1], ps[j + 1..]);
    assert ps[j..] == [ps[j]] + ps[j + 1..];
  }

  lemma ConcatWordsOne(t: string)
    ensures ConcatWords([t]) == Words(t)
  {
    assert [t][1..] == [];
    EmptyConcat(Words(t));
  }

  /** `PackWords` at the end of the paragraphs. */
  lemma PackWordsEnd(ps: seq<string>, cur: string, cnt: nat)
    ensures ConcatWords(PackFrom(ps, |ps|, cur, cnt)) == Words(cur) + ConcatWords(ps[|ps|..])
  {
    assert ps[|ps|..] == [];
    if |cur| > 0 {
      ConcatWordsOne(Trim(cur));
      WordsTrim(cur);
    } else {
      assert Words(cur) == [];
    }
    EmptyConcat(Words(cur));
  }

  /** `PackWords` when paragraph `ps[j]` flushes the buffer. */
  lemma PackWordsFlush(ps: seq<string>, j: nat, cur: string, rest: seq<string>)
    requires j < |ps|
    requires ConcatWords(rest) == Words(ps[j]) + ConcatWords(ps[j + 1..])
    ensures ConcatWords([Trim(cur)] + rest) == Words(cur) + ConcatWords(ps[j..])
  {
    ConcatWordsAppend([Trim(cur)], rest);
    ConcatWordsOne(Trim(cur));
    WordsTrim(cur);
    ConcatWordsFrom(ps, j);
    ConcatAssoc(Words(cur), Words(ps[j]), ConcatWords(ps[j + 1..]));
  }

  /** `PackWords` when paragraph `ps[j]` is appended to the buffer. */
  lemma PackWordsAppend(ps: seq<string>, j: nat, cur: string, rest: seq<string>)
    requires j < |ps|
    requires ConcatWords(rest) == Words(cur + "\n\n" + ps[j]) + ConcatWords(ps[j + 1..])
    ensures ConcatWords(rest) == Words(cur) + ConcatWords(ps[j..])
  {
    WordsBreak(cur, ps[j]);
    ConcatWordsFrom(ps, j);
    ConcatAssoc(Words(cur), Words(ps[j]), ConcatWords(ps[j + 1..]));
  }

  /** Packing drops and reorders no word: the buffer's words, then those of the paragraphs left. */
  lemma {:induction false} PackWords(ps: seq<string>, j: nat, cur: string, cnt: nat)
    requires j <= |ps|
    ensures ConcatWords(PackFrom(ps, j, cur, cnt)) == Words(cur) + ConcatWords(ps[j..])
    decreases |ps| - j
  {
    if j == |ps| {
      PackWordsEnd(ps, cur, cnt);
    } else {
      var c := |Words(ps[j])|;
      if cnt + c > MaxChunkSize && |cur| > 0 {
        PackWords(ps, j + 1, ps[j], c);
        PackWordsFlush(ps, j, cur, PackFrom(ps, j + 1, ps[j], c));
      } else {
        PackWords(ps, j + 1, cur + "\n\n" + ps[j], cnt + c);
        PackWordsAppend(ps, j, cur, PackFrom(ps, j + 1, cur + "\n\n" + ps[j], cnt + c));
      }
    }
  }

  /** The words of a section's chunks, in order, are the words of the section (src/chunker.ts:34-78). */
  lemma SectionWords(s: string)
    ensures ConcatWords(SectionContents(s)) == Words(s)
  {
    if |Words(s)| <= MaxChunkSize {
      ConcatWordsOne(s);
    } else {
      var ps := Paragraphs(s);
      PackWords(ps, 0, "", 0);
      assert Words("") == [];
      EmptyConcat(ConcatWords(ps));
      JoinSplitSep(s, "\n\n");
      assert AllSpace("\n\n");
      WordsJoin(ps, "\n\n");
    }
  }

  /** A chunk content within the word budget, or one paragraph of `ps`, trimmed. */
  predicate Fits(ps: seq<string>, e: string) {
    |Words(e)| <= MaxChunkSize || e in Map(Trim, ps)
  }

  predicate AllFit(ps: seq<string>, es: seq<string>) {
    forall k :: 0 <= k < |es| ==> Fits(ps, es[k])
  }

  /** The packing buffer: `cnt` counts its words, and it is within budget or holds one paragraph. */
  predicate Buffer(ps: seq<string>, cur: string, cnt: nat) {
    cnt == |Words(cur)| && (cnt <= MaxChunkSize || Trim(cur) in Map(Trim, ps))
  }

  lemma AllFitCons(ps: seq<string>, e: string, es: seq<string>)
    requires Fits(ps, e) && AllFit(ps, es)
    ensures AllFit(ps, [e] + es)
  {
    forall k | 0 <= k < |[e] + es| ensures Fits(ps, ([e] + es)[k]) {
      if k > 0 {
        assert ([e] + es)[k] == es[k - 1];
      }
    }
  }

  lemma FlushFits(ps: seq<string>, cur: string, cnt: nat)
    requires Buffer(ps, cur, cnt)
    ensures Fits(ps, Trim(cur))
  {
    WordsTrim(cur);
  }

  /** A paragraph that starts a buffer leaves it holding one paragraph. */
  lemma BufferStart(ps: seq<string>, j: nat)
    requires j < |ps|
    ensures Buffer(ps, ps[j], |Words(ps[j])|)
  {
    MapAt(Trim, ps, j);
  }

  /** A paragraph appended to a buffer keeps it within budget, or the buffer was empty and now holds that paragraph. */
  lemma BufferAppend(ps: seq<string>, j: nat, cur: string, cnt: nat)
    requires j < |ps| && Buffer(ps, cur, cnt)
    requires !(cnt + |Words(ps[j])| > MaxChunkSize && |cur| > 0)
    ensures Buffer(ps, cur + "\n\n" + ps[j], cnt + |Words(ps[j])|)
  {
    WordsBreak(cur, ps[j]);
    if |cur| == 0 {
      assert cur + "\n\n" + ps[j] == "\n\n" + ps[j];
      assert AllSpace("\n\n");
      TrimSpacePrefix("\n\n", ps[j]);
      MapAt(Trim, ps, j);
    }
  }

  /** Every content packing emits is within budget or one trimmed paragraph. */
  lemma {:induction false} PackFits(ps: seq<string>, j: nat, cur: string, cnt: nat)
    requires j <= |ps| && Buffer(ps, cur, cnt)
    ensures AllFit(ps, PackFrom(ps, j, cur, cnt))
    decreases |ps| - j
  {
    if j == |ps| {
      FlushFits(ps, cur, cnt);
    } else {
      var c := |Words(ps[j])|;
      if cnt + c > MaxChunkSize && |cur| > 0 {
        BufferStart(ps, j);
        PackFits(ps, j + 1, ps[j], c);
        FlushFits(ps, cur, cnt);
        AllFitCons(ps, Trim(cur), PackFrom(ps, j + 1, ps[j], c));
      } else {
        BufferAppend(ps, j, cur, cnt);
        PackFits(ps, j + 1, cur + "\n\n" + ps[j], cnt + c);
      }
    }
  }

  /**
   * A chunk of more than `MaxChunkSize` words is a single paragraph of its
   * section, trimmed: packing never joins paragraphs past the budget
   * (src/chunker.ts:51-66).
   */
  lemma SectionOversized(s: string)
    ensures forall k :: 0 <= k < |SectionContents(s)| ==>
      |Words(SectionContents(s)[k])| <= MaxChunkSize || SectionContents(s)[k] in Map(Trim, Paragraphs(s))
  {
    var ps := Paragraphs(s);
    if |Words(s)| > MaxChunkSize {
      assert Words("") == [];
      PackFits(ps, 0, "", 0);
    }
  }

  /** A non-empty buffer always yields at least one chunk. */
  lemma {:induction false} PackNonEmpty(ps: seq<string>, j: nat, cur: string, cnt: nat)
    requires j <= |ps| && |cur| > 0
    ensures |PackFrom(ps, j, cur, cnt)| >= 1
    decreases |ps| - j
  {
    if j < |ps| {
      var c := |Words(ps[j])|;
      if !(cnt + c > MaxChunkSize) {
        PackNonEmpty(ps, j + 1, cur + "\n\n" + ps[j], cnt + c);
      }
    }
  }

  /**
   * The final flush happens only for a non-empty buffer: when the last
   * paragraph is empty and flushes the buffer before it, the buffer it
   * leaves is `""` and adds no chunk.
   */
  lemma FlushOnEmptyParagraph(ps: seq<string>, cur: string, cnt: nat)
    requires |ps| > 0 && ps[|ps| - 1] == "" && |cur| > 0 && cnt > MaxChunkSize
    ensures PackFrom(ps, |ps| - 1, cur, cnt) == [Trim(cur)]
  {
    assert Words("") == [];
    assert PackFrom(ps, |ps|, "", 0) == [];
  }

  /** An oversized one-line section ending in `"\n\n"` gives one chunk: the empty last paragraph adds none. */
  lemma TrailingEmptyParagraph(big: string)
    requires Avoids(big, {'\n'}) && CalculateChunkSize(big) > MaxChunkSize
    ensures SectionContents(big + "\n\n") == [Trim(big)]
  {
    var ps := [big, ""];
    assert ps[1..] == [""];
    assert Join(ps, "\n\n") == big + "\n\n" + "";
    assert big + "\n\n" + "" == big + "\n\n";
    SplitJoinSep(ps, "\n\n");
    WordsBreak(big, "");
    assert Words("") == [];
    EmptyConcat(Words(big));
    var c := |Words(big)|;
    var first := "" + "\n\n" + big;
    assert first == "\n\n" + big;
    assert AllSpace("\n\n");
    TrimSpacePrefix("\n\n", big);
    FlushOnEmptyParagraph(ps, first, c);
    assert PackFrom(ps, 0, "", 0) == PackFrom(ps, 1, first, c);
  }

  /** Every section, even an empty one, yields at least one chunk. */
  lemma SectionNonEmpty(s: string)
    ensures |SectionContents(s)| >= 1
  {
    var ps := Paragraphs(s);
    if |Words(s)| > MaxChunkSize {
      PackNonEmpty(ps, 1, "" + "\n\n" + ps[0], |Words(ps[0])|);
    }
  }

  // ----------------------------------------------------- lemmas: chunks

  /** One more section appends its chunks, numbered from where the previous ones stop. */
  lemma ChunksUpToStep(contents: seq<seq<string>>, titles: seq<string>, pages: Option<nat>, j: nat)
    requires 0 < j <= |contents| == |titles|
    ensures ChunksUpTo(contents, titles, pages, j) ==
      ChunksUpTo(contents, titles, pages, j - 1) + SectionChunks(contents, titles, pages, j - 1, |ChunksUpTo(contents, titles, pages, j - 1)|)
  {
  }

  lemma ChunksPrefixStep(contents: seq<seq<string>>, titles: seq<string>, pages: Option<nat>, i: nat, j: nat)
    requires i < j <= |contents| == |titles|
    requires IsPrefix(ChunksUpTo(contents, titles, pages, i), ChunksUpTo(contents, titles, pages, j - 1))
    ensures IsPrefix(ChunksUpTo(contents, titles, pages, i), ChunksUpTo(contents, titles, pages, j))
  {
    var b := ChunksUpTo(contents, titles, pages, j - 1);
    ChunksUpToStep(contents, titles, pages, j);
    PrefixExtend(ChunksUpTo(contents, titles, pages, i), b, SectionChunks(contents, titles, pages, j - 1, |b|));
  }

  /** The chunks of the first `i` sections begin the chunks of the first `j`. */
  lemma {:induction false} ChunksPrefix(contents: seq<seq<string>>, titles: seq<string>, pages: Option<nat>, i: nat, j: nat)
    requires i <= j <= |contents| == |titles|
    ensures IsPrefix(ChunksUpTo(contents, titles, pages, i), ChunksUpTo(contents, titles, pages, j))
    decreases j - i
  {
    if i < j {
      ChunksPrefix(contents, titles, pages, i, j - 1);
      ChunksPrefixStep(contents, titles, pages, i, j);
    }
  }

  /** Section `i`'s chunks are the slice between the chunk counts before and after it. */
  lemma GroupedUpTo(contents: seq<seq<string>>, titles: seq<string>, pages: Option<nat>, i: nat)
    requires i < |contents| == |titles|
    ensures var a, b, all := ChunksUpTo(contents, titles, pages, i), ChunksUpTo(contents, titles, pages, i + 1),
        ChunksUpTo(contents, titles, pages, |contents|);
      |a| <= |b| <= |all| && all[|a|..|b|] == SectionChunks(contents, titles, pages, i, |a|)
  {
    var a := ChunksUpTo(contents, titles, pages, i);
    var b := ChunksUpTo(contents, titles, pages, i + 1);
    var c := SectionChunks(contents, titles, pages, i, |a|);
    var all := ChunksUpTo(contents, titles, pages, |contents|);
    ChunksUpToStep(contents, titles, pages, i + 1);
    ChunksPrefix(contents, titles, pages, i + 1, |contents|);
    ConcatCut(a, c, |a|);
    WholeSlices(c);
    assert b[|a|..] == c;
    assert all[..|b|] == b;
    assert all[|a|..|b|] == all[..|b|][|a|..];
  }

  /** Where in the output the chunks of section `i` begin. */
  function ChunkStart(text: PdfContent, i: nat): nat
    requires i <= |text.text|
  {
    |ChunksUpTo(AllContents(text.text), AllTitles(text.text), text.metadata.pages, i)|
  }

  /**
   * The output groups chunks by section, in section order: the chunks of
   * section `i` are those its contents give, one after another, all with
   * its page estimate and its trimmed first line (src/chunker.ts:26-79).
   */
  lemma ChunksGrouped(text: PdfContent, i: nat)
    requires i < |text.text|
    ensures ChunkStart(text, i) <= ChunkStart(text, i + 1) <= |ChunksOf(text)|
    ensures ChunksOf(text)[ChunkStart(text, i)..ChunkStart(text, i + 1)] ==
      MakeChunks(SectionContents(text.text[i]), PageNumber(i, |text.text|, text.metadata.pages),
        SectionTitle(text.text[i]), ChunkStart(text, i))
  {
    GroupedUpTo(AllContents(text.text), AllTitles(text.text), text.metadata.pages, i);
    MapAt(SectionContents, text.text, i);
    MapAt(SectionTitle, text.text, i);
  }

  /** A section of at most `MaxChunkSize` words is one chunk holding the section verbatim (src/chunker.ts:34-40). */
  lemma SmallSection(text: PdfContent, i: nat)
    requires i < |text.text| && CalculateChunkSize(text.text[i]) <= MaxChunkSize
    ensures ChunkStart(text, i + 1) == ChunkStart(text, i) + 1 <= |ChunksOf(text)| &&
      ChunksOf(text)[ChunkStart(text, i)] ==
      Chunk(text.text[i], PageNumber(i, |text.text|, text.metadata.pages), Some(SectionTitle(text.text[i])), ChunkStart(text, i))
  {
    ChunksGrouped(text, i);
    var all, a, b := ChunksOf(text), ChunkStart(text, i), ChunkStart(text, i + 1);
    assert all[a] == all[a..b][0];
  }

  /** The `chunkIndex` of every chunk is its position. */
  lemma {:induction false} IndicesUpTo(contents: seq<seq<string>>, titles: seq<string>, pages: Option<nat>, i: nat)
    requires i <= |contents| == |titles|
    ensures forall k :: 0 <= k < |ChunksUpTo(contents, titles, pages, i)| ==> ChunksUpTo(contents, titles, pages, i)[k].chunkIndex == k
    decreases i
  {
    if i > 0 {
      IndicesUpTo(contents, titles, pages, i - 1);
      var a: seq<Chunk> := ChunksUpTo(contents, titles, pages, i - 1);
      var c: seq<Chunk> := SectionChunks(contents, titles, pages, i - 1, |a|);
      ChunksUpToStep(contents, titles, pages, i);
      forall k | 0 <= k < |a + c| ensures (a + c)[k].chunkIndex == k {
        if k >= |a| {
          assert (a + c)[k] == c[k - |a|];
        }
      }
    }
  }

  /** The `chunkIndex` of every chunk is its position: the counter runs over all sections without reset (src/chunker.ts:24, 39, 57, 76). */
  lemma ChunkIndices(text: PdfContent)
    ensures forall k :: 0 <= k < |ChunksOf(text)| ==> ChunksOf(text)[k].chunkIndex == k
  {
    IndicesUpTo(AllContents(text.text), AllTitles(text.text), text.metadata.pages, |text.text|);
  }

  /** Pages lie between 1 and `top` and never decrease along `cs`. */
  predicate PagesFit(cs: seq<Chunk>, top: nat) {
    (forall k :: 0 <= k < |cs| ==> 1 <= cs[k].pageNumber <= top) &&
    (forall k, l :: 0 <= k <= l < |cs| ==> cs[k].pageNumber <= cs[l].pageNumber)
  }

  /** All of `cs` is on page `page`. */
  predicate OnPage(cs: seq<Chunk>, page: nat) {
    forall k :: 0 <= k < |cs| ==> cs[k].pageNumber == page
  }

  lemma PagesFitAppend(a: seq<Chunk>, c: seq<Chunk>, below: nat, top: nat)
    requires PagesFit(a, below) && 1 <= below <= top && OnPage(c, top)
    ensures PagesFit(a + c, top)
  {
    forall k | 0 <= k < |a + c| ensures 1 <= (a + c)[k].pageNumber <= top {
      if k >= |a| {
        assert (a + c)[k] == c[k - |a|];
      }
    }
    forall k, l | 0 <= k <= l < |a + c| ensures (a + c)[k].pageNumber <= (a + c)[l].pageNumber {
      if l >= |a| {
        assert (a + c)[l] == c[l - |a|];
        if k >= |a| {
          assert (a + c)[k] == c[k - |a|];
        }
      }
    }
  }

  /** The chunks of the first `i` sections are on pages from 1 up to that of section `i - 1`, in order. */
  lemma {:induction false} PagesUpTo(contents: seq<seq<string>>, titles: seq<string>, pages: Option<nat>, i: nat)
    requires 0 < i <= |contents| == |titles|
    ensures PagesFit(ChunksUpTo(contents, titles, pages, i), PageNumber(i - 1, |contents|, pages))
    decreases i
  {
    var a := ChunksUpTo(contents, titles, pages, i - 1);
    var top := PageNumber(i - 1, |contents|, pages);
    var c := SectionChunks(contents, titles, pages, i - 1, |a|);
    ChunksUpToStep(contents, titles, pages, i);
    assert OnPage(c, top);
    if i == 1 {
      assert a == [];
      PagesFitAppend(a, c, top, top);
    } else {
      PagesUpTo(contents, titles, pages, i - 1);
      PageMonotone(i - 2, i - 1, |contents|, pages);
      PagesFitAppend(a, c, PageNumber(i - 2, |contents|, pages), top);
    }
  }

  /** Every chunk's page lies between 1 and the page total (`pages || 1`), and pages never decrease along the output. */
  lemma ChunkPages(text: PdfContent)
    ensures PagesFit(ChunksOf(text), PagesOrOne(text.metadata.pages))
  {
    var n := |text.text|;
    if n > 0 {
      PagesUpTo(AllContents(text.text), AllTitles(text.text), text.metadata.pages, n);
      var top := PageNumber(n - 1, n, text.metadata.pages);
      assert PagesFit(ChunksOf(text), top);
    }
  }

  // ---------------------------------------------------- lemmas: scenarios

  /** One-word paragraphs: a buffer of `j < 1000` of them takes in the next one. */
  lemma PackOneWordStep(ps: seq<string>, j: nat, cur: string)
    requires 1 <= j < MaxChunkSize && j < |ps| && |Words(ps[j])| == 1
    requires |cur| > 0 && |Words(cur)| == j
    ensures PackFrom(ps, j, cur, j) == PackFrom(ps, j + 1, cur + "\n\n" + ps[j], j + 1)
    ensures |cur + "\n\n" + ps[j]| > 0 && |Words(cur + "\n\n" + ps[j])| == j + 1
  {
    WordsBreak(cur, ps[j]);
  }

  /** One-word paragraphs: a full buffer of 1000 is flushed before the last paragraph. */
  lemma PackOneWordLast(ps: seq<string>, cur: string)
    requires |ps| == MaxChunkSize + 1 && |Words(ps[MaxChunkSize])| == 1
    requires |cur| > 0 && |Words(cur)| == MaxChunkSize
    ensures var r := PackFrom(ps, MaxChunkSize, cur, MaxChunkSize); |r| == 2 && |Words(r[0])| == MaxChunkSize && |Words(r[1])| == 1
  {
    WordsTrim(cur);
    var last := ps[MaxChunkSize];
    assert last != [] by {
      assert |Words(last)| == 1;
    }
    WordsTrim(last);
    assert PackFrom(ps, MaxChunkSize + 1, last, 1) == [Trim(last)];
  }

  /** One-word paragraphs: a buffer of `j` of them, `1 <= j <= 1000`, packs the rest of 1001 into chunks of 1000 and 1 words. */
  lemma {:induction false} PackOneWordEach(ps: seq<string>, j: nat, cur: string)
    requires |ps| == MaxChunkSize + 1 && forall k :: 0 <= k < |ps| ==> |Words(ps[k])| == 1
    requires 1 <= j <= MaxChunkSize && |cur| > 0 && |Words(cur)| == j
    ensures var r := PackFrom(ps, j, cur, j); |r| == 2 && |Words(r[0])| == MaxChunkSize && |Words(r[1])| == 1
    decreases MaxChunkSize - j
  {
    if j < MaxChunkSize {
      PackOneWordStep(ps, j, cur);
      PackOneWordEach(ps, j + 1, cur + "\n\n" + ps[j]);
    } else {
      PackOneWordLast(ps, cur);
    }
  }

  /** Scalability scenario: 1001 one-word paragraphs separated by `"\n\n"` give two chunks, of 1000 words and of 1 word. */
  lemma ThousandAndOneParagraphs(ps: seq<string>)
    requires |ps| == MaxChunkSize + 1 && forall k :: 0 <= k < |ps| ==> ps[k] != [] && NoSpace(ps[k])
    ensures var cs := SectionContents(Join(ps, "\n\n"));
      |cs| == 2 && CalculateChunkSize(cs[0]) == MaxChunkSize && CalculateChunkSize(cs[1]) == 1
  {
    var s := Join(ps, "\n\n");
    forall k | 0 <= k < |ps| ensures Avoids(ps[k], {'\n'}) && |Words(ps[k])| == 1 {
      WordsOfWord(ps[k]);
    }
    SplitJoinSep(ps, "\n\n");
    assert AllSpace("\n\n");
    WordsJoin(ps, "\n\n");
    ConcatWordsOfWords(ps);
    assert |Words(s)| > MaxChunkSize;
    var first := "" + "\n\n" + ps[0];
    assert first == "\n\n" + ps[0];
    WordsSpacePrefix("\n\n", ps[0]);
    PackOneWordEach(ps, 1, first);
  }

  /**
   * An empty chunk: a whitespace paragraph before an oversized one (over
   * `MaxChunkSize` words) is flushed, trimmed to `""`, before it
   * (src/chunker.ts:51-58).
   */
  lemma EmptyChunk(w: string, big: string)
    requires AllSpace(w) && Avoids(w, {'\n'}) && Avoids(big, {'\n'}) && CalculateChunkSize(big) > MaxChunkSize
    ensures SectionContents(w + "\n\n" + big) == ["", Trim(big)]
  {
    var ps := [w, big];
    assert ps[1..] == [big];
    assert Join(ps, "\n\n") == w + "\n\n" + big;
    SplitJoinSep(ps, "\n\n");
    WordsBreak(w, big);
    WordsEmptyIffSpace(w);
    EmptyConcat(Words(big));
    var first := "" + "\n\n" + w;
    assert first == "\n\n" + w;
    assert AllSpace(first);
    TrimSpacePrefix(first, []);
    EmptyConcat(first);
    assert Trim(first) == [];
    var c := |Words(big)|;
    assert big != [];
    assert PackFrom(ps, 2, big, c) == [Trim(big)];
    assert PackFrom(ps, 1, first, 0) == [Trim(first)] + PackFrom(ps, 2, big, c);
    assert PackFrom(ps, 0, "", 0) == PackFrom(ps, 1, first, 0);
  }
}
