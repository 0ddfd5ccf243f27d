/**
 * The two stages together: the sections `readPdf` stores
 * (pdfExtractor.ts:101-120) handed to `createChunks` (src/chunker.ts:21-85).
 * A section is its heading alone or its heading, one line break and one
 * line of body text, so it never holds a paragraph break and is already
 * trimmed: whatever its length, it becomes exactly one chunk, verbatim,
 * titled by its heading.
 */
module Pipeline {
  import opened Options
  import opened Sequences
  import opened Strings
  import opened Extractor
  import opened Chunker

  /** The step of `OneBreakParagraph`: a first character that is not a line break is kept in the one piece. */
  lemma OneBreakStep(s: string)
    requires s != [] && s[0] != '\n' && SplitSep(s[1..], "\n\n") == [s[1..]]
    ensures SplitSep(s, "\n\n") == [s]
  {
    assert !StartsWith(s, "\n\n") by {
      if 2 <= |s| {
        assert s[..2][0] == s[0];
      }
    }
    HeadTail(s);
  }

  /** A text with one line break and none elsewhere holds no paragraph break. */
  lemma {:induction false} OneBreakParagraph(h: string, b: string)
    requires Avoids(h, {'\n'}) && Avoids(b, {'\n'})
    ensures SplitSep(h + "\n" + b, "\n\n") == [h + "\n" + b]
    decreases |h|
  {
    var s := h + "\n" + b;
    if h == [] {
      assert s == "\n" + b && s[1..] == b;
      SplitSepAvoiding(b, "\n\n");
      assert !StartsWith(s, "\n\n") by {
        if 2 <= |s| {
          assert s[..2][1] == s[1] == b[0];
        }
      }
      HeadTail(s);
    } else {
      AvoidsDrop(h, 1, {'\n'});
      OneBreakParagraph(h[1..], b);
      assert s[1..] == h[1..] + "\n" + b;
      OneBreakStep(s);
    }
  }

  /** A section headed by a one-line heading is a single paragraph. */
  lemma SectionParagraph(s: string, h: string)
    requires HeadedBy(s, h) && Avoids(h, {'\n'})
    ensures Paragraphs(s) == [s]
  {
    if s == h {
      SplitSepAvoiding(h, "\n\n");
    } else {
      var b := s[|h| + 1..];
      assert s == h + "\n" + b;
      OneBreakParagraph(h, b);
    }
  }

  /**
   * A trimmed section headed by a one-line heading is one chunk, verbatim:
   * kept as it is when it has at most 1000 words (src/chunker.ts:34-40), and
   * otherwise packed from its single paragraph, which the first buffer holds
   * after `"\n\n"` and the final flush trims back (src/chunker.ts:43-78).
   */
  lemma HeadedSectionContents(s: string, h: string)
    requires IsTrimmed(s) && HeadedBy(s, h) && Avoids(h, {'\n'})
    ensures SectionContents(s) == [s]
  {
    if |Words(s)| > MaxChunkSize {
      SectionParagraph(s, h);
      var c := |Words(s)|;
      assert s != [] by {
        assert Words([]) == [];
      }
      var first := "" + "\n\n" + s;
      assert PackFrom([s], 1, first, c) == [Trim(first)];
      assert PackFrom([s], 0, "", 0) == PackFrom([s], 1, first, c);
      assert AllSpace("\n\n") && first == "\n\n" + s;
      TrimSpacePrefix("\n\n", s);
      TrimOfTrimmed(s);
    }
  }

  /** The trimmed first line of a section is its heading (src/chunker.ts:31). */
  lemma HeadedSectionTitle(s: string, h: string)
    requires IsTrimmed(h) && HeadedBy(s, h) && Avoids(h, {'\n'})
    ensures SectionTitle(s) == h
  {
    if s == h {
      SplitCharsAvoiding(h, {'\n'});
    } else {
      var b := s[|h| + 1..];
      assert s == h + "\n" + b;
      TwoLines(h, b);
    }
    TrimOfTrimmed(h);
  }

  /** When every section has one content, chunk `k` is section `k`'s, numbered `k`. */
  lemma {:induction false} OneChunkEachUpTo(contents: seq<seq<string>>, titles: seq<string>, pages: Option<nat>, i: nat)
    requires i <= |contents| == |titles| && forall k :: 0 <= k < |contents| ==> |contents[k]| == 1
    ensures |ChunksUpTo(contents, titles, pages, i)| == i
    ensures forall k :: 0 <= k < i ==>
      ChunksUpTo(contents, titles, pages, i)[k] == Chunk(contents[k][0], PageNumber(k, |contents|, pages), Some(titles[k]), k)
    decreases i
  {
    if i > 0 {
      OneChunkEachUpTo(contents, titles, pages, i - 1);
      ChunksUpToStep(contents, titles, pages, i);
      var a := ChunksUpTo(contents, titles, pages, i - 1);
      var c := SectionChunks(contents, titles, pages, i - 1, |a|);
      assert c == [Chunk(contents[i - 1][0], PageNumber(i - 1, |contents|, pages), Some(titles[i - 1]), i - 1)];
      forall k | 0 <= k < i
        ensures (a + c)[k] == Chunk(contents[k][0], PageNumber(k, |contents|, pages), Some(titles[k]), k)
      {
        if k == i - 1 {
          assert (a + c)[k] == c[0];
        }
      }
    }
  }

  /** Sections headed by one-line trimmed headings become one chunk each, verbatim, in order. */
  lemma HeadedChunks(metadata: PdfMetadata, sections: seq<string>, hs: seq<string>)
    requires |sections| == |hs|
    requires forall k :: 0 <= k < |hs| ==>
      IsTrimmed(sections[k]) && IsTrimmed(hs[k]) && Avoids(hs[k], {'\n'}) && HeadedBy(sections[k], hs[k])
    ensures var chunks := ChunksOf(PdfContent(metadata, sections));
      |chunks| == |sections| &&
      forall k :: 0 <= k < |sections| ==>
        chunks[k] == Chunk(sections[k], PageNumber(k, |sections|, metadata.pages), Some(hs[k]), k)
  {
    var contents, titles := AllContents(sections), AllTitles(sections);
    forall k | 0 <= k < |sections| ensures |contents[k]| == 1 && contents[k][0] == sections[k] && titles[k] == hs[k] {
      MapAt(SectionContents, sections, k);
      MapAt(SectionTitle, sections, k);
      HeadedSectionContents(sections[k], hs[k]);
      HeadedSectionTitle(sections[k], hs[k]);
    }
    OneChunkEachUpTo(contents, titles, metadata.pages, |sections|);
  }

  /**
   * End to end: the chunks of the sections `readPdf` stores for `text` are
   * one per section, in order: chunk `k` holds section `k` verbatim, on
   * section `k`'s page estimate, titled by its heading, with index `k`.
   */
  lemma PaperChunks(metadata: PdfMetadata, text: string)
    ensures var sections, hs := Sections(SplitLines(text)), Headings(SplitLines(text));
      var chunks := ChunksOf(PdfContent(metadata, sections));
      |hs| == |sections| && |chunks| == |sections| &&
      forall k :: 0 <= k < |sections| ==>
        chunks[k] == Chunk(sections[k], PageNumber(k, |sections|, metadata.pages), Some(hs[k]), k)
  {
    var lines := SplitLines(text);
    SectionsHeaded(text);
    HeadedChunks(metadata, Sections(lines), Headings(lines));
  }

  /** A trimmed heading, a line break and a trimmed line: a trimmed section headed by that heading. */
  lemma HeadedLine(h: string, l: string)
    requires h != [] && IsTrimmed(h) && l != [] && IsTrimmed(l) && Avoids(l, {'\n'})
    ensures IsTrimmed(h + "\n" + l) && HeadedBy(h + "\n" + l, h)
  {
    var s := h + "\n" + l;
    assert s[..|h|] == h && s[|h|] == '\n' && s[|h| + 1..] == l;
    assert s[0] == h[0] && s[|s| - 1] == l[|l| - 1];
  }

  /** Two sections of a heading and a line each become two chunks, numbered 0 and 1. */
  lemma TwoHeadedChunks(metadata: PdfMetadata, h1: string, l1: string, h2: string, l2: string)
    requires h1 != [] && IsTrimmed(h1) && Avoids(h1, {'\n'}) && l1 != [] && IsTrimmed(l1) && Avoids(l1, {'\n'})
    requires h2 != [] && IsTrimmed(h2) && Avoids(h2, {'\n'}) && l2 != [] && IsTrimmed(l2) && Avoids(l2, {'\n'})
    ensures ChunksOf(PdfContent(metadata, [h1 + "\n" + l1, h2 + "\n" + l2])) ==
      [Chunk(h1 + "\n" + l1, PageNumber(0, 2, metadata.pages), Some(h1), 0),
       Chunk(h2 + "\n" + l2, PageNumber(1, 2, metadata.pages), Some(h2), 1)]
  {
    var sections, hs := [h1 + "\n" + l1, h2 + "\n" + l2], [h1, h2];
    HeadedLine(h1, l1);
    HeadedLine(h2, l2);
    HeadedChunks(metadata, sections, hs);
  }

  /**
   * The two-section text on a one-page paper gives two chunks, one per
   * section and verbatim, both on page 1, with indices 0 and 1.
   */
  lemma TwoSectionChunks(metadata: PdfMetadata)
    requires metadata.pages == Some(1)
    ensures ChunksOf(PdfContent(metadata, Sections(SplitLines(TwoSectionText)))) ==
      [Chunk(IntroHeading + "\n" + IntroLine, 1, Some(IntroHeading), 0),
       Chunk(ConclusionHeading + "\n" + ConclusionLine, 1, Some(ConclusionHeading), 1)]
  {
    TwoSectionScenario();
    TwoSectionLines();
    TwoSectionStrings();
    var lines := SplitLines(TwoSectionText);
    assert lines[0] == IntroHeading && lines[1] == IntroLine && lines[2] == ConclusionHeading && lines[3] == ConclusionLine;
    TwoHeadedChunks(metadata, IntroHeading, IntroLine, ConclusionHeading, ConclusionLine);
    assert PageNumber(0, 2, metadata.pages) == 1 && PageNumber(1, 2, metadata.pages) == 1;
  }
}
