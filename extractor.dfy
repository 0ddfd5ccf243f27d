/**
 * pdfExtractor.ts with the PDF library taken away: the extracted text, the
 * embedded title and creation date and the page total are inputs. The title
 * scan, the keyword capture and the section segmenter are loops, each proved
 * against a reference function; the class keeps the two fields the source
 * assigns.
 */
module Extractor {
  import opened Options
  import opened Strings
  import opened Patterns
  import opened Sequences

  /** `PDFMetadata` (pdfExtractor.ts:5-10): every field may be absent. */
  datatype PdfMetadata = PdfMetadata(
    title: Option<string>,
    keywords: Option<seq<string>>,
    publishedDate: Option<string>,
    pages: Option<nat>)

  /** `PDFContent` (pdfExtractor.ts:12-15): the metadata and the sections, in document order. */
  datatype PdfContent = PdfContent(metadata: PdfMetadata, text: seq<string>)

  /** What the PDF library reports about the document: `data.info.title` and `data.info.CreationDate`. */
  datatype DocumentInfo = DocumentInfo(title: Option<string>, creationDate: Option<string>)

  const EmptyMetadata := PdfMetadata(None, None, None, None)

  /** `text.split("\n")`. */
  function SplitLines(text: string): (r: seq<string>)
    ensures |r| >= 1 && forall i :: 0 <= i < |r| ==> Avoids(r[i], {'\n'})
  {
    SplitCharsAvoid(text, {'\n'});
    SplitChars(text, {'\n'})
  }

  // ------------------------------------------------------------------ title

  /** `!title || title.match(/paper title/i)`: the embedded title is absent, empty or a placeholder. */
  predicate NeedsDerivedTitle(embedded: Option<string>) {
    embedded.None? || embedded.value == [] || IsPlaceholderTitle(embedded.value)
  }

  /** The lines the title scan keeps: those before the first stop line. */
  function TitleLines(lines: seq<string>): (r: seq<string>)
    ensures |r| <= |lines| && r == lines[..|r|]
    ensures forall j :: 0 <= j < |r| ==> !IsTitleStop(lines[j])
    ensures |r| < |lines| ==> IsTitleStop(lines[|r|])
    decreases |lines|
  {
    if lines == [] || IsTitleStop(lines[0]) then [] else [lines[0]] + TitleLines(lines[1..])
  }

  /** `stops` tells, line by line, whether a line of `lines` stops the title scan. */
  predicate TitleClassified(stops: seq<bool>, lines: seq<string>) {
    |stops| == |lines| && forall j {:trigger IsTitleStop(lines[j])} :: 0 <= j < |lines| ==> stops[j] == IsTitleStop(lines[j])
  }

  lemma TitleStopsClassified(lines: seq<string>)
    ensures TitleClassified(Map(IsTitleStop, lines), lines)
  {
    forall j | 0 <= j < |lines| ensures Map(IsTitleStop, lines)[j] == IsTitleStop(lines[j]) {
      MapAt(IsTitleStop, lines, j);
    }
  }

  /** The three properties of `TitleLines` determine it. */
  lemma {:induction false} TitleLinesUnique(lines: seq<string>, stops: seq<bool>, n: nat)
    requires TitleClassified(stops, lines) && n <= |lines|
    requires forall j :: 0 <= j < n ==> !stops[j]
    requires n < |lines| ==> stops[n]
    ensures lines[..n] == TitleLines(lines)
  {
    var t := TitleLines(lines);
    if n < |lines| {
      assert IsTitleStop(lines[n]);
    }
    if |t| < |lines| {
      assert stops[|t|];
    }
  }

  /** The loop of pdfExtractor.ts:39-52: push lines until one stops the scan. */
  method ScanTitle(lines: seq<string>) returns (titleLines: seq<string>)
    ensures titleLines == TitleLines(lines)
  {
    ghost var stops := Map(IsTitleStop, lines);
    TitleStopsClassified(lines);
    titleLines := [];
    var i := 0;
    while i < |lines|
      invariant 0 <= i <= |lines|
      invariant titleLines == lines[..i]
      invariant forall j :: 0 <= j < i ==> !stops[j]
    {
      // pdfExtractor.ts:44-48
      var stop := IsTitleStop(lines[i]);
      if stop {
        break;
      }
      titleLines := titleLines + [lines[i]];
      i := i + 1;
    }
    TitleLinesUnique(lines, stops, i);
  }

  /** The `title` field of pdfExtractor.ts:84: always the joined scanned lines, so `""` when the scan did not run. */
  function TitleOf(embedded: Option<string>, lines: seq<string>): string {
    if NeedsDerivedTitle(embedded) then Join(TitleLines(lines), " ") else ""
  }

  /**
   * The two ways the title comes out: `""` when the embedded title is a real
   * one, and every line joined when no line stops the scan.
   */
  lemma TitleCases(embedded: Option<string>, lines: seq<string>)
    ensures !NeedsDerivedTitle(embedded) ==> TitleOf(embedded, lines) == ""
    ensures NeedsDerivedTitle(embedded) && (forall j :: 0 <= j < |lines| ==> !IsTitleStop(lines[j])) ==>
      TitleOf(embedded, lines) == Join(lines, " ")
  {
    if NeedsDerivedTitle(embedded) && forall j :: 0 <= j < |lines| ==> !IsTitleStop(lines[j]) {
      WholeSlices(lines);
    }
  }

  /** A derived title holds no `@` and, when it comes from the lines of a text, no line break. */
  lemma TitleAvoids(embedded: Option<string>, text: string)
    ensures Avoids(TitleOf(embedded, SplitLines(text)), {'@', '\n'})
  {
    var lines := SplitLines(text);
    if NeedsDerivedTitle(embedded) {
      var t := TitleLines(lines);
      forall j | 0 <= j < |t| ensures Avoids(t[j], {'@', '\n'}) {
        assert t[j] == lines[j] && !IsTitleStop(lines[j]);
        assert Avoids(lines[j], {'\n'});
      }
      JoinAvoids(t, " ", {'@', '\n'});
    }
  }

  // --------------------------------------------------------------- keywords

  /** What a `Keywords` line pushes: its same-line value followed by `"\n"`, if it has one. */
  function InlinePush(line: string): seq<string> {
    match InlineKeywordValue(line)
    case Some(v) => [v + "\n"]
    case None => []
  }

  /** How the keyword scanner treats a line: the marker test comes first, the stop test second. */
  datatype KeywordLine = MarkerLine(push: seq<string>) | StopLine | TextLine(line: string)

  function ClassifyKeywordLine(line: string): KeywordLine {
    if HasKeywordsMarker(line) then MarkerLine(InlinePush(line))
    else if IsKeywordStop(line) then StopLine
    else TextLine(line)
  }

  /** Every line, classified for the keyword scan. */
  function ClassifyKeywordLines(lines: seq<string>): (r: seq<KeywordLine>)
    ensures |r| == |lines|
  {
    Map(ClassifyKeywordLine, lines)
  }

  /**
   * The two-state keyword scanner of pdfExtractor.ts:56-80: what is pushed
   * onto `keywordsLines` while reading the lines classified as `kinds[i..]`,
   * with capture on or off. A marker line turns capture on; while capture is
   * on a stop line ends the scan and any other line is pushed.
   */
  function CaptureFrom(kinds: seq<KeywordLine>, i: nat, capture: bool): seq<string>
    requires i <= |kinds|
    decreases |kinds| - i
  {
    if i == |kinds| then []
    else match kinds[i]
      case MarkerLine(push) => push + CaptureFrom(kinds, i + 1, true)
      case StopLine => if capture then [] else CaptureFrom(kinds, i + 1, false)
      case TextLine(line) => if capture then [line + "\n"] + CaptureFrom(kinds, i + 1, true) else CaptureFrom(kinds, i + 1, false)
  }

  /** The strings the keyword scan pushes while reading `lines`. */
  function CapturedLines(lines: seq<string>): seq<string> {
    CaptureFrom(ClassifyKeywordLines(lines), 0, false)
  }

  /** `kinds` classifies `lines` one by one for the keyword scan. */
  predicate KeywordClassified(kinds: seq<KeywordLine>, lines: seq<string>) {
    |kinds| == |lines| && forall j {:trigger ClassifyKeywordLine(lines[j])} :: 0 <= j < |lines| ==> kinds[j] == ClassifyKeywordLine(lines[j])
  }

  lemma ClassifyKeywordLinesClassified(lines: seq<string>)
    ensures KeywordClassified(ClassifyKeywordLines(lines), lines)
  {
    forall j | 0 <= j < |lines| ensures ClassifyKeywordLines(lines)[j] == ClassifyKeywordLine(lines[j]) {
      MapAt(ClassifyKeywordLine, lines, j);
    }
  }

  /** The loop of pdfExtractor.ts:56-80 over lines classified as `kinds`. */
  method ScanClassified(lines: seq<string>, ghost kinds: seq<KeywordLine>) returns (keywordsLines: seq<string>)
    requires KeywordClassified(kinds, lines)
    ensures keywordsLines == CaptureFrom(kinds, 0, false)
  {
    keywordsLines := [];
    var capture := false;
    var i := 0;
    while i < |lines|
      invariant 0 <= i <= |lines|
      invariant keywordsLines + CaptureFrom(kinds, i, capture) == CaptureFrom(kinds, 0, false)
    {
      // pdfExtractor.ts:58 and 64-68: the marker test first; the stop tests (a numbered header, an empty
      // line, a references line) matter only while capturing
      var kind := ClassifyKeywordLine(lines[i]);
      match kind {
        case MarkerLine(push) =>
          capture := true;
          ConcatAssoc(keywordsLines, push, CaptureFrom(kinds, i + 1, true));
          keywordsLines := keywordsLines + push;
        case StopLine =>
          if capture {
            EmptyConcat(keywordsLines);
            break;
          }
        case TextLine(line) =>
          if capture {
            ConcatAssoc(keywordsLines, [line + "\n"], CaptureFrom(kinds, i + 1, true));
            keywordsLines := keywordsLines + [line + "\n"];
          }
      }
      i := i + 1;
    }
    EmptyConcat(keywordsLines);
  }

  /** The keyword scan of pdfExtractor.ts:56-80. */
  method ScanKeywords(lines: seq<string>) returns (keywordsLines: seq<string>)
    ensures keywordsLines == CapturedLines(lines)
  {
    ClassifyKeywordLinesClassified(lines);
    keywordsLines := ScanClassified(lines, ClassifyKeywordLines(lines));
  }

  /** `text.split(/[,;]/).map(k => k.trim()).filter(Boolean)` (pdfExtractor.ts:85). */
  function SplitKeywords(text: string): (r: seq<string>)
    ensures forall i :: 0 <= i < |r| ==> r[i] != [] && IsTrimmed(r[i]) && Avoids(r[i], {',', ';'})
  {
    var pieces := SplitChars(text, {',', ';'});
    SplitCharsAvoid(text, {',', ';'});
    var trimmed := Map(Trim, pieces);
    forall i | 0 <= i < |pieces| ensures IsTrimmed(trimmed[i]) && Avoids(trimmed[i], {',', ';'}) {
      MapAt(Trim, pieces, i);
      TrimAvoids(pieces[i], {',', ';'});
    }
    DropEmptyKeeps(trimmed);
    DropEmpty(trimmed)
  }

  /** Every string `DropEmpty` keeps is one of its input's. */
  lemma {:induction false} DropEmptyKeeps(ps: seq<string>)
    ensures forall i :: 0 <= i < |DropEmpty(ps)| ==> DropEmpty(ps)[i] in ps
    decreases |ps|
  {
    if ps != [] {
      DropEmptyKeeps(ps[1..]);
      var head := if ps[0] == [] then [] else [ps[0]];
      assert DropEmpty(ps) == head + DropEmpty(ps[1..]);
      forall i | 0 <= i < |DropEmpty(ps)| ensures DropEmpty(ps)[i] in ps {
        if i >= |head| {
          assert DropEmpty(ps)[i] == DropEmpty(ps[1..])[i - |head|];
          assert DropEmpty(ps)[i] in ps[1..];
        }
      }
    }
  }

  /** The keyword list pdfExtractor.ts:85 builds from the captured lines. */
  function KeywordsOf(lines: seq<string>): seq<string> {
    SplitKeywords(Join(CapturedLines(lines), " "))
  }

  /** Without capture, lines without a marker push nothing. */
  lemma {:induction false} NoMarkerCapturesNothing(kinds: seq<KeywordLine>, i: nat)
    requires i <= |kinds|
    requires forall j :: i <= j < |kinds| ==> !kinds[j].MarkerLine?
    ensures CaptureFrom(kinds, i, false) == []
    decreases |kinds| - i
  {
    if i < |kinds| {
      NoMarkerCapturesNothing(kinds, i + 1);
    }
  }

  /** A text in which no line mentions keywords has an empty keyword list. */
  lemma NoMarkerNoKeywords(lines: seq<string>)
    requires forall j :: 0 <= j < |lines| ==> !HasKeywordsMarker(lines[j])
    ensures KeywordsOf(lines) == []
  {
    var kinds := ClassifyKeywordLines(lines);
    forall j | 0 <= j < |lines| ensures !kinds[j].MarkerLine? {
      MapAt(ClassifyKeywordLine, lines, j);
    }
    NoMarkerCapturesNothing(kinds, 0);
    SplitCharsAvoiding("", {',', ';'});
    assert Map(Trim, [""]) == [""];
  }

  /** Once capture is on, the first stop line ends the scan: nothing after it is pushed. */
  lemma {:induction false} CaptureEndsAtStop(a: seq<KeywordLine>, b: seq<KeywordLine>, c: seq<KeywordLine>, i: nat)
    requires i <= |a| && forall j :: i <= j < |a| ==> !a[j].StopLine?
    ensures CaptureFrom(a + [StopLine] + b, i, true) == CaptureFrom(a + [StopLine] + c, i, true)
    decreases |a| - i
  {
    var x, y := a + [StopLine] + b, a + [StopLine] + c;
    if i < |a| {
      CaptureEndsAtStop(a, b, c, i + 1);
      assert x[i] == a[i] == y[i];
    } else {
      assert x[i] == StopLine == y[i];
    }
  }

  /** The scan of a suffix does not depend on what precedes it. */
  lemma {:induction false} CaptureShift(a: seq<KeywordLine>, b: seq<KeywordLine>, i: nat, capture: bool)
    requires i <= |b|
    ensures CaptureFrom(a + b, |a| + i, capture) == CaptureFrom(b, i, capture)
    decreases |b| - i
  {
    if i < |b| {
      assert (a + b)[|a| + i] == b[i];
      CaptureShift(a, b, i + 1, true);
      CaptureShift(a, b, i + 1, false);
    }
  }

  /** Two tails that scan alike in both states scan alike after the same prefix. */
  lemma {:induction false} CaptureSamePrefix(a: seq<KeywordLine>, b: seq<KeywordLine>, c: seq<KeywordLine>, i: nat, capture: bool)
    requires i <= |a|
    requires CaptureFrom(b, 0, true) == CaptureFrom(c, 0, true) && CaptureFrom(b, 0, false) == CaptureFrom(c, 0, false)
    ensures CaptureFrom(a + b, i, capture) == CaptureFrom(a + c, i, capture)
    decreases |a| - i
  {
    if i < |a| {
      assert (a + b)[i] == a[i] == (a + c)[i];
      CaptureSamePrefix(a, b, c, i + 1, true);
      CaptureSamePrefix(a, b, c, i + 1, false);
    } else {
      CaptureShift(a, b, 0, capture);
      CaptureShift(a, c, 0, capture);
    }
  }

  /** A marker line, then lines that do not stop the scan, then a stop line: what follows is never read. */
  lemma StopAfterMarker(km: KeywordLine, mid: seq<KeywordLine>, b: seq<KeywordLine>, c: seq<KeywordLine>, capture: bool)
    requires km.MarkerLine? && forall j :: 0 <= j < |mid| ==> !mid[j].StopLine?
    ensures CaptureFrom([km] + (mid + [StopLine] + b), 0, capture) == CaptureFrom([km] + (mid + [StopLine] + c), 0, capture)
  {
    CaptureShift([km], mid + [StopLine] + b, 0, true);
    CaptureShift([km], mid + [StopLine] + c, 0, true);
    CaptureEndsAtStop(mid, b, c, 0);
  }

  /** The lines of the keyword scan, as classified kinds, with `pre + [m] + mid + [s]` split off. */
  lemma StopLinesClassified(f: string -> KeywordLine, pre: seq<string>, m: string, mid: seq<string>, s: string, b: seq<string>)
    requires f(s) == StopLine
    ensures Map(f, pre + [m] + mid + [s] + b) == Map(f, pre) + ([f(m)] + (Map(f, mid) + [StopLine] + Map(f, b)))
  {
    MapConcat(f, pre + [m] + mid + [s], b);
    MapConcat(f, pre + [m] + mid, [s]);
    MapConcat(f, pre + [m], mid);
    MapConcat(f, pre, [m]);
    var P, M, D, S, B := Map(f, pre), Map(f, [m]), Map(f, mid), Map(f, [s]), Map(f, b);
    assert M == [f(m)] && S == [StopLine];
    ConcatAssoc(P + M, D, S);
    ConcatAssoc(P + M, D + S, B);
    ConcatAssoc(P, M, (D + S) + B);
  }

  /**
   * Once a `Keywords` line has switched capture on, the first stop line
   * after it ends the scan (pdfExtractor.ts:59-75): the lines after it never
   * change the captured text.
   */
  lemma NothingAfterStop(pre: seq<string>, m: string, mid: seq<string>, s: string, b: seq<string>, c: seq<string>)
    requires HasKeywordsMarker(m) && !HasKeywordsMarker(s) && IsKeywordStop(s)
    requires forall j :: 0 <= j < |mid| ==> !ClassifyKeywordLine(mid[j]).StopLine?
    ensures CapturedLines(pre + [m] + mid + [s] + b) == CapturedLines(pre + [m] + mid + [s] + c)
  {
    var f := ClassifyKeywordLine;
    var kmid := Map(f, mid);
    forall j | 0 <= j < |kmid| ensures !kmid[j].StopLine? {
      MapAt(f, mid, j);
    }
    StopLinesClassified(f, pre, m, mid, s, b);
    StopLinesClassified(f, pre, m, mid, s, c);
    var x, y := [f(m)] + (kmid + [StopLine] + Map(f, b)), [f(m)] + (kmid + [StopLine] + Map(f, c));
    StopAfterMarker(f(m), kmid, Map(f, b), Map(f, c), true);
    StopAfterMarker(f(m), kmid, Map(f, b), Map(f, c), false);
    CaptureSamePrefix(Map(f, pre), x, y, 0, false);
  }

  /** A list of one piece `w + k`, with `w` whitespace and `k` a trimmed keyword, keeps `k` alone. */
  lemma KeywordPiece(w: string, k: string)
    requires AllSpace(w) && IsTrimmed(k)
    ensures Map(Trim, [w + k]) == [Trim(k)] && Trim(w + k) == k
  {
    TrimSpacePrefix(w, k);
    TrimOfTrimmed(k);
  }

  /** A leading keyword piece survives trimming and the empty-piece filter unchanged. */
  lemma KeywordPieceHead(w: string, k: string, ps: seq<string>)
    requires AllSpace(w) && k != [] && IsTrimmed(k)
    ensures DropEmpty(Map(Trim, [w + k] + ps)) == [k] + DropEmpty(Map(Trim, ps))
  {
    KeywordPiece(w, k);
    MapConcat(Trim, [w + k], ps);
    DropEmptyCons(k, Map(Trim, ps));
  }

  /** The text `w + ks[0] + ", " + …`, cut at its first comma. */
  lemma KeywordListCut(ks: seq<string>, w: string)
    requires |ks| > 1
    ensures w + Join(ks, ", ") == (w + ks[0]) + [','] + (" " + Join(ks[1..], ", "))
  {
    var rest, u := Join(ks[1..], ", "), w + ks[0];
    assert Join(ks, ", ") == ks[0] + ", " + rest;
    ConcatAssoc(w, ks[0] + ", ", rest);
    ConcatAssoc(w, ks[0], ", ");
    ConcatAssoc(u, ", ", rest);
    assert ", " == [','] + " ";
    ConcatAssoc([','], " ", rest);
    ConcatAssoc(u, [','], " " + rest);
  }

  /** No keyword: only whitespace, which trims to an empty piece that is filtered out. */
  lemma KeywordPiecesNone(w: string)
    requires AllSpace(w)
    ensures DropEmpty(Map(Trim, SplitChars(w + Join([], ", "), {',', ';'}))) == []
  {
    var seps := {',', ';'};
    EmptyConcat(w);
    assert Join([], ", ") == [];
    assert Avoids(w, seps);
    SplitCharsAvoiding(w, seps);
    TrimSpacePrefix(w, []);
    assert Trim(w) == [];
    assert Map(Trim, [w]) == [[]];
    assert DropEmpty([[]]) == [];
  }

  /** One keyword: a single piece. */
  lemma KeywordPiecesOne(ks: seq<string>, w: string)
    requires AllSpace(w) && |ks| == 1 && ks[0] != [] && IsTrimmed(ks[0]) && Avoids(ks[0], {',', ';'})
    ensures DropEmpty(Map(Trim, SplitChars(w + Join(ks, ", "), {',', ';'}))) == ks
  {
    var seps := {',', ';'};
    var k := ks[0];
    assert Avoids(w, seps);
    AvoidsConcat(w, k, seps);
    SplitCharsAvoiding(w + k, seps);
    KeywordPieceHead(w, k, []);
    assert DropEmpty(Map(Trim, [])) == [];
    EmptyConcat([k]);
  }

  /** Several keywords: the first piece, then the pieces of the rest. */
  lemma KeywordPiecesMore(ks: seq<string>, w: string)
    requires AllSpace(w) && |ks| > 1 && ks[0] != [] && IsTrimmed(ks[0]) && Avoids(ks[0], {',', ';'})
    requires DropEmpty(Map(Trim, SplitChars(" " + Join(ks[1..], ", "), {',', ';'}))) == ks[1..]
    ensures DropEmpty(Map(Trim, SplitChars(w + Join(ks, ", "), {',', ';'}))) == ks
  {
    var seps := {',', ';'};
    var k, rest := ks[0], Join(ks[1..], ", ");
    KeywordListCut(ks, w);
    assert Avoids(w, seps);
    AvoidsConcat(w, k, seps);
    SplitCharsAvoiding(w + k, seps);
    SplitCharsConcat(w + k, ',', " " + rest, seps);
    KeywordPieceHead(w, k, SplitChars(" " + rest, seps));
    HeadTail(ks);
  }

  /** The comma-separated form of a keyword list: what remains after a leading run of whitespace `w`. */
  lemma {:induction false} KeywordPieces(ks: seq<string>, w: string)
    requires AllSpace(w)
    requires forall i :: 0 <= i < |ks| ==> ks[i] != [] && IsTrimmed(ks[i]) && Avoids(ks[i], {',', ';'})
    ensures DropEmpty(Map(Trim, SplitChars(w + Join(ks, ", "), {',', ';'}))) == ks
    decreases |ks|
  {
    if ks == [] {
      KeywordPiecesNone(w);
    } else if |ks| == 1 {
      KeywordPiecesOne(ks, w);
    } else {
      assert AllSpace(" ");
      KeywordPieces(ks[1..], " ");
      KeywordPiecesMore(ks, w);
    }
  }

  /** Keyword splitting inverts listing: non-empty trimmed keywords without `,` or `;`, joined by `", "`, come back unchanged. */
  lemma SplitKeywordsJoin(ks: seq<string>)
    requires forall i :: 0 <= i < |ks| ==> ks[i] != [] && IsTrimmed(ks[i]) && Avoids(ks[i], {',', ';'})
    ensures SplitKeywords(Join(ks, ", ")) == ks
  {
    KeywordPieces(ks, "");
    assert "" + Join(ks, ", ") == Join(ks, ", ");
  }

  /** A non-empty trimmed keyword without `,` or `;`. */
  predicate IsKeyword(k: string) {
    k != [] && IsTrimmed(k) && Avoids(k, {',', ';'})
  }

  lemma OnePiece(w: string, p: string, seps: set<char>)
    requires Avoids(w, seps) && Avoids(p, seps)
    ensures SplitChars(w + p, seps) == [w + p]
  {
    AvoidsConcat(w, p, seps);
    SplitCharsAvoiding(w + p, seps);
  }

  lemma TwoPieces(b: string, c: string)
    requires Avoids(b, {',', ';'}) && Avoids(c, {',', ';'})
    ensures SplitChars(" " + b + ", " + c + "\n", {',', ';'}) == [" " + b, " " + c + "\n"]
  {
    var seps := {',', ';'};
    var y := " " + (c + "\n");
    assert " " + b + ", " + c + "\n" == " " + b + [','] + y;
    SplitCharsConcat(" " + b, ',', y, seps);
    OnePiece(" ", b, seps);
    OnePiece(c, "\n", seps);
    OnePiece(" ", c + "\n", seps);
    assert " " + (c + "\n") == " " + c + "\n";
  }

  lemma ThreePieces(a: string, b: string, c: string)
    requires Avoids(a, {',', ';'}) && Avoids(b, {',', ';'}) && Avoids(c, {',', ';'})
    ensures SplitChars(a + ", " + b + ", " + c + "\n", {',', ';'}) == [a, " " + b, " " + c + "\n"]
  {
    var seps := {',', ';'};
    var x := " " + b + ", " + c + "\n";
    assert a + ", " + b + ", " + c + "\n" == a + [','] + x;
    SplitCharsConcat(a, ',', x, seps);
    TwoPieces(b, c);
    SplitCharsAvoiding(a, seps);
  }

  lemma TrimLast(c: string)
    requires c != [] && IsTrimmed(c)
    ensures Trim(" " + c + "\n") == c
  {
    assert AllSpace(" ");
    assert " " + c + "\n" == " " + (c + "\n");
    TrimSpacePrefix(" ", c + "\n");
    TrimStartOfNonSpace(c + "\n");
    TrimEndConcat(c, "\n");
    assert TrimEnd("\n") == [];
    TrimEndOfNonSpace(c);
  }

  /** Three keywords listed as `a, b, c` and ended by the `"\n"` the scan appends split back into `[a, b, c]`. */
  lemma ThreeKeywords(a: string, b: string, c: string)
    requires IsKeyword(a) && IsKeyword(b) && IsKeyword(c)
    ensures SplitKeywords(a + ", " + b + ", " + c + "\n") == [a, b, c]
  {
    ThreePieces(a, b, c);
    TrimOfTrimmed(a);
    assert AllSpace(" ");
    TrimSpacePrefix(" ", b);
    TrimOfTrimmed(b);
    TrimLast(c);
    var ps := [a, " " + b, " " + c + "\n"];
    var ts := Map(Trim, ps);
    MapAt(Trim, ps, 0);
    MapAt(Trim, ps, 1);
    MapAt(Trim, ps, 2);
    assert ts == [a] + ([b] + [c]);
    DropEmptyCons(a, [b] + [c]);
    DropEmptyCons(b, [c]);
    DropEmptyCons(c, []);
  }

  /** Two lines joined by a line break are split apart again. */
  lemma TwoLines(a: string, b: string)
    requires Avoids(a, {'\n'}) && Avoids(b, {'\n'})
    ensures SplitLines(a + "\n" + b) == [a, b]
  {
    SplitCharsConcat(a, '\n', b, {'\n'});
    SplitCharsAvoiding(a, {'\n'});
    SplitCharsAvoiding(b, {'\n'});
  }

  /** The keyword list of the scenario text. */
  const ScenarioKeywords := "security" + ", " + "privacy" + ", " + "systems"
  /** A keyword line with its value inline, then a numbered section header. */
  const ScenarioLine := "Keywords" + (": " + ScenarioKeywords)
  const ScenarioHeader := "I. Introduction"
  const ScenarioText := ScenarioLine + "\n" + ScenarioHeader

  lemma ScenarioMarker()
    ensures HasKeywordsMarker(ScenarioLine) && InlineKeywordValue(ScenarioLine) == Some(ScenarioKeywords)
  {
    assert ScenarioLine == "Keywords" + "" + [':'] + " " + ScenarioKeywords;
    InlineValueAfterMarker("Keywords", "", ':', " ", ScenarioKeywords);
  }

  lemma ScenarioStop()
    ensures !HasKeywordsMarker(ScenarioHeader) && IsKeywordStop(ScenarioHeader)
  {
    NotContainsCI(ScenarioHeader, "keywords");
    ScenarioNumbered();
  }

  lemma ScenarioNumbered()
    ensures IsNumberedHeader(ScenarioHeader)
  {
    var s := ScenarioHeader;
    assert s[1..][0] == '.';
    assert NumeralEnd(s[1..]) == 0;
    assert NumeralEnd(s) == 1;
  }

  lemma ScenarioKinds()
    ensures ClassifyKeywordLines([ScenarioLine, ScenarioHeader]) == [MarkerLine([ScenarioKeywords + "\n"]), StopLine]
  {
    ScenarioMarker();
    ScenarioStop();
    var lines := [ScenarioLine, ScenarioHeader];
    MapAt(ClassifyKeywordLine, lines, 0);
    MapAt(ClassifyKeywordLine, lines, 1);
  }

  lemma ScenarioLines()
    ensures SplitLines(ScenarioText) == [ScenarioLine, ScenarioHeader]
  {
    assert Avoids(ScenarioLine, {'\n'});
    assert Avoids(ScenarioHeader, {'\n'});
    TwoLines(ScenarioLine, ScenarioHeader);
  }

  lemma ScenarioSplit()
    ensures SplitKeywords(ScenarioKeywords + "\n") == ["security", "privacy", "systems"]
  {
    ThreeKeywords("security", "privacy", "systems");
  }

  lemma ScenarioCaptured()
    ensures CapturedLines([ScenarioLine, ScenarioHeader]) == [ScenarioKeywords + "\n"]
  {
    ScenarioKinds();
    var kinds := [MarkerLine([ScenarioKeywords + "\n"]), StopLine];
    assert CaptureFrom(kinds, 1, true) == [];
    EmptyConcat([ScenarioKeywords + "\n"]);
  }

  /**
   * pdfExtractor.ts:62-66, 71-75 and 85: `"Keywords: security, privacy,
   * systems\nI. Introduction"` gives the keywords `security`, `privacy` and
   * `systems`; the numbered header ends the capture.
   */
  lemma KeywordScenario()
    ensures KeywordsOf(SplitLines(ScenarioText)) == ["security", "privacy", "systems"]
  {
    ScenarioLines();
    ScenarioCaptured();
    ScenarioSplit();
  }

  // -------------------------------------------------------------- segmenter

  /** How the segmenter treats a line, after trimming it. */
  datatype LineKind = PageMarker | Heading(text: string) | Body(text: string)

  function ClassifyLine(line: string): LineKind {
    var t := Trim(line);
    if IsPageMarker(t) then PageMarker else if IsSectionHeading(t) then Heading(t) else Body(t)
  }

  /**
   * The segmentation of a run of lines: the sections its heading lines open,
   * untrimmed, and `pending`, the body text of its lines before its first
   * heading, which belongs to whatever section is open when the run begins.
   */
  datatype Segments = Segments(raw: seq<string>, pending: string)

  /** Every line, classified. */
  function ClassifyLines(lines: seq<string>): (r: seq<LineKind>)
    ensures |r| == |lines|
  {
    Map(ClassifyLine, lines)
  }

  /**
   * What one classified line does to the segmentation of the lines after
   * it: a page marker nothing, a heading opens `heading + "\n"`, and a body
   * line adds `trimmed + " "` to whatever section is open before it.
   */
  function Prepend(kind: LineKind, rest: Segments): Segments {
    match kind
    case PageMarker => rest
    case Heading(t) => Segments([t + "\n" + rest.pending] + rest.raw, "")
    case Body(t) => Segments(rest.raw, t + " " + rest.pending)
  }

  /** Reference for the segmenter of pdfExtractor.ts:101-120, over classified lines from `kinds[i]` on. */
  function SegmentFrom(kinds: seq<LineKind>, i: nat): Segments
    requires i <= |kinds|
    decreases |kinds| - i
  {
    if i == |kinds| then Segments([], "") else Prepend(kinds[i], SegmentFrom(kinds, i + 1))
  }

  /** The sections of `lines`, each trimmed when closed; the text before the first heading is dropped. */
  function Sections(lines: seq<string>): seq<string> {
    Map(Trim, SegmentFrom(ClassifyLines(lines), 0).raw)
  }

  /** The texts of the heading lines from `kinds[i]` on, in order: where sections begin. */
  function HeadingsFrom(kinds: seq<LineKind>, i: nat): seq<string>
    requires i <= |kinds|
    decreases |kinds| - i
  {
    if i == |kinds| then []
    else (if kinds[i].Heading? then [kinds[i].text] else []) + HeadingsFrom(kinds, i + 1)
  }

  /** The trimmed heading lines of `lines`. */
  function Headings(lines: seq<string>): seq<string> {
    HeadingsFrom(ClassifyLines(lines), 0)
  }

  /** The untrimmed sections once the loop has closed `closed`, holds `current` open, and `rest` remains to be read. */
  function Resume(closed: seq<string>, current: Option<string>, rest: Segments): seq<string> {
    match current
    case None => closed + rest.raw
    case Some(open) => closed + [open + rest.pending] + rest.raw
  }

  /** A heading line closes the open section and opens a new one. */
  lemma HeadingStep(closed: seq<string>, current: Option<string>, t: string, rest: Segments, closed': seq<string>)
    requires closed' == if current.Some? then closed + [current.value] else closed
    ensures Resume(closed', Some(t + "\n"), rest) == Resume(closed, current, Prepend(Heading(t), rest))
  {
    if current.Some? {
      assert current.value + "" == current.value;
    }
  }

  /** A body line is appended to the open section, or dropped when none is open. */
  lemma BodyStep(closed: seq<string>, current: Option<string>, t: string, rest: Segments, next: Option<string>)
    requires next == if current.Some? then Some(current.value + t + " ") else None
    ensures Resume(closed, next, rest) == Resume(closed, current, Prepend(Body(t), rest))
  {
    if current.Some? {
      assert current.value + t + " " + rest.pending == current.value + (t + " " + rest.pending);
    }
  }

  /** The end of the text closes the open section. */
  lemma CloseStep(closed: seq<string>, current: Option<string>, closed': seq<string>)
    requires closed' == if current.Some? then closed + [current.value] else closed
    ensures closed' == Resume(closed, current, Segments([], ""))
  {
    if current.Some? {
      assert current.value + "" == current.value;
    }
  }

  /** `kinds` classifies `lines` one by one. */
  predicate Classified(kinds: seq<LineKind>, lines: seq<string>) {
    |kinds| == |lines| && forall j {:trigger ClassifyLine(lines[j])} :: 0 <= j < |lines| ==> kinds[j] == ClassifyLine(lines[j])
  }

  lemma ClassifyLinesClassified(lines: seq<string>)
    ensures Classified(ClassifyLines(lines), lines)
  {
    forall j | 0 <= j < |lines| ensures ClassifyLines(lines)[j] == ClassifyLine(lines[j]) {
      MapAt(ClassifyLine, lines, j);
    }
  }

  /** Line `i` of `lines`, trimmed and classified (pdfExtractor.ts:106-108); kept out of the loop's proof. */
  method ClassifyAt(lines: seq<string>, i: nat, ghost kinds: seq<LineKind>) returns (kind: LineKind)
    requires i < |lines| && Classified(kinds, lines)
    ensures kind == kinds[i]
  {
    kind := ClassifyLine(lines[i]);
  }

  /**
   * `if (currentSection) sections.push(currentSection.trim())`
   * (pdfExtractor.ts:110 and 120): an open section is pushed, trimmed, and
   * joins the raw sections already closed.
   */
  method Close(sections: seq<string>, current: Option<string>, ghost closed: seq<string>)
    returns (sections': seq<string>, ghost closed': seq<string>)
    requires current.Some? ==> current.value != []
    requires sections == Map(Trim, closed)
    ensures sections' == Map(Trim, closed')
    ensures closed' == if current.Some? then closed + [current.value] else closed
  {
    sections', closed' := sections, closed;
    if current.Some? && current.value != [] {
      sections' := sections + [Trim(current.value)];
      closed' := closed + [current.value];
      MapConcat(Trim, closed, [current.value]);
      MapAt(Trim, [current.value], 0);
      assert Map(Trim, [current.value]) == [Trim(current.value)];
    }
  }

  /** The body of the loop of pdfExtractor.ts:105-119 on one classified line. */
  method SegmentLine(kind: LineKind, sections: seq<string>, current: Option<string>, ghost closed: seq<string>, ghost rest: Segments)
    returns (sections': seq<string>, current': Option<string>, ghost closed': seq<string>)
    requires current.Some? ==> current.value != []
    requires sections == Map(Trim, closed)
    ensures current'.Some? ==> current'.value != []
    ensures sections' == Map(Trim, closed')
    ensures Resume(closed', current', rest) == Resume(closed, current, Prepend(kind, rest))
  {
    sections', current', closed' := sections, current, closed;
    match kind {
      case PageMarker =>
      case Heading(trimmed) =>
        sections', closed' := Close(sections, current, closed);
        current' := Some(trimmed + "\n");
        HeadingStep(closed, current, trimmed, rest, closed');
      case Body(trimmed) =>
        if current.Some? {
          current' := Some(current.value + trimmed + " ");
        }
        BodyStep(closed, current, trimmed, rest, current');
    }
  }

  /** The loop of pdfExtractor.ts:105-120 over lines classified as `kinds`. */
  method SegmentLines(lines: seq<string>, ghost kinds: seq<LineKind>) returns (sections: seq<string>)
    requires Classified(kinds, lines)
    ensures sections == Map(Trim, SegmentFrom(kinds, 0).raw)
  {
    ghost var closed: seq<string> := [];
    sections := [];
    var current: Option<string> := None;
    for i := 0 to |lines|
      invariant current.Some? ==> current.value != []
      invariant sections == Map(Trim, closed)
      invariant Resume(closed, current, SegmentFrom(kinds, i)) == SegmentFrom(kinds, 0).raw
    {
      var kind := ClassifyAt(lines, i, kinds);
      sections, current, closed := SegmentLine(kind, sections, current, closed, SegmentFrom(kinds, i + 1));
    }
    ghost var before := closed;
    sections, closed := Close(sections, current, closed);
    CloseStep(before, current, closed);
  }

  /** The segmenter of pdfExtractor.ts:101-120: split the text into lines and run the loop. */
  method Segment(text: string) returns (sections: seq<string>)
    ensures sections == Sections(SplitLines(text))
  {
    var lines := SplitLines(text);
    ClassifyLinesClassified(lines);
    sections := SegmentLines(lines, ClassifyLines(lines));
  }

  // ------------------------------------------------------- segmenter: lemmas

  /** A heading is not empty: it begins with a section name. */
  lemma {:induction false} StartsWithNameNonEmpty(s: string, names: seq<string>)
    requires forall i :: 0 <= i < |names| ==> names[i] != [] && IsLower(names[i][0])
    requires StartsWithName(s, names)
    ensures s != []
    decreases |names|
  {
    if StartsWithCI(s, names[0]) && BoundaryAt(s, |names[0]|) {
      StartsWithCILength(s, names[0]);
    } else {
      StartsWithNameNonEmpty(s, names[1..]);
    }
  }

  lemma HeadingNonEmpty(t: string)
    requires IsSectionHeading(t)
    ensures t != []
  {
    SectionNamesStartLower();
    if StartsWithName(t, SectionNames) {
      StartsWithNameNonEmpty(t, SectionNames);
    }
  }

  /** What classifying a line without a line break yields: a heading is non-empty and trimmed, and no text has a line break. */
  predicate KindShaped(k: LineKind) {
    match k
    case PageMarker => true
    case Heading(t) => t != [] && IsTrimmed(t) && Avoids(t, {'\n'})
    case Body(t) => Avoids(t, {'\n'})
  }

  lemma ClassifyLineShaped(line: string)
    requires Avoids(line, {'\n'})
    ensures KindShaped(ClassifyLine(line))
  {
    TrimAvoids(line, {'\n'});
    if ClassifyLine(line).Heading? {
      HeadingNonEmpty(Trim(line));
    }
  }

  /**
   * `s` is the section a heading `h` opens: `h` alone, or `h`, a line break
   * and the section's body, which is a single line.
   */
  predicate HeadedBy(s: string, h: string) {
    s == h || (|h| < |s| && s[..|h|] == h && s[|h|] == '\n' && Avoids(s[|h| + 1..], {'\n'}))
  }

  /** A line break followed by `p` trims at the end to nothing, or to the break and `p` trimmed. */
  lemma TrimEndAfterBreak(p: string)
    ensures TrimEnd("\n" + p) == if TrimEnd(p) == [] then [] else "\n" + TrimEnd(p)
  {
    TrimEndConcat("\n", p);
    assert TrimEnd("\n") == [];
  }

  /** What `trim` leaves of a trimmed heading, a line break and body text `p`. */
  lemma ClosedSectionTrim(h: string, p: string)
    requires h != [] && IsTrimmed(h)
    ensures Trim(h + "\n" + p) == if TrimEnd(p) == [] then h else h + ("\n" + TrimEnd(p))
  {
    var s := h + "\n" + p;
    ConcatAssoc(h, "\n", p);
    TrimStartOfNonSpace(s);
    TrimEndAfterBreak(p);
    TrimEndConcat(h, "\n" + p);
    TrimEndOfNonSpace(h);
  }

  /** A heading, a line break and one line of text form a section headed by it. */
  lemma HeadedByBreak(h: string, q: string)
    requires Avoids(q, {'\n'})
    ensures HeadedBy(h + ("\n" + q), h)
  {
    var s := h + ("\n" + q);
    ConcatCut(h, "\n" + q, |h|);
    WholeSlices(h);
    ConcatHead("\n", q);
  }

  /** Closing a section: the trimmed heading, a line break and one-line body text trim to a section headed by it. */
  lemma ClosedSection(h: string, p: string)
    requires h != [] && IsTrimmed(h) && Avoids(p, {'\n'})
    ensures HeadedBy(Trim(h + "\n" + p), h)
  {
    ClosedSectionTrim(h, p);
    var q := TrimEnd(p);
    if q != [] {
      TrimEndShape(p);
      AvoidsTake(p, |q|, {'\n'});
      HeadedByBreak(h, q);
    }
  }

  /** `raw` is an untrimmed section opened by heading `h`: the heading, a line break, then one line of body text. */
  predicate Opens(raw: string, h: string) {
    |h| < |raw| && raw[..|h|] == h && raw[|h|] == '\n' && Avoids(raw[|h| + 1..], {'\n'})
  }

  lemma OpenedSection(raw: string, h: string)
    requires h != [] && IsTrimmed(h) && Opens(raw, h)
    ensures HeadedBy(Trim(raw), h)
  {
    var p := raw[|h| + 1..];
    assert raw == h + "\n" + p;
    ClosedSection(h, p);
  }

  /**
   * `seg` has one raw section per heading of `hs`, each opened by it, and
   * its pending body text is one line.
   */
  predicate SegmentsHeaded(seg: Segments, hs: seq<string>) {
    |seg.raw| == |hs| && Avoids(seg.pending, {'\n'}) &&
    forall k :: 0 <= k < |hs| ==> hs[k] != [] && IsTrimmed(hs[k]) && Avoids(hs[k], {'\n'}) && Opens(seg.raw[k], hs[k])
  }

  /** A shaped heading line opens a section whose body is the pending line after it. */
  lemma HeadingPrepend(t: string, rest: Segments, hs: seq<string>)
    requires KindShaped(Heading(t)) && SegmentsHeaded(rest, hs)
    ensures SegmentsHeaded(Prepend(Heading(t), rest), [t] + hs)
  {
    var section := t + "\n" + rest.pending;
    ConcatAssoc(t, "\n", rest.pending);
    ConcatCut(t, "\n" + rest.pending, |t|);
    WholeSlices(t);
    ConcatHead("\n", rest.pending);
    assert Opens(section, t);
    var raw, hs' := [section] + rest.raw, [t] + hs;
    forall k | 0 <= k < |hs'| ensures hs'[k] != [] && IsTrimmed(hs'[k]) && Avoids(hs'[k], {'\n'}) && Opens(raw[k], hs'[k]) {
      if k > 0 {
        assert hs'[k] == hs[k - 1] && raw[k] == rest.raw[k - 1];
      }
    }
  }

  /** A shaped body line joins the pending line with a space. */
  lemma BodyPrepend(t: string, rest: Segments, hs: seq<string>)
    requires KindShaped(Body(t)) && SegmentsHeaded(rest, hs)
    ensures SegmentsHeaded(Prepend(Body(t), rest), hs)
  {
    assert Avoids(" ", {'\n'});
    JoinAvoids([t, rest.pending], " ", {'\n'});
    assert Join([t, rest.pending], " ") == t + " " + rest.pending;
  }

  /** From `kinds[i]` on, one raw section per heading, each opened by it; the body text before the first heading is one line. */
  lemma {:induction false} SegmentFromHeaded(kinds: seq<LineKind>, i: nat)
    requires i <= |kinds|
    requires forall j :: 0 <= j < |kinds| ==> KindShaped(kinds[j])
    ensures SegmentsHeaded(SegmentFrom(kinds, i), HeadingsFrom(kinds, i))
    decreases |kinds| - i
  {
    if i < |kinds| {
      SegmentFromHeaded(kinds, i + 1);
      var rest, hs := SegmentFrom(kinds, i + 1), HeadingsFrom(kinds, i + 1);
      assert KindShaped(kinds[i]);
      match kinds[i]
      case PageMarker =>
        EmptyConcat(hs);
      case Heading(t) =>
        HeadingPrepend(t, rest, hs);
      case Body(t) =>
        BodyPrepend(t, rest, hs);
        EmptyConcat(hs);
    }
  }

  /** Trimming each raw section of shaped lines leaves a section headed by its heading. */
  lemma TrimmedSectionsHeaded(kinds: seq<LineKind>)
    requires forall j :: 0 <= j < |kinds| ==> KindShaped(kinds[j])
    ensures var sections, hs := Map(Trim, SegmentFrom(kinds, 0).raw), HeadingsFrom(kinds, 0);
      |sections| == |hs| &&
      forall k :: 0 <= k < |hs| ==>
        hs[k] != [] && IsTrimmed(hs[k]) && Avoids(hs[k], {'\n'}) && HeadedBy(sections[k], hs[k])
  {
    SegmentFromHeaded(kinds, 0);
    var raw, hs := SegmentFrom(kinds, 0).raw, HeadingsFrom(kinds, 0);
    forall k | 0 <= k < |hs| ensures HeadedBy(Map(Trim, raw)[k], hs[k]) {
      MapAt(Trim, raw, k);
      OpenedSection(raw[k], hs[k]);
    }
  }

  /** The lines of a text classify into shaped kinds. */
  lemma LinesShaped(lines: seq<string>)
    requires forall j :: 0 <= j < |lines| ==> Avoids(lines[j], {'\n'})
    ensures forall j :: 0 <= j < |lines| ==> KindShaped(ClassifyLines(lines)[j])
  {
    forall j | 0 <= j < |lines| ensures KindShaped(ClassifyLines(lines)[j]) {
      MapAt(ClassifyLine, lines, j);
      ClassifyLineShaped(lines[j]);
    }
  }

  /**
   * pdfExtractor.ts:101-120 yields one section per heading line, in order;
   * each is trimmed and starts with its heading, which is non-empty,
   * trimmed and one line. `SectionsByBlocks` states each section's text.
   */
  lemma SectionsHeaded(text: string)
    ensures var sections, hs := Sections(SplitLines(text)), Headings(SplitLines(text));
      |sections| == |hs| &&
      forall k :: 0 <= k < |hs| ==>
        IsTrimmed(sections[k]) && hs[k] != [] && IsTrimmed(hs[k]) && Avoids(hs[k], {'\n'}) && HeadedBy(sections[k], hs[k])
  {
    var lines := SplitLines(text);
    LinesShaped(lines);
    TrimmedSectionsHeaded(ClassifyLines(lines));
    var raw := SegmentFrom(ClassifyLines(lines), 0).raw;
    forall k | 0 <= k < |raw| ensures IsTrimmed(Sections(lines)[k]) {
      MapAt(Trim, raw, k);
    }
  }

  lemma {:induction false} NoHeadingsFrom(kinds: seq<LineKind>, i: nat)
    requires i <= |kinds| && forall j :: i <= j < |kinds| ==> !kinds[j].Heading?
    ensures HeadingsFrom(kinds, i) == []
    decreases |kinds| - i
  {
    if i < |kinds| {
      NoHeadingsFrom(kinds, i + 1);
    }
  }

  /** A text none of whose trimmed lines is a heading gives no section (pdfExtractor.ts:103, 108). */
  lemma HeadinglessText(text: string)
    requires forall j :: 0 <= j < |SplitLines(text)| ==> !IsSectionHeading(Trim(SplitLines(text)[j]))
    ensures Sections(SplitLines(text)) == []
  {
    var lines := SplitLines(text);
    forall j | 0 <= j < |lines| ensures !ClassifyLines(lines)[j].Heading? {
      MapAt(ClassifyLine, lines, j);
    }
    NoHeadingsFrom(ClassifyLines(lines), 0);
    SectionsHeaded(text);
  }

  /** The empty text gives no section. */
  lemma EmptyTextNoSections()
    ensures Sections(SplitLines("")) == []
  {
    assert SplitLines("") == [""];
    assert Trim("") == "";
    EmptyIsNoHeading();
    HeadinglessText("");
  }

  /** The segmentation of a suffix does not depend on what precedes it. */
  lemma {:induction false} SegmentShift(a: seq<LineKind>, b: seq<LineKind>, i: nat)
    requires i <= |b|
    ensures SegmentFrom(a + b, |a| + i) == SegmentFrom(b, i)
    decreases |b| - i
  {
    if i < |b| {
      SegmentShift(a, b, i + 1);
      assert (a + b)[|a| + i] == b[i];
    }
  }

  /** Two texts whose tails segment alike segment alike after the same prefix. */
  lemma {:induction false} SegmentSamePrefix(a: seq<LineKind>, b: seq<LineKind>, c: seq<LineKind>, i: nat)
    requires i <= |a|
    requires SegmentFrom(b, 0) == SegmentFrom(c, 0)
    ensures SegmentFrom(a + b, i) == SegmentFrom(a + c, i)
    decreases |a| - i
  {
    if i < |a| {
      SegmentSamePrefix(a, b, c, i + 1);
      assert (a + b)[i] == a[i] == (a + c)[i];
    } else {
      SegmentShift(a, b, 0);
      SegmentShift(a, c, 0);
    }
  }

  /** The body text a run of lines adds to the open section: each line trimmed and followed by a space, page markers skipped. */
  function BodyText(lines: seq<string>): string
    decreases |lines|
  {
    if lines == [] then ""
    else
      var t := Trim(lines[0]);
      (if IsPageMarker(t) then "" else t + " ") + BodyText(lines[1..])
  }

  /** `f` treats `line` as the segmenter does a line that is no heading. */
  predicate BodyKind(f: string -> LineKind, line: string) {
    if IsPageMarker(Trim(line)) then f(line) == PageMarker else f(line) == Body(Trim(line))
  }

  /** The step of `BodyLinesBy`: one more body line or page marker in front. */
  lemma BodyLineStep(f: string -> LineKind, lines: seq<string>)
    requires lines != [] && BodyKind(f, lines[0])
    requires SegmentFrom(Map(f, lines[1..]), 0) == Segments([], BodyText(lines[1..]))
    ensures SegmentFrom(Map(f, lines), 0) == Segments([], BodyText(lines))
  {
    var k, rest, t := f(lines[0]), Map(f, lines[1..]), Trim(lines[0]);
    assert Map(f, lines) == [k] + rest;
    SegmentShift([k], rest, 0);
    assert SegmentFrom([k] + rest, 0) == Prepend(k, SegmentFrom(rest, 0));
    if IsPageMarker(t) {
      EmptyConcat(BodyText(lines[1..]));
    }
  }

  /** A run of lines that `f` classifies as body lines opens no section and adds its `BodyText`. */
  lemma {:induction false} BodyLinesBy(f: string -> LineKind, lines: seq<string>)
    requires forall j :: 0 <= j < |lines| ==> BodyKind(f, lines[j])
    ensures SegmentFrom(Map(f, lines), 0) == Segments([], BodyText(lines))
    decreases |lines|
  {
    if lines != [] {
      assert BodyKind(f, lines[0]);
      BodyLinesBy(f, lines[1..]);
      BodyLineStep(f, lines);
    }
  }

  /** A line the segmenter does not take for a heading is a body line or a page marker. */
  lemma NoHeadingIsBody(line: string)
    requires !ClassifyLine(line).Heading?
    ensures BodyKind(ClassifyLine, line)
  {
  }

  lemma NoHeadingsAreBodies(lines: seq<string>)
    requires forall j :: 0 <= j < |lines| ==> !ClassifyLine(lines[j]).Heading?
    ensures forall j :: 0 <= j < |lines| ==> BodyKind(ClassifyLine, lines[j])
  {
    forall j | 0 <= j < |lines| ensures BodyKind(ClassifyLine, lines[j]) {
      NoHeadingIsBody(lines[j]);
    }
  }

  /** A run of lines holding no heading opens no section and adds its `BodyText`. */
  lemma BodyLines(lines: seq<string>)
    requires forall j :: 0 <= j < |lines| ==> !ClassifyLine(lines[j]).Heading?
    ensures SegmentFrom(ClassifyLines(lines), 0) == Segments([], BodyText(lines))
  {
    NoHeadingsAreBodies(lines);
    BodyLinesBy(ClassifyLine, lines);
  }

  /** A heading followed by a run that opens no section gives one section. */
  lemma HeadedRun(t: string, rest: seq<LineKind>, b: string)
    requires SegmentFrom(rest, 0) == Segments([], b)
    ensures Map(Trim, SegmentFrom([Heading(t)] + rest, 0).raw) == [Trim(t + "\n" + b)]
  {
    SegmentShift([Heading(t)], rest, 0);
    assert SegmentFrom([Heading(t)] + rest, 0).raw == [t + "\n" + b];
    MapAt(Trim, [t + "\n" + b], 0);
  }

  /** `OneSection` for any classifier that takes `h` for a heading and `body` for body lines. */
  lemma OneSectionBy(f: string -> LineKind, h: string, body: seq<string>)
    requires f(h) == Heading(Trim(h))
    requires forall j :: 0 <= j < |body| ==> BodyKind(f, body[j])
    ensures Map(Trim, SegmentFrom(Map(f, [h] + body), 0).raw) == [Trim(Trim(h) + "\n" + BodyText(body))]
  {
    var t, rest := Trim(h), Map(f, body);
    assert Map(f, [h] + body) == [Heading(t)] + rest by {
      ConcatHead([h], body);
    }
    BodyLinesBy(f, body);
    HeadedRun(t, rest, BodyText(body));
  }

  /** A heading line is classified as one: no page marker is a heading. */
  lemma HeadingClassified(h: string)
    requires IsSectionHeading(Trim(h))
    ensures ClassifyLine(h) == Heading(Trim(h))
  {
    var t := Trim(h);
    assert !IsPageMarker(t) by {
      if |t| >= 2 && t[0] == '-' {
        DashLineIsNoHeading(t);
      }
    }
  }

  /** No line of `lines` is taken for a heading by `f`. */
  predicate NoHeadingsBy(f: string -> LineKind, lines: seq<string>)
    decreases |lines|
  {
    lines == [] || (!f(lines[0]).Heading? && NoHeadingsBy(f, lines[1..]))
  }

  /** No line of `lines` is taken for a heading. */
  predicate NoHeadingLines(lines: seq<string>) {
    NoHeadingsBy(ClassifyLine, lines)
  }

  lemma {:induction false} NoHeadingsByAll(f: string -> LineKind, lines: seq<string>)
    requires NoHeadingsBy(f, lines)
    ensures forall j :: 0 <= j < |lines| ==> !f(lines[j]).Heading?
    decreases |lines|
  {
    if lines != [] {
      NoHeadingsByAll(f, lines[1..]);
      forall j | 0 <= j < |lines| ensures !f(lines[j]).Heading? {
        if j > 0 {
          assert lines[j] == lines[1..][j - 1];
        }
      }
    }
  }

  /** `OneSection` before the sections are traced back to the lines. */
  lemma OneSectionRaw(h: string, body: seq<string>)
    requires IsSectionHeading(Trim(h)) && NoHeadingLines(body)
    ensures Map(Trim, SegmentFrom(Map(ClassifyLine, [h] + body), 0).raw) == [Trim(Trim(h) + "\n" + BodyText(body))]
  {
    HeadingClassified(h);
    NoHeadingsByAll(ClassifyLine, body);
    NoHeadingsAreBodies(body);
    OneSectionBy(ClassifyLine, h, body);
  }

  lemma SectionsOfLines(lines: seq<string>, r: seq<string>)
    requires Map(Trim, SegmentFrom(Map(ClassifyLine, lines), 0).raw) == r
    ensures Sections(lines) == r
  {
  }

  /**
   * A heading line followed by lines that hold no heading is one section:
   * the trimmed heading, a line break, then the body lines in order, each
   * trimmed and followed by a space, the whole trimmed once more
   * (pdfExtractor.ts:106-120).
   */
  lemma OneSection(h: string, body: seq<string>)
    requires IsSectionHeading(Trim(h)) && NoHeadingLines(body)
    ensures Sections([h] + body) == [Trim(Trim(h) + "\n" + BodyText(body))]
  {
    OneSectionRaw(h, body);
    SectionsOfLines([h] + body, [Trim(Trim(h) + "\n" + BodyText(body))]);
  }

  /** The segmentation of `a + b`, when `b`'s own has no pending text, is `a`'s followed by `b`'s sections. */
  lemma {:induction false} SegmentAppendFrom(a: seq<LineKind>, b: seq<LineKind>, i: nat)
    requires i <= |a| && SegmentFrom(b, 0).pending == ""
    ensures SegmentFrom(a + b, i) == Segments(SegmentFrom(a, i).raw + SegmentFrom(b, 0).raw, SegmentFrom(a, i).pending)
    decreases |a| - i
  {
    if i < |a| {
      SegmentAppendFrom(a, b, i + 1);
      assert (a + b)[i] == a[i];
      var x, y := SegmentFrom(a, i + 1), SegmentFrom(b, 0);
      if a[i].Heading? {
        ConcatAssoc([a[i].text + "\n" + x.pending], x.raw, y.raw);
      }
    } else {
      SegmentShift(a, b, 0);
    }
  }

  /** A heading line ends every section before it: the sections of `a + b` are `a`'s, then `b`'s. */
  lemma SectionsAppend(a: seq<string>, b: seq<string>)
    requires b != [] && IsSectionHeading(Trim(b[0]))
    ensures Sections(a + b) == Sections(a) + Sections(b)
  {
    var ka, kb := ClassifyLines(a), ClassifyLines(b);
    MapConcat(ClassifyLine, a, b);
    MapAt(ClassifyLine, b, 0);
    HeadingClassified(b[0]);
    SegmentShift([kb[0]], kb[1..], 0);
    assert kb == [kb[0]] + kb[1..];
    SegmentAppendFrom(ka, kb, 0);
    MapConcat(Trim, SegmentFrom(ka, 0).raw, SegmentFrom(kb, 0).raw);
  }

  /** A heading line and the lines after it, up to the next heading line. */
  datatype Block = Block(heading: string, body: seq<string>)

  /** The lines a run of blocks was cut from. */
  function Unblock(blocks: seq<Block>): seq<string>
    decreases |blocks|
  {
    if blocks == [] then [] else [blocks[0].heading] + blocks[0].body + Unblock(blocks[1..])
  }

  /** Every block opens with a heading line and holds no other. */
  predicate WellBlocked(blocks: seq<Block>)
    decreases |blocks|
  {
    blocks == [] ||
    (IsSectionHeading(Trim(blocks[0].heading)) && NoHeadingLines(blocks[0].body) && WellBlocked(blocks[1..]))
  }

  /** The section a block becomes: its trimmed heading, a line break and its `BodyText`, trimmed. */
  function SectionOf(block: Block): string {
    Trim(Trim(block.heading) + "\n" + BodyText(block.body))
  }

  /** A text's lines cut before each heading line: the lines before the first, then the blocks. */
  datatype Blocking = Blocking(preamble: seq<string>, blocks: seq<Block>)

  function BlocksOf(lines: seq<string>): (r: Blocking)
    ensures r.preamble + Unblock(r.blocks) == lines
    ensures NoHeadingLines(r.preamble) && WellBlocked(r.blocks)
    decreases |lines|
  {
    if lines == [] then Blocking([], [])
    else
      var rest := BlocksOf(lines[1..]);
      var line := lines[0];
      HeadTail(lines);
      if IsSectionHeading(Trim(line)) then
        var r := Blocking([], [Block(line, rest.preamble)] + rest.blocks);
        assert [Block(line, rest.preamble)] + rest.blocks == r.blocks;
        assert Unblock(r.blocks) == [line] + rest.preamble + Unblock(rest.blocks);
        ConcatAssoc([line], rest.preamble, Unblock(rest.blocks));
        EmptyConcat(Unblock(r.blocks));
        r
      else
        ConcatAssoc([line], rest.preamble, Unblock(rest.blocks));
        Blocking([line] + rest.preamble, rest.blocks)
  }

  /** Well-formed blocks become one section each, in order. */
  lemma {:induction false} BlocksSections(blocks: seq<Block>)
    requires WellBlocked(blocks)
    ensures Sections(Unblock(blocks)) == Map(SectionOf, blocks)
    decreases |blocks|
  {
    if blocks == [] {
      assert SegmentFrom(ClassifyLines([]), 0).raw == [];
    } else {
      var b, rest := blocks[0], blocks[1..];
      BlocksSections(rest);
      OneSection(b.heading, b.body);
      var u := Unblock(rest);
      if rest == [] {
        EmptyConcat([b.heading] + b.body);
      } else {
        assert u[0] == rest[0].heading;
        SectionsAppend([b.heading] + b.body, u);
      }
    }
  }

  /**
   * pdfExtractor.ts:101-120 in full: cutting a text's lines before each
   * heading line, section `k` is block `k`'s trimmed heading, a line break
   * and the block's other lines, page markers skipped, each trimmed and
   * followed by a space, the whole trimmed; the lines before the first
   * heading belong to no section.
   */
  lemma SectionsByBlocks(lines: seq<string>)
    ensures Sections(lines) == Map(SectionOf, BlocksOf(lines).blocks)
  {
    var d := BlocksOf(lines);
    NoHeadingsByAll(ClassifyLine, d.preamble);
    PreambleDropped(d.preamble, Unblock(d.blocks));
    BlocksSections(d.blocks);
  }

  /** A trimmed line that is neither a page marker nor a heading is classified as a body line. */
  lemma BodyClassified(l: string)
    requires IsTrimmed(l) && !IsPageMarker(l) && !IsSectionHeading(l)
    ensures ClassifyLine(l) == Body(l)
  {
    TrimOfTrimmed(l);
  }

  /** The trailing space a body line brings is trimmed off a section ending in that line. */
  lemma TrimTrailingSpace(s: string)
    requires s != [] && !IsSpace(s[0]) && !IsSpace(s[|s| - 1])
    ensures Trim(s + " ") == s
  {
    TrimStartOfNonSpace(s + " ");
    TrimEndConcat(s, " ");
    assert TrimEnd(" ") == [];
    TrimEndOfNonSpace(s);
  }

  /** A heading and one body line, closed: the two joined by a line break. */
  lemma HeadingLineSection(h: string, l: string)
    requires h != [] && !IsSpace(h[0]) && l != [] && !IsSpace(l[|l| - 1])
    ensures Trim(h + "\n" + (l + " " + "")) == h + "\n" + l
  {
    var s := h + "\n" + l;
    assert h + "\n" + (l + " " + "") == s + " ";
    TrimTrailingSpace(s);
  }

  /**
   * For any classifier that takes `h1` and `h2` for headings and `l1` and
   * `l2` for body lines, the four lines make two sections of two lines each.
   */
  lemma TwoSectionsBy(f: string -> LineKind, h1: string, l1: string, h2: string, l2: string)
    requires f(h1) == Heading(h1) && f(l1) == Body(l1) && f(h2) == Heading(h2) && f(l2) == Body(l2)
    requires h1 != [] && !IsSpace(h1[0]) && l1 != [] && !IsSpace(l1[|l1| - 1])
    requires h2 != [] && !IsSpace(h2[0]) && l2 != [] && !IsSpace(l2[|l2| - 1])
    ensures Map(Trim, SegmentFrom(Map(f, [h1, l1, h2, l2]), 0).raw) == [h1 + "\n" + l1, h2 + "\n" + l2]
  {
    var lines := [h1, l1, h2, l2];
    var k := Map(f, lines);
    MapAt(f, lines, 0);
    MapAt(f, lines, 1);
    MapAt(f, lines, 2);
    MapAt(f, lines, 3);
    assert SegmentFrom(k, 4) == Segments([], "");
    assert SegmentFrom(k, 3) == Segments([], l2 + " " + "");
    var c2 := h2 + "\n" + (l2 + " " + "");
    assert SegmentFrom(k, 2) == Segments([c2], "");
    assert SegmentFrom(k, 1) == Segments([c2], l1 + " " + "");
    var c1 := h1 + "\n" + (l1 + " " + "");
    var raw := SegmentFrom(k, 0).raw;
    assert raw == [c1, c2];
    MapAt(Trim, raw, 0);
    MapAt(Trim, raw, 1);
    HeadingLineSection(h1, l1);
    HeadingLineSection(h2, l2);
  }

  /** A line without a line break in front of more text is split off as the first line. */
  lemma FirstLine(a: string, rest: string)
    requires Avoids(a, {'\n'})
    ensures SplitLines(a + "\n" + rest) == [a] + SplitLines(rest)
  {
    SplitCharsConcat(a, '\n', rest, {'\n'});
    SplitCharsAvoiding(a, {'\n'});
  }

  const IntroHeading := "I. Introduction"
  const IntroLine := "Hello world."
  const ConclusionHeading := "II. Conclusion"
  const ConclusionLine := "Bye."
  /** Two numbered sections of one line each. */
  const TwoSectionText := IntroHeading + "\n" + IntroLine + "\n" + ConclusionHeading + "\n" + ConclusionLine

  lemma TwoSectionLines()
    ensures SplitLines(TwoSectionText) == [IntroHeading, IntroLine, ConclusionHeading, ConclusionLine]
  {
    var t3 := ConclusionHeading + "\n" + ConclusionLine;
    var t2 := IntroLine + "\n" + t3;
    assert TwoSectionText == IntroHeading + "\n" + t2;
    FirstLine(IntroHeading, t2);
    FirstLine(IntroLine, t3);
    TwoLines(ConclusionHeading, ConclusionLine);
  }

  lemma IntroName()
    ensures StartsWithName("Introduction", SectionNames)
  {
    var s := "Introduction";
    assert SectionNames[2] == "introduction";
    StartsWithCIOf(s, "introduction");
    NameAt(s, SectionNames, 2);
  }

  lemma ConclusionName()
    ensures StartsWithName("Conclusion", SectionNames)
  {
    var s := "Conclusion";
    assert SectionNames[13] == "conclusion";
    StartsWithCIOf(s, "conclusion");
    NameAt(s, SectionNames, 13);
  }

  lemma IntroIsHeading()
    ensures IsSectionHeading(IntroHeading)
  {
    assert IntroHeading == "I" + "." + " " + "Introduction";
    IntroName();
    NumberedHeading("I", " ", "Introduction");
  }

  lemma ConclusionIsHeading()
    ensures IsSectionHeading(ConclusionHeading)
  {
    assert ConclusionHeading == "II" + "." + " " + "Conclusion";
    ConclusionName();
    NumberedHeading("II", " ", "Conclusion");
  }

  /** A line whose first letters open no heading and no page marker, with no whitespace at either end, is a body line. */
  lemma PlainLine(l: string)
    requires |l| >= 2 && !IsSpace(l[0]) && !IsSpace(l[|l| - 1]) && l[0] != '-' && !IsNumeralCI(l[0])
    requires ToLower(l[0]) !in "acdfiklmr" && (ToLower(l[0]) == 'b' ==> ToLower(l[1]) != 'a')
    ensures ClassifyLine(l) == Body(l)
  {
    NoDashNoMarker(l);
    NoNameLine(l);
    BodyClassified(l);
  }

  lemma IntroLineKind()
    ensures ClassifyLine(IntroLine) == Body(IntroLine)
  {
    var l := IntroLine;
    assert |l| >= 2 && l[0] == 'H' && l[|l| - 1] == '.';
    assert ToLower(l[0]) == 'h';
    PlainLine(l);
  }

  lemma ConclusionLineKind()
    ensures ClassifyLine(ConclusionLine) == Body(ConclusionLine)
  {
    var l := ConclusionLine;
    assert |l| >= 2 && l[0] == 'B' && l[1] == 'y' && l[|l| - 1] == '.';
    assert ToLower(l[0]) == 'b' && ToLower(l[1]) == 'y';
    PlainLine(l);
  }

  lemma IntroHeadingKind()
    ensures ClassifyLine(IntroHeading) == Heading(IntroHeading)
  {
    var h := IntroHeading;
    assert h[0] == 'I' && h[|h| - 1] == 'n';
    IntroIsHeading();
    TrimOfTrimmed(h);
    HeadingClassified(h);
  }

  lemma ConclusionHeadingKind()
    ensures ClassifyLine(ConclusionHeading) == Heading(ConclusionHeading)
  {
    var h := ConclusionHeading;
    assert h[0] == 'I' && h[|h| - 1] == 'n';
    ConclusionIsHeading();
    TrimOfTrimmed(h);
    HeadingClassified(h);
  }

  /** A text that splits into two headings, each followed by one body line, has those two sections. */
  lemma TwoSectionsOf(text: string, h1: string, l1: string, h2: string, l2: string)
    requires SplitLines(text) == [h1, l1, h2, l2]
    requires ClassifyLine(h1) == Heading(h1) && ClassifyLine(l1) == Body(l1)
    requires ClassifyLine(h2) == Heading(h2) && ClassifyLine(l2) == Body(l2)
    requires h1 != [] && !IsSpace(h1[0]) && l1 != [] && !IsSpace(l1[|l1| - 1])
    requires h2 != [] && !IsSpace(h2[0]) && l2 != [] && !IsSpace(l2[|l2| - 1])
    ensures Sections(SplitLines(text)) == [h1 + "\n" + l1, h2 + "\n" + l2]
  {
    TwoSectionsBy(ClassifyLine, h1, l1, h2, l2);
    SectionsOfLines([h1, l1, h2, l2], [h1 + "\n" + l1, h2 + "\n" + l2]);
  }

  /**
   * Two numbered headings, each followed by one line, give two sections,
   * each its heading, the line break the code inserts, and its line.
   */
  lemma TwoSectionScenario()
    ensures Sections(SplitLines(TwoSectionText)) == [IntroHeading + "\n" + IntroLine, ConclusionHeading + "\n" + ConclusionLine]
    ensures Sections(SplitLines(TwoSectionText)) == ["I. Introduction\nHello world.", "II. Conclusion\nBye."]
  {
    var h1, l1, h2, l2 := IntroHeading, IntroLine, ConclusionHeading, ConclusionLine;
    TwoSectionLines();
    IntroHeadingKind();
    IntroLineKind();
    ConclusionHeadingKind();
    ConclusionLineKind();
    TwoSectionStrings();
    TwoSectionsOf(TwoSectionText, h1, l1, h2, l2);
  }

  lemma TwoSectionStrings()
    ensures IntroHeading != [] && !IsSpace(IntroHeading[0]) && IntroLine != [] && !IsSpace(IntroLine[|IntroLine| - 1])
    ensures ConclusionHeading != [] && !IsSpace(ConclusionHeading[0]) && ConclusionLine != [] && !IsSpace(ConclusionLine[|ConclusionLine| - 1])
    ensures IsTrimmed(IntroHeading) && IsTrimmed(IntroLine) && IsTrimmed(ConclusionHeading) && IsTrimmed(ConclusionLine)
    ensures IntroHeading + "\n" + IntroLine == "I. Introduction\nHello world."
    ensures ConclusionHeading + "\n" + ConclusionLine == "II. Conclusion\nBye."
  {
  }

  /** A page-marker line changes no section, wherever it stands (pdfExtractor.ts:107). */
  lemma MarkerDroppedBy(f: string -> LineKind, a: seq<string>, m: string, b: seq<string>)
    requires f(m) == PageMarker
    ensures SegmentFrom(Map(f, a + [m] + b), 0) == SegmentFrom(Map(f, a + b), 0)
  {
    var ka, kb := Map(f, a), Map(f, b);
    MapConcat(f, a + [m], b);
    MapConcat(f, a, [m]);
    MapConcat(f, a, b);
    MapAt(f, [m], 0);
    assert Map(f, [m]) == [PageMarker];
    SegmentShift([PageMarker], kb, 0);
    SegmentSamePrefix(ka, [PageMarker] + kb, kb, 0);
    assert ka + [PageMarker] + kb == ka + ([PageMarker] + kb);
  }

  lemma MarkerDropped(a: seq<string>, m: string, b: seq<string>)
    requires ClassifyLine(m) == PageMarker
    ensures Sections(a + [m] + b) == Sections(a + b)
  {
    MarkerDroppedBy(ClassifyLine, a, m, b);
  }

  /** Lines before the first heading belong to no section. */
  lemma {:induction false} PreambleFrom(pre: seq<LineKind>, post: seq<LineKind>, i: nat)
    requires i <= |pre|
    requires forall j :: 0 <= j < |pre| ==> !pre[j].Heading?
    ensures SegmentFrom(pre + post, i).raw == SegmentFrom(post, 0).raw
    decreases |pre| - i
  {
    if i < |pre| {
      PreambleFrom(pre, post, i + 1);
      assert (pre + post)[i] == pre[i];
    } else {
      SegmentShift(pre, post, 0);
    }
  }

  lemma PreambleDropped(pre: seq<string>, post: seq<string>)
    requires forall j :: 0 <= j < |pre| ==> !ClassifyLine(pre[j]).Heading?
    ensures Sections(pre + post) == Sections(post)
  {
    MapConcat(ClassifyLine, pre, post);
    var kinds := ClassifyLines(pre);
    forall j | 0 <= j < |pre| ensures !kinds[j].Heading? {
      MapAt(ClassifyLine, pre, j);
    }
    PreambleFrom(kinds, ClassifyLines(post), 0);
  }

  // ------------------------------------------------------------ the object

  /** `PDFExtractor` (pdfExtractor.ts:19-129): the two fields its methods assign. */
  class PdfExtractor {
    var metadata: PdfMetadata
    var content: PdfContent

    constructor ()
      ensures metadata == EmptyMetadata && content == PdfContent(EmptyMetadata, [])
    {
      metadata := EmptyMetadata;
      content := PdfContent(EmptyMetadata, []);
    }

    /** `extractMetadata` (pdfExtractor.ts:27-92) on the text, info and page total the library reports. */
    method ExtractMetadata(text: string, info: DocumentInfo, total: nat)
      modifies this`metadata
      ensures metadata == PdfMetadata(
        Some(TitleOf(info.title, SplitLines(text))),
        Some(KeywordsOf(SplitLines(text))),
        info.creationDate,
        Some(total))
      ensures content == old(content)
    {
      var lines := SplitLines(text);
      var titleLines: seq<string> := [];
      if NeedsDerivedTitle(info.title) {
        titleLines := ScanTitle(lines);
      }
      var keywordsLines := ScanKeywords(lines);
      metadata := PdfMetadata(
        Some(Join(titleLines, " ")),
        Some(SplitKeywords(Join(keywordsLines, " "))),
        info.creationDate,
        Some(total));
    }

    /** `readPdf` (pdfExtractor.ts:95-128): segment the text and store it with the current metadata. */
    method ReadPdf(text: string)
      modifies this`content
      ensures content == PdfContent(metadata, Sections(SplitLines(text)))
      ensures metadata == old(metadata)
    {
      var sections := Segment(text);
      content := PdfContent(metadata, sections);
    }
  }
}
