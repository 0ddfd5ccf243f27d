/**
 * The fixed regular expressions of pdfExtractor.ts, each written out as a
 * predicate or a small matcher. Every matcher follows the backtracking of the
 * regex it replaces; where a greedy repetition is followed by a token its
 * characters cannot start, the greedy run is the only one that can succeed.
 */
module Patterns {
  import opened Options
  import opened Strings
  import opened Sequences

  predicate IsUpper(c: char) { 'A' <= c <= 'Z' }
  predicate IsLower(c: char) { 'a' <= c <= 'z' }
  predicate IsDigit(c: char) { '0' <= c <= '9' }

  /** The characters of `\w`, which decide `\b`. */
  predicate IsWordChar(c: char) { IsUpper(c) || IsLower(c) || IsDigit(c) || c == '_' }

  /** The characters `.` does not match. */
  predicate IsLineTerminator(c: char) {
    c == '\n' || c == '\r' || c == '\U{2028}' || c == '\U{2029}'
  }

  // ------------------------------------------------------------ title stops

  /** `/^[A-Z][a-z]+$/`: a capital letter followed by one or more lower-case letters. */
  predicate IsCapitalisedName(w: string) {
    |w| >= 2 && IsUpper(w[0]) && forall i :: 1 <= i < |w| ==> IsLower(w[i])
  }

  /** pdfExtractor.ts:40-43: at most two space-separated tokens, each a capitalised name. */
  predicate IsAuthorLine(line: string) {
    var words := SplitChars(line, {' '});
    |words| <= 2 && forall i :: 0 <= i < |words| ==> IsCapitalisedName(words[i])
  }

  /** `/University|Institute|College|School/i`. */
  predicate IsAffiliationLine(line: string) {
    ContainsCI(line, "university") || ContainsCI(line, "institute")
    || ContainsCI(line, "college") || ContainsCI(line, "school")
  }

  /** A line that ends the title scan (pdfExtractor.ts:44-48). */
  predicate IsTitleStop(line: string) {
    IsAuthorLine(line) || '@' in line || IsAffiliationLine(line)
  }

  /** Two capitalised names with one space between them. */
  predicate TwoNames(line: string) {
    exists k :: 0 < k < |line| && line[k] == ' ' && IsCapitalisedName(line[..k]) && IsCapitalisedName(line[k + 1..])
  }

  lemma NameAvoidsSpace(w: string)
    requires IsCapitalisedName(w)
    ensures Avoids(w, {' '})
  {
    assert forall i :: 0 <= i < |w| ==> IsUpper(w[i]) || IsLower(w[i]);
  }

  /** An author-like line is one of its at most two space-separated tokens, or both with the space. */
  lemma AuthorLineTokens(line: string)
    requires IsAuthorLine(line)
    ensures IsCapitalisedName(line) || TwoNames(line)
  {
    var words := SplitChars(line, {' '});
    JoinSplitChars(line, ' ');
    if |words| == 2 {
      assert line == words[0] + " " + words[1];
      var k := |words[0]|;
      assert line[..k] == words[0] && line[k + 1..] == words[1];
    }
  }

  /**
   * pdfExtractor.ts:40-43: a line is author-like exactly when it is one
   * capitalised name, or two joined by a single space; so the empty line,
   * a line with two spaces in a row or with a trailing space never is.
   */
  lemma AuthorLineShape(line: string)
    ensures IsAuthorLine(line) <==> IsCapitalisedName(line) || TwoNames(line)
    ensures IsAuthorLine(line) ==> |line| >= 2
  {
    if IsAuthorLine(line) {
      AuthorLineTokens(line);
    } else if IsCapitalisedName(line) {
      NameIsAuthorLine(line);
    } else if TwoNames(line) {
      var k :| 0 < k < |line| && line[k] == ' ' && IsCapitalisedName(line[..k]) && IsCapitalisedName(line[k + 1..]);
      TwoNamesAreAuthorLine(line, k);
    }
  }

  /** One capitalised name is an author-like line. */
  lemma NameIsAuthorLine(line: string)
    requires IsCapitalisedName(line)
    ensures IsAuthorLine(line)
  {
    NameAvoidsSpace(line);
    SplitCharsAvoiding(line, {' '});
  }

  /** Two capitalised names joined by the space at `k` are an author-like line. */
  lemma TwoNamesAreAuthorLine(line: string, k: nat)
    requires 0 < k < |line| && line[k] == ' ' && IsCapitalisedName(line[..k]) && IsCapitalisedName(line[k + 1..])
    ensures IsAuthorLine(line)
  {
    var a, b := line[..k], line[k + 1..];
    NameAvoidsSpace(a);
    NameAvoidsSpace(b);
    assert line == Join([a, b], " ");
    SplitJoinChars([a, b], ' ');
  }

  /** `/paper title/i`, the placeholder an embedded title is checked against. */
  predicate IsPlaceholderTitle(title: string) {
    ContainsCI(title, "paper title")
  }

  // --------------------------------------------------------------- keywords

  /** `/Keywords/i`. */
  predicate HasKeywordsMarker(line: string) {
    ContainsCI(line, "keywords")
  }

  /** `[—:-]`. */
  predicate IsKeywordSeparator(c: char) {
    c == '\U{2014}' || c == ':' || c == '-'
  }

  /** Length of the leading run of characters `.` matches (a greedy `.+` or `.*`). */
  function DotEnd(s: string): (k: nat)
    ensures k <= |s|
    ensures forall i :: 0 <= i < k ==> !IsLineTerminator(s[i])
    ensures k < |s| ==> IsLineTerminator(s[k])
  {
    if s == [] || IsLineTerminator(s[0]) then 0 else 1 + DotEnd(s[1..])
  }

  /**
   * `\s*(.+)` at the start of `s`, given that the greedy `\s*` has been cut
   * back to its first `t` characters: the capture of `(.+)`, trying `t` and
   * then each shorter `\s*` in turn.
   */
  function DotCapture(s: string, t: nat): (r: Option<string>)
    requires t <= |s|
    ensures r.Some? ==> r.value != [] && forall i :: 0 <= i < |r.value| ==> !IsLineTerminator(r.value[i])
    decreases t
  {
    var n := DotEnd(s[t..]);
    if n > 0 then Some(s[t..t + n])
    else if t == 0 then None
    else DotCapture(s, t - 1)
  }

  /** `Keywords\s*[—:-]\s*(.+)` (ignoring case) anchored at the start of `s`: the captured group. */
  function KeywordValueHere(s: string): Option<string> {
    if !StartsWithCI(s, "keywords") then None
    else
      StartsWithCILength(s, "keywords");
      var a := 8 + SpaceEnd(s[8..]);
      if a < |s| && IsKeywordSeparator(s[a]) then
        var rest := s[a + 1..];
        DotCapture(rest, SpaceEnd(rest))
      else None
  }

  /** `line.match(/Keywords\s*[—:-]\s*(.+)/i)[1]`: the group of the leftmost match, if there is one. */
  function InlineKeywordValue(line: string): (r: Option<string>)
    ensures r.Some? ==> r.value != []
    decreases |line|
  {
    if line == [] then None
    else match KeywordValueHere(line)
      case Some(v) => Some(v)
      case None => InlineKeywordValue(line[1..])
  }

  /** `.` matches the whole of a string without line terminators. */
  lemma DotEndAll(s: string)
    requires forall i :: 0 <= i < |s| ==> !IsLineTerminator(s[i])
    ensures DotEnd(s) == |s|
  {
  }

  /** `Keywords`, in any case, at the start of a line. */
  lemma MarkerFirst(m: string, t: string)
    requires |m| == 8 && forall i :: 0 <= i < 8 ==> ToLower(m[i]) == ToLower("keywords"[i])
    ensures StartsWithCI(m + t, "keywords") && (m + t)[8..] == t
  {
    StartsWithCIOf(m + t, "keywords");
  }

  /** A greedy `\s*` over a whitespace run stops where the run ends. */
  lemma {:induction false} SpaceEndOfRun(w: string, s: string)
    requires AllSpace(w) && (s == [] || !IsSpace(s[0]))
    ensures SpaceEnd(w + s) == |w|
    decreases |w|
  {
    if w != [] {
      ConcatHead(w, s);
      SpaceEndOfRun(w[1..], s);
    }
  }

  /** After a whitespace run, `(.+)` captures a whole value that starts with no whitespace and has no line terminator. */
  lemma CaptureAfterSpaces(w: string, v: string)
    requires AllSpace(w)
    requires v != [] && !IsSpace(v[0]) && forall i :: 0 <= i < |v| ==> !IsLineTerminator(v[i])
    ensures DotCapture(w + v, SpaceEnd(w + v)) == Some(v)
  {
    var rest := w + v;
    SpaceEndOfRun(w, v);
    assert rest[|w|..] == v;
    DotEndAll(v);
    assert rest[|w|..|w| + |v|] == v;
  }

  /**
   * pdfExtractor.ts:62-63: a line `Keywords`, a whitespace run, one of the
   * separators `—`, `:` or `-`, another whitespace run and then `v` (the
   * marker in any case) carries the value `v` when `v` starts with no
   * whitespace and is one line.
   */
  lemma InlineValueAfterMarker(m: string, s1: string, sep: char, s2: string, v: string)
    requires |m| == 8 && forall i :: 0 <= i < 8 ==> ToLower(m[i]) == ToLower("keywords"[i])
    requires AllSpace(s1) && IsKeywordSeparator(sep) && AllSpace(s2)
    requires v != [] && !IsSpace(v[0]) && forall i :: 0 <= i < |v| ==> !IsLineTerminator(v[i])
    ensures HasKeywordsMarker(m + s1 + [sep] + s2 + v)
    ensures InlineKeywordValue(m + s1 + [sep] + s2 + v) == Some(v)
  {
    var rest := s2 + v;
    var t := s1 + ([sep] + rest);
    var line := m + t;
    assert line == m + s1 + [sep] + s2 + v;
    MarkerFirst(m, t);
    SpaceEndOfRun(s1, [sep] + rest);
    CaptureAfterSpaces(s2, v);
    ValueAfterSeparator(line, t, s1, sep, rest, v);
  }

  /** The matcher's steps on a line `Keywords` + `t`, with `t` a whitespace run, a separator and `rest`. */
  lemma ValueAfterSeparator(line: string, t: string, s1: string, sep: char, rest: string, v: string)
    requires StartsWithCI(line, "keywords") && |line| >= 8 && line[8..] == t
    requires t == s1 + ([sep] + rest) && SpaceEnd(t) == |s1| && IsKeywordSeparator(sep)
    requires DotCapture(rest, SpaceEnd(rest)) == Some(v)
    ensures HasKeywordsMarker(line) && InlineKeywordValue(line) == Some(v)
  {
    assert line[8 + |s1|] == t[|s1|] == sep;
    assert line[8 + |s1| + 1..] == t[|s1| + 1..] == rest;
  }

  /** `[IVXLC0-9]`, upper case only. */
  predicate IsNumeral(c: char) {
    c == 'I' || c == 'V' || c == 'X' || c == 'L' || c == 'C' || IsDigit(c)
  }

  function NumeralEnd(s: string): (k: nat)
    ensures k <= |s|
    ensures forall i :: 0 <= i < k ==> IsNumeral(s[i])
    ensures k < |s| ==> !IsNumeral(s[k])
  {
    if s == [] || !IsNumeral(s[0]) then 0 else 1 + NumeralEnd(s[1..])
  }

  /** `/^[IVXLC0-9]+\.\s+/`, which is case-sensitive (pdfExtractor.ts:71). */
  predicate IsNumberedHeader(line: string) {
    var k := NumeralEnd(line);
    0 < k && k + 1 < |line| && line[k] == '.' && IsSpace(line[k + 1])
  }

  /** `/References|REFERENCES|ACM Reference Format/i`. */
  predicate IsReferencesLine(line: string) {
    ContainsCI(line, "references") || ContainsCI(line, "acm reference format")
  }

  /** A line that ends keyword capture (pdfExtractor.ts:71-75); the empty test is on the untrimmed line. */
  predicate IsKeywordStop(line: string) {
    IsNumberedHeader(line) || |line| == 0 || IsReferencesLine(line)
  }

  // ------------------------------------------------------------- segmenter

  function DigitEnd(s: string): (k: nat)
    ensures k <= |s|
    ensures forall i :: 0 <= i < k ==> IsDigit(s[i])
    ensures k < |s| ==> !IsDigit(s[k])
  {
    if s == [] || !IsDigit(s[0]) then 0 else 1 + DigitEnd(s[1..])
  }

  /** `/^--\s*\d+\s+of\s+\d+\s*--$/i`, e.g. `-- 3 of 12 --`. */
  predicate IsPageMarker(t: string) {
    |t| >= 2 && t[0] == '-' && t[1] == '-' &&
    var a := 2 + SpaceEnd(t[2..]);
    var b := a + DigitEnd(t[a..]);
    var c := b + SpaceEnd(t[b..]);
    a < b && b < c && c + 2 <= |t| && ToLower(t[c]) == 'o' && ToLower(t[c + 1]) == 'f' &&
    var d := c + 2 + SpaceEnd(t[c + 2..]);
    var e := d + DigitEnd(t[d..]);
    var f := e + SpaceEnd(t[e..]);
    c + 2 < d && d < e && t[f..] == "--"
  }

  /** The alternatives of the section-name group of pdfExtractor.ts:103 (`Acknowledgments?` gives two). */
  const SectionNames: seq<string> := [
    "abstract", "keywords", "introduction", "background", "related work",
    "literature review", "methodology", "methods", "materials and methods",
    "results", "findings", "discussion", "analysis", "conclusion", "conclusions",
    "future work", "references", "acknowledgment", "acknowledgments", "appendix"
  ]

  /** `\b` after the first `k` characters of `s`, given that `s[k - 1]` is a letter. */
  predicate BoundaryAt(s: string, k: nat) {
    k <= |s| && (k == |s| || !IsWordChar(s[k]))
  }

  /** `s` begins with one of `names`, ignoring case, followed by a word boundary. */
  predicate StartsWithName(s: string, names: seq<string>)
    decreases |names|
  {
    names != [] &&
    ((StartsWithCI(s, names[0]) && BoundaryAt(s, |names[0]|)) || StartsWithName(s, names[1..]))
  }

  /** `[IVXLC0-9]` under the `/i` flag. */
  predicate IsNumeralCI(c: char) {
    IsNumeral(c) || c == 'i' || c == 'v' || c == 'x' || c == 'l' || c == 'c'
  }

  function NumeralCIEnd(s: string): (k: nat)
    ensures k <= |s|
    ensures forall i :: 0 <= i < k ==> IsNumeralCI(s[i])
    ensures k < |s| ==> !IsNumeralCI(s[k])
  {
    if s == [] || !IsNumeralCI(s[0]) then 0 else 1 + NumeralCIEnd(s[1..])
  }

  /** `/^([IVXLC0-9]+\.\s*)?(Abstract|…|Appendix)\b/i`: with the numbering group, or without it. */
  predicate IsSectionHeading(t: string) {
    HeadingWith(t, SectionNames)
  }

  /** The heading pattern over the name alternatives `names`. */
  predicate HeadingWith(t: string, names: seq<string>) {
    StartsWithName(t, names) || NumberedWith(t, names)
  }

  /** The alternative with the numbering group. */
  predicate NumberedWith(t: string, names: seq<string>) {
    var k := NumeralCIEnd(t);
    0 < k && k < |t| && t[k] == '.' &&
    var m := k + 1 + SpaceEnd(t[k + 1..]);
    StartsWithName(t[m..], names)
  }

  /** One name that matches, with a boundary after it, is enough. */
  lemma {:induction false} NameAt(s: string, names: seq<string>, i: nat)
    requires i < |names| && StartsWithCI(s, names[i]) && BoundaryAt(s, |names[i]|)
    ensures StartsWithName(s, names)
    decreases i
  {
    if i > 0 {
      NameAt(s, names[1..], i - 1);
    }
  }

  /** No name matches when none is a prefix of `s`, up to case. */
  lemma {:induction false} NoNameAt(s: string, names: seq<string>)
    requires forall i :: 0 <= i < |names| ==> !StartsWithCI(s, names[i])
    ensures !StartsWithName(s, names)
    decreases |names|
  {
    if names != [] {
      assert !StartsWithCI(s, names[0]);
      NoNameAt(s, names[1..]);
    }
  }

  /** The numeral run ends where the numerals do. */
  lemma {:induction false} NumeralCIEndOfRun(n: string, s: string)
    requires forall i :: 0 <= i < |n| ==> IsNumeralCI(n[i])
    requires s == [] || !IsNumeralCI(s[0])
    ensures NumeralCIEnd(n + s) == |n|
    decreases |n|
  {
    if n != [] {
      ConcatHead(n, s);
      NumeralCIEndOfRun(n[1..], s);
    }
  }

  /** Where the parts of numerals, a dot, a whitespace run and a name begin and end. */
  lemma NumberedParts(n: string, w: string, name: string)
    requires forall i :: 0 <= i < |n| ==> IsNumeralCI(n[i])
    requires AllSpace(w) && (name == [] || !IsSpace(name[0]))
    ensures var t := n + "." + w + name;
      NumeralCIEnd(t) == |n| && t[|n|] == '.' && SpaceEnd(t[|n| + 1..]) == |w| && t[|n| + 1 + |w|..] == name
  {
    var rest := w + name;
    var t := n + ("." + rest);
    assert n + "." + w + name == t;
    NumeralCIEndOfRun(n, "." + rest);
    SpaceEndOfRun(w, name);
    assert t[|n| + 1..] == rest;
  }

  /** The numbered alternative, given where its parts end. */
  lemma NumberedNameAt(t: string, k: nat, m: nat, names: seq<string>)
    requires 0 < k < |t| && NumeralCIEnd(t) == k && t[k] == '.'
    requires m == k + 1 + SpaceEnd(t[k + 1..]) && StartsWithName(t[m..], names)
    ensures HeadingWith(t, names)
  {
    assert NumberedWith(t, names);
  }

  /** Numerals, a dot, a whitespace run and then a section name make a heading. */
  lemma NumberedHeading(n: string, w: string, name: string)
    requires n != [] && forall i :: 0 <= i < |n| ==> IsNumeralCI(n[i])
    requires AllSpace(w) && name != [] && !IsSpace(name[0]) && StartsWithName(name, SectionNames)
    ensures IsSectionHeading(n + "." + w + name)
  {
    NumberedParts(n, w, name);
    NumberedNameAt(n + "." + w + name, |n|, |n| + 1 + |w|, SectionNames);
  }

  /** The first letters of the section names; only `background` starts with `b`. */
  lemma SectionInitials()
    ensures forall i :: 0 <= i < |SectionNames| ==>
      |SectionNames[i]| >= 2 && SectionNames[i][0] in "abcdfiklmr" && (SectionNames[i][0] == 'b' ==> SectionNames[i][1] == 'a')
  {
  }

  /** The first two characters of a case-insensitive prefix. */
  lemma StartsTwo(s: string, p: string)
    requires StartsWithCI(s, p) && |p| >= 2
    ensures |s| >= 2 && ToLower(s[0]) == ToLower(p[0]) && ToLower(s[1]) == ToLower(p[1])
  {
    assert StartsWithCI(s[1..], p[1..]);
    assert s[1..][0] == s[1];
  }

  /** A line opening with no numeral and with letters no section name opens with is no heading. */
  lemma NoNameLine(l: string)
    requires |l| >= 2 && !IsNumeralCI(l[0]) && ToLower(l[0]) !in "acdfiklmr"
    requires ToLower(l[0]) == 'b' ==> ToLower(l[1]) != 'a'
    ensures !IsSectionHeading(l)
  {
    SectionInitials();
    forall i | 0 <= i < |SectionNames| ensures !StartsWithCI(l, SectionNames[i]) {
      var p := SectionNames[i];
      if StartsWithCI(l, p) {
        StartsTwo(l, p);
      }
    }
    NoNameAt(l, SectionNames);
    assert NumeralCIEnd(l) == 0;
    assert !NumberedWith(l, SectionNames);
  }

  /** A page marker starts with `-`. */
  lemma NoDashNoMarker(t: string)
    requires t == [] || t[0] != '-'
    ensures !IsPageMarker(t)
  {
  }

  /** A line that is both a page marker and a heading cannot exist: the first starts with `-`. */
  lemma {:induction false} StartsWithNameNotDash(s: string, names: seq<string>)
    requires s != [] && s[0] == '-'
    requires forall i :: 0 <= i < |names| ==> names[i] != [] && IsLower(names[i][0])
    ensures !StartsWithName(s, names)
    decreases |names|
  {
    if names != [] {
      StartsWithNameNotDash(s, names[1..]);
    }
  }

  /** Every section name begins with a lower-case letter. */
  lemma SectionNamesStartLower()
    ensures forall i :: 0 <= i < |SectionNames| ==> SectionNames[i] != [] && IsLower(SectionNames[i][0])
  {
  }

  /** A line beginning with `-` is no heading; every page marker is such a line. */
  lemma DashLineIsNoHeading(t: string)
    requires t != [] && t[0] == '-'
    ensures !IsSectionHeading(t)
  {
    assert !IsNumeralCI(t[0]);
    assert NumeralCIEnd(t) == 0;
    SectionNamesStartLower();
    StartsWithNameNotDash(t, SectionNames);
  }

  /** No name occurs at the start of the empty string. */
  lemma {:induction false} NoNameInEmpty(names: seq<string>)
    requires forall i :: 0 <= i < |names| ==> names[i] != []
    ensures !StartsWithName("", names)
    decreases |names|
  {
    if names != [] {
      NoNameInEmpty(names[1..]);
    }
  }

  /** The empty line is no heading. */
  lemma EmptyIsNoHeading()
    ensures !IsSectionHeading("")
  {
    SectionNamesStartLower();
    NoNameInEmpty(SectionNames);
  }
}
