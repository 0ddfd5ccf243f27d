/** The optional values of the TypeScript model (`undefined` or a value). */
module Options {
  datatype Option<T> = None | Some(value: T)
}

/** `Array.prototype.map` on sequences, with the two facts proofs about it use. */
module Sequences {
  function Map<A, B>(f: A -> B, xs: seq<A>): (r: seq<B>)
    ensures |r| == |xs|
    decreases |xs|
  {
    if xs == [] then [] else [f(xs[0])] + Map(f, xs[1..])
  }

  lemma {:induction false} MapAt<A, B>(f: A -> B, xs: seq<A>, i: nat)
    requires i < |xs|
    ensures Map(f, xs)[i] == f(xs[i])
    decreases i
  {
    if i > 0 {
      MapAt(f, xs[1..], i - 1);
    }
  }

  /** Head and tail of a concatenation whose left part is not empty. */
  lemma ConcatHead<T>(a: seq<T>, b: seq<T>)
    requires a != []
    ensures (a + b)[0] == a[0] && (a + b)[1..] == a[1..] + b
  {
  }

  lemma HeadTail<T>(s: seq<T>)
    requires s != []
    ensures [s[0]] + s[1..] == s
  {
  }

  lemma TakeDrop<T>(s: seq<T>, n: nat)
    requires n <= |s|
    ensures s[..n] + s[n..] == s
  {
  }

  lemma EmptyConcat<T>(s: seq<T>)
    ensures [] + s == s && s + [] == s
  {
  }

  /** Cutting `a + b` inside `a`. */
  lemma ConcatCut<T>(a: seq<T>, b: seq<T>, k: nat)
    requires k <= |a|
    ensures (a + b)[..k] == a[..k] && (a + b)[k..] == a[k..] + b
  {
  }

  /** `a` begins `b`. */
  ghost predicate IsPrefix<T>(a: seq<T>, b: seq<T>) {
    |a| <= |b| && b[..|a|] == a
  }

  lemma PrefixExtend<T>(a: seq<T>, b: seq<T>, c: seq<T>)
    requires IsPrefix(a, b)
    ensures IsPrefix(a, b + c)
  {
    ConcatCut(b, c, |a|);
  }

  lemma WholeSlices<T>(s: seq<T>)
    ensures s[..|s|] == s && s[|s|..] == []
  {
  }

  /** `s` is the part before `j`, the `n` elements from `j`, and the rest. */
  lemma SliceParts<T>(s: seq<T>, j: nat, n: nat)
    requires j + n <= |s|
    ensures s[j..] == s[j..j + n] + s[j + n..]
    ensures s == s[..j] + s[j..j + n] + s[j + n..]
  {
  }

  /** Concatenation is associative. */
  lemma ConcatAssoc<T>(a: seq<T>, b: seq<T>, c: seq<T>)
    ensures a + (b + c) == (a + b) + c
  {
  }

  /** `MapConcat` for a non-empty left part, given it for the left part's tail. */
  lemma MapConcatStep<A, B>(f: A -> B, a: seq<A>, b: seq<A>)
    requires a != []
    requires Map(f, a[1..] + b) == Map(f, a[1..]) + Map(f, b)
    ensures Map(f, a + b) == Map(f, a) + Map(f, b)
  {
    ConcatHead(a, b);
    assert Map(f, a + b) == [f(a[0])] + Map(f, a[1..] + b);
    ConcatAssoc([f(a[0])], Map(f, a[1..]), Map(f, b));
  }

  lemma {:induction false} MapConcat<A, B>(f: A -> B, a: seq<A>, b: seq<A>)
    ensures Map(f, a + b) == Map(f, a) + Map(f, b)
    decreases |a|
  {
    if a == [] {
      EmptyConcat(b);
      EmptyConcat(Map(f, b));
    } else {
      MapConcat(f, a[1..], b);
      MapConcatStep(f, a, b);
    }
  }
}

/**
 * The string operations the core relies on, written out with JavaScript's
 * semantics: `trim`, `split` on a character, on a character class, on a
 * two-character string and on `/\s+/`, `join`, and case-insensitive matching
 * of ASCII patterns.
 */
module Strings {
  import opened Sequences

  /** The characters JavaScript's `\s` matches and `trim` removes (WhiteSpace and LineTerminator). */
  predicate IsSpace(c: char) {
    c == '\t' || c == '\n' || c == '\U{000B}' || c == '\U{000C}' || c == '\r' || c == ' '
    || c == '\U{00A0}' || c == '\U{1680}' || ('\U{2000}' <= c <= '\U{200A}')
    || c == '\U{2028}' || c == '\U{2029}' || c == '\U{202F}' || c == '\U{205F}'
    || c == '\U{3000}' || c == '\U{FEFF}'
  }

  predicate AllSpace(s: string) {
    forall i :: 0 <= i < |s| ==> IsSpace(s[i])
  }

  predicate NoSpace(s: string) {
    forall i :: 0 <= i < |s| ==> !IsSpace(s[i])
  }

  /** No leading and no trailing whitespace. */
  predicate IsTrimmed(s: string) {
    s == [] || (!IsSpace(s[0]) && !IsSpace(s[|s| - 1]))
  }

  // ---------------------------------------------------------------- trim

  function TrimStart(s: string): (r: string)
    ensures |r| <= |s|
    ensures r == [] || !IsSpace(r[0])
  {
    if s != [] && IsSpace(s[0]) then TrimStart(s[1..]) else s
  }

  /** `trimStart` removes a prefix of whitespace and nothing else. */
  lemma {:induction false} TrimStartShape(s: string)
    ensures TrimStart(s) == s[|s| - |TrimStart(s)|..]
    ensures AllSpace(s[..|s| - |TrimStart(s)|])
    decreases |s|
  {
    if s != [] && IsSpace(s[0]) {
      TrimStartShape(s[1..]);
      var r := TrimStart(s);
      assert s[1..][|s| - 1 - |r|..] == s[|s| - |r|..];
      assert s[..|s| - |r|] == [s[0]] + s[1..][..|s| - 1 - |r|];
    }
  }

  function TrimEnd(s: string): (r: string)
    ensures |r| <= |s|
    ensures r == [] || !IsSpace(r[|r| - 1])
  {
    if s != [] && IsSpace(s[|s| - 1]) then TrimEnd(s[..|s| - 1]) else s
  }

  /** `trimEnd` removes a suffix of whitespace and nothing else. */
  lemma {:induction false} TrimEndShape(s: string)
    ensures TrimEnd(s) == s[..|TrimEnd(s)|]
    ensures AllSpace(s[|TrimEnd(s)|..])
    decreases |s|
  {
    if s != [] && IsSpace(s[|s| - 1]) {
      TrimEndShape(s[..|s| - 1]);
      var r := TrimEnd(s);
      assert s[..|s| - 1][..|r|] == s[..|r|];
      assert s[|r|..] == s[..|s| - 1][|r|..] + [s[|s| - 1]];
    }
  }

  /** `s.trim()`: `s` without its leading and trailing whitespace. */
  function Trim(s: string): (r: string)
    ensures IsTrimmed(r) && |r| <= |s|
  {
    TrimEndShape(TrimStart(s));
    TrimEnd(TrimStart(s))
  }

  lemma {:induction false} TrimStartOfNonSpace(s: string)
    requires s == [] || !IsSpace(s[0])
    ensures TrimStart(s) == s
  {
  }

  lemma {:induction false} TrimEndOfNonSpace(s: string)
    requires s == [] || !IsSpace(s[|s| - 1])
    ensures TrimEnd(s) == s
  {
  }

  /** Trimming a trimmed string changes nothing. */
  lemma TrimOfTrimmed(s: string)
    requires IsTrimmed(s)
    ensures Trim(s) == s
  {
    TrimStartOfNonSpace(s);
    TrimEndOfNonSpace(s);
  }

  /** Leading whitespace does not survive `trim`. */
  lemma {:induction false} TrimStartSpacePrefix(w: string, s: string)
    requires AllSpace(w)
    ensures TrimStart(w + s) == TrimStart(s)
    decreases |w|
  {
    if w != [] {
      var ws := w + s;
      assert ws[0] == w[0];
      assert ws[1..] == w[1..] + s;
      TrimStartSpacePrefix(w[1..], s);
    } else {
      assert w + s == s;
    }
  }

  lemma TrimSpacePrefix(w: string, s: string)
    requires AllSpace(w)
    ensures Trim(w + s) == Trim(s)
  {
    TrimStartSpacePrefix(w, s);
  }

  /** `TrimEnd` of a concatenation: the right part decides whether the left part is cut. */
  lemma {:induction false} TrimEndConcat(a: string, b: string)
    ensures TrimEnd(a + b) == if TrimEnd(b) == [] then TrimEnd(a) else a + TrimEnd(b)
    decreases |b|
  {
    if b == [] {
      assert a + b == a;
    } else if IsSpace(b[|b| - 1]) {
      assert (a + b)[..|a + b| - 1] == a + b[..|b| - 1];
      TrimEndConcat(a, b[..|b| - 1]);
    } else {
      TrimEndOfNonSpace(b);
      TrimEndOfNonSpace(a + b);
    }
  }

  // ------------------------------------------------------- split and join

  /** A string none of whose characters belongs to `seps`. */
  predicate Avoids(s: string, seps: set<char>) {
    forall k :: 0 <= k < |s| ==> s[k] !in seps
  }

  lemma AvoidsConcat(a: string, b: string, seps: set<char>)
    requires Avoids(a, seps) && Avoids(b, seps)
    ensures Avoids(a + b, seps)
  {
  }

  lemma AvoidsTake(s: string, n: nat, seps: set<char>)
    requires n <= |s| && Avoids(s, seps)
    ensures Avoids(s[..n], seps)
  {
  }

  lemma AvoidsDrop(s: string, n: nat, seps: set<char>)
    requires n <= |s| && Avoids(s, seps)
    ensures Avoids(s[n..], seps)
  {
  }

  /**
   * `s.split(c)` for a one-character string `c` (`seps == {c}`) and
   * `s.split(/[,;]/)` for a character class: the pieces between separators,
   * in order, empty pieces included; there is always at least one piece.
   * A separator in front starts a new, empty piece; any other first
   * character belongs to the first piece of the rest.
   */
  function SplitChars(s: string, seps: set<char>): (r: seq<string>)
    ensures |r| >= 1
    decreases |s|
  {
    if s == [] then [[]]
    else
      var rest := SplitChars(s[1..], seps);
      if s[0] in seps then [[]] + rest else [[s[0]] + rest[0]] + rest[1..]
  }

  /** No piece holds a separator. */
  lemma {:induction false} SplitCharsAvoid(s: string, seps: set<char>)
    ensures forall i :: 0 <= i < |SplitChars(s, seps)| ==> Avoids(SplitChars(s, seps)[i], seps)
    decreases |s|
  {
    if s != [] {
      SplitCharsAvoid(s[1..], seps);
      var rest := SplitChars(s[1..], seps);
      if s[0] !in seps {
        assert Avoids(rest[0], seps);
        AvoidsConcat([s[0]], rest[0], seps);
      }
    }
  }

  /** A text with no separator character is split into itself alone. */
  lemma {:induction false} SplitCharsAvoiding(s: string, seps: set<char>)
    requires Avoids(s, seps)
    ensures SplitChars(s, seps) == [s]
    decreases |s|
  {
    if s != [] {
      AvoidsDrop(s, 1, seps);
      SplitCharsAvoiding(s[1..], seps);
      HeadTail(s);
    }
  }

  /** The inductive step of `SplitCharsConcat`: one more character in front of `a`. */
  lemma SplitCharsConcatStep(a: string, c: char, b: string, seps: set<char>)
    requires a != [] && c in seps
    requires SplitChars(a[1..] + [c] + b, seps) == SplitChars(a[1..], seps) + SplitChars(b, seps)
    ensures SplitChars(a + [c] + b, seps) == SplitChars(a, seps) + SplitChars(b, seps)
  {
    ConcatHead(a, [c] + b);
    ConcatAssoc(a, [c], b);
    ConcatAssoc(a[1..], [c], b);
    var ra, rb := SplitChars(a[1..], seps), SplitChars(b, seps);
    if a[0] in seps {
      ConcatAssoc([[]], ra, rb);
    } else {
      ConcatHead(ra, rb);
      ConcatAssoc([[a[0]] + ra[0]], ra[1..], rb);
    }
  }

  /** A separator character splits the pieces of its two sides apart: order is kept, nothing is merged. */
  lemma {:induction false} SplitCharsConcat(a: string, c: char, b: string, seps: set<char>)
    requires c in seps
    ensures SplitChars(a + [c] + b, seps) == SplitChars(a, seps) + SplitChars(b, seps)
    decreases |a|
  {
    if a == [] {
      assert a + [c] + b == [c] + b && ([c] + b)[1..] == b;
    } else {
      SplitCharsConcat(a[1..], c, b, seps);
      SplitCharsConcatStep(a, c, b, seps);
    }
  }

  /** `ps.join(sep)`. */
  function Join(ps: seq<string>, sep: string): (r: string)
    decreases |ps|
  {
    if |ps| == 0 then [] else if |ps| == 1 then ps[0] else ps[0] + sep + Join(ps[1..], sep)
  }

  lemma JoinCons(p: string, ps: seq<string>, sep: string)
    requires ps != []
    ensures Join([p] + ps, sep) == p + sep + Join(ps, sep)
  {
    assert ([p] + ps)[1..] == ps;
  }

  /** Prefixing the first piece prefixes the joined string. */
  lemma JoinHead(x: string, ps: seq<string>, sep: string)
    requires ps != []
    ensures Join([x + ps[0]] + ps[1..], sep) == x + Join(ps, sep)
  {
    if |ps| > 1 {
      JoinCons(x + ps[0], ps[1..], sep);
    }
  }

  /** Splitting on a character and joining with it again gives back the string. */
  lemma {:induction false} JoinSplitChars(s: string, c: char)
    ensures Join(SplitChars(s, {c}), [c]) == s
    decreases |s|
  {
    if s != [] {
      var rest := SplitChars(s[1..], {c});
      JoinSplitChars(s[1..], c);
      if s[0] == c {
        JoinCons([], rest, [c]);
      } else {
        JoinHead([s[0]], rest, [c]);
      }
      HeadTail(s);
    }
  }

  /** Joining pieces that do not contain `c` and splitting on `c` again gives back the pieces. */
  lemma {:induction false} SplitJoinChars(ps: seq<string>, c: char)
    requires ps != []
    requires forall i :: 0 <= i < |ps| ==> Avoids(ps[i], {c})
    ensures SplitChars(Join(ps, [c]), {c}) == ps
    decreases |ps|
  {
    SplitCharsAvoiding(ps[0], {c});
    if |ps| > 1 {
      SplitJoinChars(ps[1..], c);
      SplitCharsConcat(ps[0], c, Join(ps[1..], [c]), {c});
      HeadTail(ps);
    }
  }

  /** Joining pieces that avoid some characters with a separator that avoids them too adds none of them. */
  lemma {:induction false} JoinAvoids(ps: seq<string>, sep: string, seps: set<char>)
    requires Avoids(sep, seps)
    requires forall i :: 0 <= i < |ps| ==> Avoids(ps[i], seps)
    ensures Avoids(Join(ps, sep), seps)
    decreases |ps|
  {
    if |ps| > 1 {
      JoinAvoids(ps[1..], sep, seps);
      AvoidsConcat(ps[0], sep, seps);
      AvoidsConcat(ps[0] + sep, Join(ps[1..], sep), seps);
    }
  }

  /** `trim` keeps a contiguous part of its input, so it adds no character. */
  lemma TrimAvoids(s: string, seps: set<char>)
    requires Avoids(s, seps)
    ensures Avoids(Trim(s), seps)
  {
    var t := TrimStart(s);
    TrimStartShape(s);
    AvoidsDrop(s, |s| - |t|, seps);
    TrimEndShape(t);
    AvoidsTake(t, |TrimEnd(t)|, seps);
  }

  /** `s` begins with `sep`. */
  predicate StartsWith(s: string, sep: string) {
    |sep| <= |s| && s[..|sep|] == sep
  }

  /** `sep` occurs somewhere in `s`. */
  predicate Contains(s: string, sep: string)
    decreases |s|
  {
    StartsWith(s, sep) || (s != [] && Contains(s[1..], sep))
  }

  /**
   * `s.split(sep)` for a string separator: leftmost, non-overlapping
   * occurrences cut `s`. An occurrence in front starts a new, empty piece
   * and the search resumes after it; any other first character belongs to
   * the first piece of the rest.
   */
  function SplitSep(s: string, sep: string): (r: seq<string>)
    requires |sep| > 0
    ensures |r| >= 1
    decreases |s|
  {
    if s == [] then [[]]
    else if StartsWith(s, sep) then [[]] + SplitSep(s[|sep|..], sep)
    else
      var rest := SplitSep(s[1..], sep);
      [[s[0]] + rest[0]] + rest[1..]
  }

  /** A separator in front: the split starts with an empty piece. */
  lemma JoinSplitSepFront(s: string, sep: string)
    requires |sep| > 0 && s != [] && StartsWith(s, sep)
    requires Join(SplitSep(s[|sep|..], sep), sep) == s[|sep|..]
    ensures Join(SplitSep(s, sep), sep) == s
  {
    var r := SplitSep(s[|sep|..], sep);
    assert SplitSep(s, sep) == [[]] + r;
    JoinCons([], r, sep);
    EmptyConcat(sep);
    TakeDrop(s, |sep|);
  }

  /** Any other first character: it heads the first piece. */
  lemma JoinSplitSepChar(s: string, sep: string)
    requires |sep| > 0 && s != [] && !StartsWith(s, sep)
    requires Join(SplitSep(s[1..], sep), sep) == s[1..]
    ensures Join(SplitSep(s, sep), sep) == s
  {
    var r := SplitSep(s[1..], sep);
    assert SplitSep(s, sep) == [[s[0]] + r[0]] + r[1..];
    JoinHead([s[0]], r, sep);
    HeadTail(s);
  }

  /** Splitting on a string and joining with it again gives back the string. */
  lemma {:induction false} JoinSplitSep(s: string, sep: string)
    requires |sep| > 0
    ensures Join(SplitSep(s, sep), sep) == s
    decreases |s|
  {
    if s != [] {
      if StartsWith(s, sep) {
        JoinSplitSep(s[|sep|..], sep);
        JoinSplitSepFront(s, sep);
      } else {
        JoinSplitSep(s[1..], sep);
        JoinSplitSepChar(s, sep);
      }
    }
  }

  /** A string in which `sep` does not occur splits into itself alone. */
  lemma {:induction false} SplitSepAbsent(s: string, sep: string)
    requires |sep| > 0 && !Contains(s, sep)
    ensures SplitSep(s, sep) == [s]
    decreases |s|
  {
    if s != [] {
      SplitSepAbsent(s[1..], sep);
      HeadTail(s);
    }
  }

  /** A piece free of the separator's first character is cut exactly at the separator that follows it. */
  lemma {:induction false} SplitSepPrefix(a: string, sep: string, b: string)
    requires |sep| > 0 && Avoids(a, {sep[0]})
    ensures SplitSep(a + sep + b, sep) == [a] + SplitSep(b, sep)
    decreases |a|
  {
    var s := a + sep + b;
    if a == [] {
      assert s == sep + b && s[..|sep|] == sep && s[|sep|..] == b;
    } else {
      assert s[0] == a[0] && s[1..] == a[1..] + sep + b;
      assert !StartsWith(s, sep) by {
        if |sep| <= |s| { assert s[..|sep|][0] == s[0]; }
      }
      AvoidsDrop(a, 1, {sep[0]});
      SplitSepPrefix(a[1..], sep, b);
      HeadTail(a);
    }
  }

  /** A string free of the separator's first character splits into itself alone. */
  lemma {:induction false} SplitSepAvoiding(s: string, sep: string)
    requires |sep| > 0 && Avoids(s, {sep[0]})
    ensures SplitSep(s, sep) == [s]
    decreases |s|
  {
    if s != [] {
      assert !StartsWith(s, sep) by {
        if |sep| <= |s| { assert s[..|sep|][0] == s[0]; }
      }
      AvoidsDrop(s, 1, {sep[0]});
      SplitSepAvoiding(s[1..], sep);
      HeadTail(s);
    }
  }

  /** Joining pieces free of the separator's first character and splitting again gives back the pieces. */
  lemma {:induction false} SplitJoinSep(ps: seq<string>, sep: string)
    requires |sep| > 0 && ps != []
    requires forall i :: 0 <= i < |ps| ==> Avoids(ps[i], {sep[0]})
    ensures SplitSep(Join(ps, sep), sep) == ps
    decreases |ps|
  {
    if |ps| == 1 {
      SplitSepAvoiding(ps[0], sep);
    } else {
      SplitJoinSep(ps[1..], sep);
      SplitSepPrefix(ps[0], sep, Join(ps[1..], sep));
      HeadTail(ps);
    }
  }

  // --------------------------------------------- case-insensitive matching

  /** ASCII lower-casing, the folding JavaScript's `/i` applies to ASCII patterns. */
  function ToLower(c: char): (r: char)
    ensures 'a' <= r <= 'z' ==> ('a' <= c <= 'z' || 'A' <= c <= 'Z')
  {
    if 'A' <= c <= 'Z' then (c as int + 32) as char else c
  }

  /** `s` begins with `pat`, ignoring ASCII case. */
  predicate StartsWithCI(s: string, pat: string)
    decreases |pat|
  {
    pat == [] || (s != [] && ToLower(s[0]) == ToLower(pat[0]) && StartsWithCI(s[1..], pat[1..]))
  }

  /** `pat` occurs somewhere in `s`, ignoring ASCII case (`/pat/i.test(s)`). */
  predicate ContainsCI(s: string, pat: string)
    decreases |s|
  {
    StartsWithCI(s, pat) || (s != [] && ContainsCI(s[1..], pat))
  }

  lemma {:induction false} StartsWithCILength(s: string, pat: string)
    requires StartsWithCI(s, pat)
    ensures |pat| <= |s|
    decreases |pat|
  {
    if pat != [] {
      StartsWithCILength(s[1..], pat[1..]);
    }
  }

  /** `s` begins with `pat` when their first `|pat|` characters agree up to case. */
  lemma {:induction false} StartsWithCIOf(s: string, pat: string)
    requires |pat| <= |s| && forall i :: 0 <= i < |pat| ==> ToLower(s[i]) == ToLower(pat[i])
    ensures StartsWithCI(s, pat)
    decreases |pat|
  {
    if pat != [] {
      StartsWithCIOf(s[1..], pat[1..]);
    }
  }

  /** `pat` cannot occur in a string none of whose characters is its first, up to case. */
  lemma {:induction false} NotContainsCI(s: string, pat: string)
    requires pat != [] && forall i :: 0 <= i < |s| ==> ToLower(s[i]) != ToLower(pat[0])
    ensures !ContainsCI(s, pat)
    decreases |s|
  {
    if s != [] {
      NotContainsCI(s[1..], pat);
    }
  }

  // ------------------------------------------------ words and /\s+/ split

  /** Length of the leading run of non-whitespace characters of `s`. */
  function WordEnd(s: string): (k: nat)
    ensures k <= |s|
    ensures forall i :: 0 <= i < k ==> !IsSpace(s[i])
    ensures k < |s| ==> IsSpace(s[k])
  {
    if s == [] || IsSpace(s[0]) then 0 else 1 + WordEnd(s[1..])
  }

  /** Length of the leading run of whitespace characters of `s` (a greedy `\s*`). */
  function SpaceEnd(s: string): (k: nat)
    ensures k <= |s|
    ensures forall i :: 0 <= i < k ==> IsSpace(s[i])
    ensures k < |s| ==> !IsSpace(s[k])
  {
    if s == [] || !IsSpace(s[0]) then 0 else 1 + SpaceEnd(s[1..])
  }

  /** The maximal runs of non-whitespace characters of `s`, in order: its words. */
  function Words(s: string): (r: seq<string>)
    ensures forall i :: 0 <= i < |r| ==> r[i] != [] && NoSpace(r[i])
    decreases |s|
  {
    if s == [] then []
    else if IsSpace(s[0]) then Words(s[1..])
    else var k := WordEnd(s); [s[..k]] + Words(s[k..])
  }

  /** The pieces of `s.split(/\s+/)`: a leading or trailing whitespace run gives an empty piece. */
  function SplitSpaces(s: string): (r: seq<string>)
    decreases |s|
  {
    var k := WordEnd(s);
    if k == |s| then [s]
    else
      var m := SpaceEnd(s[k..]);
      [s[..k]] + SplitSpaces(s[k + m..])
  }

  /** `ps.filter(p => p.length > 0)`. */
  function DropEmpty(ps: seq<string>): (r: seq<string>)
    ensures forall i :: 0 <= i < |r| ==> r[i] != []
    decreases |ps|
  {
    if ps == [] then [] else (if ps[0] == [] then [] else [ps[0]]) + DropEmpty(ps[1..])
  }

  lemma {:induction false} DropEmptyConcat(a: seq<string>, b: seq<string>)
    ensures DropEmpty(a + b) == DropEmpty(a) + DropEmpty(b)
    decreases |a|
  {
    if a != [] {
      assert (a + b)[1..] == a[1..] + b;
      DropEmptyConcat(a[1..], b);
    } else {
      assert a + b == b;
    }
  }

  /** Leading whitespace carries no words. */
  lemma {:induction false} WordsSpacePrefix(w: string, s: string)
    requires AllSpace(w)
    ensures Words(w + s) == Words(s)
    decreases |w|
  {
    if w != [] {
      var ws := w + s;
      assert ws[0] == w[0];
      assert ws[1..] == w[1..] + s;
      WordsSpacePrefix(w[1..], s);
    } else {
      assert w + s == s;
    }
  }

  lemma {:induction false} WordEndConcat(a: string, b: string)
    requires WordEnd(a) < |a| || b == [] || IsSpace(b[0])
    ensures WordEnd(a + b) == WordEnd(a)
    decreases |a|
  {
    if a == [] {
    } else if !IsSpace(a[0]) {
      assert (a + b)[1..] == a[1..] + b;
      WordEndConcat(a[1..], b);
    }
  }

  /** `WordsConcat` for a text that starts with whitespace. */
  lemma WordsConcatSpace(a: string, b: string)
    requires a != [] && IsSpace(a[0])
    requires Words(a[1..] + b) == Words(a[1..]) + Words(b)
    ensures Words(a + b) == Words(a) + Words(b)
  {
    ConcatHead(a, b);
  }

  /** `WordsConcat` for a text that starts with a word that `b` does not continue. */
  lemma WordsConcatWord(a: string, b: string)
    requires a != [] && !IsSpace(a[0]) && WordEnd(a + b) == WordEnd(a)
    requires Words(a[WordEnd(a)..] + b) == Words(a[WordEnd(a)..]) + Words(b)
    ensures Words(a + b) == Words(a) + Words(b)
  {
    var k := WordEnd(a);
    ConcatHead(a, b);
    ConcatCut(a, b, k);
    assert Words(a + b) == [a[..k]] + Words(a[k..] + b);
    assert Words(a) == [a[..k]] + Words(a[k..]);
    ConcatAssoc([a[..k]], Words(a[k..]), Words(b));
  }

  /** Two texts that meet at whitespace (or at an end) have the words of the first followed by those of the second. */
  lemma {:induction false} WordsConcat(a: string, b: string)
    requires a == [] || b == [] || IsSpace(a[|a| - 1]) || IsSpace(b[0])
    ensures Words(a + b) == Words(a) + Words(b)
    decreases |a|
  {
    if a == [] {
      EmptyConcat(b);
    } else if IsSpace(a[0]) {
      WordsConcat(a[1..], b);
      WordsConcatSpace(a, b);
    } else {
      var k := WordEnd(a);
      assert k < |a| || b == [] || IsSpace(b[0]) by {
        if k == |a| { assert !IsSpace(a[|a| - 1]); }
      }
      WordEndConcat(a, b);
      WordsConcat(a[k..], b);
      WordsConcatWord(a, b);
    }
  }

  /** A whitespace text has no words, and a text without words is whitespace. */
  lemma {:induction false} WordsEmptyIffSpace(s: string)
    ensures Words(s) == [] <==> AllSpace(s)
    decreases |s|
  {
    if s != [] {
      if IsSpace(s[0]) {
        WordsEmptyIffSpace(s[1..]);
        assert AllSpace(s[1..]) ==> AllSpace(s) by {
          if AllSpace(s[1..]) {
            forall i | 0 <= i < |s| ensures IsSpace(s[i]) {
              if i > 0 { assert s[i] == s[1..][i - 1]; }
            }
          }
        }
      }
    }
  }

  /** Dropping leading whitespace changes no word. */
  lemma WordsTrimStart(s: string)
    ensures Words(TrimStart(s)) == Words(s)
  {
    var t := TrimStart(s);
    TrimStartShape(s);
    var p := s[..|s| - |t|];
    assert s == p + t;
    WordsSpacePrefix(p, t);
  }

  /** Dropping trailing whitespace changes no word. */
  lemma WordsTrimEnd(t: string)
    ensures Words(TrimEnd(t)) == Words(t)
  {
    var u := TrimEnd(t);
    TrimEndShape(t);
    var q := t[|u|..];
    assert t == u + q;
    WordsEmptyIffSpace(q);
    WordsConcat(u, q);
    assert Words(t) == Words(u) + [];
  }

  /** `trim` changes no word. */
  lemma WordsTrim(s: string)
    ensures Words(Trim(s)) == Words(s)
  {
    WordsTrimStart(s);
    WordsTrimEnd(TrimStart(s));
  }

  /** `SplitSpacesWords` for a text without whitespace. */
  lemma SplitSpacesWhole(s: string)
    requires WordEnd(s) == |s|
    ensures DropEmpty(SplitSpaces(s)) == Words(s)
  {
    assert SplitSpaces(s) == [s];
    if s != [] {
      WholeSlices(s);
      assert Words(s) == [s] + Words([]);
      EmptyConcat([s]);
    }
  }

  /** The whitespace run `SpaceEnd` measures is whitespace. */
  lemma SpaceRun(t: string)
    ensures AllSpace(t[..SpaceEnd(t)])
  {
  }

  /** One step of `SplitSpaces` on a text with whitespace. */
  lemma SplitSpacesUnfold(s: string, k: nat, m: nat)
    requires k == WordEnd(s) < |s| && m == SpaceEnd(s[k..])
    ensures SplitSpaces(s) == [s[..k]] + SplitSpaces(s[k + m..])
  {
  }

  /** The words of a text with whitespace: its leading word, if any, then the words after the gap. */
  lemma WordsGap(s: string, k: nat, m: nat)
    requires k == WordEnd(s) < |s| && m == SpaceEnd(s[k..])
    ensures Words(s) == (if k == 0 then [] else [s[..k]]) + Words(s[k + m..])
  {
    var rest := s[k + m..];
    var gap := s[k..k + m];
    SpaceRun(s[k..]);
    assert s[k..][..m] == gap;
    SliceParts(s, k, m);
    WordsSpacePrefix(gap, rest);
    if k == 0 {
      EmptyConcat(gap + rest);
      EmptyConcat(Words(rest));
    } else {
      assert Words(s) == [s[..k]] + Words(s[k..]);
    }
  }

  lemma DropEmptyCons(p: string, ps: seq<string>)
    ensures DropEmpty([p] + ps) == (if p == [] then [] else [p]) + DropEmpty(ps)
  {
    DropEmptyConcat([p], ps);
    assert [p][1..] == [];
  }

  /** `SplitSpacesWords` for a text with whitespace: a word (maybe empty), a gap of `m` characters, and the rest. */
  lemma SplitSpacesGap(s: string, k: nat, m: nat)
    requires k == WordEnd(s) < |s| && m == SpaceEnd(s[k..])
    requires DropEmpty(SplitSpaces(s[k + m..])) == Words(s[k + m..])
    ensures DropEmpty(SplitSpaces(s)) == Words(s)
  {
    SplitSpacesUnfold(s, k, m);
    DropEmptyCons(s[..k], SplitSpaces(s[k + m..]));
    WordsGap(s, k, m);
  }

  /** `s.split(/\s+/)` without its empty pieces is exactly the words of `s`. */
  lemma {:induction false} SplitSpacesWords(s: string)
    ensures DropEmpty(SplitSpaces(s)) == Words(s)
    decreases |s|
  {
    var k := WordEnd(s);
    if k == |s| {
      SplitSpacesWhole(s);
    } else {
      var m := SpaceEnd(s[k..]);
      SplitSpacesWords(s[k + m..]);
      SplitSpacesGap(s, k, m);
    }
  }

  /** Words of a whitespace-joined list of texts: the texts' words, in order. */
  function ConcatWords(ts: seq<string>): seq<string>
    decreases |ts|
  {
    if ts == [] then [] else Words(ts[0]) + ConcatWords(ts[1..])
  }

  lemma {:induction false} ConcatWordsAppend(a: seq<string>, b: seq<string>)
    ensures ConcatWords(a + b) == ConcatWords(a) + ConcatWords(b)
    decreases |a|
  {
    if a == [] {
      assert a + b == b;
    } else {
      assert (a + b)[1..] == a[1..] + b;
      ConcatWordsAppend(a[1..], b);
    }
  }

  /** Joining texts with a non-empty whitespace separator neither merges nor splits their words. */
  lemma {:induction false} WordsJoin(ts: seq<string>, sep: string)
    requires sep != [] && AllSpace(sep)
    ensures Words(Join(ts, sep)) == ConcatWords(ts)
    decreases |ts|
  {
    if |ts| == 1 {
      assert ts[1..] == [];
    } else if |ts| > 1 {
      var rest := Join(ts[1..], sep);
      assert Join(ts, sep) == ts[0] + (sep + rest);
      WordsConcat(ts[0], sep + rest);
      WordsSpacePrefix(sep, rest);
      WordsJoin(ts[1..], sep);
    }
  }

  lemma {:induction false} WordsOfWord(w: string)
    requires w != [] && NoSpace(w)
    ensures Words(w) == [w]
  {
    assert w[..|w|] == w;
    assert w[|w|..] == [];
  }

  /** Round trip: re-joining the words with single spaces gives the same words back. */
  lemma {:induction false} WordsOfJoinedWords(ws: seq<string>)
    requires forall i :: 0 <= i < |ws| ==> ws[i] != [] && NoSpace(ws[i])
    ensures Words(Join(ws, " ")) == ws
    decreases |ws|
  {
    WordsJoin(ws, " ");
    ConcatWordsOfWords(ws);
  }

  lemma {:induction false} ConcatWordsOfWords(ws: seq<string>)
    requires forall i :: 0 <= i < |ws| ==> ws[i] != [] && NoSpace(ws[i])
    ensures ConcatWords(ws) == ws
    decreases |ws|
  {
    if ws != [] {
      WordsOfWord(ws[0]);
      ConcatWordsOfWords(ws[1..]);
    }
  }
}
