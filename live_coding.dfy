/** The typing animation of the hero area (`LiveCodingAnimation`): a cursor
    that reveals one line of the current code snippet per tick, a switch to
    the next of the eight snippets once all lines are shown, line numbering
    of the displayed text, and keyword highlighting. */
module LiveCoding {
  import opened Wrappers
  import opened Text

  /** The number of code snippets the animation cycles through. */
  const SnippetCount: nat := 8

  /** The text shown after typing `lines` (each line followed by a newline),
      which is what the accumulated `displayedCode` holds. */
  function Typed(lines: seq<string>): string {
    if lines == [] then "" else Typed(lines[..|lines| - 1]) + lines[|lines| - 1] + "\n"
  }

  /** Splitting typed lines with extra text `t` after them gives back the lines
      followed by the pieces of `t`. */
  lemma {:induction false} SplitTypedThen(lines: seq<string>, t: string)
    requires forall k :: 0 <= k < |lines| ==> '\n' !in lines[k]
    ensures Split(Typed(lines) + t, '\n') == lines + Split(t, '\n')
  {
    if lines != [] {
      var init, last := lines[..|lines| - 1], lines[|lines| - 1];
      var rest := last + "\n" + t;
      assert Typed(lines) + t == Typed(init) + rest;
      SplitTypedThen(init, rest);
      var nt := "\n" + t;
      assert nt[0] == '\n' && nt[1..] == t;
      assert Split(nt, '\n') == [""] + Split(t, '\n');
      SplitPrefix(last, nt, '\n');
      assert rest == last + nt;
      assert Split(rest, '\n') == [last + ""] + Split(t, '\n');
      assert last + "" == last;
      assert Split(Typed(lines) + t, '\n') == init + Split(rest, '\n');
      assert init + ([last] + Split(t, '\n')) == (init + [last]) + Split(t, '\n');
      assert lines == init + [last];
    } else {
      assert Typed(lines) + t == t;
    }
  }

  /** `displayedCode.split("\n")` after typing `lines`: the lines themselves
      and one empty piece after the final newline. */
  lemma TypedLines(lines: seq<string>)
    requires forall k :: 0 <= k < |lines| ==> '\n' !in lines[k]
    ensures Split(Typed(lines), '\n') == lines + [""]
  {
    SplitTypedThen(lines, "");
    assert Typed(lines) + "" == Typed(lines);
  }

  /** The gutter label of displayed line `index`: its 1-based number when the
      line has a non-white-space character, nothing for a blank line. */
  function LineLabel(line: string, index: nat): (number: Option<nat>)
    ensures number.Some? <==> exists i :: 0 <= i < |line| && !IsWhitespace(line[i])
    ensures number.Some? ==> number.value == index + 1
  {
    TrimEmptyIff(line);
    if Trim(line) != "" then Some(index + 1) else None
  }

  /** The labels of all displayed lines. */
  function LineLabels(displayed: string): (labels: seq<Option<nat>>)
    ensures |labels| == |Split(displayed, '\n')|
    ensures forall k :: 0 <= k < |labels| ==> labels[k] == LineLabel(Split(displayed, '\n')[k], k)
  {
    var lines := Split(displayed, '\n');
    seq(|lines|, k requires 0 <= k < |lines| => LineLabel(lines[k], k))
  }

  /** The next snippet index. */
  function NextSnippet(k: nat): (r: nat)
    ensures r < SnippetCount
  {
    (k + 1) % SnippetCount
  }

  /** `n` snippet switches from `k`. */
  function AfterSwitches(k: nat, n: nat): nat {
    if n == 0 then k else NextSnippet(AfterSwitches(k, n - 1))
  }

  /** The snippet index advances by one modulo 8 per switch, so after eight
      switches the animation is back at the snippet it started from. */
  lemma {:induction false} SwitchesCycle(k: nat, n: nat)
    requires k < SnippetCount
    ensures AfterSwitches(k, n) == (k + n) % SnippetCount
  {
    if n > 0 {
      SwitchesCycle(k, n - 1);
      SuccMod(k + n - 1);
    }
  }

  /** Taking the remainder before or after adding one gives the same index. */
  lemma SuccMod(a: nat)
    ensures NextSnippet(a % SnippetCount) == (a + 1) % SnippetCount
  {
    var q, r := a / SnippetCount, a % SnippetCount;
    assert a == SnippetCount * q + r;
    if r + 1 < SnippetCount {
      assert a + 1 == SnippetCount * q + (r + 1);
    } else {
      assert a + 1 == SnippetCount * (q + 1);
    }
  }

  // ---------------------------------------------------------------------
  // Keyword highlighting: `line.split(/(\bimport\b|...|\bmongoose\b)/)`,
  // with each piece highlighted when it is one of the listed words.

  /** The highlighted words, in the order of the pattern's alternatives. */
  const Keywords: seq<string> := [
    "import", "export", "const", "let", "var", "function", "class", "interface",
    "async", "await", "try", "catch", "if", "else", "return", "PrismaClient", "mongoose"]

  /** A character of the class `\w`. */
  predicate IsWordChar(c: char) {
    ('a' <= c <= 'z') || ('A' <= c <= 'Z') || ('0' <= c <= '9') || c == '_'
  }

  predicate IsWord(w: string) {
    |w| > 0 && forall i :: 0 <= i < |w| ==> IsWordChar(w[i])
  }

  lemma KeywordsAreWords()
    ensures forall k :: 0 <= k < |Keywords| ==> IsWord(Keywords[k])
  {
  }

  lemma KeywordIsWord(w: string)
    requires w in Keywords
    ensures IsWord(w)
  {
    KeywordsAreWords();
  }

  /** `\bw\b` matches at `q`, for a word `w`. */
  predicate WholeWordAt(s: string, q: nat, w: string) {
    && q + |w| <= |s|
    && s[q..q + |w|] == w
    && (q == 0 || !IsWordChar(s[q - 1]))
    && (q + |w| == |s| || !IsWordChar(s[q + |w|]))
  }

  /** The first alternative among `ws` that matches at `q`: a found word is
      `ws[k]` for a `k` at which it matches while no earlier alternative does. */
  function FirstMatch(s: string, q: nat, ws: seq<string>): (r: Option<string>)
    ensures r.Some? ==> r.value in ws && WholeWordAt(s, q, r.value)
    ensures r.Some? ==> exists k :: 0 <= k < |ws| && ws[k] == r.value && WholeWordAt(s, q, ws[k]) &&
                                    forall j :: 0 <= j < k ==> !WholeWordAt(s, q, ws[j])
    ensures r.None? ==> forall k :: 0 <= k < |ws| ==> !WholeWordAt(s, q, ws[k])
  {
    if ws == [] then None
    else if WholeWordAt(s, q, ws[0]) then Some(ws[0])
    else
      var r := FirstMatch(s, q, ws[1..]);
      assert forall j :: 0 < j < |ws| ==> ws[j] == ws[1..][j - 1];
      r
  }

  /** The keyword the pattern matches at position `q`, if any. */
  function KeywordAt(s: string, q: nat): (r: Option<string>)
    ensures r.Some? ==> r.value in Keywords && WholeWordAt(s, q, r.value)
  {
    FirstMatch(s, q, Keywords)
  }

  /** When no keyword is matched at `q`, none of them occurs there as a whole word. */
  lemma NoKeywordAt(s: string, q: nat, w: string)
    requires KeywordAt(s, q).None? && w in Keywords
    ensures !WholeWordAt(s, q, w)
  {
  }

  /** The split loop from the end `p` of the last match, searching at `q`:
      the text before each match, then the captured keyword, and at the
      end the text after the last match, so there is always a piece. */
  function SplitFrom(s: string, p: nat, q: nat): (parts: seq<string>)
    requires p <= q <= |s|
    ensures |parts| >= 1
    decreases |s| - q
  {
    if q == |s| then [s[p..]]
    else
      match KeywordAt(s, q)
      case Some(w) =>
        KeywordsAreWords();
        [s[p..q], w] + SplitFrom(s, q + |w|, q + |w|)
      case None => SplitFrom(s, p, q + 1)
  }

  /** The pieces of a line, which together spell the line. */
  function Segments(line: string): (parts: seq<string>)
    ensures |parts| >= 1
    ensures Concat(parts) == line
  {
    SplitFromShape(line, 0, 0);
    SplitFrom(line, 0, 0)
  }

  /** A piece is shown highlighted iff it is one of the listed words; a
      highlighted piece is a non-empty run of word characters. */
  predicate IsHighlighted(part: string): (h: bool)
    ensures h ==> IsWord(part)
  {
    if part in Keywords then KeywordIsWord(part); true else false
  }

  function Concat(parts: seq<string>): string {
    if parts == [] then "" else parts[0] + Concat(parts[1..])
  }

  /** Where piece `k` starts, relative to the start of the pieces: the total
      length of the pieces before it. */
  function Offset(parts: seq<string>, k: nat): nat
    requires k <= |parts|
  {
    if k == 0 then 0 else |parts[0]| + Offset(parts[1..], k - 1)
  }

  /** The matcher `m` matches nowhere inside a plain piece (even position)
      of the pieces starting at position `p`. */
  ghost predicate PlainUnmatched(m: nat -> Option<string>, p: nat, parts: seq<string>) {
    forall k, t ::
      (0 <= k < |parts| && k % 2 == 0 && p + Offset(parts, k) <= t < p + Offset(parts, k) + |parts[k]|) ==>
      m(t).None?
  }

  /** Piece `k` of the pieces starting at position `p` is what `m` matches
      where that piece starts. */
  ghost predicate PieceMatched(m: nat -> Option<string>, p: nat, parts: seq<string>, k: nat)
    requires k < |parts|
  {
    m(p + Offset(parts, k)) == Some(parts[k])
  }

  /** Each captured piece (odd position) of the pieces starting at position
      `p` is exactly what `m` matches where that piece starts. */
  ghost predicate CapturedMatched(m: nat -> Option<string>, p: nat, parts: seq<string>) {
    forall k :: 0 <= k < |parts| && k % 2 == 1 ==> PieceMatched(m, p, parts, k)
  }

  /** The pieces starting at position `p` are the ones a left-to-right
      search with the matcher `m` produces. */
  ghost predicate CapturesBy(m: nat -> Option<string>, p: nat, parts: seq<string>) {
    PlainUnmatched(m, p, parts) && CapturedMatched(m, p, parts)
  }

  /** The keyword pattern as a matcher on the positions of `s`. */
  ghost function KeywordMatcher(s: string): nat -> Option<string> {
    (t: nat) => KeywordAt(s, t)
  }

  /** The pieces of `s` from `p` on are the ones the keyword pattern produces. */
  ghost predicate Captures(s: string, p: nat, parts: seq<string>) {
    CapturesBy(KeywordMatcher(s), p, parts)
  }

  /** Behind a plain piece and a match, the offsets of the remaining pieces
      shift by the lengths of those two. */
  lemma OffsetAfterPair(a: string, w: string, rest: seq<string>, k: nat)
    requires 2 <= k <= |rest| + 2
    ensures Offset([a, w] + rest, k) == |a| + |w| + Offset(rest, k - 2)
  {
    var r := [a, w] + rest;
    assert r[1..] == [w] + rest;
    assert r[1..][1..] == rest;
  }

  /** `CapturesBy` carries over from the rest of the pieces to the pieces
      with a plain stretch `a` over [p, q) and the match `w` at `q` in front. */
  lemma CapturesPrepend(m: nat -> Option<string>, p: nat, q: nat, a: string, w: string, rest: seq<string>)
    requires p + |a| == q
    requires forall t :: p <= t < q ==> m(t).None?
    requires m(q) == Some(w)
    requires CapturesBy(m, q + |w|, rest)
    ensures CapturesBy(m, p, [a, w] + rest)
  {
    PlainPieces(m, p, q, a, w, rest);
    MatchedPieces(m, p, q, a, w, rest);
  }

  lemma PlainPieces(m: nat -> Option<string>, p: nat, q: nat, a: string, w: string, rest: seq<string>)
    requires p + |a| == q
    requires forall t :: p <= t < q ==> m(t).None?
    requires PlainUnmatched(m, q + |w|, rest)
    ensures PlainUnmatched(m, p, [a, w] + rest)
  {
    var r := [a, w] + rest;
    forall k, t | 0 <= k < |r| && k % 2 == 0 && p + Offset(r, k) <= t < p + Offset(r, k) + |r[k]|
      ensures m(t).None?
    {
      PlainStep(m, p, q, a, w, rest, k, t);
    }
  }

  lemma MatchedPieces(m: nat -> Option<string>, p: nat, q: nat, a: string, w: string, rest: seq<string>)
    requires p + |a| == q
    requires m(q) == Some(w)
    requires CapturedMatched(m, q + |w|, rest)
    ensures CapturedMatched(m, p, [a, w] + rest)
  {
    var r := [a, w] + rest;
    forall k | 0 <= k < |r| && k % 2 == 1
      ensures PieceMatched(m, p, r, k)
    {
      if k >= 2 {
        assert PieceMatched(m, q + |w|, rest, k - 2);
      }
      MatchStep(m, p, q, a, w, rest, k);
    }
  }

  lemma PlainStep(m: nat -> Option<string>, p: nat, q: nat, a: string, w: string, rest: seq<string>, k: nat, t: nat)
    requires p + |a| == q
    requires forall t :: p <= t < q ==> m(t).None?
    requires PlainUnmatched(m, q + |w|, rest)
    requires k < |rest| + 2 && k % 2 == 0
    requires p + Offset([a, w] + rest, k) <= t < p + Offset([a, w] + rest, k) + |([a, w] + rest)[k]|
    ensures m(t).None?
  {
    var r := [a, w] + rest;
    if k >= 2 {
      OffsetAfterPair(a, w, rest, k);
      assert r[k] == rest[k - 2] && (k - 2) % 2 == 0;
      assert q + |w| + Offset(rest, k - 2) <= t < q + |w| + Offset(rest, k - 2) + |rest[k - 2]|;
    }
  }

  lemma MatchStep(m: nat -> Option<string>, p: nat, q: nat, a: string, w: string, rest: seq<string>, k: nat)
    requires p + |a| == q
    requires m(q) == Some(w)
    requires k < |rest| + 2 && k % 2 == 1
    requires k >= 2 ==> PieceMatched(m, q + |w|, rest, k - 2)
    ensures PieceMatched(m, p, [a, w] + rest, k)
  {
    var r := [a, w] + rest;
    if k >= 2 {
      OffsetAfterPair(a, w, rest, k);
      assert r[k] == rest[k - 2];
    } else {
      assert Offset(r, 1) == |r[0]| + Offset(r[1..], 0);
    }
  }

  /** No match is found anywhere in [p, q), and `p` is either the start of
      the line or the end of an earlier whole-word match. */
  ghost predicate SearchState(s: string, p: nat, q: nat) {
    && p <= q <= |s|
    && (forall r :: p <= r < q ==> KeywordAt(s, r).None?)
    && (p == 0 || p == |s| || !IsWordChar(s[p]))
  }

  /** The text between matches is never one of the listed words. */
  lemma PlainPieceNotKeyword(s: string, p: nat, e: nat)
    requires SearchState(s, p, e)
    requires e == |s| || KeywordAt(s, e).Some?
    ensures s[p..e] !in Keywords
  {
    if s[p..e] in Keywords {
      PlainPieceNotWord(s, p, e, s[p..e]);
    }
  }

  /** The same for one keyword `w`. */
  lemma PlainPieceNotWord(s: string, p: nat, e: nat, w: string)
    requires SearchState(s, p, e)
    requires e == |s| || KeywordAt(s, e).Some?
    requires w in Keywords
    ensures w != s[p..e]
  {
    KeywordIsWord(w);
    assert IsWordChar(w[0]) && IsWordChar(w[|w| - 1]);
    if 0 < p < |s| {
      assert !IsWordChar(s[p]);
    } else if p == 0 && 0 < e == |s| {
      assert s[0..|s|] == s;
      NoKeywordAt(s, 0, w);
    } else if p == 0 && 0 < e < |s| {
      assert !IsWordChar(s[e - 1]);
    }
  }

  /** Pieces alternate between plain text that is no keyword (even
      positions) and keywords (odd positions), starting and ending with plain
      text. */
  ghost predicate Alternates(r: seq<string>) {
    && |r| % 2 == 1
    && (forall k :: 0 <= k < |r| && k % 2 == 1 ==> r[k] in Keywords)
    && (forall k :: 0 <= k < |r| && k % 2 == 0 ==> r[k] !in Keywords)
  }

  lemma PrependMatch(plain: string, w: string, rest: seq<string>)
    requires plain !in Keywords && w in Keywords && Alternates(rest)
    ensures Alternates([plain, w] + rest)
    ensures Concat([plain, w] + rest) == plain + w + Concat(rest)
  {
    var r := [plain, w] + rest;
    assert r[2..] == rest;
    forall k | 0 <= k < |r|
      ensures k % 2 == 1 ==> r[k] in Keywords
      ensures k % 2 == 0 ==> r[k] !in Keywords
    {
      if k >= 2 { assert r[k] == rest[k - 2]; }
    }
    assert r[1..][1..] == rest;
  }

  /** The search resumes cleanly after a whole-word match. */
  lemma FreshSearchAfterMatch(s: string, q: nat, w: string)
    requires WholeWordAt(s, q, w)
    ensures SearchState(s, q + |w|, q + |w|)
  {
  }

  /** The pieces alternate: an odd number of them, the keywords matched at
      the odd positions, plain text that is no keyword at the even ones, and
      together they spell the searched text; moreover the pattern matches
      nowhere inside a plain piece, and each keyword piece is the match at
      its own position. */
  lemma {:induction false} SplitFromShape(s: string, p: nat, q: nat)
    requires SearchState(s, p, q)
    ensures Alternates(SplitFrom(s, p, q))
    ensures Concat(SplitFrom(s, p, q)) == s[p..]
    ensures Captures(s, p, SplitFrom(s, p, q))
    decreases |s| - q, 1
  {
    if q == |s| {
      PlainPieceNotKeyword(s, p, q);
      assert SplitFrom(s, p, q) == [s[p..]];
      assert s[p..] == s[p..q];
      assert Concat([s[p..]]) == s[p..] + Concat([]);
      assert Offset([s[p..]], 0) == 0;
    } else {
      var m := KeywordAt(s, q);
      if m.Some? {
        ShapeAtMatch(s, p, q, m.value);
      } else {
        assert SearchState(s, p, q + 1);
        SplitFromShape(s, p, q + 1);
      }
    }
  }

  /** The step of `SplitFromShape` where a keyword `w` is matched at `q`. */
  lemma {:induction false} ShapeAtMatch(s: string, p: nat, q: nat, w: string)
    requires SearchState(s, p, q) && q < |s| && KeywordAt(s, q) == Some(w)
    ensures Alternates(SplitFrom(s, p, q))
    ensures Concat(SplitFrom(s, p, q)) == s[p..]
    ensures Captures(s, p, SplitFrom(s, p, q))
    decreases |s| - q, 0
  {
    var e := q + |w|;
    assert e > q && SearchState(s, e, e) by {
      KeywordIsWord(w);
      FreshSearchAfterMatch(s, q, w);
    }
    SplitFromShape(s, e, e);
    assert s[p..q] !in Keywords by {
      PlainPieceNotKeyword(s, p, q);
    }
    var rest := SplitFrom(s, e, e);
    assert SplitFrom(s, p, q) == [s[p..q], w] + rest;
    AssembleMatch(s, p, q, w, rest);
    assert Captures(s, p, [s[p..q], w] + rest) by {
      CapturesPrepend(KeywordMatcher(s), p, q, s[p..q], w, rest);
    }
  }

  lemma AssembleMatch(s: string, p: nat, q: nat, w: string, rest: seq<string>)
    requires p <= q && q + |w| <= |s| && s[q..q + |w|] == w
    requires s[p..q] !in Keywords && w in Keywords
    requires Alternates(rest) && Concat(rest) == s[q + |w|..]
    ensures Alternates([s[p..q], w] + rest)
    ensures Concat([s[p..q], w] + rest) == s[p..]
  {
    PrependMatch(s[p..q], w, rest);
    assert s[p..] == s[p..q] + s[q..q + |w|] + s[q + |w|..];
  }

  /** Keyword highlighting marks exactly the words the pattern matches: the
      pieces of a line spell the line, a piece is highlighted iff it sits at
      an odd position, every odd piece is the keyword the pattern matches
      where it starts, and no position inside an even (plain) piece starts a
      whole-word keyword, so no keyword of the line is left unhighlighted. */
  lemma SegmentsHighlighting(line: string)
    ensures Concat(Segments(line)) == line
    ensures |Segments(line)| % 2 == 1
    ensures forall k :: 0 <= k < |Segments(line)| ==>
              (IsHighlighted(Segments(line)[k]) <==> k % 2 == 1)
    ensures forall k, t ::
              (0 <= k < |Segments(line)| && k % 2 == 0 &&
               Offset(Segments(line), k) <= t < Offset(Segments(line), k) + |Segments(line)[k]|) ==>
              KeywordAt(line, t).None?
    ensures forall k :: 0 <= k < |Segments(line)| && k % 2 == 1 ==>
              KeywordAt(line, Offset(Segments(line), k)) == Some(Segments(line)[k])
  {
    SplitFromShape(line, 0, 0);
    MatchesOfCaptures(line, Segments(line));
  }

  /** `Captures` spelled out for the keyword pattern on a whole line. */
  lemma MatchesOfCaptures(line: string, parts: seq<string>)
    requires Captures(line, 0, parts)
    ensures forall k, t ::
              (0 <= k < |parts| && k % 2 == 0 && Offset(parts, k) <= t < Offset(parts, k) + |parts[k]|) ==>
              KeywordAt(line, t).None?
    ensures forall k :: 0 <= k < |parts| && k % 2 == 1 ==> KeywordAt(line, Offset(parts, k)) == Some(parts[k])
  {
    var m := KeywordMatcher(line);
    forall t: nat
      ensures m(t) == KeywordAt(line, t)
    {
    }
    forall k | 0 <= k < |parts| && k % 2 == 1
      ensures KeywordAt(line, Offset(parts, k)) == Some(parts[k])
    {
      assert PieceMatched(m, 0, parts, k);
    }
  }

  // ---------------------------------------------------------------------
  // The animation state.

  class LiveCodingAnimation {
    /** The code of each snippet (their texts are not part of this model). */
    const snippets: seq<string>
    var currentSnippet: nat
    var displayedCode: string
    var currentLine: nat

    /** `snippet.code.split("\n")` for snippet `k`. */
    function Lines(k: nat): seq<string>
      reads this
      requires k < |snippets|
    {
      Split(snippets[k], '\n')
    }

    /** The snippet index is in range, the cursor is within the snippet, and
        the displayed text is exactly the lines before the cursor, each with
        its newline. */
    predicate Valid()
      reads this
    {
      && |snippets| == SnippetCount
      && currentSnippet < SnippetCount
      && currentLine <= |Lines(currentSnippet)|
      && displayedCode == Typed(Lines(currentSnippet)[..currentLine])
    }

    constructor (codes: seq<string>)
      requires |codes| == SnippetCount
      ensures Valid()
      ensures snippets == codes && currentSnippet == 0 && displayedCode == "" && currentLine == 0
    {
      snippets := codes;
      currentSnippet := 0;
      displayedCode := "";
      currentLine := 0;
      new;
      assert Lines(0)[..0] == [];
    }

    /** The blinking cursor is shown while lines remain to be typed; once
        it is hidden the display holds the whole snippet. */
    function CursorShown(): (shown: bool)
      reads this
      requires Valid()
      ensures !shown ==> displayedCode == Typed(Lines(currentSnippet))
    {
      assert currentLine == |Lines(currentSnippet)| ==> Lines(currentSnippet)[..currentLine] == Lines(currentSnippet);
      currentLine < |Lines(currentSnippet)|
    }

    /** The callback the effect schedules for the current state: type the
        next line, or once every line is shown switch to the next snippet and
        clear the display. */
    method Tick()
      requires Valid()
      modifies this
      ensures Valid()
      ensures old(currentLine) < |Lines(old(currentSnippet))| ==>
                && currentSnippet == old(currentSnippet)
                && currentLine == old(currentLine) + 1
                && displayedCode == old(displayedCode) + Lines(currentSnippet)[old(currentLine)] + "\n"
      ensures old(currentLine) == |Lines(old(currentSnippet))| ==>
                && currentSnippet == NextSnippet(old(currentSnippet))
                && currentLine == 0 && displayedCode == ""
    {
      var lines := Split(snippets[currentSnippet], '\n');
      if currentLine < |lines| {
        assert lines[..currentLine + 1][..currentLine] == lines[..currentLine];
        displayedCode := displayedCode + lines[currentLine] + "\n";
        currentLine := currentLine + 1;
      } else {
        currentSnippet := (currentSnippet + 1) % |snippets|;
        displayedCode := "";
        currentLine := 0;
        assert Lines(currentSnippet)[..0] == [];
      }
    }

    /** In every state the displayed lines are the typed lines of the
        snippet plus an empty last line, the last of them unnumbered; and the
        cursor is hidden exactly when the whole snippet is displayed. */
    lemma DisplayedLines()
      requires Valid()
      ensures Split(displayedCode, '\n') == Lines(currentSnippet)[..currentLine] + [""]
      ensures var labels := LineLabels(displayedCode);
              && |labels| == currentLine + 1
              && labels[currentLine] == None
      ensures !CursorShown() <==> displayedCode == Typed(Lines(currentSnippet))
    {
      var lines := Lines(currentSnippet);
      TypedLines(lines[..currentLine]);
      TypedLines(lines);
      if displayedCode == Typed(lines) {
        assert lines[..currentLine] + [""] == lines + [""];
        assert |lines[..currentLine]| == |lines|;
      }
      if currentLine == |lines| {
        assert lines[..currentLine] == lines;
      }
    }
  }
}
