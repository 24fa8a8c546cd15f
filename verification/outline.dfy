/** Reading the page body back: which kinds of fragment the list built by
    `generate_html` holds, block by block and group by group. */
module Outline {
  import opened Wrappers
  import opened Text
  import opened HtmlEscape
  import opened Grouping
  import opened Seqs
  import opened Render
  import opened StrOrder

  // ---------------------------------------------------------------------------
  // Reading the fragments back: which kinds of fragment a list holds

  /** Whether `s` begins with `p`. */
  predicate StartsWith(s: string, p: string) {
    |p| <= |s| && s[..|p|] == p
  }

  /** The kinds of fragment the lemmas below pick out of a fragment list. */
  datatype Selector =
    | Headings      // the `<h2>` group headings
    | Markers       // the lines that open and close a block
    | Summaries     // the summary lines
    | Paragraphs    // the answer paragraphs
    | KeywordLines  // the keywords lines
    | Blocks        // everything but the group headings

  /** Whether fragment `part` is of the kind `sel`. */
  predicate Selects(sel: Selector, part: string) {
    match sel
    case Headings => StartsWith(part, "<h2>")
    case Markers => part == BLOCK_OPEN || part == BLOCK_CLOSE
    case Summaries => StartsWith(part, "<p class='summary'>")
    case Paragraphs => StartsWith(part, "<p>")
    case KeywordLines => StartsWith(part, "<div class='keywords'>")
    case Blocks => !StartsWith(part, "<h2>")
  }

  /** The fragments of kind `sel`, in order. */
  function Keep(parts: seq<string>, sel: Selector): (r: seq<string>)
    ensures |r| <= |parts|
  {
    if parts == [] then []
    else
      var last := parts[|parts| - 1];
      Keep(parts[..|parts| - 1], sel) + (if Selects(sel, last) then [last] else [])
  }

  /** `xs` if `b` holds, nothing otherwise. */
  function When(b: bool, xs: seq<string>): seq<string> {
    if b then xs else []
  }

  /** `n` blocks, each opened and closed before the next one opens. */
  function Pairs(n: nat): seq<string> {
    if n == 0 then [] else Pairs(n - 1) + [BLOCK_OPEN, BLOCK_CLOSE]
  }

  /** The headings of the groups `keys`, in that order. */
  function HeadingsOf(keys: seq<string>): seq<string> {
    if keys == [] then [] else HeadingsOf(keys[..|keys| - 1]) + [Heading(keys[|keys| - 1])]
  }

  // ---------------------------------------------------------------------------
  // Lemmas

  /** Picking fragments out of two lists picks them out of each. */
  lemma {:induction false} KeepAppend(a: seq<string>, b: seq<string>, sel: Selector)
    ensures Keep(a + b, sel) == Keep(a, sel) + Keep(b, sel)
    decreases |b|
  {
    if b == [] {
      assert a + b == a;
    } else {
      KeepAppend(a, b[..|b| - 1], sel);
      assert (a + b)[..|a + b| - 1] == a + b[..|b| - 1];
    }
  }

  /** A one-fragment list keeps its fragment exactly when it is of the kind. */
  lemma KeepOne(part: string, sel: Selector)
    ensures Keep([part], sel) == if Selects(sel, part) then [part] else []
  {
    assert [part][..0] == [];
  }

  // The prefixes of the six fragment shapes tell them apart: each kind of
  // fragment the renderer emits is of exactly the kinds its shape says.

  /** A group heading is a `Headings` fragment only. */
  lemma HeadingKind(k: string)
    ensures forall sel :: Selects(sel, Heading(k)) <==> sel == Headings
  {
    var h := Heading(k);
    assert h[..4] == "<h2>";
    assert h[1] == 'h' && h[2] == '2';
  }

  /** The opening and closing lines are markers and block fragments. */
  lemma MarkerKinds()
    ensures forall sel :: Selects(sel, BLOCK_OPEN) <==> sel == Markers || sel == Blocks
    ensures forall sel :: Selects(sel, BLOCK_CLOSE) <==> sel == Markers || sel == Blocks
  {
    var o, c := BLOCK_OPEN, BLOCK_CLOSE;
    assert o[1] == 'd' && c[1] == '/' && o[11] == '"';
  }

  /** A question line is a block fragment only. */
  lemma QuestionKind(q: string)
    ensures forall sel :: Selects(sel, QuestionLine(q)) <==> sel == Blocks
  {
    var ql := QuestionLine(q);
    assert ql[1] == 'h' && ql[2] == '3';
  }

  /** A summary line is a summary and a block fragment. */
  lemma SummaryKind(s: string)
    ensures forall sel :: Selects(sel, SummaryLine(s)) <==> sel == Summaries || sel == Blocks
  {
    var sl := SummaryLine(s);
    assert sl[..19] == "<p class='summary'>";
    assert sl[1] == 'p' && sl[2] == ' ';
  }

  /** A paragraph is a paragraph and a block fragment. */
  lemma ParagraphKind(p: string)
    ensures forall sel :: Selects(sel, ParagraphLine(p)) <==> sel == Paragraphs || sel == Blocks
  {
    var pl := ParagraphLine(p);
    assert pl[..3] == "<p>";
    assert pl[1] == 'p' && pl[2] == '>';
  }

  /** A keywords line is a keywords and a block fragment. */
  lemma KeywordsKind(w: string)
    ensures forall sel :: Selects(sel, KeywordsLine(w)) <==> sel == KeywordLines || sel == Blocks
  {
    var kl := KeywordsLine(w);
    assert kl[..22] == "<div class='keywords'>";
    assert kl[1] == 'd' && kl[11] == '\'';
  }

  /** What the answer paragraphs are of each kind: paragraphs, and part of the
      block. */
  lemma {:induction false} KeepAnswer(segments: seq<string>, sel: Selector)
    ensures Keep(AnswerParts(segments), sel) == When(sel == Paragraphs || sel == Blocks, AnswerParts(segments))
    decreases |segments|
  {
    if segments != [] {
      var init := segments[..|segments| - 1];
      var text := Strip(segments[|segments| - 1]);
      var more := ParagraphOf(segments[|segments| - 1]);
      KeepAnswer(init, sel);
      KeepAppend(AnswerParts(init), more, sel);
      if text != [] {
        ParagraphKind(text);
        KeepOne(ParagraphLine(text), sel);
      }
    }
  }

  /** Picking the fragments of kind `sel` out of a block keeps each of its
      pieces whole or drops it. */
  lemma BlockKeep(r: Record, sel: Selector)
    ensures Keep(BlockParts(r), sel)
         == When(sel == Markers || sel == Blocks, [BLOCK_OPEN])
          + When(sel == Blocks, [QuestionLine(r.question)])
          + When(sel == Summaries || sel == Blocks, SummaryParts(r.summary))
          + When(sel == Paragraphs || sel == Blocks, AnswerParts(Split(r.answer)))
          + When(sel == KeywordLines || sel == Blocks, KeywordsParts(r.keywords))
          + When(sel == Markers || sel == Blocks, [BLOCK_CLOSE])
  {
    BlockKeepPieces(r, sel);
    PieceKinds(r, sel);
    KeepAnswer(Split(r.answer), sel);
  }

  /** A block holds no group heading. */
  lemma BlockHasNoHeading(r: Record)
    ensures Keep(BlockParts(r), Headings) == []
  {
    BlockKeep(r, Headings);
    OnlyThird(When(false, [BLOCK_OPEN]), When(false, [QuestionLine(r.question)]), When(false, SummaryParts(r.summary)),
              When(false, AnswerParts(Split(r.answer))), When(false, KeywordsParts(r.keywords)), When(false, [BLOCK_CLOSE]),
              Keep(BlockParts(r), Headings));
  }

  /** Every fragment of a block is a block fragment. */
  lemma BlockIsAllBlocks(r: Record)
    ensures Keep(BlockParts(r), Blocks) == BlockParts(r)
  {
    BlockKeep(r, Blocks);
    assert [BLOCK_OPEN] + [QuestionLine(r.question)] == [BLOCK_OPEN, QuestionLine(r.question)];
  }

  /** A block opens once and closes once, and neither line occurs inside it. */
  lemma BlockMarkers(r: Record)
    ensures Keep(BlockParts(r), Markers) == [BLOCK_OPEN, BLOCK_CLOSE]
  {
    BlockKeep(r, Markers);
    OnlyEnds(When(true, [BLOCK_OPEN]), When(false, [QuestionLine(r.question)]), When(false, SummaryParts(r.summary)),
             When(false, AnswerParts(Split(r.answer))), When(false, KeywordsParts(r.keywords)), When(true, [BLOCK_CLOSE]),
             Keep(BlockParts(r), Markers));
  }

  /** The summary line is emitted if and only if the summary is present, and
      it holds that summary. */
  lemma SummaryIffPresent(r: Record)
    ensures Keep(BlockParts(r), Summaries) == SummaryParts(r.summary)
  {
    BlockKeep(r, Summaries);
    OnlyThird(When(false, [BLOCK_OPEN]), When(false, [QuestionLine(r.question)]), When(true, SummaryParts(r.summary)),
              When(false, AnswerParts(Split(r.answer))), When(false, KeywordsParts(r.keywords)), When(false, [BLOCK_CLOSE]),
              Keep(BlockParts(r), Summaries));
  }

  /** The keywords line is emitted if and only if the keywords are present,
      and it holds those keywords. */
  lemma KeywordsIffPresent(r: Record)
    ensures Keep(BlockParts(r), KeywordLines) == KeywordsParts(r.keywords)
  {
    BlockKeep(r, KeywordLines);
    OnlyFifth(When(false, [BLOCK_OPEN]), When(false, [QuestionLine(r.question)]), When(false, SummaryParts(r.summary)),
              When(false, AnswerParts(Split(r.answer))), When(true, KeywordsParts(r.keywords)), When(false, [BLOCK_CLOSE]),
              Keep(BlockParts(r), KeywordLines));
  }

  /** The paragraphs of a block are exactly those of its answer. */
  lemma BlockParagraphs(r: Record)
    ensures Keep(BlockParts(r), Paragraphs) == AnswerParts(Split(r.answer))
  {
    BlockKeep(r, Paragraphs);
    OnlyFourth(When(false, [BLOCK_OPEN]), When(false, [QuestionLine(r.question)]), When(false, SummaryParts(r.summary)),
               When(true, AnswerParts(Split(r.answer))), When(false, KeywordsParts(r.keywords)), When(false, [BLOCK_CLOSE]),
               Keep(BlockParts(r), Paragraphs));
  }

  /** Six pieces of which only the third may be non-empty. */
  lemma OnlyThird(o: seq<string>, q: seq<string>, s: seq<string>, a: seq<string>, k: seq<string>, c: seq<string>,
                  x: seq<string>)
    requires o == [] && q == [] && a == [] && k == [] && c == []
    requires x == o + q + s + a + k + c
    ensures x == s
  {
  }

  /** Six pieces of which only the fourth may be non-empty. */
  lemma OnlyFourth(o: seq<string>, q: seq<string>, s: seq<string>, a: seq<string>, k: seq<string>, c: seq<string>,
                   x: seq<string>)
    requires o == [] && q == [] && s == [] && k == [] && c == []
    requires x == o + q + s + a + k + c
    ensures x == a
  {
  }

  /** Six pieces of which only the fifth may be non-empty. */
  lemma OnlyFifth(o: seq<string>, q: seq<string>, s: seq<string>, a: seq<string>, k: seq<string>, c: seq<string>,
                  x: seq<string>)
    requires o == [] && q == [] && s == [] && a == [] && c == []
    requires x == o + q + s + a + k + c
    ensures x == k
  {
  }

  /** Six pieces of which only the first and the last are non-empty: the
      opening and closing lines. */
  lemma OnlyEnds(o: seq<string>, q: seq<string>, s: seq<string>, a: seq<string>, k: seq<string>, c: seq<string>,
                 x: seq<string>)
    requires o == [BLOCK_OPEN] && q == [] && s == [] && a == [] && k == [] && c == [BLOCK_CLOSE]
    requires x == o + q + s + a + k + c
    ensures x == [BLOCK_OPEN, BLOCK_CLOSE]
  {
  }

  /** The fragments of kind `sel` in the fixed pieces of a block. */
  lemma PieceKinds(r: Record, sel: Selector)
    ensures Keep([BLOCK_OPEN], sel) == When(sel == Markers || sel == Blocks, [BLOCK_OPEN])
    ensures Keep([BLOCK_CLOSE], sel) == When(sel == Markers || sel == Blocks, [BLOCK_CLOSE])
    ensures Keep([QuestionLine(r.question)], sel) == When(sel == Blocks, [QuestionLine(r.question)])
    ensures Keep(SummaryParts(r.summary), sel) == When(sel == Summaries || sel == Blocks, SummaryParts(r.summary))
    ensures Keep(KeywordsParts(r.keywords), sel) == When(sel == KeywordLines || sel == Blocks, KeywordsParts(r.keywords))
  {
    var sv := if r.summary.Some? then r.summary.value else "";
    var kv := if r.keywords.Some? then r.keywords.value else "";
    MarkerKinds();
    QuestionKind(r.question);
    SummaryKind(sv);
    KeywordsKind(kv);
    KeepOne(BLOCK_OPEN, sel);
    KeepOne(BLOCK_CLOSE, sel);
    KeepOne(QuestionLine(r.question), sel);
    KeepOne(SummaryLine(sv), sel);
    KeepOne(KeywordsLine(kv), sel);
  }

  /** Picking fragments out of a block picks them out of its pieces. */
  lemma BlockKeepPieces(r: Record, sel: Selector)
    ensures Keep(BlockParts(r), sel)
         == Keep([BLOCK_OPEN], sel) + Keep([QuestionLine(r.question)], sel)
          + Keep(SummaryParts(r.summary), sel) + Keep(AnswerParts(Split(r.answer)), sel)
          + Keep(KeywordsParts(r.keywords), sel) + Keep([BLOCK_CLOSE], sel)
  {
    var s, a, k := SummaryParts(r.summary), AnswerParts(Split(r.answer)), KeywordsParts(r.keywords);
    var o, q, c := [BLOCK_OPEN], [QuestionLine(r.question)], [BLOCK_CLOSE];
    Pair(BLOCK_OPEN, QuestionLine(r.question));
    KeepSix(o, q, s, a, k, c, sel);
  }

  /** Picking fragments out of six lists in a row picks them out of each. */
  lemma KeepSix(o: seq<string>, q: seq<string>, s: seq<string>, a: seq<string>, k: seq<string>, c: seq<string>,
                sel: Selector)
    ensures Keep(o + q + s + a + k + c, sel)
         == Keep(o, sel) + Keep(q, sel) + Keep(s, sel) + Keep(a, sel) + Keep(k, sel) + Keep(c, sel)
  {
    KeepAppend(o + q + s + a + k, c, sel);
    KeepAppend(o + q + s + a, k, sel);
    KeepAppend(o + q + s, a, sel);
    KeepAppend(o + q, s, sel);
    KeepAppend(o, q, sel);
  }

  // ---------------------------------------------------------------------------
  // Many blocks, sections and the whole page

  /** The blocks of two runs of rows, one after the other. */
  lemma {:induction false} BlocksAppend(a: seq<Record>, b: seq<Record>)
    ensures BlocksParts(a + b) == BlocksParts(a) + BlocksParts(b)
    decreases |b|
  {
    if b == [] {
      assert a + b == a;
    } else {
      var init, last := b[..|b| - 1], b[|b| - 1];
      BlocksAppend(a, init);
      SnocAppend(a, b);
      RegroupRight(BlocksParts(a + b), BlocksParts(a + init), BlocksParts(b),
              BlocksParts(a), BlocksParts(init), BlockParts(last));
    }
  }

  /** Blocks hold no group heading. */
  lemma {:induction false} BlocksHaveNoHeading(rs: seq<Record>)
    ensures Keep(BlocksParts(rs), Headings) == []
    decreases |rs|
  {
    if rs != [] {
      var init := rs[..|rs| - 1];
      BlocksHaveNoHeading(init);
      KeepAppend(BlocksParts(init), BlockParts(rs[|rs| - 1]), Headings);
      BlockHasNoHeading(rs[|rs| - 1]);
    }
  }

  /** Every fragment of a run of blocks is a block fragment. */
  lemma {:induction false} BlocksAreAllBlocks(rs: seq<Record>)
    ensures Keep(BlocksParts(rs), Blocks) == BlocksParts(rs)
    decreases |rs|
  {
    if rs != [] {
      var init := rs[..|rs| - 1];
      BlocksAreAllBlocks(init);
      KeepAppend(BlocksParts(init), BlockParts(rs[|rs| - 1]), Blocks);
      BlockIsAllBlocks(rs[|rs| - 1]);
    }
  }

  /** `n` rows make `n` blocks, none nested in another. */
  lemma {:induction false} BlocksMarkers(rs: seq<Record>)
    ensures Keep(BlocksParts(rs), Markers) == Pairs(|rs|)
    decreases |rs|
  {
    if rs != [] {
      var init := rs[..|rs| - 1];
      BlocksMarkers(init);
      KeepAppend(BlocksParts(init), BlockParts(rs[|rs| - 1]), Markers);
      BlockMarkers(rs[|rs| - 1]);
    }
  }

  /** Opening and closing `m` blocks and then `n` more is opening and closing
      `m + n`. */
  lemma {:induction false} PairsAdd(m: nat, n: nat)
    ensures Pairs(m + n) == Pairs(m) + Pairs(n)
    decreases n
  {
    if n == 0 {
      assert Pairs(m) + [] == Pairs(m);
    } else {
      PairsAdd(m, n - 1);
      Assoc(Pairs(m), Pairs(n - 1), [BLOCK_OPEN, BLOCK_CLOSE]);
    }
  }

  /** A heading is a `Headings` fragment and nothing else. */
  lemma HeadingKinds(k: string, sel: Selector)
    ensures Keep([Heading(k)], sel) == if sel == Headings then [Heading(k)] else []
  {
    HeadingKind(k);
    KeepOne(Heading(k), sel);
  }

  /** Picking fragments out of a section picks them out of its heading and its
      blocks. */
  lemma SectionKeep(rows: seq<Record>, keys: seq<string>, sel: Selector)
    requires keys != []
    ensures Keep(SectionsParts(rows, keys), sel)
         == Keep(SectionsParts(rows, keys[..|keys| - 1]), sel)
          + Keep([Heading(keys[|keys| - 1])], sel)
          + Keep(BlocksParts(Group(rows, keys[|keys| - 1])), sel)
  {
    var init, k := keys[..|keys| - 1], keys[|keys| - 1];
    var a, h, b := SectionsParts(rows, init), [Heading(k)], BlocksParts(Group(rows, k));
    KeepAppend(a, h + b, sel);
    KeepAppend(h, b, sel);
    Assoc(Keep(a, sel), Keep(h, sel), Keep(b, sel));
  }

  /** An empty middle piece drops out of a concatenation. */
  lemma DropEmpty(x: seq<string>, a: seq<string>, h: seq<string>, b: seq<string>)
    requires x == a + h + b && h == []
    ensures x == a + b
  {
  }

  /** A section without markers in its heading adds its blocks' pairs. */
  lemma MarkersStep(x: seq<string>, a: seq<string>, h: seq<string>, b: seq<string>, m: nat, n: nat)
    requires x == a + h + b && h == [] && a == Pairs(m) && b == Pairs(n)
    ensures x == Pairs(m + n)
  {
    PairsAdd(m, n);
  }

  /** The group headings of the sections of `keys` are those of `keys`, in
      order. */
  lemma {:induction false} SectionsHeadings(rows: seq<Record>, keys: seq<string>)
    ensures Keep(SectionsParts(rows, keys), Headings) == HeadingsOf(keys)
    decreases |keys|
  {
    if keys != [] {
      var init, k := keys[..|keys| - 1], keys[|keys| - 1];
      SectionsHeadings(rows, init);
      SectionKeep(rows, keys, Headings);
      HeadingKinds(k, Headings);
      BlocksHaveNoHeading(Group(rows, k));
    }
  }

  /** Without their headings, the sections of `keys` are the blocks of the
      rows grouped by `keys`. */
  lemma {:induction false} SectionsBlocks(rows: seq<Record>, keys: seq<string>)
    ensures Keep(SectionsParts(rows, keys), Blocks) == BlocksParts(Grouped(rows, keys))
    decreases |keys|
  {
    if keys != [] {
      var init, k := keys[..|keys| - 1], keys[|keys| - 1];
      SectionsBlocks(rows, init);
      SectionKeep(rows, keys, Blocks);
      HeadingKinds(k, Blocks);
      BlocksAreAllBlocks(Group(rows, k));
      DropEmpty(Keep(SectionsParts(rows, keys), Blocks), Keep(SectionsParts(rows, init), Blocks),
                Keep([Heading(k)], Blocks), Keep(BlocksParts(Group(rows, k)), Blocks));
      assert Grouped(rows, keys) == Grouped(rows, init) + Group(rows, k);
      BlocksAppend(Grouped(rows, init), Group(rows, k));
    }
  }

  /** The sections of `keys` open and close one block per grouped row. */
  lemma {:induction false} SectionsMarkers(rows: seq<Record>, keys: seq<string>)
    ensures Keep(SectionsParts(rows, keys), Markers) == Pairs(|Grouped(rows, keys)|)
    decreases |keys|
  {
    if keys != [] {
      var init, k := keys[..|keys| - 1], keys[|keys| - 1];
      SectionsMarkers(rows, init);
      SectionKeep(rows, keys, Markers);
      HeadingKinds(k, Markers);
      BlocksMarkers(Group(rows, k));
      var m, n := |Grouped(rows, init)|, |Group(rows, k)|;
      MarkersStep(Keep(SectionsParts(rows, keys), Markers), Keep(SectionsParts(rows, init), Markers),
                  Keep([Heading(k)], Markers), Keep(BlocksParts(Group(rows, k)), Markers), m, n);
      assert |Grouped(rows, keys)| == m + n;
    }
  }

  /** The page has one heading per category of the sheet, in sorted category
      order. */
  lemma PageHeadings(rows: seq<Record>)
    ensures Keep(PageParts(rows), Headings) == HeadingsOf(Keys(rows))
  {
    SectionsHeadings(rows, Keys(rows));
  }

  /** Without its headings, the page is the blocks of the rows grouped by
      category. */
  lemma PageBlocks(rows: seq<Record>)
    ensures Keep(PageParts(rows), Blocks) == BlocksParts(Grouped(rows, Keys(rows)))
  {
    SectionsBlocks(rows, Keys(rows));
  }

  /** The page has exactly one block per row of the sheet. */
  lemma PageMarkers(rows: seq<Record>)
    ensures Keep(PageParts(rows), Markers) == Pairs(|rows|)
  {
    SectionsMarkers(rows, Keys(rows));
    GroupedPermutation(rows);
    assert |multiset(Grouped(rows, Keys(rows)))| == |multiset(rows)|;
  }

  // ---------------------------------------------------------------------------
  // Answer paragraphs

  /** The paragraphs of two runs of segments, one after the other. */
  lemma {:induction false} AnswerAppend(a: seq<string>, b: seq<string>)
    ensures AnswerParts(a + b) == AnswerParts(a) + AnswerParts(b)
    decreases |b|
  {
    if b == [] {
      assert a + b == a;
    } else {
      var init := b[..|b| - 1];
      AnswerAppend(a, init);
      SnocAppend(a, b);
      assert AnswerParts(b) == AnswerParts(init) + ParagraphOf(b[|b| - 1]);
      RegroupRight(AnswerParts(a + b), AnswerParts(a + init), AnswerParts(b),
                   AnswerParts(a), AnswerParts(init), ParagraphOf(b[|b| - 1]));
    }
  }

  /** Each line of an answer contributes its own paragraphs: the paragraphs of
      two lines of text are those of the first followed by those of the second. */
  lemma AnswerLines(a: string, b: string)
    ensures AnswerParts(Split(a + [NL] + b)) == AnswerParts(Split(a)) + AnswerParts(Split(b))
  {
    SplitAppend(a, b);
    AnswerAppend(Split(a), Split(b));
  }

  /** A single line becomes one paragraph holding the line stripped, or none
      when the line is blank. */
  lemma AnswerOneLine(s: string)
    requires NL !in s
    ensures AnswerParts(Split(s)) == if AllSpace(s) then [] else [ParagraphLine(Strip(s))]
  {
    SplitNoNL(s);
    StripBlank(s);
    assert [s][..0] == [];
  }

  /** Segments give no paragraph at all exactly when every one is blank. */
  lemma {:induction false} NoParagraphs(segments: seq<string>)
    ensures AnswerParts(segments) == [] <==> forall i :: 0 <= i < |segments| ==> AllSpace(segments[i])
    decreases |segments|
  {
    if segments != [] {
      var init, last := segments[..|segments| - 1], segments[|segments| - 1];
      NoParagraphs(init);
      ParagraphOfBlank(last);
      EmptyAppend(AnswerParts(segments), AnswerParts(init), ParagraphOf(last));
      BlankSnoc(segments);
    }
  }

  /** A segment gives no paragraph exactly when it is blank. */
  lemma ParagraphOfBlank(segment: string)
    ensures ParagraphOf(segment) == [] <==> AllSpace(segment)
  {
    StripBlank(segment);
  }

  /** Segments are all blank exactly when all but the last are and the last is. */
  lemma BlankSnoc(segments: seq<string>)
    requires segments != []
    ensures var init := segments[..|segments| - 1];
      (forall i :: 0 <= i < |segments| ==> AllSpace(segments[i]))
      <==> (forall i :: 0 <= i < |init| ==> AllSpace(init[i])) && AllSpace(segments[|segments| - 1])
  {
    var init := segments[..|segments| - 1];
    assert forall i :: 0 <= i < |init| ==> init[i] == segments[i];
  }

  /** An answer yields no paragraph exactly when it is blank: every character
      whitespace, line breaks included. */
  lemma BlankAnswer(answer: string)
    ensures AnswerParts(Split(answer)) == [] <==> AllSpace(answer)
  {
    JoinSplit(answer);
    AllSpaceJoin(Split(answer));
    NoParagraphs(Split(answer));
  }

  // ---------------------------------------------------------------------------
  // Group headings

  /** Different categories get different headings: escaping loses nothing. */
  lemma HeadingInjective(a: string, b: string)
    requires Heading(a) == Heading(b)
    ensures a == b
  {
    var h := Heading(a);
    assert h[4..|h| - 5] == Escape(a);
    assert Heading(b)[4..|h| - 5] == Escape(b);
    UnescapeEscape(a);
    UnescapeEscape(b);
  }

  /** The headings of `keys` are the heading of each key, position by position. */
  lemma {:induction false} HeadingsAt(keys: seq<string>)
    ensures |HeadingsOf(keys)| == |keys|
    ensures forall i :: 0 <= i < |keys| ==> HeadingsOf(keys)[i] == Heading(keys[i])
    decreases |keys|
  {
    if keys != [] {
      HeadingsAt(keys[..|keys| - 1]);
    }
  }

  /** The page has a heading for a category exactly when some row of the sheet
      has that category, and no heading twice. */
  lemma PageHeadingsPerCategory(rows: seq<Record>)
    ensures forall c :: Heading(c) in Keep(PageParts(rows), Headings) <==> Occurs(rows, c)
    ensures var hs := Keep(PageParts(rows), Headings);
      forall i, j :: 0 <= i < j < |hs| ==> hs[i] != hs[j]
  {
    var keys := Keys(rows);
    PageHeadings(rows);
    HeadingsAt(keys);
    var hs := HeadingsOf(keys);
    forall c ensures Heading(c) in hs <==> c in keys {
      if Heading(c) in hs {
        var i :| 0 <= i < |hs| && hs[i] == Heading(c);
        HeadingInjective(keys[i], c);
      }
      if c in keys {
        var i :| 0 <= i < |keys| && keys[i] == c;
        assert hs[i] == Heading(c);
      }
    }
    forall i, j | 0 <= i < j < |hs| ensures hs[i] != hs[j] {
      LessIrreflexive(keys[i]);
      if hs[i] == hs[j] {
        HeadingInjective(keys[i], keys[j]);
      }
    }
  }

  // ---------------------------------------------------------------------------
  // The ends of the page

  /** A run of blocks ends with a closing line. */
  lemma BlocksLast(rs: seq<Record>)
    requires rs != []
    ensures var ps := BlocksParts(rs); ps != [] && ps[|ps| - 1] == BLOCK_CLOSE
  {
    var b := BlockParts(rs[|rs| - 1]);
    assert b[|b| - 1] == BLOCK_CLOSE;
    SnocAppend(BlocksParts(rs[..|rs| - 1]), b);
  }

  /** The sections of `keys` start with the heading of the first key. */
  lemma {:induction false} SectionsFirst(rows: seq<Record>, keys: seq<string>)
    requires keys != []
    ensures var ps := SectionsParts(rows, keys); ps != [] && ps[0] == Heading(keys[0])
    decreases |keys|
  {
    var init := keys[..|keys| - 1];
    if init == [] {
      assert SectionsParts(rows, keys) == [] + SectionParts(rows, keys[0]);
    } else {
      SectionsFirst(rows, init);
      assert init[0] == keys[0];
    }
  }

  /** The sections of `keys` end with a closing line when the last group has
      a row. */
  lemma SectionsLast(rows: seq<Record>, keys: seq<string>)
    requires keys != [] && Group(rows, keys[|keys| - 1]) != []
    ensures var ps := SectionsParts(rows, keys); ps != [] && ps[|ps| - 1] == BLOCK_CLOSE
  {
    var k := keys[|keys| - 1];
    BlocksLast(Group(rows, k));
    var b := BlocksParts(Group(rows, k));
    SnocAppend([Heading(k)], b);
    SnocAppend(SectionsParts(rows, keys[..|keys| - 1]), SectionParts(rows, k));
  }

  /** The group of a category that occurs is not empty. */
  lemma OccursGroup(rows: seq<Record>, k: string)
    requires Occurs(rows, k)
    ensures Group(rows, k) != []
  {
    var i :| 0 <= i < |rows| && rows[i].category == k;
    GroupCount(rows, k);
    assert rows[i] in multiset(rows);
  }

  /** The page of a non-empty sheet starts with the heading of the smallest
      category: the join puts no separator before it. */
  lemma PageStart(rows: seq<Record>)
    requires rows != []
    ensures Keys(rows) != [] && Heading(Keys(rows)[0]) <= Join(PageParts(rows))
  {
    var keys := Keys(rows);
    assert Occurs(rows, rows[0].category);
    assert keys != [];
    SectionsFirst(rows, keys);
    var ps := PageParts(rows);
    JoinFirst(ps);
  }

  /** The page of a non-empty sheet ends with the closing line of its last
      block: the join puts no separator after it. */
  lemma PageEnd(rows: seq<Record>)
    requires rows != []
    ensures var html := Join(PageParts(rows));
      |BLOCK_CLOSE| <= |html| && html[|html| - |BLOCK_CLOSE|..] == BLOCK_CLOSE
  {
    var keys := Keys(rows);
    assert Occurs(rows, rows[0].category);
    assert keys[|keys| - 1] in keys;
    OccursGroup(rows, keys[|keys| - 1]);
    SectionsLast(rows, keys);
    var ps := PageParts(rows);
    JoinLast(ps);
  }

  // ---------------------------------------------------------------------------
  // What each line shows

  /** Text that is safe inside HTML markup and quoted attributes: no raw `<`,
      `>`, `"` or `'`, and every `&` begins one of the five entities. */
  predicate SafeText(m: string) {
    forall i :: 0 <= i < |m| ==> if m[i] == '&' then EntityAt(m, i) else !IsMarkup(m[i])
  }

  /** Fixed markup around the escape of `x`: what stands between the markup is
      safe and reads back as `x`. */
  lemma Framed(r: string, open: string, x: string, close: string)
    requires r == open + Escape(x) + close
    ensures |open| + |close| <= |r| && r[..|open|] == open && r[|r| - |close|..] == close
    ensures SafeText(r[|open|..|r| - |close|]) && Unescape(r[|open|..|r| - |close|]) == x
  {
    var m := r[|open|..|r| - |close|];
    assert m == Escape(x);
    EscapedAmpersandsStartEntities(x);
    UnescapeEscape(x);
  }

  /** A group heading is `<h2>`, the category escaped, and `</h2>`: the
      category shows as written and cannot add markup. */
  lemma HeadingShows(category: string)
    ensures var h, o, c := Heading(category), "<h2>", "</h2>";
      |o| + |c| <= |h| && h[..|o|] == o && h[|h| - |c|..] == c
      && SafeText(h[|o|..|h| - |c|]) && Unescape(h[|o|..|h| - |c|]) == category
  {
    Framed(Heading(category), "<h2>", category, "</h2>");
  }

  /** A question line is `<h3>`, the question escaped, and `</h3>`. */
  lemma QuestionShows(question: string)
    ensures var h, o, c := QuestionLine(question), "<h3>", "</h3>";
      |o| + |c| <= |h| && h[..|o|] == o && h[|h| - |c|..] == c
      && SafeText(h[|o|..|h| - |c|]) && Unescape(h[|o|..|h| - |c|]) == question
  {
    Framed(QuestionLine(question), "<h3>", question, "</h3>");
  }

  /** A summary line is the summary paragraph markup around the summary,
      escaped. */
  lemma SummaryShows(summary: string)
    ensures var h, o, c := SummaryLine(summary), "<p class='summary'>", "</p>";
      |o| + |c| <= |h| && h[..|o|] == o && h[|h| - |c|..] == c
      && SafeText(h[|o|..|h| - |c|]) && Unescape(h[|o|..|h| - |c|]) == summary
  {
    Framed(SummaryLine(summary), "<p class='summary'>", summary, "</p>");
  }

  /** A paragraph line is `<p>`, the text escaped, and `</p>`. */
  lemma ParagraphShows(text: string)
    ensures var h, o, c := ParagraphLine(text), "<p>", "</p>";
      |o| + |c| <= |h| && h[..|o|] == o && h[|h| - |c|..] == c
      && SafeText(h[|o|..|h| - |c|]) && Unescape(h[|o|..|h| - |c|]) == text
  {
    Framed(ParagraphLine(text), "<p>", text, "</p>");
  }

  /** A keywords line is the keywords markup and label around the keywords,
      escaped. */
  lemma KeywordsShows(keywords: string)
    ensures var h, o, c := KeywordsLine(keywords), "<div class='keywords'>" + KEYWORDS_LABEL, "</div>";
      |o| + |c| <= |h| && h[..|o|] == o && h[|h| - |c|..] == c
      && SafeText(h[|o|..|h| - |c|]) && Unescape(h[|o|..|h| - |c|]) == keywords
  {
    Framed(KeywordsLine(keywords), "<div class='keywords'>" + KEYWORDS_LABEL, keywords, "</div>");
  }

  // ---------------------------------------------------------------------------
  // Where each line comes from

  /** `p` is a line that `generate_html` writes for row `r`: the heading of its
      group, its question, its summary, a paragraph of its answer or its
      keywords. */
  predicate LineOf(p: string, r: Record) {
    || p == Heading(r.category)
    || p == QuestionLine(r.question)
    || (r.summary.Some? && p == SummaryLine(r.summary.value))
    || (exists seg :: seg in Split(r.answer) && p == ParagraphLine(Strip(seg)))
    || (r.keywords.Some? && p == KeywordsLine(r.keywords.value))
  }

  /** Every paragraph of the segments holds one of them, stripped. */
  lemma {:induction false} AnswerFrom(segments: seq<string>)
    ensures forall p :: p in AnswerParts(segments) ==>
      exists seg :: seg in segments && p == ParagraphLine(Strip(seg))
    decreases |segments|
  {
    if segments != [] {
      var init, last := segments[..|segments| - 1], segments[|segments| - 1];
      AnswerFrom(init);
      assert forall seg :: seg in init ==> seg in segments;
      assert last in segments;
    }
  }

  /** Every line of a block opens or closes it or is a line of its row. */
  lemma BlockFrom(r: Record)
    ensures forall p :: p in BlockParts(r) ==> p == BLOCK_OPEN || p == BLOCK_CLOSE || LineOf(p, r)
  {
    var answer := AnswerParts(Split(r.answer));
    AnswerFrom(Split(r.answer));
    forall p | p in BlockParts(r) ensures p == BLOCK_OPEN || p == BLOCK_CLOSE || LineOf(p, r) {
      BlockMember(r, p);
      if p in answer {
        var seg :| seg in Split(r.answer) && p == ParagraphLine(Strip(seg));
      }
    }
  }

  /** A line of a block is one of its six pieces. */
  lemma BlockMember(r: Record, p: string)
    requires p in BlockParts(r)
    ensures || p == BLOCK_OPEN || p == QuestionLine(r.question) || p in SummaryParts(r.summary)
            || p in AnswerParts(Split(r.answer)) || p in KeywordsParts(r.keywords) || p == BLOCK_CLOSE
  {
  }

  /** Every line of a run of blocks opens or closes a block or is a line of
      one of the rows. */
  lemma {:induction false} BlocksFrom(rs: seq<Record>)
    ensures forall p :: p in BlocksParts(rs) ==>
      p == BLOCK_OPEN || p == BLOCK_CLOSE || exists r :: r in rs && LineOf(p, r)
    decreases |rs|
  {
    if rs != [] {
      var init, last := rs[..|rs| - 1], rs[|rs| - 1];
      BlocksFrom(init);
      BlockFrom(last);
      assert forall r :: r in init ==> r in rs;
      assert last in rs;
    }
  }

  /** The rows of a group are rows of the sheet. */
  lemma GroupFrom(rows: seq<Record>, k: string)
    ensures forall r :: r in Group(rows, k) ==> r in rows
  {
    GroupCount(rows, k);
    forall r | r in Group(rows, k) ensures r in rows {
      assert multiset(Group(rows, k))[r] > 0;
    }
  }

  /** Every line of the sections of categories that occur opens or closes a
      block or is a line of some row. */
  lemma {:induction false} SectionsFrom(rows: seq<Record>, keys: seq<string>)
    requires forall k :: k in keys ==> Occurs(rows, k)
    ensures forall p :: p in SectionsParts(rows, keys) ==>
      p == BLOCK_OPEN || p == BLOCK_CLOSE || exists r :: r in rows && LineOf(p, r)
    decreases |keys|
  {
    if keys != [] {
      var init, k := keys[..|keys| - 1], keys[|keys| - 1];
      assert forall x :: x in init ==> x in keys;
      SectionsFrom(rows, init);
      BlocksFrom(Group(rows, k));
      GroupFrom(rows, k);
      assert k in keys;
      var i :| 0 <= i < |rows| && rows[i].category == k;
      assert LineOf(Heading(k), rows[i]) && rows[i] in rows;
    }
  }

  /** Every line of the page body is the opening or closing line of a block,
      or a line built from a field of some row of the sheet; with the `Shows`
      lemmas above, nothing from the sheet reaches the page unescaped. */
  lemma PageFrom(rows: seq<Record>)
    ensures forall p :: p in PageParts(rows) ==>
      p == BLOCK_OPEN || p == BLOCK_CLOSE || exists r :: r in rows && LineOf(p, r)
  {
    SectionsFrom(rows, Keys(rows));
  }

  /** The section of category `k` starts with its heading, and that is the only
      heading in it. */
  lemma SectionHeading(rows: seq<Record>, k: string)
    ensures var ps := SectionParts(rows, k);
      ps[0] == Heading(k) && Keep(ps, Headings) == [Heading(k)]
  {
    var g := Group(rows, k);
    HeadingKinds(k, Headings);
    BlocksHaveNoHeading(g);
    KeepAppend([Heading(k)], BlocksParts(g), Headings);
  }

  /** Under the heading of category `k` come only lines of rows of category
      `k`: every question, summary, paragraph and keywords line of a section
      belongs to a row of that section's category. */
  lemma SectionRows(rows: seq<Record>, k: string)
    ensures var ps := SectionParts(rows, k);
      forall p :: p in ps[1..] ==>
        p == BLOCK_OPEN || p == BLOCK_CLOSE || exists r :: r in rows && r.category == k && LineOf(p, r)
  {
    var g := Group(rows, k);
    var ps := SectionParts(rows, k);
    assert ps[1..] == BlocksParts(g);
    BlocksFrom(g);
    GroupFrom(rows, k);
    forall p | p in BlocksParts(g) && p != BLOCK_OPEN && p != BLOCK_CLOSE
      ensures exists r :: r in rows && r.category == k && LineOf(p, r)
    {
      var r :| r in g && LineOf(p, r);
      var i :| 0 <= i < |g| && g[i] == r;
      assert r.category == k && r in rows;
    }
  }
}
