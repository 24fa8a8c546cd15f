/** The FAQ page body that `generate_html` builds: a list of HTML fragments,
    grown group by group and row by row, joined with newlines at the end. */
module Render {
  import opened Wrappers
  import opened Text
  import opened HtmlEscape
  import opened Grouping
  import opened Seqs

  /** The fragments that open and close the block of one row. */
  const BLOCK_OPEN: string := "<div class=\"faq-block\">"
  const BLOCK_CLOSE: string := "</div>"

  /** The label in front of the keywords ("keywords:" in Chinese, with a
      full-width colon). */
  const KEYWORDS_LABEL: string := "关键词："

  /** The heading of a group. */
  function Heading(category: string): string {
    "<h2>" + Escape(category) + "</h2>"
  }

  /** The question line of a block. */
  function QuestionLine(question: string): string {
    "<h3>" + Escape(question) + "</h3>"
  }

  /** The summary line of a block, present only when the cell is. */
  function SummaryLine(summary: string): string {
    "<p class='summary'>" + Escape(summary) + "</p>"
  }

  /** One paragraph of an answer. */
  function ParagraphLine(text: string): string {
    "<p>" + Escape(text) + "</p>"
  }

  /** The keywords line of a block, present only when the cell is. */
  function KeywordsLine(keywords: string): string {
    "<div class='keywords'>" + KEYWORDS_LABEL + Escape(keywords) + "</div>"
  }

  /** The summary fragment of a row: one line or none. */
  function SummaryParts(summary: Option<string>): seq<string> {
    match summary
    case Some(s) => [SummaryLine(s)]
    case None => []
  }

  /** The keywords fragment of a row: one line or none. */
  function KeywordsParts(keywords: Option<string>): seq<string> {
    match keywords
    case Some(k) => [KeywordsLine(k)]
    case None => []
  }

  /** One paragraph per answer segment that is not blank, holding the segment
      stripped of surrounding whitespace. */
  function AnswerParts(segments: seq<string>): seq<string> {
    if segments == [] then []
    else AnswerParts(segments[..|segments| - 1]) + ParagraphOf(segments[|segments| - 1])
  }

  /** The paragraph, if any, of one answer segment. */
  function ParagraphOf(segment: string): seq<string> {
    if Strip(segment) != [] then [ParagraphLine(Strip(segment))] else []
  }

  /** The fragments of one row's block. */
  function BlockParts(r: Record): seq<string> {
    [BLOCK_OPEN, QuestionLine(r.question)]
    + SummaryParts(r.summary)
    + AnswerParts(Split(r.answer))
    + KeywordsParts(r.keywords)
    + [BLOCK_CLOSE]
  }

  /** The blocks of several rows, one after another. */
  function BlocksParts(rows: seq<Record>): seq<string> {
    if rows == [] then []
    else BlocksParts(rows[..|rows| - 1]) + BlockParts(rows[|rows| - 1])
  }

  /** The heading of group `k` followed by the blocks of its rows. */
  function SectionParts(rows: seq<Record>, k: string): seq<string> {
    [Heading(k)] + BlocksParts(Group(rows, k))
  }

  /** The sections of the groups in `keys`, in that order. */
  function SectionsParts(rows: seq<Record>, keys: seq<string>): seq<string> {
    if keys == [] then []
    else SectionsParts(rows, keys[..|keys| - 1]) + SectionParts(rows, keys[|keys| - 1])
  }

  /** All fragments of the page body, group keys in sorted order. */
  function PageParts(rows: seq<Record>): seq<string> {
    SectionsParts(rows, Keys(rows))
  }

  /** `generate_html`: appends a heading per group and a block per row of the
      group to a growing list, then joins the list with newlines. */
  method GenerateHtml(rows: seq<Record>) returns (html: string)
    ensures html == Join(PageParts(rows))
    ensures rows == [] ==> html == []
  {
    var keys := Keys(rows);
    var parts: seq<string> := [];
    for gi := 0 to |keys|
      invariant parts == SectionsParts(rows, keys[..gi])
    {
      var category := keys[gi];
      ghost var done := parts;
      parts := parts + [Heading(category)];
      ghost var started := parts;
      var group := Group(rows, category);
      assert group[..0] == [];
      for ri := 0 to |group|
        invariant parts == started + BlocksParts(group[..ri])
      {
        var row := group[ri];
        BlocksStep(group, ri);
        Assoc(started, BlocksParts(group[..ri]), BlockParts(row));
        parts := AppendBlock(parts, row);
      }
      assert group[..|group|] == group;
      Assoc(done, [Heading(category)], BlocksParts(group));
      SectionsStep(rows, keys, gi);
    }
    assert keys[..|keys|] == keys;
    html := Join(parts);
  }

  /** The body of the row loop of `generate_html`: appends the block of `row`
      to `parts0`. */
  method AppendBlock(parts0: seq<string>, row: Record) returns (parts: seq<string>)
    ensures parts == parts0 + BlockParts(row)
  {
    parts := parts0 + [BLOCK_OPEN];
    parts := parts + [QuestionLine(row.question)];
    if row.summary.Some? {
      parts := parts + [SummaryLine(row.summary.value)];
    }
    ghost var head := parts;
    assert head == parts0 + [BLOCK_OPEN, QuestionLine(row.question)] + SummaryParts(row.summary);
    parts := AppendParagraphs(parts, Split(row.answer));
    ghost var body := parts;
    if row.keywords.Some? {
      parts := parts + [KeywordsLine(row.keywords.value)];
    }
    assert parts == body + KeywordsParts(row.keywords);
    parts := parts + [BLOCK_CLOSE];
    BlockAssembly(parts0, head, row, parts);
  }

  /** The answer loop of `generate_html`: appends one paragraph per answer
      segment that is not blank once stripped. */
  method AppendParagraphs(parts0: seq<string>, segments: seq<string>) returns (parts: seq<string>)
    ensures parts == parts0 + AnswerParts(segments)
  {
    parts := parts0;
    assert segments[..0] == [];
    for pi := 0 to |segments|
      invariant parts == parts0 + AnswerParts(segments[..pi])
    {
      var para := segments[pi];
      AnswerStep(segments, pi);
      Assoc(parts0, AnswerParts(segments[..pi]), ParagraphOf(para));
      if Strip(para) != [] {
        parts := parts + [ParagraphLine(Strip(para))];
      }
    }
    assert segments[..|segments|] == segments;
  }

  /** One more answer segment adds its paragraph, if it has one. */
  lemma AnswerStep(segments: seq<string>, i: nat)
    requires i < |segments|
    ensures AnswerParts(segments[..i + 1]) == AnswerParts(segments[..i]) + ParagraphOf(segments[i])
  {
    assert segments[..i + 1][..i] == segments[..i];
  }

  /** One more row adds its block. */
  lemma BlocksStep(rows: seq<Record>, i: nat)
    requires i < |rows|
    ensures BlocksParts(rows[..i + 1]) == BlocksParts(rows[..i]) + BlockParts(rows[i])
  {
    assert rows[..i + 1][..i] == rows[..i];
  }

  /** One more key adds its section. */
  lemma SectionsStep(rows: seq<Record>, keys: seq<string>, i: nat)
    requires i < |keys|
    ensures SectionsParts(rows, keys[..i + 1]) == SectionsParts(rows, keys[..i]) + SectionParts(rows, keys[i])
  {
    assert keys[..i + 1][..i] == keys[..i];
  }

  /** The fragments appended for one row, in the order `generate_html`
      appends them, make up that row's block. */
  lemma BlockAssembly(before: seq<string>, head: seq<string>, row: Record, parts: seq<string>)
    requires head == before + [BLOCK_OPEN, QuestionLine(row.question)] + SummaryParts(row.summary)
    requires parts == head + AnswerParts(Split(row.answer)) + KeywordsParts(row.keywords) + [BLOCK_CLOSE]
    ensures parts == before + BlockParts(row)
  {
    var x1 := [BLOCK_OPEN, QuestionLine(row.question)];
    var x2 := x1 + SummaryParts(row.summary);
    var x3 := x2 + AnswerParts(Split(row.answer));
    var x4 := x3 + KeywordsParts(row.keywords);
    Assoc(before, x1, SummaryParts(row.summary));
    Assoc(before, x2, AnswerParts(Split(row.answer)));
    Assoc(before, x3, KeywordsParts(row.keywords));
    Assoc(before, x4, [BLOCK_CLOSE]);
  }
}
