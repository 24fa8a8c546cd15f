# GEO knowledge-base page renderer, modelled in Dafny

The repository turns a spreadsheet of FAQ entries into one static HTML page.
Each row of the sheet has a category, a question, an answer and, optionally,
a summary and keywords. `build.py` builds the page in two steps:

- `generate_html` groups the rows by category. It writes one `<h2>` heading
  per category, then one `faq-block` per row of that category. A block holds
  the question, the summary line if the summary is present, one `<p>` per
  non-blank line of the answer, and the keywords line if the keywords are
  present. All text from the sheet goes through `html.escape`. The fragments
  are joined with newlines.
- `main` puts that body, and the page title twice, into `HTML_TEMPLATE`
  with `str.format`.

The model covers both steps and the Python behaviour they depend on:

| file | module | what it holds |
|---|---|---|
| `seqs.dfy` | `Seqs` | small regrouping facts about sequence concatenation |
| `wrappers.dfy` | `Wrappers` | `Option` (a cell pandas reads as missing is `None`) and `Result` |
| `order.dfy` | `StrOrder` | Python's `<` on `str`, which pandas uses to sort group keys; it is a strict total order |
| `grouping.dfy` | `Grouping` | a sheet row (`Record`); `df.groupby("category")` as sorted keys plus stable groups |
| `text.dfy` | `Text` | `str.isspace`, `strip()`, `split("\n")` and `"\n".join`, with Python's exact whitespace set |
| `escape.dfy` | `HtmlEscape` | `html.escape(s, quote=True)`, both as the library's five replacements and character by character; a reference `Unescape` |
| `render.dfy` | `Render` | the fragments of the page body as functions; `generate_html` as the method `GenerateHtml`, with its loops |
| `outline.dfy` | `Outline` | what the body says when read back: which headings, blocks, summaries, paragraphs and keywords lines it contains |
| `format.dfy` | `PyFormat` | the part of `str.format` the template uses: literal text, `{{`, `}}`, `{title}`, `{content}`, and its errors |
| `page.dfy` | `Page` | the template text; `main` without the file system, as `BuildPage` |

Groups come out in sorted key order, not in order of first appearance,
because `df.groupby("category")` sorts its keys by default (`sort=True`).
Within a group, rows keep their sheet order. `Grouping.Keys` is strictly
sorted under `StrOrder.Less`, Python's `<` on strings.

## Model

| member | source | states |
|---|---|---|
| StrOrder.Less | build.py:70 | Python's `<` on `str`, by which pandas sorts the group keys: code point by code point, a proper prefix first; its properties are stated by the four lemmas below |
| StrOrder.LessIrreflexive | build.py:70 | no category sorts before itself |
| StrOrder.LessTransitive | build.py:70 | the key order used for grouping is transitive |
| StrOrder.LessTotal | build.py:70 | any two different categories are ordered one way or the other, so the sort is total |
| StrOrder.LessAsymmetric | build.py:70 | no two categories are ordered both ways |
| Grouping.Insert | build.py:70 | adding a key to a strictly sorted key list keeps it strictly sorted, and the result holds exactly the old keys plus the new one |
| Grouping.Keys | build.py:70-73 | the group keys are strictly sorted (so each appears once), and a category is a key exactly when some row has it |
| Grouping.Group | build.py:73-76 | a group has no more rows than the sheet, and all of them have its category |
| Grouping.Grouped | build.py:73-76 | the rows in the order the category and row loops visit them, group after group; its properties are stated by GroupedCategories, GroupedOrdered, GroupedStable and GroupedPermutation |
| Grouping.GroupCount | build.py:73-76 | a group holds every row of its category as often as the sheet does, and no other row |
| Grouping.GroupAppend | build.py:73-76 | the group of two runs of rows is the group of the first followed by the group of the second, so sheet order is kept |
| Grouping.GroupOfGroup | build.py:73-76 | regrouping a group by its own category changes nothing; by another category it gives nothing |
| Grouping.GroupedCategories | build.py:73-76 | every row visited by the category and row loops has one of the keys |
| Grouping.GroupedOrdered | build.py:73-76 | the rows are visited in sorted category order |
| Grouping.GroupedStable | build.py:73-76 | the rows of each category are visited in their sheet order |
| Grouping.GroupedPermutation | build.py:73-76 | the category and row loops visit every row of the sheet exactly once: the visit order is a permutation of the rows |
| Text.IsSpace | build.py:85 | exactly the characters for which Python's `str.isspace()` holds, which `strip()` removes |
| Text.TrimStart | build.py:85-86 | `lstrip()`; its meaning is stated by TrimStartSuffix |
| Text.TrimStartSuffix | build.py:85-86 | the result is a suffix of the input, what was removed is all whitespace, and the result does not start with whitespace |
| Text.TrimEnd | build.py:85-86 | `rstrip()`; its meaning is stated by TrimEndPrefix |
| Text.TrimEndPrefix | build.py:85-86 | the result is a prefix of the input, what was removed is all whitespace, and the result does not end with whitespace |
| Text.Strip | build.py:85-86 | `strip()`; its meaning is stated by StripSlice, StripBlank and StripEnds |
| Text.StripSlice | build.py:85-86 | the stripped text is a slice of the input with only whitespace before and after it |
| Text.StripBlank | build.py:85 | the stripped text is empty exactly when the input is blank |
| Text.StripEnds | build.py:85-86 | the stripped text of a non-blank input starts and ends with a character that is not whitespace |
| Text.StripIdempotent | build.py:85-86 | stripping the stripped text changes nothing |
| Text.Split | build.py:83 | splitting gives at least one segment, and no segment contains a newline |
| Text.SplitAppend | build.py:83 | splitting at a newline between two texts splits each of them separately |
| Text.SplitJoin | build.py:83 | splitting undoes joining, when no part contains a newline |
| Text.SplitNoNL | build.py:83 | a text without a newline splits into itself alone |
| Text.JoinSplit | build.py:83 | joining the segments with newlines gives back the answer: no character is lost or added |
| Text.Join | build.py:95 | `"\n".join`; its properties are stated by JoinSplit, SplitJoin, JoinAppend, JoinFirst and JoinLast |
| Text.JoinAppend | build.py:95 | joining two non-empty lists puts exactly one newline where they meet |
| Text.AllSpaceAppend | build.py:85 | two texts together are blank exactly when both are |
| Text.AllSpaceJoin | build.py:83-85 | a joined text is blank exactly when every part is |
| Text.JoinFirst | build.py:95 | the joined text starts with the first fragment |
| Text.JoinLast | build.py:95 | the joined text ends with the last fragment |
| HtmlEscape.Replace | build.py:3 | after replacing a character with text that does not contain it, the character is gone; a text without it is unchanged |
| HtmlEscape.PyEscape | build.py:3 | `html.escape(s, quote=True)` as the library writes it, five replacements with the ampersand first; EscapeIsPyEscape ties it to Escape |
| HtmlEscape.EscapeChar | build.py:3 | the entity, or the character itself, that one character escapes to; stated by EscapeCharShape and PyEscapeChar |
| HtmlEscape.Escape | build.py:74-90 | escaped text is at least as long as the input, and no `<`, `>`, `"` or `'` is left in it |
| HtmlEscape.ReplaceAppend | build.py:3 | replacement works piece by piece over concatenation |
| HtmlEscape.PyEscapeAppend | build.py:3 | the library's five-step escape works piece by piece over concatenation |
| HtmlEscape.ReplaceAbsent | build.py:3 | a replacement whose character does not occur changes nothing |
| HtmlEscape.ReplaceOne | build.py:3 | a one-character text is replaced as a whole or kept |
| HtmlEscape.LaterStepsAbsent | build.py:3 | the later replacement steps leave alone the text the earlier steps produce for one character |
| HtmlEscape.PyEscapeChar | build.py:3 | on one character, the five replacements (ampersand first) give that character's entity or the character itself |
| HtmlEscape.EscapeCharShape | build.py:3 | a character escapes to an entity exactly when it is markup, and to itself otherwise |
| HtmlEscape.EscapedAmpersandsStartEntities | build.py:74-90 | every `&` in escaped text starts one of the five entities, so no raw markup is left |
| HtmlEscape.EscapeIsPyEscape | build.py:3 | escaping character by character equals the library's five sequential replacements |
| HtmlEscape.UnescapeEscape | build.py:74-90 | unescaping escaped text gives back the original, so escaping loses nothing |
| HtmlEscape.UnescapeStep | build.py:74-90 | the escape of one character reads back as that character |
| Render.Heading | build.py:74 | the group heading; stated by Outline.HeadingShows |
| Render.QuestionLine | build.py:78 | the question line; stated by Outline.QuestionShows |
| Render.SummaryLine | build.py:81 | the summary line; stated by Outline.SummaryShows |
| Render.ParagraphLine | build.py:86 | one answer paragraph; stated by Outline.ParagraphShows |
| Render.KeywordsLine | build.py:90 | the keywords line with its label; stated by Outline.KeywordsShows |
| Render.SummaryParts | build.py:80-81 | the summary line when the summary is present, nothing otherwise; stated by Outline.SummaryIffPresent |
| Render.KeywordsParts | build.py:88-91 | the keywords line when the keywords are present, nothing otherwise; stated by Outline.KeywordsIffPresent |
| Render.ParagraphOf | build.py:85-86 | the paragraph of one segment, if it is not blank; stated by Outline.ParagraphOfBlank |
| Render.AnswerParts | build.py:84-86 | the paragraphs of the answer segments, in order; stated by Outline.AnswerAppend, AnswerOneLine, NoParagraphs and BlankAnswer |
| Render.BlockParts | build.py:77-93 | the lines of one row's block; stated by Outline.BlockMarkers, BlockParagraphs, SummaryIffPresent, KeywordsIffPresent and BlockFrom |
| Render.BlocksParts | build.py:76-93 | the blocks of several rows in order; stated by Outline.BlocksAppend, BlocksMarkers and BlocksFrom |
| Render.SectionParts | build.py:74-93 | a group heading followed by the blocks of the group's rows |
| Render.SectionsParts | build.py:73-93 | the sections of the keys in order; stated by Outline.SectionsHeadings, SectionsBlocks and SectionsMarkers |
| Render.PageParts | build.py:70-93 | the whole fragment list; stated by Outline.PageHeadings, PageBlocks, PageMarkers, PageHeadingsPerCategory and PageFrom |
| Render.GenerateHtml | build.py:69-95 | the three loops (over the categories, over the rows of each category, and, in AppendParagraphs, over the lines of each answer) build exactly the fragments of the sorted groups, each heading followed by the blocks of its rows, joined with newlines; an empty sheet gives an empty body |
| Render.AppendBlock | build.py:76-93 | one row appends the opening line, the question, the summary if present, the answer paragraphs, the keywords if present and the closing line, in that order |
| Render.AppendParagraphs | build.py:83-86 | the answer loop appends one stripped paragraph per non-blank segment, in order |
| Render.BlockAssembly | build.py:77-93 | the fragments appended for one row, in append order, are that row's block |
| Outline.HeadingKind | build.py:74 | a category heading is a heading and nothing else |
| Outline.MarkerKinds | build.py:77-93 | the opening and closing lines are block markers and part of a block |
| Outline.QuestionKind | build.py:78 | a question line is only part of a block |
| Outline.SummaryKind | build.py:81 | a summary line is a summary and part of a block |
| Outline.ParagraphKind | build.py:86 | a paragraph line is a paragraph and part of a block |
| Outline.KeywordsKind | build.py:89-91 | a keywords line is a keywords line and part of a block |
| Outline.KeepAnswer | build.py:83-86 | the answer paragraphs are paragraphs and block fragments, and of no other kind |
| Outline.BlockKeep | build.py:76-93 | the fragments of a kind in a block are those of the kind in each of its six pieces |
| Outline.BlockKeepPieces | build.py:76-93 | picking from a block picks from its pieces |
| Outline.PieceKinds | build.py:76-93 | the kinds of the fixed pieces of a block |
| Outline.BlockHasNoHeading | build.py:76-93 | a block contains no category heading |
| Outline.BlockIsAllBlocks | build.py:76-93 | every fragment of a block belongs to the block |
| Outline.BlockMarkers | build.py:77-93 | a block opens once and closes once, and neither line appears inside it |
| Outline.SummaryIffPresent | build.py:80-81 | a block has a summary line if and only if the row's summary is present, and then exactly one, holding the escaped summary |
| Outline.KeywordsIffPresent | build.py:88-91 | a block has a keywords line if and only if the row's keywords are present, and then exactly one |
| Outline.BlockParagraphs | build.py:83-86 | the paragraphs of a block are exactly those of its answer |
| Outline.BlocksAppend | build.py:76-93 | the blocks of two runs of rows are those of the first followed by those of the second |
| Outline.BlocksHaveNoHeading | build.py:76-93 | blocks contain no category heading |
| Outline.BlocksAreAllBlocks | build.py:76-93 | every fragment of a run of blocks is a block fragment |
| Outline.BlocksMarkers | build.py:76-93 | n rows make n blocks, none nested inside another |
| Outline.HeadingKinds | build.py:74 | a heading is kept only when headings are picked |
| Outline.SectionHeading | build.py:73-74 | a section starts with its category heading, and that is its only heading |
| Outline.SectionRows | build.py:73-93 | every line under the heading of category k opens or closes a block or is a line of a row of category k: each question appears under its own category |
| Outline.SectionKeep | build.py:73-93 | picking from the sections picks from the earlier sections, the last heading and its blocks |
| Outline.SectionsHeadings | build.py:73-74 | the headings of the sections are those of the keys, in order |
| Outline.SectionsBlocks | build.py:73-93 | without their headings, the sections are the blocks of the grouped rows |
| Outline.SectionsMarkers | build.py:73-93 | the sections open and close one block per grouped row |
| Outline.PageHeadings | build.py:70-74 | the page has one heading per category, in sorted category order |
| Outline.PageBlocks | build.py:70-93 | without its headings, the page is the blocks of the rows in sorted category order, sheet order within a category |
| Outline.PageMarkers | build.py:73-93 | the page has exactly one block per row of the sheet |
| Outline.AnswerAppend | build.py:84-86 | the paragraphs of two runs of segments are those of the first followed by those of the second |
| Outline.AnswerLines | build.py:83-86 | each line of an answer contributes its own paragraphs, independently of the others |
| Outline.AnswerOneLine | build.py:83-86 | a single line becomes one paragraph holding the line stripped, or none when it is blank |
| Outline.ParagraphOfBlank | build.py:85 | a segment gives no paragraph exactly when it is blank |
| Outline.NoParagraphs | build.py:84-86 | segments give no paragraph exactly when every one is blank |
| Outline.BlankAnswer | build.py:83-86 | an answer gives no paragraph exactly when it is all whitespace (newlines included) |
| Outline.HeadingInjective | build.py:74 | different categories get different headings |
| Outline.HeadingsAt | build.py:73-74 | the i-th heading is that of the i-th key |
| Outline.PageHeadingsPerCategory | build.py:70-74 | the page has a heading for a category exactly when some row has that category, and no heading appears twice |
| Outline.BlocksLast | build.py:93 | a run of blocks ends with a closing line |
| Outline.SectionsFirst | build.py:73-74 | the sections start with the heading of the first key |
| Outline.SectionsLast | build.py:73-93 | the sections end with a closing line when the last group has rows |
| Outline.OccursGroup | build.py:73 | the group of a category that occurs is not empty |
| Outline.PageStart | build.py:69-95 | the body of a non-empty sheet starts with the heading of the smallest category |
| Outline.PageEnd | build.py:69-95 | the body of a non-empty sheet ends with a closing line |
| Outline.HeadingShows | build.py:74 | a heading is `<h2>`, text with no raw markup that reads back as the category, and `</h2>` |
| Outline.QuestionShows | build.py:78 | a question line is `<h3>`, text with no raw markup that reads back as the question, and `</h3>` |
| Outline.SummaryShows | build.py:81 | a summary line is its opening tag, text with no raw markup that reads back as the summary, and `</p>` |
| Outline.ParagraphShows | build.py:86 | a paragraph line is `<p>`, text with no raw markup that reads back as the paragraph text, and `</p>` |
| Outline.KeywordsShows | build.py:89-91 | a keywords line is its opening tag and label, text with no raw markup that reads back as the keywords, and `</div>` |
| Outline.AnswerFrom | build.py:83-86 | every answer paragraph holds one of the answer's segments, stripped |
| Outline.BlockFrom | build.py:76-93 | every line of a block is its opening or closing line or a line of its row's fields |
| Outline.BlocksFrom | build.py:76-93 | every line of a run of blocks opens or closes a block or is a line of one of the rows |
| Outline.GroupFrom | build.py:73-76 | the rows of a group are rows of the sheet |
| Outline.SectionsFrom | build.py:73-93 | every line of the sections opens or closes a block or is a line of some row |
| Outline.PageFrom | build.py:69-95 | every line of the body is a block's opening or closing line, or a line built from a field of some row; with the Shows lemmas, no sheet text reaches the page unescaped |
| PyFormat.Format | build.py:103 | `str.format` with the keywords `title` and `content`; its behaviour is stated by the lemmas below |
| PyFormat.Brace | build.py:9-62 | literal text written for `str.format`, every brace doubled; stated by FormatBraced and FormatLiteral |
| PyFormat.FindClose | build.py:103 | the result is the first `}` at or after the start, or there is none |
| PyFormat.FormatBraced | build.py:103 | literal text with its braces doubled formats to the text itself, followed by the rest formatted |
| PyFormat.FormatLiteral | build.py:103 | literal text with its braces doubled formats to itself |
| PyFormat.FormatTitle | build.py:103 | a `{title}` field is replaced by the title, as given |
| PyFormat.FormatContent | build.py:103 | a `{content}` field is replaced by the content, as given |
| PyFormat.FormatStrayClose | build.py:103 | a single `}` that closes no field is an error |
| PyFormat.FormatUnclosed | build.py:103 | a `{` with no `}` after it is an error |
| PyFormat.FormatUnknownField | build.py:103 | a field naming a keyword other than `title` and `content` is an error that names the field |
| Page.PAGE_TITLE | build.py:7 | the page title, "GEO 知识库", put into both title fields of the template |
| Page.TEMPLATE | build.py:9-62 | `HTML_TEMPLATE`: its four runs of literal text with every brace doubled, `{title}` twice and `{content}` once; TemplateFormat states what formatting it gives |
| Page.PageText | build.py:9-62 | the template with the title in its two places and the content in its one place; stated by TemplateFormat |
| Page.TemplateFormat | build.py:9-62 | formatting the template never fails: the title goes into both of its places and the content into its one place, unchanged, and the style sheet's doubled braces come out single |
| Page.BuildPage | build.py:97-105 | the page text is the template with the title and the body that `generate_html` builds put in place |

## Left out

- `load_content` (reading the Excel file and stripping column names) is left out. The model starts from the rows, as `Grouping.Record` values.
- A missing `summary` or `keywords` cell (`NaN`) is `None` in the model, and `pd.notna` is `Some?`.
- An empty `question` or `answer` cell is also `NaN`, and `str(...)` turns it into the text `nan`. The page then shows `<h3>nan</h3>`, or one paragraph `<p>nan</p>` for the answer. The model's question and answer are always text, so this case is not represented.
- If the `summary` or `keywords` column is missing entirely, `row.get` returns `""`. The code then reads `row['summary']`, which raises `KeyError`. The model treats the missing column as a present `Option`, so it does not capture this error.
- Rows whose category is missing are dropped by pandas' `groupby`. The model's category is always a string, so this is not modelled.
- `str(...)` of non-string cells (numbers, dates) is left out. Every cell is a string in the model.
- The file system and the console are left out: `mkdir`, `write_text` to `docs/index.html`, the UTF-8 encoding and the final `print`. `BuildPage` returns the text that would be written.
- `deploy.py` (git commit, push and notification) is not part of this model.
- `HtmlEscape.Unescape` is a reference inverse for the five entities `html.escape` produces. It is not Python's full `html.unescape`.
- PyFormat.Format: conversions (`!r`), format specs (`:>10`), attribute and index lookups and nested fields are not modelled. Such a field is reported as an unknown field. Python would interpret it or raise a different error.
- PyFormat.Format: automatic and positional fields (`{}`, `{0}`) are reported as unknown fields. Python raises `IndexError` for them, since only keyword arguments are given.
- Page.TEMPLATE: the template is written from the four runs of literal text around its three fields. These runs are given as six constants, each with its braces doubled. Its characters are those of `HTML_TEMPLATE`.
