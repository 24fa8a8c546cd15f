/** The page `build.py` writes: the body built by `generate_html` put into
    the HTML template with `str.format`, under the site title. */
module Page {
  import opened Wrappers
  import opened Seqs
  import opened Text
  import opened Grouping
  import opened Render
  import opened PyFormat

  /** The site title, shown in the browser tab and as the `<h1>` ("GEO
      knowledge base"). */
  const PAGE_TITLE: string := "GEO 知识库"

  // The text of the page around its three fields, with single braces.  The
  // template is this text with every brace doubled, as `str.format` needs.

  /** From the leading newline up to the `<title>` tag. */
  const HEAD: string := "\n<!DOCTYPE html>\n<html lang=\"zh-CN\">\n<head>\n<meta charset=\"UTF-8\">\n<title>"

  /** From the end of the title, through the style sheet, up to the `<h1>` tag. */
  const STYLE: string :=
      "</title>\n" +
      "<meta name=\"viewport\" content=\"width=device-width, initial-scale=1.0\">\n" +
      "<style>\n" +
      "body {\n" +
      "    font-family: system-ui, sans-serif;\n" +
      "    max-width: 860px;\n" +
      "    margin: 0 auto;\n" +
      "    padding: 24px;\n" +
      "    background: #fafafa;\n" +
      "    line-height: 1.7;\n" +
      "}\n" +
      "h1 {\n" +
      "    font-size: 32px;\n" +
      "    border-bottom: 2px solid #eee;\n" +
      "    padding-bottom: 8px;\n" +
      "}\n" +
      "h2 {\n" +
      "    margin-top: 40px;\n" +
      "    padding-left: 10px;\n" +
      "    border-left: 4px solid #3b82f6;\n" +
      "}\n" +
      ".faq-block {\n" +
      "    background: #fff;\n" +
      "    padding: 16px;\n" +
      "    margin: 20px 0;\n" +
      "    border-radius: 8px;\n" +
      "    border: 1px solid #eee;\n" +
      "}\n" +
      ".summary {\n" +
      "    font-weight: 600;\n" +
      "}\n" +
      ".keywords {\n" +
      "    margin-top: 12px;\n" +
      "    font-size: 14px;\n" +
      "    color: #666;\n" +
      "}\n" +
      "</style>\n" +
      "</head>\n" +
      "<body>\n" +
      "\n" +
      "<h1>"

  /** From the end of the `<h1>` heading to the opening of `<main>`. */
  const BEFORE_MAIN: string := "</h1>\n\n"

  /** The opening and closing `<main>` lines around the body. */
  const MAIN_OPEN: string := "<main>\n"
  const MAIN_CLOSE: string := "\n</main>"

  /** After the closing `</main>` tag to the end. */
  const TAIL: string := "\n\n</body>\n</html>\n"

  /** `HTML_TEMPLATE`: the page text with its braces doubled and a field where
      the title (twice) and the body (once) go. */
  const TEMPLATE: string :=
    Brace(HEAD) + ("{title}" + (Brace(STYLE) + ("{title}" + (Brace(BEFORE_MAIN) + (Brace(MAIN_OPEN)
    + ("{content}" + (Brace(MAIN_CLOSE) + Brace(TAIL))))))))

  /** The page with `title` and `content` in place: the content once, between
      the `<main>` lines. */
  function PageText(title: string, content: string): string {
    HEAD + (title + (STYLE + (title + (BEFORE_MAIN + (MAIN_OPEN + (content + (MAIN_CLOSE + TAIL)))))))
  }

  /** `main` without the file system: the rows of the sheet become the page
      text that is written to `docs/index.html`. */
  method BuildPage(rows: seq<Record>) returns (page: string)
    ensures page == PageText(PAGE_TITLE, Join(PageParts(rows)))
  {
    var body := GenerateHtml(rows);
    TemplateFormat(PAGE_TITLE, body);
    var formatted := Format(TEMPLATE, PAGE_TITLE, body);
    page := formatted.value;
  }

  // ---------------------------------------------------------------------------
  // Lemmas

  /** Formatting the template never fails: the title goes into both of its
      places and the content into its one place, as given, and the doubled
      braces of the style sheet come out single. */
  lemma TemplateFormat(title: string, content: string)
    ensures Format(TEMPLATE, title, content) == Success(PageText(title, content))
  {
    var t7 := Brace(MAIN_CLOSE) + Brace(TAIL);
    var t6 := "{content}" + t7;
    var t5 := Brace(MAIN_OPEN) + t6;
    var t4 := Brace(BEFORE_MAIN) + t5;
    var t3 := "{title}" + t4;
    var t2 := Brace(STYLE) + t3;
    var t1 := "{title}" + t2;
    FormatLiteral(TAIL, title, content);
    FormatBraced(MAIN_CLOSE, Brace(TAIL), title, content);
    FormatContent(t7, title, content);
    FormatBraced(MAIN_OPEN, t6, title, content);
    FormatBraced(BEFORE_MAIN, t5, title, content);
    FormatTitle(t4, title, content);
    FormatBraced(STYLE, t3, title, content);
    FormatTitle(t2, title, content);
    FormatBraced(HEAD, t1, title, content);
  }
}
