/** HTML escaping as done by Python's `html.escape(s, quote=True)`, which the
    renderer applies to every field taken from a spreadsheet row. */
module HtmlEscape {
  import opened Seqs

  /** The characters that must never appear raw in escaped text. */
  predicate IsMarkup(c: char) {
    c == '&' || c == '<' || c == '>' || c == '"' || c == '\''
  }

  /** `s.replace(c, rep)` for a one-character pattern: every occurrence of `c`
      becomes `rep`, every other character is kept. */
  function Replace(s: string, c: char, rep: string): (r: string)
    ensures c !in rep ==> c !in r
    ensures c !in s ==> r == s
  {
    if s == [] then [] else (if s[0] == c then rep else [s[0]]) + Replace(s[1..], c, rep)
  }

  /** `html.escape(s, quote=True)` the way the library writes it: five
      replacements in a row, the ampersand first so that the entities the later
      steps introduce are not escaped again. */
  function PyEscape(s: string): string {
    var s1 := Replace(s, '&', "&amp;");
    var s2 := Replace(s1, '<', "&lt;");
    var s3 := Replace(s2, '>', "&gt;");
    var s4 := Replace(s3, '"', "&quot;");
    Replace(s4, '\'', "&#x27;")
  }

  /** The replacement text of one character. */
  function EscapeChar(c: char): string {
    if c == '&' then "&amp;"
    else if c == '<' then "&lt;"
    else if c == '>' then "&gt;"
    else if c == '"' then "&quot;"
    else if c == '\'' then "&#x27;"
    else [c]
  }

  /** Escaping character by character.  No `<`, `>`, `"` or `'` survives. */
  function Escape(s: string): (r: string)
    ensures |r| >= |s|
    ensures forall i :: 0 <= i < |r| ==> r[i] == '&' || !IsMarkup(r[i])
  {
    if s == [] then []
    else
      EscapeCharShape(s[0]);
      EscapeChar(s[0]) + Escape(s[1..])
  }

  /** `r` has `p` starting at index `i`. */
  predicate HasAt(r: string, i: nat, p: string) {
    i + |p| <= |r| && r[i..i + |p|] == p
  }

  /** One of the five entities that escaping produces starts at index `i` of `r`. */
  predicate EntityAt(r: string, i: nat) {
    || HasAt(r, i, "&amp;") || HasAt(r, i, "&lt;") || HasAt(r, i, "&gt;")
    || HasAt(r, i, "&quot;") || HasAt(r, i, "&#x27;")
  }

  /** An entity found in `tail` is still there once `head` is put in front. */
  lemma EntityShift(head: string, tail: string, i: nat)
    requires i < |tail| && EntityAt(tail, i)
    ensures EntityAt(head + tail, |head| + i)
  {
    var r := head + tail;
    forall p: string | HasAt(tail, i, p) ensures HasAt(r, |head| + i, p) {
      assert r[|head| + i..|head| + i + |p|] == tail[i..i + |p|];
    }
  }

  /** The reading of escaped text back into the original: the five entities
      become their characters and everything else is copied.  It is the partner
      of `Escape`, not a model of Python's `html.unescape`, which knows every
      named entity. */
  function Unescape(r: string): string {
    if r == [] then []
    else if r[0] != '&' then [r[0]] + Unescape(r[1..])
    else if HasAt(r, 0, "&amp;") then "&" + Unescape(r[5..])
    else if HasAt(r, 0, "&lt;") then "<" + Unescape(r[4..])
    else if HasAt(r, 0, "&gt;") then ">" + Unescape(r[4..])
    else if HasAt(r, 0, "&quot;") then "\"" + Unescape(r[6..])
    else if HasAt(r, 0, "&#x27;") then "'" + Unescape(r[6..])
    else [r[0]] + Unescape(r[1..])
  }

  // ---------------------------------------------------------------------------
  // Lemmas

  /** Replacement works piece by piece. */
  lemma {:induction false} ReplaceAppend(a: string, b: string, c: char, rep: string)
    ensures Replace(a + b, c, rep) == Replace(a, c, rep) + Replace(b, c, rep)
    decreases |a|
  {
    if a == [] {
      assert a + b == b;
    } else {
      ReplaceAppend(a[1..], b, c, rep);
      ConsAppend(a, b);
      RegroupLeft(Replace(a + b, c, rep), Replace(a[1..] + b, c, rep), Replace(a, c, rep),
                  if a[0] == c then rep else [a[0]], Replace(a[1..], c, rep), Replace(b, c, rep));
    }
  }

  /** The library's five-step escape works piece by piece. */
  lemma PyEscapeAppend(a: string, b: string)
    ensures PyEscape(a + b) == PyEscape(a) + PyEscape(b)
  {
    var a1, b1 := Replace(a, '&', "&amp;"), Replace(b, '&', "&amp;");
    ReplaceAppend(a, b, '&', "&amp;");
    var a2, b2 := Replace(a1, '<', "&lt;"), Replace(b1, '<', "&lt;");
    ReplaceAppend(a1, b1, '<', "&lt;");
    var a3, b3 := Replace(a2, '>', "&gt;"), Replace(b2, '>', "&gt;");
    ReplaceAppend(a2, b2, '>', "&gt;");
    var a4, b4 := Replace(a3, '"', "&quot;"), Replace(b3, '"', "&quot;");
    ReplaceAppend(a3, b3, '"', "&quot;");
    ReplaceAppend(a4, b4, '\'', "&#x27;");
  }

  /** A replacement whose pattern does not occur changes nothing. */
  lemma {:induction false} ReplaceAbsent(s: string, c: char, rep: string)
    requires c !in s
    ensures Replace(s, c, rep) == s
    decreases |s|
  {
    if s != [] {
      ReplaceAbsent(s[1..], c, rep);
      assert s == [s[0]] + s[1..];
    }
  }

  /** A one-character string is replaced as a whole or kept. */
  lemma ReplaceOne(x: char, c: char, rep: string)
    ensures Replace([x], c, rep) == if x == c then rep else [x]
  {
    assert [x][1..] == [];
  }

  /** The last four steps of the library's escape leave `s` alone when it holds
      none of their patterns. */
  lemma LaterStepsAbsent(s: string, from: nat)
    requires from <= 4
    requires from <= 1 ==> '<' !in s
    requires from <= 2 ==> '>' !in s
    requires from <= 3 ==> '"' !in s
    requires '\'' !in s
    ensures from <= 1 ==> Replace(s, '<', "&lt;") == s
    ensures from <= 2 ==> Replace(s, '>', "&gt;") == s
    ensures from <= 3 ==> Replace(s, '"', "&quot;") == s
    ensures Replace(s, '\'', "&#x27;") == s
  {
    if from <= 1 { ReplaceAbsent(s, '<', "&lt;"); }
    if from <= 2 { ReplaceAbsent(s, '>', "&gt;"); }
    if from <= 3 { ReplaceAbsent(s, '"', "&quot;"); }
    ReplaceAbsent(s, '\'', "&#x27;");
  }

  /** On a single character the library's five steps give `EscapeChar`. */
  lemma PyEscapeChar(c: char)
    ensures PyEscape([c]) == EscapeChar(c)
  {
    ReplaceOne(c, '&', "&amp;");
    if c == '&' {
      LaterStepsAbsent("&amp;", 1);
    } else {
      ReplaceOne(c, '<', "&lt;");
      if c == '<' {
        LaterStepsAbsent("&lt;", 2);
      } else {
        ReplaceOne(c, '>', "&gt;");
        if c == '>' {
          LaterStepsAbsent("&gt;", 3);
        } else {
          ReplaceOne(c, '"', "&quot;");
          if c == '"' {
            LaterStepsAbsent("&quot;", 4);
          } else {
            ReplaceOne(c, '\'', "&#x27;");
          }
        }
      }
    }
  }

  /** What one character escapes to: markup only as the leading ampersand of an
      entity. */
  lemma EscapeCharShape(c: char)
    ensures |EscapeChar(c)| >= 1
    ensures forall i :: 0 <= i < |EscapeChar(c)| ==> EscapeChar(c)[i] == '&' || !IsMarkup(EscapeChar(c)[i])
    ensures forall i :: 0 < i < |EscapeChar(c)| ==> EscapeChar(c)[i] != '&'
    ensures EscapeChar(c)[0] == '&' <==> IsMarkup(c)
    ensures IsMarkup(c) ==> EntityAt(EscapeChar(c), 0)
    ensures !IsMarkup(c) ==> EscapeChar(c) == [c]
  {
  }

  /** Every ampersand in escaped text starts one of the five entities: an
      ampersand that came from the data became `&amp;`, and the other four
      entities stand for the characters they replaced. */
  lemma {:induction false} EscapedAmpersandsStartEntities(s: string)
    ensures forall i :: 0 <= i < |Escape(s)| && Escape(s)[i] == '&' ==> EntityAt(Escape(s), i)
    decreases |s|
  {
    if s != [] {
      EscapedAmpersandsStartEntities(s[1..]);
      EscapeCharShape(s[0]);
      var head, tail := EscapeChar(s[0]), Escape(s[1..]);
      var r := head + tail;
      assert r == Escape(s);
      forall i | 0 <= i < |r| && r[i] == '&' ensures EntityAt(r, i) {
        if i >= |head| {
          assert r[i] == tail[i - |head|];
          EntityShift(head, tail, i - |head|);
        } else {
          assert r[i] == head[i];
          EntityExtend(head, tail);
        }
      }
    }
  }

  /** An entity at the start of `head` is still there once `tail` follows. */
  lemma EntityExtend(head: string, tail: string)
    requires |head| > 0 && EntityAt(head, 0)
    ensures EntityAt(head + tail, 0)
  {
    var r := head + tail;
    forall p: string | HasAt(head, 0, p) ensures HasAt(r, 0, p) {
      assert r[..|p|] == head[..|p|];
    }
  }

  /** The character-by-character escape is the library's escape: because the
      ampersand is replaced first, no entity is ever escaped twice. */
  lemma {:induction false} EscapeIsPyEscape(s: string)
    ensures Escape(s) == PyEscape(s)
    decreases |s|
  {
    if s == [] {
    } else {
      EscapeIsPyEscape(s[1..]);
      PyEscapeChar(s[0]);
      PyEscapeAppend([s[0]], s[1..]);
      assert [s[0]] + s[1..] == s;
    }
  }

  /** Unescaping recovers the text that was escaped, so escaping loses nothing
      and two different texts never escape to the same markup. */
  lemma {:induction false} UnescapeEscape(s: string)
    ensures Unescape(Escape(s)) == s
    decreases |s|
  {
    if s != [] {
      UnescapeEscape(s[1..]);
      UnescapeStep(s[0], Escape(s[1..]));
      assert [s[0]] + s[1..] == s;
    }
  }

  /** Unescaping reads the escape of one character back as that character. */
  lemma UnescapeStep(c: char, tail: string)
    ensures Unescape(EscapeChar(c) + tail) == [c] + Unescape(tail)
  {
    if c == '&' {
      UnescapeAmp(tail);
    } else if c == '<' {
      UnescapeLt(tail);
    } else if c == '>' {
      UnescapeGt(tail);
    } else if c == '"' {
      UnescapeQuot(tail);
    } else if c == '\'' {
      UnescapeApos(tail);
    } else {
      var r := [c] + tail;
      assert r[0] == c && r[1..] == tail;
    }
  }

  /** `&amp;` reads back as `&`. */
  lemma UnescapeAmp(tail: string)
    ensures Unescape("&amp;" + tail) == "&" + Unescape(tail)
  {
    EntityPrefix("&amp;", tail);
    var r := "&amp;" + tail;
    assert r[1] == "&amp;"[1];
  }

  /** `&lt;` reads back as `<`. */
  lemma UnescapeLt(tail: string)
    ensures Unescape("&lt;" + tail) == "<" + Unescape(tail)
  {
    EntityPrefix("&lt;", tail);
    var r := "&lt;" + tail;
    assert r[1] == "&lt;"[1];
  }

  /** `&gt;` reads back as `>`. */
  lemma UnescapeGt(tail: string)
    ensures Unescape("&gt;" + tail) == ">" + Unescape(tail)
  {
    EntityPrefix("&gt;", tail);
    var r := "&gt;" + tail;
    assert r[1] == "&gt;"[1];
  }

  /** `&quot;` reads back as `"`. */
  lemma UnescapeQuot(tail: string)
    ensures Unescape("&quot;" + tail) == "\"" + Unescape(tail)
  {
    EntityPrefix("&quot;", tail);
    var r := "&quot;" + tail;
    assert r[1] == "&quot;"[1];
  }

  /** `&#x27;` reads back as `'`. */
  lemma UnescapeApos(tail: string)
    ensures Unescape("&#x27;" + tail) == "'" + Unescape(tail)
  {
    EntityPrefix("&#x27;", tail);
    var r := "&#x27;" + tail;
    assert r[1] == "&#x27;"[1];
  }

  /** `head` stands at the start of `head + tail`, and `tail` follows it. */
  lemma EntityPrefix(head: string, tail: string)
    ensures HasAt(head + tail, 0, head)
    ensures (head + tail)[|head|..] == tail
  {
    assert (head + tail)[..|head|] == head;
  }
}
