/** The part of Python's `str.format` that the page template uses: literal
    text, the doubled braces `{{` and `}}` that stand for single braces, and
    the keyword fields `{title}` and `{content}`. */
module PyFormat {
  import opened Wrappers
  import opened Seqs

  /** Why `str.format` gives up. */
  datatype FormatError =
    | UnknownField(name: string)  // a field naming neither keyword argument
    | UnclosedField               // a `{` with no `}` after it
    | SingleClose                 // a `}` that is not doubled and closes no field

  /** `s` in front of a formatted result; a failure stays a failure. */
  function Prepend(s: string, r: Result<string, FormatError>): Result<string, FormatError> {
    match r
    case Success(v) => Success(s + v)
    case Failure(e) => Failure(e)
  }

  /** The first `}` at or after index `i`, if there is one. */
  function FindClose(t: string, i: nat): (r: Option<nat>)
    requires i <= |t|
    ensures r.Some? ==> i <= r.value < |t| && t[r.value] == '}'
    ensures forall k :: i <= k < |t| && (r.None? || k < r.value) ==> t[k] != '}'
    decreases |t| - i
  {
    if i == |t| then None
    else if t[i] == '}' then Some(i)
    else FindClose(t, i + 1)
  }

  /** `t.format(title=title, content=content)`, left to right: text is
      copied, `{{` and `}}` become single braces, a field is replaced by the
      value of its keyword, and the first malformed or unknown piece is the
      error. */
  function Format(t: string, title: string, content: string): Result<string, FormatError>
    decreases |t|
  {
    if t == [] then Success([])
    else if t[0] == '{' then
      if |t| > 1 && t[1] == '{' then Prepend("{", Format(t[2..], title, content))
      else
        match FindClose(t, 1)
        case None => Failure(UnclosedField)
        case Some(j) =>
          var name := t[1..j];
          if name == "title" then Prepend(title, Format(t[j + 1..], title, content))
          else if name == "content" then Prepend(content, Format(t[j + 1..], title, content))
          else Failure(UnknownField(name))
    else if t[0] == '}' then
      if |t| > 1 && t[1] == '}' then Prepend("}", Format(t[2..], title, content))
      else Failure(SingleClose)
    else Prepend([t[0]], Format(t[1..], title, content))
  }

  /** Literal text written for `str.format`: every brace doubled. */
  function Brace(s: string): string {
    if s == [] then []
    else (if s[0] == '{' then "{{" else if s[0] == '}' then "}}" else [s[0]]) + Brace(s[1..])
  }

  // ---------------------------------------------------------------------------
  // Lemmas

  /** Putting two strings in front one after the other is putting their
      concatenation in front. */
  lemma PrependPrepend(a: string, b: string, r: Result<string, FormatError>)
    ensures Prepend(a, Prepend(b, r)) == Prepend(a + b, r)
  {
    if r.Success? {
      Assoc(a, b, r.value);
    }
  }

  /** Text with its braces doubled formats back to itself, whatever follows. */
  lemma {:induction false} FormatBraced(s: string, rest: string, title: string, content: string)
    ensures Format(Brace(s) + rest, title, content) == Prepend(s, Format(rest, title, content))
    decreases |s|
  {
    if s == [] {
      assert Brace(s) + rest == rest;
      var r := Format(rest, title, content);
      if r.Success? {
        assert [] + r.value == r.value;
      }
    } else {
      var head := if s[0] == '{' then "{{" else if s[0] == '}' then "}}" else [s[0]];
      var tail := Brace(s[1..]) + rest;
      var t := Brace(s) + rest;
      Assoc(head, Brace(s[1..]), rest);
      assert t == head + tail;
      FormatBraced(s[1..], rest, title, content);
      if s[0] == '{' || s[0] == '}' {
        assert t[0] == s[0] && t[1] == s[0] && t[2..] == tail;
      } else {
        assert t[0] == s[0] && t[1..] == tail;
      }
      PrependPrepend([s[0]], s[1..], Format(rest, title, content));
      assert [s[0]] + s[1..] == s;
    }
  }

  /** Doubling the braces is the inverse of formatting literal text: no field
      is read and every brace comes back single. */
  lemma FormatLiteral(s: string, title: string, content: string)
    ensures Format(Brace(s), title, content) == Success(s)
  {
    FormatBraced(s, [], title, content);
    assert Brace(s) + [] == Brace(s);
    assert s + [] == s;
  }

  /** A `{title}` field is replaced by the title, as given: the value is not
      read for braces again. */
  lemma FormatTitle(rest: string, title: string, content: string)
    ensures Format("{title}" + rest, title, content) == Prepend(title, Format(rest, title, content))
  {
    var t := "{title}" + rest;
    assert t[..7] == "{title}";
    assert t[1] != '{' && t[1] != '}' && t[2] != '}' && t[3] != '}' && t[4] != '}' && t[5] != '}' && t[6] == '}';
    assert FindClose(t, 1) == Some(6);
    assert t[1..6] == "title" && t[7..] == rest;
  }

  /** A `{content}` field is replaced by the content, as given. */
  lemma FormatContent(rest: string, title: string, content: string)
    ensures Format("{content}" + rest, title, content) == Prepend(content, Format(rest, title, content))
  {
    var t := "{content}" + rest;
    assert t[..9] == "{content}";
    assert t[1] != '{' && t[1] != '}' && t[2] != '}' && t[3] != '}' && t[4] != '}' && t[5] != '}';
    assert t[6] != '}' && t[7] != '}' && t[8] == '}';
    assert FindClose(t, 1) == Some(8);
    assert t[1..8] == "content" && t[9..] == rest;
  }

  /** A `}` that is not doubled is an error, after any amount of good text. */
  lemma FormatStrayClose(s: string, rest: string, title: string, content: string)
    requires rest == [] || rest[0] != '}'
    ensures Format(Brace(s) + "}" + rest, title, content) == Failure(SingleClose)
  {
    var t := "}" + rest;
    assert t[0] == '}' && (|t| == 1 || t[1] != '}');
    Assoc(Brace(s), "}", rest);
    FormatBraced(s, t, title, content);
  }

  /** A `{` with no `}` anywhere after it is an error. */
  lemma FormatUnclosed(s: string, x: string, title: string, content: string)
    requires '}' !in x
    requires x == [] || x[0] != '{'
    ensures Format(Brace(s) + "{" + x, title, content) == Failure(UnclosedField)
  {
    var t := "{" + x;
    assert t[0] == '{' && (|t| == 1 || t[1] != '{');
    forall k | 1 <= k < |t| ensures t[k] != '}' {
      assert t[k] == x[k - 1];
    }
    assert FindClose(t, 1) == None;
    Assoc(Brace(s), "{", x);
    FormatBraced(s, t, title, content);
  }

  /** A field naming a keyword other than `title` or `content` is an error (a
      `KeyError` in Python).  The name is one Python reads as a keyword: it
      starts with a letter or an underscore, so it is no positional index, and
      it holds no conversion, format spec, attribute, index or nested field. */
  lemma FormatUnknownField(s: string, name: string, rest: string, title: string, content: string)
    requires name != [] && ('a' <= name[0] <= 'z' || 'A' <= name[0] <= 'Z' || name[0] == '_')
    requires forall ch :: ch in name ==> ch !in "!:.[{}"
    requires name != "title" && name != "content"
    ensures Format(Brace(s) + ("{" + name + "}" + rest), title, content) == Failure(UnknownField(name))
  {
    var t := "{" + name + "}" + rest;
    var j := |name| + 1;
    assert t[0] == '{' && (|t| == 1 || t[1] != '{');
    forall k | 1 <= k < j ensures t[k] != '}' {
      assert t[k] == name[k - 1];
      assert name[k - 1] in name;
    }
    assert t[j] == '}';
    assert FindClose(t, 1) == Some(j);
    assert t[1..j] == name;
    FormatBraced(s, t, title, content);
  }
}
