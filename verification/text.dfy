/** The Python string primitives the renderer relies on: `str.isspace`,
    `str.strip()`, `str.split("\n")` and `"\n".join(...)`. */
module Text {
  import opened Seqs

  /** The line separator the renderer splits answers on and joins fragments with. */
  const NL: char := '\n'

  /** Exactly the code points for which Python's `str.isspace()` holds:
      U+0009..U+000D, U+001C..U+0020, U+0085, U+00A0, U+1680, U+2000..U+200A,
      U+2028, U+2029, U+202F, U+205F and U+3000 (the ideographic space). */
  predicate IsSpace(c: char) {
    || ('\t' <= c <= '\r')
    || ('\U{1C}' <= c <= ' ')
    || c == '\U{85}' || c == '\U{A0}' || c == '\U{1680}'
    || ('\U{2000}' <= c <= '\U{200A}')
    || c == '\U{2028}' || c == '\U{2029}' || c == '\U{202F}' || c == '\U{205F}'
    || c == '\U{3000}'
  }

  /** `s` holds whitespace only (the empty string included). */
  predicate AllSpace(s: string) {
    forall i :: 0 <= i < |s| ==> IsSpace(s[i])
  }

  /** `str.lstrip()`: drop leading whitespace (see `TrimStartSuffix`). */
  function TrimStart(s: string): string {
    if s != [] && IsSpace(s[0]) then TrimStart(s[1..]) else s
  }

  /** `str.rstrip()`: drop trailing whitespace (see `TrimEndPrefix`). */
  function TrimEnd(s: string): string {
    if s != [] && IsSpace(s[|s| - 1]) then TrimEnd(s[..|s| - 1]) else s
  }

  /** `str.strip()`: drop leading and trailing whitespace.  What this means is
      stated by `StripSlice`, `StripBlank` and `StripEnds` below. */
  function Strip(s: string): string {
    TrimEnd(TrimStart(s))
  }

  /** `s.split("\n")`: the segments between separators, in order.  Python returns
      one more segment than there are separators, so the empty string gives `[""]`. */
  function Split(s: string): (r: seq<string>)
    ensures |r| >= 1
    ensures forall i :: 0 <= i < |r| ==> NL !in r[i]
  {
    if s == [] then [[]]
    else
      var rest := Split(s[1..]);
      if s[0] == NL then [[]] + rest
      else
        assert NL !in rest[0];
        [[s[0]] + rest[0]] + rest[1..]
  }

  /** `"\n".join(parts)`: the parts with one separator between neighbours and
      none before the first or after the last. */
  function Join(parts: seq<string>): string {
    if |parts| == 0 then []
    else if |parts| == 1 then parts[0]
    else parts[0] + [NL] + Join(parts[1..])
  }

  // ---------------------------------------------------------------------------
  // Lemmas

  /** `lstrip` gives the longest suffix of `s` that does not start with
      whitespace: what it drops is all whitespace. */
  lemma {:induction false} TrimStartSuffix(s: string)
    ensures var r := TrimStart(s);
      |r| <= |s| && r == s[|s| - |r|..] && AllSpace(s[..|s| - |r|]) && (r != [] ==> !IsSpace(r[0]))
    decreases |s|
  {
    if s != [] && IsSpace(s[0]) {
      TrimStartSuffix(s[1..]);
      var r := TrimStart(s[1..]);
      var k := |s| - |r|;
      assert s[1..][|s| - 1 - |r|..] == s[k..];
      assert s[..k] == [s[0]] + s[1..][..k - 1];
      AllSpaceAppend([s[0]], s[1..][..k - 1]);
    } else {
      assert s[..0] == [];
    }
  }

  /** `rstrip` gives the longest prefix of `s` that does not end with
      whitespace: what it drops is all whitespace. */
  lemma {:induction false} TrimEndPrefix(s: string)
    ensures var r := TrimEnd(s);
      |r| <= |s| && r == s[..|r|] && AllSpace(s[|r|..]) && (r != [] ==> !IsSpace(r[|r| - 1]))
    decreases |s|
  {
    if s != [] && IsSpace(s[|s| - 1]) {
      var init := s[..|s| - 1];
      TrimEndPrefix(init);
      var r := TrimEnd(init);
      assert init[..|r|] == s[..|r|];
      assert s[|r|..] == init[|r|..] + [s[|s| - 1]];
      AllSpaceAppend(init[|r|..], [s[|s| - 1]]);
    } else {
      assert s[|s|..] == [];
    }
  }

  /** The stripped text is a slice of the input with only whitespace around it. */
  lemma StripSlice(s: string)
    ensures exists i: nat ::
      && i + |Strip(s)| <= |s|
      && Strip(s) == s[i..i + |Strip(s)|]
      && AllSpace(s[..i])
      && AllSpace(s[i + |Strip(s)|..])
  {
    var t := TrimStart(s);
    var r := TrimEnd(t);
    TrimStartSuffix(s);
    TrimEndPrefix(t);
    var i := |s| - |t|;
    assert r == s[i..i + |r|];
    assert t[|r|..] == s[i + |r|..];
  }

  /** The stripped text is empty exactly when the input is blank. */
  lemma StripBlank(s: string)
    ensures Strip(s) == [] <==> AllSpace(s)
  {
    var t := TrimStart(s);
    var r := TrimEnd(t);
    TrimStartSuffix(s);
    TrimEndPrefix(t);
    assert s == s[..|s| - |t|] + t;
    AllSpaceAppend(s[..|s| - |t|], t);
    if r == [] {
      assert t == t[|r|..];
    }
  }

  /** Text that is not blank strips to text that starts and ends with a
      character other than whitespace. */
  lemma StripEnds(s: string)
    ensures var r := Strip(s); r != [] ==> !IsSpace(r[0]) && !IsSpace(r[|r| - 1])
  {
    var t := TrimStart(s);
    var r := TrimEnd(t);
    TrimStartSuffix(s);
    TrimEndPrefix(t);
    if r != [] {
      assert r[0] == t[0];
    }
  }

  /** Stripping twice is stripping once. */
  lemma StripIdempotent(s: string)
    ensures Strip(Strip(s)) == Strip(s)
  {
    var r := Strip(s);
    StripEnds(s);
    if r != [] {
      assert TrimStart(r) == r;
      assert TrimEnd(r) == r;
    }
  }

  /** Splitting where a separator was put between `a` and `b` splits them apart. */
  lemma {:induction false} SplitAppend(a: string, b: string)
    ensures Split(a + [NL] + b) == Split(a) + Split(b)
    decreases |a|
  {
    var x := a + [NL] + b;
    if a == [] {
      assert x[0] == NL && x[1..] == b;
    } else {
      assert x[0] == a[0] && x[1..] == a[1..] + [NL] + b;
      SplitAppend(a[1..], b);
      var sa, sb := Split(a[1..]), Split(b);
      if a[0] == NL {
        Assoc([[]], sa, sb);
      } else {
        ConsAppend(sa, sb);
        Assoc([[a[0]] + sa[0]], sa[1..], sb);
      }
    }
  }

  /** Splitting undoes joining, as long as no part holds a separator. */
  lemma {:induction false} SplitJoin(parts: seq<string>)
    requires parts != []
    requires forall i :: 0 <= i < |parts| ==> NL !in parts[i]
    ensures Split(Join(parts)) == parts
    decreases |parts|
  {
    if |parts| == 1 {
      SplitNoNL(parts[0]);
    } else {
      SplitJoin(parts[1..]);
      SplitAppend(parts[0], Join(parts[1..]));
      SplitNoNL(parts[0]);
      assert [parts[0]] + parts[1..] == parts;
    }
  }

  /** A string without a separator splits into itself. */
  lemma {:induction false} SplitNoNL(s: string)
    requires NL !in s
    ensures Split(s) == [s]
    decreases |s|
  {
    if s != [] {
      assert s == [s[0]] + s[1..];
      SplitNoNL(s[1..]);
      assert s[0] != NL;
      assert [s[0]] + s[1..] == s;
    }
  }

  /** Joining undoes splitting: no character of the input is lost or added. */
  lemma {:induction false} JoinSplit(s: string)
    ensures Join(Split(s)) == s
    decreases |s|
  {
    if s != [] {
      JoinSplit(s[1..]);
      var rest := Split(s[1..]);
      ConsAppend([s[0]], s[1..]);
      if s[0] == NL {
        var parts := [[]] + rest;
        ConsAppend([[]], rest);
        JoinCons(parts);
      } else if |rest| == 1 {
        assert Split(s) == [[s[0]] + rest[0]];
      } else {
        var parts := [[s[0]] + rest[0]] + rest[1..];
        ConsAppend([[s[0]] + rest[0]], rest[1..]);
        JoinCons(parts);
        JoinCons(rest);
        RegroupRight(Join(parts), [s[0]] + rest[0] + [NL], rest[0] + [NL] + Join(rest[1..]),
                     [s[0]], rest[0] + [NL], Join(rest[1..]));
      }
    }
  }

  /** A list of two or more parts joins as its first part, a separator and the
      join of the rest. */
  lemma JoinCons(parts: seq<string>)
    requires |parts| >= 2
    ensures Join(parts) == parts[0] + [NL] + Join(parts[1..])
  {
  }

  /** Joining two non-empty lists puts one separator where they meet. */
  lemma {:induction false} JoinAppend(a: seq<string>, b: seq<string>)
    requires a != [] && b != []
    ensures Join(a + b) == Join(a) + [NL] + Join(b)
    decreases |a|
  {
    if |a| == 1 {
      assert (a + b)[1..] == b;
    } else {
      JoinAppend(a[1..], b);
      ConsAppend(a, b);
      JoinCons(a + b);
      JoinCons(a);
      RegroupLeft(Join(a + b), Join(a[1..] + b), Join(a), a[0] + [NL], Join(a[1..]), [NL] + Join(b));
      Assoc(Join(a), [NL], Join(b));
    }
  }

  /** Text is blank exactly when both of its pieces are. */
  lemma AllSpaceAppend(x: string, y: string)
    ensures AllSpace(x + y) <==> AllSpace(x) && AllSpace(y)
  {
    if AllSpace(x) && AllSpace(y) {
      forall i | 0 <= i < |x + y| ensures IsSpace((x + y)[i]) {
        if i >= |x| { assert (x + y)[i] == y[i - |x|]; }
      }
    }
    if AllSpace(x + y) {
      forall i | 0 <= i < |x| ensures IsSpace(x[i]) {
        assert (x + y)[i] == x[i];
      }
      forall i | 0 <= i < |y| ensures IsSpace(y[i]) {
        assert (x + y)[|x| + i] == y[i];
      }
    }
  }

  /** Joined text is blank exactly when every part is, the separator being
      whitespace itself. */
  lemma {:induction false} AllSpaceJoin(parts: seq<string>)
    requires parts != []
    ensures AllSpace(Join(parts)) <==> forall i :: 0 <= i < |parts| ==> AllSpace(parts[i])
    decreases |parts|
  {
    if |parts| > 1 {
      AllSpaceJoin(parts[1..]);
      JoinCons(parts);
      AllSpaceAppend(parts[0] + [NL], Join(parts[1..]));
      AllSpaceAppend(parts[0], [NL]);
      assert forall i :: 1 <= i < |parts| ==> parts[i] == parts[1..][i - 1];
    }
  }

  /** The join starts with the first part: nothing is put before it. */
  lemma JoinFirst(parts: seq<string>)
    requires parts != []
    ensures parts[0] <= Join(parts)
  {
    if |parts| > 1 {
      JoinCons(parts);
      assert Join(parts)[..|parts[0]|] == parts[0];
    }
  }

  /** The join ends with the last part: nothing is put after it. */
  lemma {:induction false} JoinLast(parts: seq<string>)
    requires parts != []
    ensures var last, r := parts[|parts| - 1], Join(parts);
      |last| <= |r| && r[|r| - |last|..] == last
    decreases |parts|
  {
    if |parts| > 1 {
      var rest := parts[1..];
      JoinLast(rest);
      JoinCons(parts);
      assert rest[|rest| - 1] == parts[|parts| - 1];
      var r, tail := Join(parts), Join(rest);
      assert r == parts[0] + [NL] + tail;
      assert r[|r| - |tail|..] == tail;
    }
  }
}
