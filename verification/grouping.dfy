/** The spreadsheet rows and the grouping the renderer does with
    `df.groupby("category")`: pandas sorts the group keys by default, and the
    rows of each group keep the order they have in the sheet. */
module Grouping {
  import opened Wrappers
  import opened StrOrder

  /** One row of the sheet.  A missing summary or keywords cell is `None`;
      `category`, `question` and `answer` are always text (an empty question or
      answer cell, which `build.py` prints as `nan`, is not represented). */
  datatype Record = Record(
    category: string,
    question: string,
    answer: string,
    summary: Option<string>,
    keywords: Option<string>)

  /** Each key comes strictly before the next, so no key repeats. */
  predicate StrictlySorted(keys: seq<string>) {
    forall i, j :: 0 <= i < j < |keys| ==> Less(keys[i], keys[j])
  }

  /** Some row has category `c`. */
  predicate Occurs(rows: seq<Record>, c: string) {
    exists i :: 0 <= i < |rows| && rows[i].category == c
  }

  /** Categories never decrease along `rows`. */
  predicate CategoryOrdered(rows: seq<Record>) {
    forall i, j :: 0 <= i < j < |rows| ==>
      rows[i].category == rows[j].category || Less(rows[i].category, rows[j].category)
  }

  /** Adds `k` to a sorted list of distinct keys, keeping it sorted. */
  function Insert(k: string, keys: seq<string>): (r: seq<string>)
    requires StrictlySorted(keys)
    ensures StrictlySorted(r)
    ensures forall x :: x in r <==> x == k || x in keys
  {
    if keys == [] then [k]
    else if k == keys[0] then keys
    else if Less(k, keys[0]) then
      var r := [k] + keys;
      assert StrictlySorted(r) by {
        forall i, j | 0 <= i < j < |r| ensures Less(r[i], r[j]) {
          if i == 0 && j > 1 { LessTransitive(k, keys[0], keys[j - 1]); }
        }
      }
      r
    else
      LessTotal(k, keys[0]);
      assert StrictlySorted(keys[1..]);
      var rest := Insert(k, keys[1..]);
      assert forall x :: x in rest ==> Less(keys[0], x);
      [keys[0]] + rest
  }

  /** The group keys in the order `groupby` yields them: each category of the
      sheet once, in ascending order. */
  function Keys(rows: seq<Record>): (r: seq<string>)
    ensures StrictlySorted(r)
    ensures forall c :: c in r <==> Occurs(rows, c)
  {
    if rows == [] then []
    else
      var init := rows[..|rows| - 1];
      var r := Insert(rows[|rows| - 1].category, Keys(init));
      assert forall c :: Occurs(init, c) ==> Occurs(rows, c) by {
        forall c | Occurs(init, c) ensures Occurs(rows, c) {
          var i :| 0 <= i < |init| && init[i].category == c;
          assert rows[i] == init[i];
        }
      }
      assert forall c :: Occurs(rows, c) ==> c == rows[|rows| - 1].category || Occurs(init, c) by {
        forall c | Occurs(rows, c) && c != rows[|rows| - 1].category ensures Occurs(init, c) {
          var i :| 0 <= i < |rows| && rows[i].category == c;
          assert init[i] == rows[i];
        }
      }
      r
  }

  /** The rows of one group: those with category `k`, in sheet order. */
  function Group(rows: seq<Record>, k: string): (r: seq<Record>)
    ensures |r| <= |rows|
    ensures forall i :: 0 <= i < |r| ==> r[i].category == k
  {
    if rows == [] then []
    else
      var init, last := rows[..|rows| - 1], rows[|rows| - 1];
      assert rows == init + [last];
      Group(init, k) + (if last.category == k then [last] else [])
  }

  /** The rows in the order the renderer visits them: group after group, in
      the order of `keys`. */
  function Grouped(rows: seq<Record>, keys: seq<string>): seq<Record> {
    if keys == [] then []
    else Grouped(rows, keys[..|keys| - 1]) + Group(rows, keys[|keys| - 1])
  }

  // ---------------------------------------------------------------------------
  // Lemmas

  /** A group holds every row of its category as often as the sheet does, and
      no other row. */
  lemma {:induction false} GroupCount(rows: seq<Record>, k: string)
    ensures forall x :: multiset(Group(rows, k))[x] == if x.category == k then multiset(rows)[x] else 0
    decreases |rows|
  {
    if rows != [] {
      var init, last := rows[..|rows| - 1], rows[|rows| - 1];
      GroupCount(init, k);
      assert rows == init + [last];
    }
  }

  /** Taking a group of two pieces of a sheet takes the group of each. */
  lemma {:induction false} GroupAppend(a: seq<Record>, b: seq<Record>, k: string)
    ensures Group(a + b, k) == Group(a, k) + Group(b, k)
    decreases |b|
  {
    if b == [] {
      assert a + b == a;
    } else {
      var init := b[..|b| - 1];
      GroupAppend(a, init, k);
      assert (a + b)[..|a + b| - 1] == a + init;
      assert (a + b)[|a + b| - 1] == b[|b| - 1];
    }
  }

  /** Grouping the rows of one group again gives the same group, or nothing. */
  lemma {:induction false} GroupOfGroup(rows: seq<Record>, k: string, k': string)
    ensures Group(Group(rows, k'), k) == if k == k' then Group(rows, k') else []
    decreases |rows|
  {
    if rows != [] {
      var init, last := rows[..|rows| - 1], rows[|rows| - 1];
      GroupOfGroup(init, k, k');
      var tail := if last.category == k' then [last] else [];
      GroupAppend(Group(init, k'), tail, k);
      if last.category == k' {
        assert [last][..0] == [];
      }
    }
  }

  /** Every row the renderer visits for `keys` has one of those categories. */
  lemma {:induction false} GroupedCategories(rows: seq<Record>, keys: seq<string>)
    ensures forall i :: 0 <= i < |Grouped(rows, keys)| ==> Grouped(rows, keys)[i].category in keys
    decreases |keys|
  {
    if keys != [] {
      var init := keys[..|keys| - 1];
      GroupedCategories(rows, init);
      var g, h := Grouped(rows, init), Group(rows, keys[|keys| - 1]);
      var gh: seq<Record> := g + h;
      forall i | 0 <= i < |gh| ensures gh[i].category in keys {
        if i < |g| {
          assert g[i].category in init;
        }
      }
    }
  }

  /** With sorted keys the rows come out sorted by category. */
  lemma {:induction false} GroupedOrdered(rows: seq<Record>, keys: seq<string>)
    requires StrictlySorted(keys)
    ensures CategoryOrdered(Grouped(rows, keys))
    decreases |keys|
  {
    if keys != [] {
      var init, k := keys[..|keys| - 1], keys[|keys| - 1];
      GroupedOrdered(rows, init);
      GroupedCategories(rows, init);
      var g, h := Grouped(rows, init), Group(rows, k);
      var gh: seq<Record> := g + h;
      forall i, j | 0 <= i < j < |gh|
        ensures gh[i].category == gh[j].category || Less(gh[i].category, gh[j].category)
      {
        if j >= |g| && i < |g| {
          assert gh[j].category == k;
          var m :| 0 <= m < |init| && init[m] == g[i].category;
          assert keys[m] == init[m];
        }
      }
    }
  }

  /** Stability: the rows of category `k` come out exactly as they stand in the
      sheet, provided `k` is one of the keys and no key repeats. */
  lemma {:induction false} GroupedStable(rows: seq<Record>, keys: seq<string>, k: string)
    requires StrictlySorted(keys)
    ensures Group(Grouped(rows, keys), k) == if k in keys then Group(rows, k) else []
    decreases |keys|
  {
    if keys != [] {
      var init, last := keys[..|keys| - 1], keys[|keys| - 1];
      assert StrictlySorted(init);
      assert keys == init + [last];
      LastIsNew(keys);
      GroupedStable(rows, init, k);
      GroupAppend(Grouped(rows, init), Group(rows, last), k);
      GroupOfGroup(rows, k, last);
    }
  }

  /** In a strictly sorted list the last key does not occur before. */
  lemma LastIsNew(keys: seq<string>)
    requires StrictlySorted(keys) && keys != []
    ensures keys[|keys| - 1] !in keys[..|keys| - 1]
  {
    var init, last := keys[..|keys| - 1], keys[|keys| - 1];
    if last in init {
      var m :| 0 <= m < |init| && init[m] == last;
      assert Less(keys[m], keys[|keys| - 1]);
      LessIrreflexive(last);
    }
  }

  /** The renderer visits every row of the sheet exactly once. */
  lemma GroupedPermutation(rows: seq<Record>)
    ensures multiset(Grouped(rows, Keys(rows))) == multiset(rows)
  {
    var keys := Keys(rows);
    var g := Grouped(rows, keys);
    GroupedCategories(rows, keys);
    forall x ensures multiset(g)[x] == multiset(rows)[x] {
      var k := x.category;
      if k in keys {
        GroupedStable(rows, keys, k);
        GroupCount(g, k);
        GroupCount(rows, k);
        assert multiset(Group(g, k))[x] == multiset(g)[x];
        assert multiset(Group(rows, k))[x] == multiset(rows)[x];
      } else {
        assert x !in rows;
        assert x !in g;
      }
    }
  }
}
