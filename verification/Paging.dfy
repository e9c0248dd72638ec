/**
  Keyset paging: a page is the first `limit` elements ranked strictly below the cursor, and the next
  cursor is the key of the last element returned.
*/
module Paging {
  import opened Wrappers
  import opened Ranking

  /** What a cursor leaves to list. */
  function Remaining<T(!new, ==)>(S: set<T>, key: T -> Key, cursor: Option<Key>): (R: set<T>)
    ensures R <= S
  {
    match cursor
    case None => S
    case Some(k) => Below(S, key, k)
  }

  function Page<T(!new, ==)>(S: set<T>, key: T -> Key, cursor: Option<Key>, limit: nat): (page: seq<T>)
    requires Distinct(S, key)
    ensures |page| <= limit && Elements(page) <= Remaining(S, key, cursor)
    ensures |page| < limit ==> page == Ranked(Remaining(S, key, cursor), key)
  {
    First(Remaining(S, key, cursor), key, limit)
  }

  /** The cursor behind a page that was not empty. */
  function NextCursor<T>(page: seq<T>, key: T -> Key): Option<Key>
    requires page != []
  {
    Some(key(page[|page| - 1]))
  }

  lemma FirstThenRest<T(!new)>(R: set<T>, key: T -> Key, limit: nat)
    requires Distinct(R, key) && 0 < limit <= |R|
    ensures var page := First(R, key, limit);
            var rest := Below(R, key, key(page[limit - 1]));
            && page[limit - 1] in R
            && Ranked(R, key) == page + Ranked(rest, key)
            && |rest| == |R| - limit
  {
    var r := Ranked(R, key);
    assert First(R, key, limit) == r[..limit];
    assert r == r[..limit] + r[limit..];
    RankedAfter(R, key, limit);
    assert r[limit - 1] in Elements(r);
  }

  /** The rest after one page is what its last element leaves. */
  lemma PageThenRest<T(!new)>(S: set<T>, key: T -> Key, cursor: Option<Key>, limit: nat)
    requires Distinct(S, key) && limit > 0
    requires |Page(S, key, cursor, limit)| == limit
    ensures var page := Page(S, key, cursor, limit);
            var rest := Remaining(S, key, NextCursor(page, key));
            && Ranked(Remaining(S, key, cursor), key) == page + Ranked(rest, key)
            && |rest| == |Remaining(S, key, cursor)| - limit
  {
    var page := Page(S, key, cursor, limit);
    FirstThenRest(Remaining(S, key, cursor), key, limit);
    BelowTwice(S, key, cursor, page[limit - 1]);
  }

  /** Below the last element of a page, the cursor of that page excludes nothing more. */
  lemma BelowTwice<T(!new)>(S: set<T>, key: T -> Key, cursor: Option<Key>, x: T)
    requires x in Remaining(S, key, cursor)
    ensures Below(Remaining(S, key, cursor), key, key(x)) == Below(S, key, key(x))
  {
    if cursor.Some? {
      forall y | y in Below(S, key, key(x)) ensures y in Below(S, key, cursor.value) {
        LessTransitive(key(y), key(x), cursor.value);
      }
    }
  }

  /** The pages that a client gets by following cursors until a page is not full. */
  function Pages<T(!new, ==)>(S: set<T>, key: T -> Key, cursor: Option<Key>, limit: nat): (pages: seq<seq<T>>)
    requires Distinct(S, key) && limit > 0
    decreases |Remaining(S, key, cursor)|
  {
    var page := Page(S, key, cursor, limit);
    if |page| < limit then [page]
    else
      PageThenRest(S, key, cursor, limit);
      [page] + Pages(S, key, NextCursor(page, key), limit)
  }

  function Concat<T>(pages: seq<seq<T>>): seq<T> {
    if pages == [] then [] else pages[0] + Concat(pages[1..])
  }

  /** Only the last page is not full. */
  predicate FullUpToLast<T>(pages: seq<seq<T>>, limit: nat) {
    && pages != [] && |pages[|pages| - 1]| < limit
    && forall i | 0 <= i < |pages| - 1 :: |pages[i]| == limit
  }

  /** Over a fixed set, following cursors lists everything behind the first cursor exactly once, in
      order, and stops at the first page that is not full. */
  lemma {:induction false} PagesPartition<T(!new)>(S: set<T>, key: T -> Key, cursor: Option<Key>, limit: nat)
    requires Distinct(S, key) && limit > 0
    ensures Concat(Pages(S, key, cursor, limit)) == Ranked(Remaining(S, key, cursor), key)
    ensures FullUpToLast(Pages(S, key, cursor, limit), limit)
    decreases |Remaining(S, key, cursor)|
  {
    var page := Page(S, key, cursor, limit);
    if |page| < limit {
      assert Concat([page]) == page + Concat([]);
    } else {
      var next := NextCursor(page, key);
      PageThenRest(S, key, cursor, limit);
      PagesPartition(S, key, next, limit);
      var rest := Pages(S, key, next, limit);
      assert Pages(S, key, cursor, limit) == [page] + rest;
      ConcatCons(page, rest);
      FullCons(page, rest, limit);
    }
  }

  lemma FullCons<T>(page: seq<T>, rest: seq<seq<T>>, limit: nat)
    requires |page| == limit && FullUpToLast(rest, limit)
    ensures FullUpToLast([page] + rest, limit)
  {}

  lemma ConcatCons<T>(page: seq<T>, rest: seq<seq<T>>)
    ensures Concat([page] + rest) == page + Concat(rest)
  {
    assert ([page] + rest)[1..] == rest;
  }
}
