/**
  The newest-first query over the videos table (internal/api/feed/repo.go, ListLatest): its order looks only
  at the creation time, so it has several answers when videos share a millisecond.  A cursor is a time, and
  what it leaves depends on whether some moment separates what was listed from the rest.
*/
module FeedQuery {
  import opened Ranking
  import opened FeedRepo

  /** WHERE create_time < before, which is left out for the zero time. */
  function Before(S: set<Video>, before: int): set<Video> {
    set v | v in S && (before != 0 ==> v.createTime < before)
  }

  /** An answer of ORDER BY create_time DESC LIMIT limit.  The order of ties is the database's choice. */
  predicate IsQuery(S: set<Video>, limit: nat, page: seq<Video>) {
    && (forall i, j | 0 <= i < j < |page| :: page[j].createTime <= page[i].createTime && page[i] != page[j])
    && Elements(page) <= S
    && |page| == (if |S| < limit then |S| else limit)
    && (forall v, w | v in page && w in S && w !in page :: w.createTime <= v.createTime)
  }

  /** The cursor that a page gives to the next request. */
  function NextTime(page: seq<Video>): int
    requires page != []
  {
    page[|page| - 1].createTime
  }

  // ---------------------------------------------------------------- one way the database may answer

  function RowKey(v: Video): Key {
    [v.createTime, v.id]
  }

  lemma RowsDistinct(db: Table, before: int)
    requires WellFormed(db)
    ensures Distinct(Before(Rows(db), before), RowKey)
  {
    forall v, w | v in Before(Rows(db), before) && w in Before(Rows(db), before) && RowKey(v) == RowKey(w)
      ensures v == w
    {
      assert RowKey(v)[1] == RowKey(w)[1];
    }
  }

  lemma FirstIsQuery(S: set<Video>, limit: nat)
    requires Distinct(S, RowKey)
    ensures IsQuery(S, limit, First(S, RowKey, limit))
  {
    var page := First(S, RowKey, limit);
    forall i, j | 0 <= i < j < |page| ensures page[j].createTime <= page[i].createTime && page[i] != page[j] {
      RowOrder(page[j], page[i]);
    }
    forall v, w | v in page && w in S && w !in page ensures w.createTime <= v.createTime {
      FirstOutranks(S, RowKey, limit, v, w);
      RowOrder(w, v);
    }
  }

  lemma RowOrder(v: Video, w: Video)
    requires Less(RowKey(v), RowKey(w))
    ensures v.createTime <= w.createTime && v != w
  {
    TwoKeys(v.createTime, v.id, w.createTime, w.id);
  }

  // ---------------------------------------------------------------- without ties

  /** No two videos were created in the same millisecond. */
  predicate DistinctTimes(S: set<Video>) {
    forall v, w | v in S && w in S && v.createTime == w.createTime :: v == w
  }

  function TimeKey(v: Video): Key {
    [v.createTime]
  }

  lemma TimeOrder(v: Video, w: Video)
    ensures Less(TimeKey(v), TimeKey(w)) <==> v.createTime < w.createTime
  {
    assert TimeKey(v)[1..] == [] && TimeKey(w)[1..] == [];
  }

  lemma DistinctByTime(S: set<Video>)
    requires DistinctTimes(S)
    ensures Distinct(S, TimeKey)
  {
    forall v, w | v in S && w in S && TimeKey(v) == TimeKey(w) ensures v == w {
      assert TimeKey(v)[0] == TimeKey(w)[0];
    }
  }

  /** Without ties there is one answer. */
  lemma QueryIsFirst(S: set<Video>, limit: nat, page: seq<Video>)
    requires DistinctTimes(S) && IsQuery(S, limit, page)
    ensures Distinct(S, TimeKey) && page == First(S, TimeKey, limit)
  {
    DistinctByTime(S);
    forall i, j | 0 <= i < j < |page| ensures Less(TimeKey(page[j]), TimeKey(page[i])) {
      assert page[i] in Elements(page) && page[j] in Elements(page);
      TimeOrder(page[j], page[i]);
    }
    forall v, w | v in Elements(page) && w in S - Elements(page) ensures Less(TimeKey(w), TimeKey(v)) {
      TimeOrder(w, v);
    }
    FirstUnique(page, S, TimeKey, limit);
  }

  // ---------------------------------------------------------------- cuts

  /** The videos of R created at time t or later. */
  function AtLeast(R: set<Video>, t: int): set<Video> {
    set v | v in R && v.createTime >= t
  }

  /** Some moment has exactly n videos of R at or after it: the n-th and the next differ in time. */
  ghost predicate CutAt(R: set<Video>, n: nat) {
    exists t :: |AtLeast(R, t)| == n
  }

  /** No two videos of one millisecond are the n-th and the next of R. */
  ghost predicate SharpAt(R: set<Video>, n: nat) {
    n < |R| ==> CutAt(R, n)
  }

  lemma PageWithin(R: set<Video>, limit: nat, page: seq<Video>)
    requires IsQuery(R, limit, page)
    ensures |Elements(page)| == |page|
    ensures |page| < limit || |page| == |R| ==> Elements(page) == R
    ensures page != [] ==> Elements(page) <= AtLeast(R, NextTime(page))
  {
    DifferentSize(page);
    SubsetSize(Elements(page), R);
    forall v | v in page && page != [] ensures v in AtLeast(R, NextTime(page)) {
      assert v in Elements(page);
      var i :| 0 <= i < |page| && page[i] == v;
    }
  }

  /** A listing takes everything down to the time of its last video if and only if it ends at a cut, or
      at the end. */
  lemma TopIffSharp(R: set<Video>, limit: nat, page: seq<Video>)
    requires IsQuery(R, limit, page) && page != []
    ensures Elements(page) == AtLeast(R, NextTime(page)) <==> SharpAt(R, limit)
  {
    PageWithin(R, limit, page);
    if limit < |R| {
      FullPageCut(R, limit, page);
    }
  }

  lemma FullPageCut(R: set<Video>, limit: nat, page: seq<Video>)
    requires IsQuery(R, limit, page) && |page| == limit > 0
    ensures CutAt(R, limit) <==> Elements(page) == AtLeast(R, NextTime(page))
  {
    PageWithin(R, limit, page);
    if CutAt(R, limit) {
      var t :| |AtLeast(R, t)| == limit;
      CutIsPage(R, limit, page, t);
      assert NextTime(page) >= t by {
        assert page[|page| - 1] in AtLeast(R, t);
      }
    }
  }

  lemma CutIsPage(R: set<Video>, limit: nat, page: seq<Video>, t: int)
    requires IsQuery(R, limit, page) && |page| == limit > 0 && |AtLeast(R, t)| == limit && |Elements(page)| == limit
    ensures AtLeast(R, t) == Elements(page)
    ensures page[|page| - 1] in AtLeast(R, t)
  {
    if p :| p in page && p !in AtLeast(R, t) {
      assert p in Elements(page);
      forall v | v in AtLeast(R, t) ensures v in Elements(page) {}
      SubsetSize(AtLeast(R, t), Elements(page));
    } else {
      assert Elements(page) <= AtLeast(R, t);
      SubsetSize(Elements(page), AtLeast(R, t));
    }
    assert page[|page| - 1] in Elements(page);
  }

  /** Without ties every number is a cut. */
  lemma DistinctIsSharp(R: set<Video>, n: nat)
    requires DistinctTimes(R) && n > 0
    ensures SharpAt(R, n)
  {
    if n < |R| {
      DistinctByTime(R);
      var page := First(R, TimeKey, n);
      forall v, w | v in page && w in R && w !in page ensures w.createTime < v.createTime {
        FirstOutranks(R, TimeKey, n, v, w);
        TimeOrder(w, v);
      }
      forall i, j | 0 <= i < j < |page| ensures page[j].createTime < page[i].createTime {
        TimeOrder(page[j], page[i]);
      }
      PageWithin(R, n, page);
      assert page[n - 1] in page;
      assert AtLeast(R, NextTime(page)) == Elements(page);
    }
  }

  // ---------------------------------------------------------------- joining queries

  /** A is at or above W and B below it. */
  predicate Splits(A: set<Video>, B: set<Video>, W: int) {
    (forall v | v in A :: v.createTime >= W) && (forall v | v in B :: v.createTime < W)
  }

  lemma SplitSize(A: set<Video>, B: set<Video>, W: int)
    requires Splits(A, B, W)
    ensures A !! B && |A + B| == |A| + |B|
  {}

  lemma FullFromAbove(A: set<Video>, B: set<Video>, W: int, limit: nat, page: seq<Video>)
    requires Splits(A, B, W) && IsQuery(A, limit, page) && |page| == limit
    ensures IsQuery(A + B, limit, page)
  {
    SplitSize(A, B, W);
    forall v | v in page ensures v in A {
      assert v in Elements(page);
    }
  }

  lemma JoinQueries(A: set<Video>, B: set<Video>, W: int, limit: nat, above: seq<Video>, below: seq<Video>)
    requires Splits(A, B, W) && IsQuery(A, limit, above) && |above| < limit && IsQuery(B, limit - |above|, below)
    ensures IsQuery(A + B, limit, above + below)
  {
    SplitSize(A, B, W);
    PageWithin(A, limit, above);
    ShrunkQueries(A, B, limit, above, below);
    JoinOrder(A, B, W, above, below);
    JoinOutranks(A, B, W, above, below);
    JoinElements(above, below);
    JoinSize(A, B, limit, above, below);
  }

  lemma ShrunkQueries(A: set<Video>, B: set<Video>, limit: nat, above: seq<Video>, below: seq<Video>)
    requires IsQuery(A, limit, above) && |above| < limit && IsQuery(B, limit - |above|, below)
    ensures IsQuery(A, |above|, above) && IsQuery(B, |below|, below)
  {}

  lemma JoinElements(above: seq<Video>, below: seq<Video>)
    ensures Elements(above + below) == Elements(above) + Elements(below)
  {}

  lemma JoinSize(A: set<Video>, B: set<Video>, limit: nat, above: seq<Video>, below: seq<Video>)
    requires IsQuery(A, limit, above) && |above| < limit && IsQuery(B, limit - |above|, below)
    requires |A + B| == |A| + |B|
    ensures |above + below| == if |A + B| < limit then |A + B| else limit
  {}

  lemma JoinOrder(A: set<Video>, B: set<Video>, W: int, above: seq<Video>, below: seq<Video>)
    requires Splits(A, B, W) && IsQuery(A, |above|, above) && IsQuery(B, |below|, below)
    ensures var page := above + below;
            forall i, j | 0 <= i < j < |page| :: page[j].createTime <= page[i].createTime && page[i] != page[j]
  {
    var page := above + below;
    forall i, j | 0 <= i < j < |page| ensures page[j].createTime <= page[i].createTime && page[i] != page[j] {
      if i < |above| <= j {
        assert page[i] in Elements(above) && page[j] in Elements(below);
      }
    }
  }

  lemma JoinOutranks(A: set<Video>, B: set<Video>, W: int, above: seq<Video>, below: seq<Video>)
    requires Splits(A, B, W) && Elements(above) == A && Elements(below) <= B
    requires forall v, w | v in below && w in B && w !in below :: w.createTime <= v.createTime
    ensures var page := above + below;
            forall v, w | v in page && w in A + B && w !in page :: w.createTime <= v.createTime
  {
    var page := above + below;
    forall x ensures x in above <==> x in A {
      assert x in Elements(above) <==> x in A;
    }
    forall x | x in below ensures x in B {
      assert x in Elements(below);
    }
    assert forall v, w | v in page && w in A + B && w !in page :: w in B && w !in below && (v in A || v in below);
  }
}
