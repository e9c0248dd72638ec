/**
  Videos created in the same millisecond and the newest-first feed over the table: its cursor is a bare time
  with a strict comparison (internal/api/feed/repo.go, ListLatest).
*/
module FeedTies {
  import opened Ranking
  import opened FeedRepo
  import opened FeedQuery
  import opened Paging

  /** Scrolling through a fixed table to the end, with any choice of the database among ties. */
  predicate TableSession(S: set<Video>, limit: nat, before: int, pages: seq<seq<Video>>)
    decreases |pages|
  {
    && pages != [] && limit > 0 && IsQuery(Before(S, before), limit, pages[0])
    && (|pages| == 1 <==> |pages[0]| < limit)
    && (|pages| > 1 ==> TableSession(S, limit, NextTime(pages[0]), pages[1..]))
  }

  lemma NextIsBelow(S: set<Video>, before: int, page: seq<Video>)
    requires (forall v | v in S :: v.createTime > 0) && page != [] && Elements(page) <= Before(S, before)
    ensures Before(S, NextTime(page)) <= Before(S, before)
    ensures NextTime(page) > 0 && (before != 0 ==> NextTime(page) < before)
  {
    assert page[|page| - 1] in Elements(page);
  }

  lemma {:induction false} SessionWithin(S: set<Video>, limit: nat, before: int, pages: seq<seq<Video>>)
    requires (forall v | v in S :: v.createTime > 0) && TableSession(S, limit, before, pages)
    ensures Elements(Concat(pages)) <= Before(S, before)
    decreases |pages|
  {
    if |pages| == 1 {
      assert Concat(pages) == pages[0];
    } else {
      NextIsBelow(S, before, pages[0]);
      SessionWithin(S, limit, NextTime(pages[0]), pages[1..]);
      ConcatElements(pages);
    }
  }

  lemma ConcatElements(pages: seq<seq<Video>>)
    requires pages != []
    ensures Elements(Concat(pages)) == Elements(pages[0]) + Elements(Concat(pages[1..]))
  {}

  // ---------------------------------------------------------------- exactly when nothing is lost

  function Boundary(k: nat, limit: nat): nat {
    k * limit
  }

  /** No page boundary falls between videos of the same millisecond. */
  ghost predicate CutsAtBoundaries(R: set<Video>, limit: nat) {
    forall k: nat | 0 < k :: SharpAt(R, Boundary(k, limit))
  }

  /** Behind a page that ends at a cut, the cuts of the rest are the later cuts of the whole. */
  lemma CutsShift(R: set<Video>, top: set<Video>, rest: set<Video>, last: int, m: nat)
    requires top == AtLeast(R, last) && rest == R - top && m > 0
    ensures CutAt(rest, m) <==> CutAt(R, |top| + m)
  {
    if CutAt(rest, m) {
      var t :| |AtLeast(rest, t)| == m;
      var v :| v in AtLeast(rest, t);
      assert AtLeast(R, t) == top + AtLeast(rest, t);
      assert top !! AtLeast(rest, t);
    }
    if CutAt(R, |top| + m) {
      var t :| |AtLeast(R, t)| == |top| + m;
      if t > last {
        SubsetSize(AtLeast(R, t), top);
      }
      assert AtLeast(R, t) == top + AtLeast(rest, t);
      assert top !! AtLeast(rest, t);
    }
  }

  lemma NextBoundary(k: nat, limit: nat)
    ensures Boundary(k + 1, limit) == Boundary(k, limit) + limit
    ensures Boundary(1, limit) == limit
  {}

  lemma BoundaryGrows(k: nat, limit: nat)
    requires k > 0
    ensures Boundary(k, limit) >= limit
  {
    NextBoundary(k - 1, limit);
  }

  /** So all boundaries are cuts if and only if the first is and all those of the rest are. */
  lemma BoundariesShift(R: set<Video>, limit: nat, top: set<Video>, rest: set<Video>, last: int)
    requires top == AtLeast(R, last) && rest == R - top && |top| == limit > 0
    ensures CutsAtBoundaries(R, limit) <==> CutsAtBoundaries(rest, limit)
  {
    assert |R| == limit + |rest| by {
      assert R == top + rest;
    }
    if CutsAtBoundaries(R, limit) {
      forall k: nat | 0 < k && Boundary(k, limit) < |rest| ensures CutAt(rest, Boundary(k, limit)) {
        NextBoundary(k, limit);
        BoundaryGrows(k, limit);
        assert Boundary(k + 1, limit) < |R|;
        CutsShift(R, top, rest, last, Boundary(k, limit));
      }
    }
    if CutsAtBoundaries(rest, limit) {
      forall k: nat | 0 < k && Boundary(k, limit) < |R| ensures CutAt(R, Boundary(k, limit)) {
        NextBoundary(k - 1, limit);
        if k == 1 {
          assert |AtLeast(R, last)| == limit;
        } else {
          BoundaryGrows(k - 1, limit);
          assert Boundary(k - 1, limit) < |rest|;
          CutsShift(R, top, rest, last, Boundary(k - 1, limit));
        }
      }
    }
  }

  /** The first page of a session that goes on. */
  lemma FirstPageDecides(S: set<Video>, limit: nat, before: int, page: seq<Video>)
    requires (forall v | v in S :: v.createTime > 0) && IsQuery(Before(S, before), limit, page) && |page| == limit > 0
    ensures var R, rest := Before(S, before), Before(S, NextTime(page));
            if Elements(page) == AtLeast(R, NextTime(page)) then
              && rest == R - Elements(page)
              && (CutsAtBoundaries(R, limit) <==> CutsAtBoundaries(rest, limit))
            else !CutsAtBoundaries(R, limit) && !(R <= Elements(page) + rest)
  {
    var R, last := Before(S, before), NextTime(page);
    NextIsBelow(S, before, page);
    DifferentSize(page);
    FullPageCut(R, limit, page);
    forall v | v in page ensures v in AtLeast(R, last) {
      assert v in Elements(page);
      var i :| 0 <= i < |page| && page[i] == v;
    }
    if Elements(page) == AtLeast(R, last) {
      BoundariesShift(R, limit, Elements(page), R - Elements(page), last);
    } else {
      NextBoundary(0, limit);
      LostAtBoundary(R, Elements(page), last);
      assert Boundary(1, limit) < |R|;
      assert forall w | w in AtLeast(R, last) :: w !in Before(S, last);
    }
  }

  lemma LostAtBoundary(R: set<Video>, top: set<Video>, last: int)
    requires top <= R && top <= AtLeast(R, last) && top != AtLeast(R, last)
    ensures |top| < |R| && exists w :: w in AtLeast(R, last) && w !in top
  {
    assert exists w :: w in AtLeast(R, last) && w !in top;
    var w :| w in AtLeast(R, last) && w !in top;
    SubsetSize(top + {w}, R);
  }

  lemma ShortPageIsRest(R: set<Video>, limit: nat, page: seq<Video>)
    requires IsQuery(R, limit, page) && |page| < limit
    ensures Elements(page) == R && CutsAtBoundaries(R, limit)
  {
    DifferentSize(page);
    SubsetSize(Elements(page), R);
    forall k: nat | 0 < k ensures Boundary(k, limit) >= limit {
      BoundaryGrows(k, limit);
    }
  }

  /** The cursor is a bare time.  For every page size, and whatever order the database gives to ties,
      scrolling shows everything below the first cursor if and only if no page boundary falls between
      videos of the same millisecond. */
  lemma {:induction false} CompleteIffCuts(S: set<Video>, limit: nat, before: int, pages: seq<seq<Video>>)
    requires (forall v | v in S :: v.createTime > 0) && TableSession(S, limit, before, pages)
    ensures Elements(Concat(pages)) == Before(S, before) <==> CutsAtBoundaries(Before(S, before), limit)
    decreases |pages|
  {
    var page := pages[0];
    ConcatElements(pages);
    if |pages| == 1 {
      ShortPageIsRest(Before(S, before), limit, page);
    } else {
      FirstPageDecides(S, limit, before, page);
      CompleteIffCuts(S, limit, NextTime(page), pages[1..]);
      SessionWithin(S, limit, NextTime(page), pages[1..]);
    }
  }

  /** Without ties every boundary is a cut. */
  lemma DistinctCuts(R: set<Video>, limit: nat)
    requires DistinctTimes(R) && limit > 0
    ensures CutsAtBoundaries(R, limit)
  {
    forall k: nat | 0 < k && Boundary(k, limit) < |R| ensures CutAt(R, Boundary(k, limit)) {
      BoundaryGrows(k, limit);
      DistinctIsSharp(R, Boundary(k, limit));
    }
  }

  /** With one video a page, only without ties. */
  lemma SingleCutsAreDistinct(R: set<Video>)
    requires CutsAtBoundaries(R, 1)
    ensures DistinctTimes(R)
  {
    forall v, w | v in R && w in R && v.createTime == w.createTime ensures v == w {
      if v != w {
        TieBlocksCut(R, v, w);
      }
    }
  }

  lemma TieBlocksCut(R: set<Video>, v: Video, w: Video)
    requires v in R && w in R && v != w && v.createTime == w.createTime
    ensures !CutsAtBoundaries(R, 1)
  {
    var above := AtLeast(R, v.createTime + 1);
    var n := |above| + 1;
    var both := above + {v, w};
    assert |both| == n + 1;
    SubsetSize(both, R);
    assert Boundary(n, 1) == n < |R|;
    if CutAt(R, n) {
      var t :| |AtLeast(R, t)| == n;
      if t <= v.createTime {
        SubsetSize(both, AtLeast(R, t));
      } else {
        SubsetSize(AtLeast(R, t), above);
      }
    }
  }

  /** So every page size shows everything if there are no ties, and a page size of one only then. */
  lemma CompleteIffDistinct(S: set<Video>, limit: nat, pages: seq<seq<Video>>)
    requires (forall v | v in S :: v.createTime > 0) && TableSession(S, limit, 0, pages)
    ensures DistinctTimes(S) ==> Elements(Concat(pages)) == S
    ensures limit == 1 && Elements(Concat(pages)) == S ==> DistinctTimes(S)
  {
    assert Before(S, 0) == S;
    CompleteIffCuts(S, limit, 0, pages);
    if DistinctTimes(S) {
      DistinctCuts(S, limit);
    } else if limit == 1 && CutsAtBoundaries(S, 1) {
      SingleCutsAreDistinct(S);
    }
  }

  /** A tie at a page boundary loses a video: two videos of one millisecond, one video a page. */
  lemma TieAtBoundaryIsLost()
    ensures var a, b := Video(1, 7, "a", 10, 0, 0), Video(2, 7, "b", 10, 0, 0);
            && TableSession({a, b}, 1, 0, [[a], []])
            && b !in Concat([[a], []])
  {
    var a, b := Video(1, 7, "a", 10, 0, 0), Video(2, 7, "b", 10, 0, 0);
    var S := {a, b};
    assert Before(S, 0) == S && Before(S, 10) == {};
    assert Elements([a]) == {a};
    assert [[a], []][1..] == [[]];
    assert TableSession(S, 1, 10, [[]]);
    assert Concat([[a], []]) == [a] + Concat([[]]);
    var none: seq<seq<Video>> := [[]];
    assert none[1..] == [];
    assert Concat(none) == [];
  }

  /** A tie inside a page loses nothing. */
  lemma TieInsidePageIsKept()
    ensures var a, b := Video(1, 7, "a", 10, 0, 0), Video(2, 7, "b", 10, 0, 0);
            !DistinctTimes({a, b}) && CutsAtBoundaries({a, b}, 2)
  {
    var a, b := Video(1, 7, "a", 10, 0, 0), Video(2, 7, "b", 10, 0, 0);
    forall k: nat | 0 < k ensures Boundary(k, 2) >= 2 {
      BoundaryGrows(k, 2);
    }
  }
}
