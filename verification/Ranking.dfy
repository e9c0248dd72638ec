/**
  Ranked listings.

  Redis sorts a sorted set by (score, member) and MySQL sorts a query by its ORDER BY columns.
  Both are lexicographic orders, so both are described here by one key per element: a sequence
  of integers compared from the left, a proper prefix first.  `Ranked` lists a finite set from the
  greatest key down; `RankedUnique` says that no other strictly descending listing exists, and
  most results about pages and trims follow from that.
*/
module Ranking {
  type Key = seq<int>

  predicate Less(a: Key, b: Key) {
    b != [] && (a == [] || a[0] < b[0] || (a[0] == b[0] && Less(a[1..], b[1..])))
  }

  lemma LessIrreflexive(a: Key)
    ensures !Less(a, a)
  {
    if a != [] {
      LessIrreflexive(a[1..]);
    }
  }

  lemma LessTransitive(a: Key, b: Key, c: Key)
    requires Less(a, b) && Less(b, c)
    ensures Less(a, c)
  {
    if a != [] && a[0] == b[0] && b[0] == c[0] {
      LessTransitive(a[1..], b[1..], c[1..]);
    }
  }

  lemma LessTotal(a: Key, b: Key)
    ensures a == b || Less(a, b) || Less(b, a)
  {
    if a != [] && b != [] && a[0] == b[0] {
      LessTotal(a[1..], b[1..]);
      if a[1..] == b[1..] {
        assert a == [a[0]] + a[1..] && b == [b[0]] + b[1..];
      }
    }
  }

  lemma LessAsymmetric(a: Key, b: Key)
    requires Less(a, b)
    ensures !Less(b, a)
  {
    if Less(b, a) {
      LessTransitive(a, b, a);
      LessIrreflexive(a);
    }
  }

  /** No two elements of S share a key. */
  predicate Distinct<T(!new, ==)>(S: set<T>, key: T -> Key) {
    forall x, y | x in S && y in S :: key(x) == key(y) ==> x == y
  }

  predicate Descending<T>(s: seq<T>, key: T -> Key) {
    forall i, j | 0 <= i < j < |s| :: Less(key(s[j]), key(s[i]))
  }

  predicate IsMax<T(!new, ==)>(S: set<T>, key: T -> Key, m: T) {
    m in S && forall x | x in S :: x == m || Less(key(x), key(m))
  }

  function Elements<T(==)>(s: seq<T>): set<T> {
    set x | x in s
  }

  lemma MaxExists<T(!new)>(S: set<T>, key: T -> Key)
    requires S != {} && Distinct(S, key)
    ensures exists m :: m in S && IsMax(S, key, m)
  {
    var x :| x in S;
    if S == {x} {
      assert IsMax(S, key, x);
    } else {
      MaxExists(S - {x}, key);
      var n :| n in S - {x} && IsMax(S - {x}, key, n);
      LessTotal(key(x), key(n));
      if Less(key(n), key(x)) {
        forall y | y in S && y != x ensures Less(key(y), key(x)) {
          if y != n {
            LessTransitive(key(y), key(n), key(x));
          }
        }
        assert IsMax(S, key, x);
      } else {
        assert IsMax(S, key, n);
      }
    }
  }

  lemma MaxUnique<T(!new)>(S: set<T>, key: T -> Key)
    ensures forall m, n :: IsMax(S, key, m) && IsMax(S, key, n) ==> m == n
  {
    forall m, n | IsMax(S, key, m) && IsMax(S, key, n) ensures m == n {
      if m != n {
        LessAsymmetric(key(m), key(n));
      }
    }
  }

  function Max<T(!new, ==)>(S: set<T>, key: T -> Key): (m: T)
    requires S != {} && Distinct(S, key)
    ensures IsMax(S, key, m)
  {
    MaxExists(S, key);
    MaxUnique(S, key);
    var m :| m in S && IsMax(S, key, m);
    m
  }

  /** The elements of S from the greatest key down. */
  function Ranked<T(!new, ==)>(S: set<T>, key: T -> Key): (s: seq<T>)
    requires Distinct(S, key)
    ensures |s| == |S|
    ensures Elements(s) == S
    ensures Descending(s, key)
  {
    if S == {} then [] else
      var m := Max(S, key);
      var rest := Ranked(S - {m}, key);
      ConsDescending(m, rest, key);
      [m] + rest
  }

  lemma ConsDescending<T(!new)>(m: T, rest: seq<T>, key: T -> Key)
    requires Descending(rest, key)
    requires forall x | x in Elements(rest) :: Less(key(x), key(m))
    ensures Descending([m] + rest, key)
    ensures Elements([m] + rest) == {m} + Elements(rest)
  {
    var s := [m] + rest;
    forall i, j | 0 <= i < j < |s| ensures Less(key(s[j]), key(s[i])) {
      assert s[j] == rest[j - 1];
      if i == 0 {
        assert s[j] in Elements(rest);
      } else {
        assert s[i] == rest[i - 1];
      }
    }
  }

  /** A descending listing has no duplicates: only its first element is greatest. */
  lemma DescendingTail<T(!new)>(s: seq<T>, key: T -> Key)
    requires Descending(s, key) && s != []
    ensures Descending(s[1..], key)
    ensures s[0] !in s[1..]
    ensures Elements(s[1..]) == Elements(s) - {s[0]}
    ensures forall x | x in s[1..] :: Less(key(x), key(s[0]))
  {
    LessIrreflexive(key(s[0]));
    assert s == [s[0]] + s[1..];
  }

  /** There is only one strictly descending listing of a set. */
  lemma {:induction false} RankedUnique<T(!new)>(s: seq<T>, t: seq<T>, key: T -> Key)
    requires Descending(s, key) && Descending(t, key)
    requires Elements(s) == Elements(t)
    ensures s == t
  {
    assert t != [] ==> t[0] in Elements(t);
    if s != [] {
      assert s[0] in Elements(t);
      assert t[0] in Elements(s);
      DescendingTail(s, key);
      DescendingTail(t, key);
      if s[0] != t[0] {
        assert s[0] in Elements(t[1..]) && t[0] in Elements(s[1..]);
        LessAsymmetric(key(s[0]), key(t[0]));
      }
      RankedUnique(s[1..], t[1..], key);
      assert s == [s[0]] + s[1..] && t == [t[0]] + t[1..];
    }
  }

  lemma ConcatDescending<T(!new)>(s: seq<T>, t: seq<T>, key: T -> Key)
    requires Descending(s, key) && Descending(t, key)
    requires forall a, b | a in Elements(s) && b in Elements(t) :: Less(key(b), key(a))
    ensures Descending(s + t, key)
    ensures Elements(s + t) == Elements(s) + Elements(t)
  {
    var u := s + t;
    forall i, j | 0 <= i < j < |u| ensures Less(key(u[j]), key(u[i])) {
      if i < |s| <= j {
        assert u[i] in Elements(s) && t[j - |s|] in Elements(t);
      }
    }
  }

  /** The first n elements of the listing of S, or all of them when S is smaller. */
  function First<T(!new, ==)>(S: set<T>, key: T -> Key, n: nat): (s: seq<T>)
    requires Distinct(S, key)
    ensures |s| == (if |S| < n then |S| else n)
    ensures Elements(s) <= S && Descending(s, key)
  {
    var r := Ranked(S, key);
    assert forall x | x in r[..if |r| < n then |r| else n] :: x in Elements(r);
    if |r| < n then r else r[..n]
  }

  /** Everything listed outranks everything left out. */
  lemma FirstOutranks<T(!new)>(S: set<T>, key: T -> Key, n: nat, x: T, y: T)
    requires Distinct(S, key)
    requires x in First(S, key, n) && y in S && y !in First(S, key, n)
    ensures Less(key(y), key(x))
  {
    var r := Ranked(S, key);
    assert y in Elements(r);
    var i :| 0 <= i < |First(S, key, n)| && First(S, key, n)[i] == x;
    var j :| 0 <= j < |r| && r[j] == y;
    assert forall k | 0 <= k < |First(S, key, n)| :: First(S, key, n)[k] == r[k];
    assert i < j;
  }

  /** A descending listing whose elements outrank the rest of Z begins the listing of Z. */
  lemma RankedStart<T(!new)>(f: seq<T>, Z: set<T>, key: T -> Key)
    requires Distinct(Z, key) && Descending(f, key) && Elements(f) <= Z
    requires forall a, b | a in Elements(f) && b in Z - Elements(f) :: Less(key(b), key(a))
    ensures Ranked(Z, key) == f + Ranked(Z - Elements(f), key)
  {
    var rest := Ranked(Z - Elements(f), key);
    StartThenRest(f, rest, Z, key);
    RankedUnique(Ranked(Z, key), f + rest, key);
  }

  lemma StartThenRest<T(!new)>(f: seq<T>, rest: seq<T>, Z: set<T>, key: T -> Key)
    requires Descending(f, key) && Descending(rest, key) && Elements(f) <= Z && Elements(rest) == Z - Elements(f)
    requires forall a, b | a in Elements(f) && b in Z - Elements(f) :: Less(key(b), key(a))
    ensures Descending(f + rest, key) && Elements(f + rest) == Z
  {
    ConcatDescending(f, rest, key);
  }

  /** Any descending choice of the right size that outranks the rest is the first n. */
  lemma FirstUnique<T(!new)>(f: seq<T>, S: set<T>, key: T -> Key, n: nat)
    requires Distinct(S, key) && Descending(f, key) && Elements(f) <= S
    requires |f| == if |S| < n then |S| else n
    requires forall a, b | a in Elements(f) && b in S - Elements(f) :: Less(key(b), key(a))
    ensures f == First(S, key, n)
  {
    RankedStart(f, S, key);
  }

  /** The first n of a set depend only on the part that contains them. */
  lemma FirstSandwich<T(!new)>(S: set<T>, Z: set<T>, key: T -> Key, n: nat)
    requires Distinct(S, key)
    requires Elements(First(S, key, n)) <= Z <= S
    ensures First(Z, key, n) == First(S, key, n)
  {
    var f := First(S, key, n);
    forall a, b | a in Elements(f) && b in Z - Elements(f) ensures Less(key(b), key(a)) {
      FirstOutranks(S, key, n, a, b);
    }
    RankedStart(f, Z, key);
    if |S| < n {
      assert Elements(f) == S;
      assert Z - Elements(f) == {};
    }
  }

  /** The elements of S ranked strictly below a key. */
  function Below<T(!new, ==)>(S: set<T>, key: T -> Key, bound: Key): set<T> {
    set x | x in S && Less(key(x), bound)
  }

  /** What follows the first k elements of the listing is the listing of everything ranked below
      the last of them. */
  lemma RankedAfter<T(!new)>(S: set<T>, key: T -> Key, k: nat)
    requires Distinct(S, key)
    requires 0 < k <= |S|
    ensures Ranked(Below(S, key, key(Ranked(S, key)[k - 1])), key) == Ranked(S, key)[k..]
  {
    var r := Ranked(S, key);
    var below := Below(S, key, key(r[k - 1]));
    DescendingSplit(r, key, k);
    assert below == Elements(r[k..]) by {
      assert forall x :: x in r <==> x in Elements(r);
    }
    RankedUnique(Ranked(below, key), r[k..], key);
  }

  lemma DescendingSplit<T(!new)>(r: seq<T>, key: T -> Key, k: nat)
    requires Descending(r, key)
    requires 0 < k <= |r|
    ensures Descending(r[k..], key)
    ensures forall x :: x in r[k..] <==> x in r && Less(key(x), key(r[k - 1]))
  {
    forall x | x in r && Less(key(x), key(r[k - 1])) ensures x in r[k..] {
      var i :| 0 <= i < |r| && r[i] == x;
      if i < k {
        LessIrreflexive(key(x));
        LessAsymmetric(key(x), key(r[k - 1]));
      }
      assert k <= i;
      assert r[k..][i - k] == x;
    }
    forall x | x in r[k..] ensures x in r && Less(key(x), key(r[k - 1])) {
      var i :| 0 <= i < |r| - k && r[k..][i] == x;
      assert r[k + i] == x;
    }
  }

  // ---------------------------------------------------------------- sizes

  lemma SubsetSize<T>(A: set<T>, B: set<T>)
    requires A <= B
    ensures |A| <= |B|
    ensures |A| == |B| ==> A == B
  {
    assert B == A + (B - A);
  }

  lemma {:induction false} DifferentSize<T>(s: seq<T>)
    requires forall i, j | 0 <= i < j < |s| :: s[i] != s[j]
    ensures |Elements(s)| == |s|
  {
    if s != [] {
      var init := s[..|s| - 1];
      DifferentSize(init);
      assert Elements(s) == Elements(init) + {s[|s| - 1]};
    }
  }

  lemma DescendingSize<T(!new)>(s: seq<T>, key: T -> Key)
    requires Descending(s, key)
    ensures |Elements(s)| == |s|
  {
    if s != [] {
      DescendingTail(s, key);
      DescendingSize(s[1..], key);
    }
  }

  lemma SameReversed<T>(s: seq<T>, t: seq<T>)
    requires |s| == |t| && forall i | 0 <= i < |s| :: s[i] == t[|s| - 1 - i]
    ensures Elements(s) == Elements(t)
  {
    forall x | x in t ensures x in s {
      var i :| 0 <= i < |t| && t[i] == x;
      assert s[|s| - 1 - i] == x;
    }
  }

  /** A descending listing falls apart into two disjoint parts at any index. */
  lemma SplitElements<T(!new)>(r: seq<T>, key: T -> Key, k: nat)
    requires Descending(r, key) && k <= |r|
    ensures Elements(r) - Elements(r[k..]) == Elements(r[..k])
  {
    RankedAtMostOnce(r, key);
    assert r == r[..k] + r[k..];
    forall x | x in r[..k] ensures x !in r[k..] {
      var i :| 0 <= i < k && r[i] == x;
      assert forall j | 0 <= j < |r| - k :: r[k..][j] == r[k + j];
    }
  }

  lemma RankedAtMostOnce<T(!new)>(s: seq<T>, key: T -> Key)
    requires Descending(s, key)
    ensures forall i, j | 0 <= i < |s| && 0 <= j < |s| && s[i] == s[j] :: i == j
  {
    forall i | 0 <= i < |s| ensures !Less(key(s[i]), key(s[i])) {
      LessIrreflexive(key(s[i]));
    }
  }

  lemma SmallElements<T>(s: seq<T>)
    ensures |Elements(s)| <= |s|
  {
    if s != [] {
      assert Elements(s) == Elements(s[..|s| - 1]) + {s[|s| - 1]};
      SmallElements(s[..|s| - 1]);
    }
  }
}
