/** `Array.prototype.sort` by a falling number, as far as its specification fixes it: the result
    falls, and items of one rank keep their order. */
module StableSort {
  predicate Falls<T>(s: seq<T>, rank: T -> int) {
    forall i, j | 0 <= i < j < |s| :: rank(s[i]) >= rank(s[j])
  }

  /** The items of one rank, in order. */
  function OfRank<T>(s: seq<T>, rank: T -> int, r: int): seq<T> {
    if s == [] then []
    else OfRank(s[..|s| - 1], rank, r) + if rank(s[|s| - 1]) == r then [s[|s| - 1]] else []
  }

  function Insert<T>(s: seq<T>, x: T, rank: T -> int): seq<T> {
    if s == [] || rank(s[|s| - 1]) >= rank(x) then s + [x]
    else Insert(s[..|s| - 1], x, rank) + [s[|s| - 1]]
  }

  function SortFalling<T>(s: seq<T>, rank: T -> int): seq<T> {
    if s == [] then [] else Insert(SortFalling(s[..|s| - 1], rank), s[|s| - 1], rank)
  }

  lemma {:induction false} InsertKeepsItems<T>(s: seq<T>, x: T, rank: T -> int)
    ensures multiset(Insert(s, x, rank)) == multiset(s) + multiset{x}
  {
    if s != [] && rank(s[|s| - 1]) < rank(x) {
      InsertKeepsItems(s[..|s| - 1], x, rank);
      assert s == s[..|s| - 1] + [s[|s| - 1]];
    }
  }

  lemma {:induction false} InsertFalls<T>(s: seq<T>, x: T, rank: T -> int)
    requires Falls(s, rank)
    ensures Falls(Insert(s, x, rank), rank)
  {
    if s != [] && rank(s[|s| - 1]) < rank(x) {
      var front, last := s[..|s| - 1], s[|s| - 1];
      var inserted := Insert(front, x, rank);
      InsertFalls(front, x, rank);
      InsertKeepsItems(front, x, rank);
      forall i | 0 <= i < |inserted| ensures rank(inserted[i]) >= rank(last) {
        assert inserted[i] in multiset(inserted);
      }
    }
  }

  lemma {:induction false} InsertKeepsOrder<T>(s: seq<T>, x: T, rank: T -> int, r: int)
    ensures OfRank(Insert(s, x, rank), rank, r) == OfRank(s, rank, r) + if rank(x) == r then [x] else []
  {
    if s == [] || rank(s[|s| - 1]) >= rank(x) {
      assert (s + [x])[..|s|] == s;
    } else {
      InsertKeepsOrder(s[..|s| - 1], x, rank, r);
      var inserted := Insert(s[..|s| - 1], x, rank);
      assert (inserted + [s[|s| - 1]])[..|inserted|] == inserted;
    }
  }

  lemma {:induction false} SortFits<T>(s: seq<T>, rank: T -> int)
    ensures Falls(SortFalling(s, rank), rank)
    ensures multiset(SortFalling(s, rank)) == multiset(s)
    ensures forall r :: OfRank(SortFalling(s, rank), rank, r) == OfRank(s, rank, r)
  {
    if s != [] {
      var front, last := s[..|s| - 1], s[|s| - 1];
      SortFits(front, rank);
      assert s == front + [last];
      forall r ensures OfRank(SortFalling(s, rank), rank, r) == OfRank(s, rank, r) {
        InsertKeepsOrder(SortFalling(front, rank), last, rank, r);
      }
      InsertFalls(SortFalling(front, rank), last, rank);
      InsertKeepsItems(SortFalling(front, rank), last, rank);
    }
  }

  lemma {:induction false} OfRankMembers<T>(s: seq<T>, rank: T -> int, r: int)
    ensures OfRank(s, rank, r) != [] <==> exists i :: 0 <= i < |s| && rank(s[i]) == r
  {
    if s != [] {
      OfRankMembers(s[..|s| - 1], rank, r);
    }
  }

  lemma {:induction false} LastRank<T>(a: seq<T>, b: seq<T>, rank: T -> int)
    requires a != [] && b != [] && Falls(a, rank) && Falls(b, rank)
    requires forall r :: OfRank(a, rank, r) == OfRank(b, rank, r)
    ensures rank(a[|a| - 1]) >= rank(b[|b| - 1])
  {
    OfRankMembers(b, rank, rank(b[|b| - 1]));
    OfRankMembers(a, rank, rank(b[|b| - 1]));
    var i :| 0 <= i < |a| && rank(a[i]) == rank(b[|b| - 1]);
    OfRankMembers(a, rank, rank(a[|a| - 1]));
    OfRankMembers(b, rank, rank(a[|a| - 1]));
    var j :| 0 <= j < |b| && rank(b[j]) == rank(a[|a| - 1]);
  }

  lemma AppendsAgree<T>(a: seq<T>, x: T, b: seq<T>, y: T)
    requires a + [x] == b + [y]
    ensures a == b && x == y
  {
    assert a == (a + [x])[..|a + [x]| - 1];
    assert b == (b + [y])[..|b + [y]| - 1];
    assert x == (a + [x])[|a|] && y == (b + [y])[|b|];
  }

  /** Falling and keeping each rank's order fixes the result: there is only one stable sort. */
  lemma {:induction false} StableSortIsUnique<T>(a: seq<T>, b: seq<T>, rank: T -> int)
    requires Falls(a, rank) && Falls(b, rank)
    requires forall r :: OfRank(a, rank, r) == OfRank(b, rank, r)
    ensures a == b
    decreases |a|
  {
    if a == [] || b == [] {
      if a != [] {
        OfRankMembers(a, rank, rank(a[0]));
        OfRankMembers(b, rank, rank(a[0]));
      }
      if b != [] {
        OfRankMembers(b, rank, rank(b[0]));
        OfRankMembers(a, rank, rank(b[0]));
      }
    } else {
      LastRank(a, b, rank);
      LastRank(b, a, rank);
      var x, y, r := a[|a| - 1], b[|b| - 1], rank(a[|a| - 1]);
      var frontA, frontB := a[..|a| - 1], b[..|b| - 1];
      assert OfRank(a, rank, r) == OfRank(frontA, rank, r) + [x];
      assert OfRank(b, rank, r) == OfRank(frontB, rank, r) + [y];
      AppendsAgree(OfRank(frontA, rank, r), x, OfRank(frontB, rank, r), y);
      forall q ensures OfRank(frontA, rank, q) == OfRank(frontB, rank, q) {
        assert OfRank(a, rank, q) == OfRank(b, rank, q);
        if q != r {
          assert OfRank(a, rank, q) == OfRank(frontA, rank, q) + [] == OfRank(frontA, rank, q);
          assert OfRank(b, rank, q) == OfRank(frontB, rank, q) + [] == OfRank(frontB, rank, q);
        }
      }
      StableSortIsUnique(frontA, frontB, rank);
      assert a == frontA + [x] && b == frontB + [y];
    }
  }

  lemma {:induction false} SortedStays<T>(s: seq<T>, rank: T -> int)
    requires Falls(s, rank)
    ensures SortFalling(s, rank) == s
  {
    SortFits(s, rank);
    StableSortIsUnique(SortFalling(s, rank), s, rank);
  }
}
