/** Vocabulary shared by every table model. */
module Common {

  datatype Option<+T> = None | Some(value: T)

  datatype Result<+T, +E> = Ok(value: T) | Err(error: E)

  /** Instants are microseconds, the resolution of the datetimes the server stores. */
  type Time = nat

  const SECOND: nat := 1_000_000

  function Min(a: int, b: int): int {
    if a <= b then a else b
  }

  function Max(a: int, b: int): int {
    if a <= b then b else a
  }
}

/** `ORDER BY id LIMIT k` over integer primary keys. */
module RowOrder {

  predicate IsLeast(m: nat, s: set<nat>) {
    m in s && forall x | x in s :: m <= x
  }

  lemma {:induction false} LeastExists(s: set<nat>)
    requires s != {}
    ensures exists m :: IsLeast(m, s)
  {
    var x :| x in s;
    if s == {x} {
      assert IsLeast(x, s);
    } else {
      LeastExists(s - {x});
      var rest :| IsLeast(rest, s - {x});
      assert forall y | y in s :: y == x || y in s - {x};
      assert IsLeast(if x < rest then x else rest, s);
    }
  }

  function Least(s: set<nat>): (m: nat)
    requires s != {}
    ensures IsLeast(m, s)
  {
    LeastExists(s);
    var m :| IsLeast(m, s);
    m
  }

  lemma {:induction false} CountSubset(small: set<nat>, large: set<nat>)
    requires small <= large
    ensures |small| <= |large|
  {
    if x :| x in small {
      CountSubset(small - {x}, large - {x});
    }
  }

  /** `ids` are the `limit` lowest of `s`, or all of `s` when there are fewer. */
  predicate AreLowest(ids: set<nat>, s: set<nat>, limit: nat) {
    && ids <= s
    && |ids| == (if limit <= |s| then limit else |s|)
    && forall x, y | x in ids && y in s && y !in ids :: x < y
  }

  lemma {:induction false} LowestExist(s: set<nat>, limit: nat)
    ensures exists ids :: AreLowest(ids, s, limit)
  {
    if limit == 0 || s == {} {
      assert AreLowest({}, s, limit);
    } else {
      var m := Least(s);
      LowestExist(s - {m}, limit - 1);
      var rest :| AreLowest(rest, s - {m}, limit - 1);
      assert s - ({m} + rest) == (s - {m}) - rest;
      assert AreLowest({m} + rest, s, limit);
    }
  }

  lemma SameSizeSubset(a: set<nat>, b: set<nat>)
    requires a <= b && |a| == |b|
    ensures a == b
  {
    assert |b - a| == 0;
  }

  lemma LowestUnique(a: set<nat>, b: set<nat>, s: set<nat>, limit: nat)
    requires AreLowest(a, s, limit) && AreLowest(b, s, limit)
    ensures a == b
  {
    assert forall x, y | x in a && x !in b && y in b && y !in a :: x < y < x;
    assert a <= b || b <= a;
    if a <= b {
      SameSizeSubset(a, b);
    } else {
      SameSizeSubset(b, a);
    }
  }

  /** The set an `id IN (SELECT ... ORDER BY id LIMIT k)` clause uses. */
  function LowestIds(s: set<nat>, limit: nat): (ids: set<nat>)
    ensures AreLowest(ids, s, limit)
  {
    LowestExist(s, limit);
    forall a, b | AreLowest(a, s, limit) && AreLowest(b, s, limit) ensures a == b { LowestUnique(a, b, s, limit); }
    var ids :| AreLowest(ids, s, limit);
    ids
  }

  lemma LowestOne(s: set<nat>, m: nat)
    requires IsLeast(m, s)
    ensures LowestIds(s, 1) == {m}
  {
    assert |s| >= 1 by {
      if |s| == 0 {
        assert false;
      }
    }
    assert AreLowest({m}, s, 1);
    LowestUnique({m}, LowestIds(s, 1), s, 1);
  }

  /** The ids of `s`, lowest first. */
  function Ascending(s: set<nat>): (ids: seq<nat>)
    ensures |ids| == |s|
  {
    if s == {} then []
    else
      var m := Least(s);
      [m] + Ascending(s - {m})
  }

  lemma {:induction false} AscendingMembers(s: set<nat>, id: nat)
    ensures id in Ascending(s) <==> id in s
  {
    if s != {} && id != Least(s) {
      AscendingMembers(s - {Least(s)}, id);
    }
  }

  lemma {:induction false} AscendingIsSorted(s: set<nat>, i: nat, j: nat)
    requires i < j < |s|
    ensures Ascending(s)[i] < Ascending(s)[j]
  {
    var rest := s - {Least(s)};
    if i > 0 {
      AscendingIsSorted(rest, i - 1, j - 1);
    } else {
      var last := Ascending(rest)[j - 1];
      assert last in Ascending(rest);
      AscendingMembers(rest, last);
    }
  }

  lemma AscendingListsAll(s: set<nat>)
    ensures forall id :: id in Ascending(s) <==> id in s
    ensures (set id | id in Ascending(s)) == s
  {
    forall id ensures id in Ascending(s) <==> id in s {
      AscendingMembers(s, id);
    }
  }

  lemma AscendingHasDistinct(s: set<nat>)
    ensures forall i, j | 0 <= i < j < |s| :: Ascending(s)[i] < Ascending(s)[j]
  {
    forall i, j | 0 <= i < j < |s| ensures Ascending(s)[i] < Ascending(s)[j] {
      AscendingIsSorted(s, i, j);
    }
  }
}
