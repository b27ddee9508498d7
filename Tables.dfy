/** A database table as the controllers use it: rows keyed by an integer
    primary key. A query without ORDER BY returns the matching rows in key
    order; LIMIT/OFFSET then cut a page out of that list. */
module Tables {
  import opened Common

  predicate Increasing(s: seq<int>)
  {
    forall i, j :: 0 <= i < j < |s| ==> s[i] < s[j]
  }

  /** `m` is the smallest key of `ks`. */
  predicate IsLeast(m: int, ks: set<int>)
  {
    m in ks && forall k :: k in ks ==> m <= k
  }

  lemma {:induction false} LeastOf(ks: set<int>) returns (m: int)
    requires ks != {}
    ensures IsLeast(m, ks)
    decreases |ks|
  {
    if forall k :: k !in ks {
      assert false;
    }
    var x :| x in ks;
    if ks == {x} {
      m := x;
      assert forall k :: k in ks ==> k == x;
    } else {
      var m' := LeastOf(ks - {x});
      m := if x < m' then x else m';
      assert forall k :: k in ks ==> k == x || k in ks - {x};
    }
  }

  lemma LeastExists(ks: set<int>)
    requires ks != {}
    ensures exists m :: IsLeast(m, ks)
  {
    var m := LeastOf(ks);
  }

  /** The smallest key of a non-empty key set. */
  function Least(ks: set<int>): (m: int)
    requires ks != {}
    ensures IsLeast(m, ks)
  {
    LeastExists(ks);
    var m :| IsLeast(m, ks);
    m
  }

  /** The keys of a table in ascending order. */
  function SortedKeys(ks: set<int>): (r: seq<int>)
    ensures forall k :: k in r <==> k in ks
    ensures Increasing(r)
    ensures |r| == |ks|
    decreases |ks|
  {
    if ks == {} then []
    else
      var m := Least(ks);
      var rest := SortedKeys(ks - {m});
      PrependLeast(m, ks, rest);
      [m] + rest
  }

  lemma PrependLeast(m: int, ks: set<int>, rest: seq<int>)
    requires IsLeast(m, ks)
    requires forall k :: k in rest <==> k in ks - {m}
    requires Increasing(rest) && |rest| == |ks - {m}|
    ensures forall k :: k in [m] + rest <==> k in ks
    ensures Increasing([m] + rest)
    ensures |[m] + rest| == |ks|
  {
    forall i | 0 <= i < |rest|
      ensures rest[i] in ks - {m}
    {
      assert rest[i] in rest;
    }
    assert forall k :: k in ks ==> k == m || k in ks - {m};
  }

  /** An increasing list spans at least as many integers as it has gaps. */
  lemma {:induction false} IncreasingSpan(s: seq<int>)
    requires Increasing(s) && |s| > 0
    ensures s[|s| - 1] - s[0] >= |s| - 1
  {
    if |s| > 1 {
      IncreasingSpan(s[..|s| - 1]);
      assert s[|s| - 2] < s[|s| - 1];
    }
  }

  /** An increasing list holding a single value holds it at most once. */
  lemma AtMostOneKey(s: seq<int>)
    requires Increasing(s)
    requires forall y, z :: y in s && z in s ==> y == z
    ensures |s| <= 1
  {
    if |s| > 0 {
      IncreasingSpan(s);
      assert s[0] in s && s[|s| - 1] in s;
    }
  }

  /** An increasing list stays increasing behind its first element, and
      that element lies below every one of its later elements. */
  lemma PrependFirst(ids: seq<int>, rest: seq<int>)
    requires |ids| > 0
    requires forall id :: id in rest ==> id in ids[1..]
    requires Increasing(ids[1..]) ==> Increasing(rest)
    ensures Increasing(ids) ==> Increasing(rest) && Increasing([ids[0]] + rest)
  {
    if Increasing(ids) {
      assert Increasing(ids[1..]);
      forall i | 0 <= i < |rest|
        ensures ids[0] < rest[i]
      {
        assert rest[i] in rest;
        var j :| 0 <= j < |ids| - 1 && ids[1..][j] == rest[i];
        assert ids[j + 1] == rest[i];
      }
    }
  }

  /** An increasing list of the keys that equal one wanted key holds that
      key alone when the table has it, and nothing otherwise. */
  lemma OnlyKey<T>(ids: seq<int>, m: map<int, T>, key: Option<int>)
    requires Increasing(ids)
    requires forall id :: id in ids <==> id in m && key == Some(id)
    ensures |ids| <= 1
    ensures forall id :: id in ids ==> key == Some(id)
    ensures key.Some? && key.value in m ==> ids == [key.value]
  {
    AtMostOneKey(ids);
    if key.Some? && key.value in m {
      var k := key.value;
      assert k in m && key == Some(k);
      assert k in ids;
      assert ids[0] in ids;
    }
  }

  /** The ids of `ids` whose rows satisfy `keep`, in the same order. */
  function Where<T>(ids: seq<int>, m: map<int, T>, keep: (int, T) -> bool): (r: seq<int>)
    requires forall i :: 0 <= i < |ids| ==> ids[i] in m
    ensures forall id :: id in r <==> id in ids && id in m && keep(id, m[id])
    ensures Increasing(ids) ==> Increasing(r)
  {
    if ids == [] then []
    else
      var rest := Where(ids[1..], m, keep);
      PrependFirst(ids, rest);
      if keep(ids[0], m[ids[0]]) then [ids[0]] + rest else rest
  }

  /** `SELECT id WHERE keep(id, row)` over the whole table, in key order. */
  function Select<T>(m: map<int, T>, keep: (int, T) -> bool): (r: seq<int>)
    ensures forall id :: id in r <==> id in m && keep(id, m[id])
    ensures Increasing(r)
  {
    Where(SortedKeys(m.Keys), m, keep)
  }

  /** The rows that a list of ids names. */
  function Rows<T>(ids: seq<int>, m: map<int, T>): (r: seq<T>)
    requires forall i :: 0 <= i < |ids| ==> ids[i] in m
    ensures |r| == |ids|
    ensures forall i :: 0 <= i < |ids| ==> r[i] == m[ids[i]]
  {
    seq(|ids|, i requires 0 <= i < |ids| => m[ids[i]])
  }

  /** Each row of a page is the row of some id of the list paged. */
  lemma RowOfPage<T>(ids: seq<int>, m: map<int, T>, offset: nat, limit: nat, x: T) returns (id: int)
    requires forall i :: 0 <= i < |ids| ==> ids[i] in m
    requires x in Rows(Page(ids, offset, limit), m)
    ensures id in ids && id in m && m[id] == x
  {
    var page := Page(ids, offset, limit);
    var rows := Rows(page, m);
    var i :| 0 <= i < |rows| && rows[i] == x;
    id := page[i];
    assert id == ids[offset + i];
  }

  /** A position at which `x` occurs in `s`. */
  function IndexOf<T(==)>(s: seq<T>, x: T): (i: nat)
    requires x in s
    ensures i < |s| && s[i] == x
  {
    if s[0] == x then 0 else 1 + IndexOf(s[1..], x)
  }

  /** The size of the page that `LIMIT limit OFFSET offset` leaves of `n` rows. */
  function PageSize(n: nat, offset: nat, limit: nat): nat
  {
    if offset >= n then 0 else if n - offset < limit then n - offset else limit
  }

  /** `LIMIT limit OFFSET offset` applied to a result list. */
  function Page<T>(s: seq<T>, offset: nat, limit: nat): (r: seq<T>)
    ensures |r| == PageSize(|s|, offset, limit) && |r| <= limit
    ensures forall i :: 0 <= i < |r| ==> r[i] == s[offset + i]
  {
    if offset >= |s| then []
    else if |s| - offset < limit then s[offset..]
    else s[offset..offset + limit]
  }

  /** A page of keys of a table holds only keys of that table. */
  lemma PageIdsAreKeys<T>(ids: seq<int>, m: map<int, T>, offset: nat, limit: nat)
    requires forall id :: id in ids ==> id in m
    ensures forall i :: 0 <= i < |Page(ids, offset, limit)| ==> Page(ids, offset, limit)[i] in m
  {
    var page := Page(ids, offset, limit);
    forall i | 0 <= i < |page|
      ensures page[i] in m
    {
      assert page[i] == ids[offset + i];
      assert ids[offset + i] in ids;
    }
  }

  /** A page is no longer than the list it is cut from. */
  lemma PageNoLonger<T>(s: seq<T>, offset: nat, limit: nat)
    ensures |Page(s, offset, limit)| <= |s|
  {
  }

  /** A LIMIT or OFFSET value after `parseInt`; the query fails unless it
      is a non-negative integer. */
  function SqlCount(n: Option<int>): Option<nat>
  {
    match n
    case Some(n) => if n >= 0 then Some(n) else None
    case None => None
  }
}
