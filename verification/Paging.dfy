/** Walking the store's entities by pages: the listing query and the cursor that drives it. */
module Paging {
  import opened Basics

  const PAGE_SIZE: nat := 128

  ghost predicate TotalOrder<K(!new)>(less: (K, K) -> bool) {
    && (forall a :: !less(a, a))
    && (forall a, b :: a == b || less(a, b) || less(b, a))
    && (forall a, b, c {:trigger less(a, b), less(b, c)} :: less(a, b) && less(b, c) ==> less(a, c))
  }

  ghost predicate Increasing<K(!new)>(less: (K, K) -> bool, keys: seq<K>) {
    forall i, j :: 0 <= i < j < |keys| ==> less(keys[i], keys[j])
  }

  predicate IsAfter<K(==)>(less: (K, K) -> bool, cursor: Option<K>, key: K) {
    cursor.None? || less(cursor.value, key)
  }

  /** A page is the increasing list of the least keys after the cursor, cut off at the limit. */
  ghost predicate IsPage<K(!new)>(less: (K, K) -> bool, keys: set<K>, cursor: Option<K>, limit: nat, page: seq<K>) {
    && Increasing(less, page) && |page| <= limit
    && (forall k :: k in page ==> k in keys && IsAfter(less, cursor, k))
    && (forall k, p :: k in keys && IsAfter(less, cursor, k) && k !in page && p in page ==> less(p, k))
    && (|page| < limit ==> forall k :: k in keys && IsAfter(less, cursor, k) ==> k in page)
  }

  lemma {:induction false} LeastExists<K(!new)>(less: (K, K) -> bool, keys: set<K>)
    requires TotalOrder(less) && keys != {}
    ensures exists m :: m in keys && forall k :: k in keys ==> k == m || less(m, k)
    decreases |keys|
  {
    var x :| x in keys;
    var rest := keys - {x};
    var least := x;
    if rest != {} {
      LeastExists(less, rest);
      var m :| m in rest && forall k :: k in rest ==> k == m || less(m, k);
      if !less(x, m) {
        least := m;
      }
      forall k | k in keys ensures k == least || less(least, k) {
        assert k == x || k in rest;
        if k != x && k != m && least == x {
          assert less(x, m) && less(m, k);
        }
      }
    }
    assert forall k :: k in keys ==> k == x || k in rest;
    assert forall k :: k in keys ==> k == least || less(least, k);
  }

  /** The listing query: literal prefix already applied, ordered bytewise, limited. */
  method EntityIdsAfter<K(!new, ==)>(less: (K, K) -> bool, keys: set<K>, cursor: Option<K>, limit: nat)
    returns (page: seq<K>)
    requires TotalOrder(less)
    ensures IsPage(less, keys, cursor, limit, page)
  {
    page := [];
    var rest := set k | k in keys && IsAfter(less, cursor, k);
    while |page| < limit && rest != {}
      invariant |page| <= limit && Increasing(less, page)
      invariant forall k :: k in keys && IsAfter(less, cursor, k) <==> k in rest || k in page
      invariant forall k, p :: k in rest && p in page ==> less(p, k)
      decreases |rest|
    {
      LeastExists(less, rest);
      var m :| m in rest && forall k :: k in rest ==> k == m || less(m, k);
      page := page + [m];
      rest := rest - {m};
    }
  }

  function Elements<K(==)>(keys: seq<K>): set<K> {
    set k | k in keys
  }

  lemma ElementsAppend<K>(keys: seq<K>, more: seq<K>)
    ensures Elements(keys + more) == Elements(keys) + Elements(more)
  {
    assert forall k :: k in keys + more <==> k in keys || k in more;
  }

  lemma LeastFirst<K(!new)>(less: (K, K) -> bool, least: K, rest: seq<K>)
    requires Increasing(less, rest) && forall k :: k in Elements(rest) ==> less(least, k)
    ensures Increasing(less, [least] + rest)
    ensures Elements([least] + rest) == {least} + Elements(rest)
  {
    ElementsAppend([least], rest);
    forall j | 0 <= j < |rest| ensures less(least, rest[j]) {
      assert rest[j] in Elements(rest);
    }
  }

  /** What a walk has covered once its cursor stands at a key: that key and everything before it. */
  ghost predicate Covered<K(!new)>(less: (K, K) -> bool, keys: set<K>, cursor: Option<K>, visited: seq<K>) {
    && Increasing(less, visited)
    && (forall k :: k in visited ==> k in keys)
    && (forall k :: k in keys ==> (k in visited <==> !IsAfter(less, cursor, k)))
  }

  lemma CoverIsBounded<K(!new)>(less: (K, K) -> bool, keys: set<K>, cursor: Option<K>, visited: seq<K>)
    requires TotalOrder(less) && Covered(less, keys, cursor, visited)
    ensures |visited| <= |keys|
  {
    IncreasingIsDistinct(less, visited);
    SubsetSize(Elements(visited), keys);
  }

  lemma {:induction false} SubsetSize<K>(some: set<K>, all: set<K>)
    requires some <= all
    ensures |some| <= |all|
  {
    assert all == some + (all - some);
  }

  lemma PageExtendsCover<K(!new)>(less: (K, K) -> bool, keys: set<K>, cursor: Option<K>, limit: nat, visited: seq<K>,
                           page: seq<K>)
    requires TotalOrder(less) && page != []
    requires Covered(less, keys, cursor, visited) && IsPage(less, keys, cursor, limit, page)
    ensures Covered(less, keys, Some(page[|page| - 1]), visited + page)
    ensures forall k :: k in page ==> k !in visited
  {
    var last := page[|page| - 1];
    var all := visited + page;
    forall k | k in page ensures k !in visited {
    }
    forall i, j | 0 <= i < j < |all| ensures less(all[i], all[j]) {
      if i < |visited| <= j {
        assert all[i] in visited && all[j] in page;
        assert !IsAfter(less, cursor, all[i]) && IsAfter(less, cursor, all[j]);
      }
    }
    forall k | k in keys ensures k in all <==> !less(last, k) {
      if k in page {
        assert last in page;
      } else if k !in visited {
        assert less(last, k);
      } else {
        assert IsAfter(less, cursor, last);
      }
    }
  }

  /** An empty page means the walk is over: every key was visited, each exactly once. */
  lemma EmptyPageEndsWalk<K(!new)>(less: (K, K) -> bool, keys: set<K>, cursor: Option<K>, limit: nat, visited: seq<K>)
    requires TotalOrder(less) && limit > 0
    requires Covered(less, keys, cursor, visited) && IsPage(less, keys, cursor, limit, [])
    ensures Elements(visited) == keys && |visited| == |keys|
  {
    IncreasingIsDistinct(less, visited);
    assert Elements(visited) == keys;
  }

  lemma {:induction false} IncreasingIsDistinct<K(!new)>(less: (K, K) -> bool, keys: seq<K>)
    requires TotalOrder(less) && Increasing(less, keys)
    ensures |Elements(keys)| == |keys|
  {
    if keys != [] {
      var front, last := keys[..|keys| - 1], keys[|keys| - 1];
      IncreasingIsDistinct(less, front);
      assert last !in front;
      assert Elements(keys) == Elements(front) + {last};
    }
  }
}
