/** A recovery pass over a paged table: it visits every row once, may settle the open ones, and counts.

One definition serves the three passes: forwards (open while pending), sessions (open while not fenced)
and candidates (open while in custody without an outcome).
*/
module Recovery {
  import opened Basics

  function Saturated(n: nat): nat {
    if n > U64_MAX then U64_MAX else n
  }

  function AddOne(count: nat): (sum: nat)
    ensures sum == if count < 0xFFFF_FFFF_FFFF_FFFF then count + 1 else 0xFFFF_FFFF_FFFF_FFFF
  {
    Saturated(count + 1)
  }

  /** Only visited open rows changed, and only by being settled. */
  ghost predicate Resumed<K, V>(isOpen: V -> bool, before: map<K, V>, after: map<K, V>, visited: set<K>) {
    && after.Keys == before.Keys && visited <= before.Keys
    && forall k :: k in before ==> after[k] == before[k] || (k in visited && isOpen(before[k]) && !isOpen(after[k]))
  }

  /** The rows a pass settled in the given way. */
  ghost function Settled<K, V>(isOpen: V -> bool, way: V -> bool, before: map<K, V>, after: map<K, V>): set<K> {
    set k | k in before && k in after && isOpen(before[k]) && !isOpen(after[k]) && way(after[k])
  }

  /** The visited rows that are still open. */
  ghost function LeftOpen<K, V>(isOpen: V -> bool, rows: map<K, V>, visited: set<K>): set<K> {
    set k | k in visited && k in rows && isOpen(rows[k])
  }

  ghost predicate OneRowMoves<K, V>(isOpen: V -> bool, before: map<K, V>, after: map<K, V>, key: K) {
    && after.Keys == before.Keys && key in before
    && (forall k :: k in before && k != key ==> after[k] == before[k])
    && (after[key] == before[key] || (isOpen(before[key]) && !isOpen(after[key])))
  }

  lemma ResumeStep<K, V>(isOpen: V -> bool, before: map<K, V>, middle: map<K, V>, after: map<K, V>, visited: set<K>,
                         key: K)
    requires Resumed(isOpen, before, middle, visited) && key !in visited && OneRowMoves(isOpen, middle, after, key)
    ensures Resumed(isOpen, before, after, visited + {key})
    ensures middle[key] == before[key]
    ensures |LeftOpen(isOpen, after, visited + {key})| == |LeftOpen(isOpen, middle, visited)| + if isOpen(after[key]) then 1 else 0
  {
    var left, still := LeftOpen(isOpen, middle, visited), LeftOpen(isOpen, after, visited + {key});
    if isOpen(after[key]) {
      assert still == left + {key};
    } else {
      assert still == left;
    }
  }

  lemma SettleStep<K, V>(isOpen: V -> bool, way: V -> bool, before: map<K, V>, middle: map<K, V>, after: map<K, V>,
                         visited: set<K>, key: K)
    requires Resumed(isOpen, before, middle, visited) && key !in visited && OneRowMoves(isOpen, middle, after, key)
    ensures |Settled(isOpen, way, before, after)| ==
            |Settled(isOpen, way, before, middle)| + if isOpen(before[key]) && !isOpen(after[key]) && way(after[key]) then 1 else 0
  {
    var settled, later := Settled(isOpen, way, before, middle), Settled(isOpen, way, before, after);
    if isOpen(before[key]) && !isOpen(after[key]) && way(after[key]) {
      assert later == settled + {key};
    } else {
      assert later == settled;
    }
  }

  lemma NothingSettled<K, V>(isOpen: V -> bool, way: V -> bool, rows: map<K, V>)
    ensures Settled(isOpen, way, rows, rows) == {}
    ensures LeftOpen(isOpen, rows, {}) == {}
  {
  }

  /** At the end of a full pass every row open at its start is either settled or left open, never both. */
  lemma PassConserves<K, V(!new)>(isOpen: V -> bool, way: V -> bool, before: map<K, V>, after: map<K, V>)
    requires Resumed(isOpen, before, after, before.Keys) && forall v :: way(v)
    ensures LeftOpen(isOpen, before, before.Keys) == Settled(isOpen, way, before, after) + LeftOpen(isOpen, after, before.Keys)
    ensures |LeftOpen(isOpen, before, before.Keys)| == |Settled(isOpen, way, before, after)| + |LeftOpen(isOpen, after, before.Keys)|
  {
    assert LeftOpen(isOpen, before, before.Keys) == Settled(isOpen, way, before, after) + LeftOpen(isOpen, after, before.Keys);
    assert Settled(isOpen, way, before, after) !! LeftOpen(isOpen, after, before.Keys);
  }

  /** Three ways that exclude each other and leave no other split the settled rows. */
  lemma WaysPartition<K, V>(isOpen: V -> bool, a: V -> bool, b: V -> bool, c: V -> bool, any: V -> bool,
                            before: map<K, V>, after: map<K, V>)
    requires forall k :: k in Settled(isOpen, any, before, after) ==> a(after[k]) || b(after[k]) || c(after[k])
    requires forall k :: k in after ==> !(a(after[k]) && b(after[k])) && !(a(after[k]) && c(after[k])) && !(b(after[k]) && c(after[k]))
    requires forall k :: k in after ==> any(after[k])
    ensures |Settled(isOpen, any, before, after)| ==
            |Settled(isOpen, a, before, after)| + |Settled(isOpen, b, before, after)| + |Settled(isOpen, c, before, after)|
  {
    var all := Settled(isOpen, any, before, after);
    var x, y, z := Settled(isOpen, a, before, after), Settled(isOpen, b, before, after), Settled(isOpen, c, before, after);
    assert all == x + y + z && x !! y && (x + y) !! z;
  }
}
