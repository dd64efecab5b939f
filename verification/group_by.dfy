/**
 * Summing a value column per key, as `groupby(key)[col].sum()` does: one
 * group per distinct key, whose total is the sum of the values of the rows
 * with that key. Rows are given as a key column and a value column.
 */
module GroupBy {

  datatype Group<K> = Group(key: K, total: real)

  /** Sum of a column. */
  function Sum(vals: seq<real>): real
  {
    if vals == [] then 0.0 else Sum(vals[..|vals| - 1]) + vals[|vals| - 1]
  }

  /** Sum of the values of the rows whose key is `k`. */
  function SumFor<K(==)>(keys: seq<K>, vals: seq<real>, k: K): real
    requires |keys| == |vals|
  {
    if keys == [] then 0.0
    else
      var n := |keys| - 1;
      SumFor(keys[..n], vals[..n], k) + (if keys[n] == k then vals[n] else 0.0)
  }

  function KeySet<K>(gs: seq<Group<K>>): set<K>
  {
    set i | 0 <= i < |gs| :: gs[i].key
  }

  predicate DistinctKeys<K(==)>(gs: seq<Group<K>>)
  {
    forall i, j :: 0 <= i < j < |gs| ==> gs[i].key != gs[j].key
  }

  /** Sum of the totals of the groups with key `k` (the total of its one group when keys are distinct). */
  function TotalOf<K(==)>(gs: seq<Group<K>>, k: K): real
  {
    if gs == [] then 0.0 else (if gs[0].key == k then gs[0].total else 0.0) + TotalOf(gs[1..], k)
  }

  /** Sum of all group totals. */
  function GroupTotal<K>(gs: seq<Group<K>>): real
  {
    if gs == [] then 0.0 else gs[0].total + GroupTotal(gs[1..])
  }

  /** Adds a value to the group of key `k`, opening a new group at the end if `k` has none yet. */
  function AddTo<K(==,!new)>(acc: seq<Group<K>>, k: K, v: real): (r: seq<Group<K>>)
    ensures |r| <= |acc| + 1
    ensures KeySet(r) == KeySet(acc) + {k}
    ensures DistinctKeys(acc) ==> DistinctKeys(r)
    ensures forall x :: TotalOf(r, x) == TotalOf(acc, x) + (if x == k then v else 0.0)
    ensures GroupTotal(r) == GroupTotal(acc) + v
  {
    if acc == [] then
      var r := [Group(k, v)];
      assert r[0].key in KeySet(r);
      r
    else if acc[0].key == k then
      var r := [Group(k, acc[0].total + v)] + acc[1..];
      assert r[1..] == acc[1..];
      assert KeySet(r) == KeySet(acc) by {
        KeySetCons(r);
        KeySetCons(acc);
      }
      r
    else
      var rest := AddTo(acc[1..], k, v);
      var r := [acc[0]] + rest;
      assert r[1..] == rest;
      KeySetCons(r);
      KeySetCons(acc);
      assert DistinctKeys(acc) ==> acc[0].key !in KeySet(acc[1..]);
      assert DistinctKeys(acc) ==> DistinctKeys(r) by {
        if DistinctKeys(acc) {
          forall i, j | 0 <= i < j < |r| ensures r[i].key != r[j].key {
            if i == 0 {
              assert r[j].key in KeySet(rest);
            } else {
              assert r[i] == rest[i - 1] && r[j] == rest[j - 1];
            }
          }
        }
      }
      r
  }

  lemma KeySetCons<K>(gs: seq<Group<K>>)
    requires gs != []
    ensures KeySet(gs) == {gs[0].key} + KeySet(gs[1..])
  {
    forall x | x in KeySet(gs) ensures x in {gs[0].key} + KeySet(gs[1..]) {
      var i :| 0 <= i < |gs| && gs[i].key == x;
      if i > 0 {
        assert gs[1..][i - 1].key == x;
      }
    }
    forall x | x in KeySet(gs[1..]) ensures x in KeySet(gs) {
      var i :| 0 <= i < |gs[1..]| && gs[1..][i].key == x;
      assert gs[i + 1].key == x;
    }
  }

  /**
   * `groupby(key)[col].sum()`: one group per distinct key, in order of first
   * appearance, each holding the sum of its rows' values.
   */
  function GroupSum<K(==,!new)>(keys: seq<K>, vals: seq<real>): (r: seq<Group<K>>)
    requires |keys| == |vals|
    ensures |r| <= |keys|
    ensures DistinctKeys(r)
    ensures forall x :: x in KeySet(r) <==> x in keys
    ensures forall x :: TotalOf(r, x) == SumFor(keys, vals, x)
    ensures GroupTotal(r) == Sum(vals)
  {
    if keys == [] then []
    else
      var n := |keys| - 1;
      var r := AddTo(GroupSum(keys[..n], vals[..n]), keys[n], vals[n]);
      assert forall x :: x in keys <==> x in keys[..n] || x == keys[n] by {
        assert keys == keys[..n] + [keys[n]];
      }
      r
  }

  /** With distinct keys, the group of key `gs[i].key` is `gs[i]` itself. */
  lemma {:induction false} TotalOfDistinct<K>(gs: seq<Group<K>>, i: nat)
    requires DistinctKeys(gs) && i < |gs|
    ensures TotalOf(gs, gs[i].key) == gs[i].total
  {
    if i == 0 {
      TotalOfAbsent(gs[1..], gs[0].key);
    } else {
      TotalOfDistinct(gs[1..], i - 1);
    }
  }

  lemma {:induction false} TotalOfAbsent<K>(gs: seq<Group<K>>, k: K)
    requires forall i :: 0 <= i < |gs| ==> gs[i].key != k
    ensures TotalOf(gs, k) == 0.0
  {
    if gs != [] {
      TotalOfAbsent(gs[1..], k);
    }
  }

  /** Each group's total is the sum of the values of the rows with its key. */
  lemma GroupSumAt<K(!new)>(keys: seq<K>, vals: seq<real>, i: nat)
    requires |keys| == |vals| && i < |GroupSum(keys, vals)|
    ensures GroupSum(keys, vals)[i].total == SumFor(keys, vals, GroupSum(keys, vals)[i].key)
  {
    TotalOfDistinct(GroupSum(keys, vals), i);
  }

  predicate SameKeys<K(==)>(a: seq<Group<K>>, b: seq<Group<K>>)
  {
    |a| == |b| && forall i :: 0 <= i < |a| ==> a[i].key == b[i].key
  }

  lemma {:induction false} AddToSameKeys<K(!new)>(a: seq<Group<K>>, b: seq<Group<K>>, k: K, v: real, w: real)
    requires SameKeys(a, b)
    ensures SameKeys(AddTo(a, k, v), AddTo(b, k, w))
  {
    if a != [] && a[0].key != k {
      AddToSameKeys(a[1..], b[1..], k, v, w);
    }
  }

  /** Which groups there are, and in which order, depends on the key column alone. */
  lemma {:induction false} GroupKeysOnly<K(!new)>(keys: seq<K>, v1: seq<real>, v2: seq<real>)
    requires |keys| == |v1| == |v2|
    ensures SameKeys(GroupSum(keys, v1), GroupSum(keys, v2))
  {
    if keys != [] {
      var n := |keys| - 1;
      GroupKeysOnly(keys[..n], v1[..n], v2[..n]);
      AddToSameKeys(GroupSum(keys[..n], v1[..n]), GroupSum(keys[..n], v2[..n]), keys[n], v1[n], v2[n]);
    }
  }

  /** `SumFor` read from the front: the first row's contribution, then the rest. */
  lemma {:induction false} SumForCons<K>(k0: K, keys: seq<K>, v0: real, vals: seq<real>, k: K)
    requires |keys| == |vals|
    ensures SumFor([k0] + keys, [v0] + vals, k) == (if k0 == k then v0 else 0.0) + SumFor(keys, vals, k)
    decreases |keys|
  {
    if keys != [] {
      var n := |keys| - 1;
      assert ([k0] + keys)[..n + 1] == [k0] + keys[..n];
      assert ([v0] + vals)[..n + 1] == [v0] + vals[..n];
      SumForCons(k0, keys[..n], v0, vals[..n], k);
    } else {
      assert ([k0] + keys)[..0] == [];
    }
  }
}
