/** Listing the records of an id-keyed map in the order a JavaScript `Map` iterates them.
    A `Map` iterates in insertion order; the store inserts each id once, taking it from a
    counter that only grows, and never re-inserts a deleted id, so insertion order is
    ascending id order. Every id in a store map lies in [1, next), next being the counter. */
module IdOrder {
  import opened Common

  /** Strictly ascending, hence also free of duplicates. */
  predicate Increasing(s: seq<int>)
  {
    forall i, j :: 0 <= i < j < |s| ==> s[i] < s[j]
  }

  /** Every key of `m` lies in [1, next). */
  predicate KeysBelow<T>(m: map<int, T>, next: int)
  {
    forall k :: k in m ==> 1 <= k < next
  }

  /** The members of `keys` in [lo, hi), ascending. */
  function IdsFrom(keys: set<int>, lo: int, hi: int): (r: seq<int>)
    ensures Increasing(r)
    ensures forall k :: k in r <==> k in keys && lo <= k < hi
    ensures forall i :: 0 <= i < |r| ==> lo <= r[i]
    decreases hi - lo
  {
    if lo >= hi then []
    else if lo in keys then [lo] + IdsFrom(keys, lo + 1, hi)
    else IdsFrom(keys, lo + 1, hi)
  }

  /** The ids of `m` in iteration order. */
  function Ids<T>(m: map<int, T>, next: int): (r: seq<int>)
    requires KeysBelow(m, next)
    ensures Increasing(r)
    ensures forall k :: k in r <==> k in m
  {
    IdsFrom(m.Keys, 1, next)
  }

  /** `Array.prototype.filter` on a list of ids: keeps the order, drops what `keep` refuses. */
  function FilterIds(ids: seq<int>, keep: int -> bool): (r: seq<int>)
    ensures forall k :: k in r <==> k in ids && keep(k)
    ensures Increasing(ids) ==> Increasing(r)
    ensures |r| <= |ids|
  {
    if ids == [] then []
    else
      var rest := FilterIds(ids[1..], keep);
      assert forall k :: k in ids[1..] ==> k in ids;
      if keep(ids[0]) then
        assert Increasing(ids) ==> Increasing([ids[0]] + rest) by {
          if Increasing(ids) {
            assert Increasing(ids[1..]);
            forall k | k in rest ensures ids[0] < k {
              var j :| 0 <= j < |ids[1..]| && ids[1..][j] == k;
              assert ids[j + 1] == k;
            }
            ConsIncreasing(ids[0], rest);
          }
        }
        [ids[0]] + rest
      else rest
  }

  /** An id below every element of an ascending list can go in front of it. */
  lemma ConsIncreasing(x: int, s: seq<int>)
    requires Increasing(s)
    requires forall k :: k in s ==> x < k
    ensures Increasing([x] + s)
  {
    var r := [x] + s;
    forall i, j | 0 <= i < j < |r| ensures r[i] < r[j] {
      assert r[j] == s[j - 1] && s[j - 1] in s;
      if i > 0 { assert r[i] == s[i - 1]; }
    }
  }

  /** `Array.prototype.findIndex` on a list of ids: the position of the first id that `keep`
      accepts. */
  function FirstIndex(ids: seq<int>, keep: int -> bool): (r: Option<nat>)
    ensures r.None? ==> forall i :: 0 <= i < |ids| ==> !keep(ids[i])
    ensures r.Some? ==> r.value < |ids| && keep(ids[r.value])
    ensures r.Some? ==> forall i :: 0 <= i < r.value ==> !keep(ids[i])
  {
    if ids == [] then None
    else if keep(ids[0]) then Some(0)
    else
      var r := FirstIndex(ids[1..], keep);
      assert forall i :: 1 <= i < |ids| ==> ids[i] == ids[1..][i - 1];
      if r.None? then None else Some(r.value + 1)
  }

  /** The records stored under `ids`, in the same order. */
  function Lookup<T>(m: map<int, T>, ids: seq<int>): (r: seq<T>)
    requires forall i :: 0 <= i < |ids| ==> ids[i] in m
    ensures |r| == |ids|
    ensures forall i :: 0 <= i < |ids| ==> r[i] == m[ids[i]]
  {
    seq(|ids|, i requires 0 <= i < |ids| => m[ids[i]])
  }

  /** The ids of the records of `m` that `keep` accepts, ascending. */
  function SelectIds<T>(m: map<int, T>, next: int, keep: T -> bool): (r: seq<int>)
    requires KeysBelow(m, next)
    ensures Increasing(r)
    ensures forall k :: k in r <==> k in m && keep(m[k])
  {
    FilterIds(Ids(m, next), k => k in m && keep(m[k]))
  }

  /** `Array.from(m.values()).filter(keep)`: the accepted records, in iteration order.
      `id` reads a record's own id, which the store keeps equal to its key. */
  function Select<T(==,!new)>(m: map<int, T>, next: int, keep: T -> bool, id: T -> int): (r: seq<T>)
    requires KeysBelow(m, next)
    requires forall k :: k in m ==> id(m[k]) == k
    ensures forall x :: x in r <==> x in m.Values && keep(x)
    ensures forall i, j :: 0 <= i < j < |r| ==> id(r[i]) < id(r[j])
  {
    var ids := SelectIds(m, next, keep);
    assert forall i :: 0 <= i < |ids| ==> ids[i] in ids;
    LookupSelected(m, ids, keep);
    LookupAscending(m, ids, id);
    Lookup(m, ids)
  }

  /** Looking up exactly the ids of the accepted records gives exactly the accepted records. */
  lemma LookupSelected<T(!new)>(m: map<int, T>, ids: seq<int>, keep: T -> bool)
    requires forall i :: 0 <= i < |ids| ==> ids[i] in m && keep(m[ids[i]])
    requires forall k :: k in m && keep(m[k]) ==> k in ids
    ensures forall x :: x in Lookup(m, ids) ==> x in m.Values && keep(x)
    ensures forall k :: k in m && keep(m[k]) ==> m[k] in Lookup(m, ids)
  {
    var r := Lookup(m, ids);
    forall x | x in r ensures x in m.Values && keep(x) {
      var i :| 0 <= i < |r| && r[i] == x;
      assert ids[i] in m;
    }
    forall k | k in m && keep(m[k]) ensures m[k] in r {
      var i :| 0 <= i < |ids| && ids[i] == k;
      assert r[i] == m[k];
    }
  }

  /** Records looked up in ascending key order have ascending ids. */
  lemma LookupAscending<T>(m: map<int, T>, ids: seq<int>, id: T -> int)
    requires forall i :: 0 <= i < |ids| ==> ids[i] in m
    requires forall k :: k in m ==> id(m[k]) == k
    requires Increasing(ids)
    ensures forall i, j :: 0 <= i < j < |ids| ==> id(Lookup(m, ids)[i]) < id(Lookup(m, ids)[j])
  {
  }

  /** `Array.from(m.values()).find(keep)`: the first accepted record in iteration order. */
  function Find<T>(m: map<int, T>, next: int, keep: T -> bool, id: T -> int): (r: Option<T>)
    requires KeysBelow(m, next)
    requires forall k :: k in m ==> id(m[k]) == k
    ensures r.None? <==> forall k :: k in m ==> !keep(m[k])
    ensures r.Some? ==> id(r.value) in m && m[id(r.value)] == r.value && keep(r.value)
    ensures r.Some? ==> forall k :: k in m && keep(m[k]) ==> id(r.value) <= k
  {
    var ids := Ids(m, next);
    var f := FirstIndex(ids, k => k in m && keep(m[k]));
    if f.None? then
      assert forall k :: k in m ==> !keep(m[k]) by {
        forall k | k in m ensures !keep(m[k]) {
          var i :| 0 <= i < |ids| && ids[i] == k;
        }
      }
      None
    else
      var first := ids[f.value];
      assert forall k :: k in m && keep(m[k]) ==> first <= k by {
        forall k | k in m && keep(m[k]) ensures first <= k {
          var i :| 0 <= i < |ids| && ids[i] == k;
          assert f.value <= i;
        }
      }
      Some(m[first])
  }

  /** Filtering with two tests that agree on every id gives the same list. */
  lemma {:induction false} FilterIdsCongruent(ids: seq<int>, f: int -> bool, g: int -> bool)
    requires forall i :: 0 <= i < |ids| ==> f(ids[i]) == g(ids[i])
    ensures FilterIds(ids, f) == FilterIds(ids, g)
  {
    if ids != [] {
      FilterIdsCongruent(ids[1..], f, g);
    }
  }

  /** Selecting with two tests that agree on every stored record gives the same list. */
  lemma SelectCongruent<T(!new)>(m: map<int, T>, next: int, keep: T -> bool, keep': T -> bool, id: T -> int)
    requires KeysBelow(m, next)
    requires forall k :: k in m ==> id(m[k]) == k
    requires forall k :: k in m ==> keep(m[k]) == keep'(m[k])
    ensures Select(m, next, keep, id) == Select(m, next, keep', id)
  {
    var ids := Ids(m, next);
    FilterIdsCongruent(ids, k => k in m && keep(m[k]), k => k in m && keep'(m[k]));
  }
}
