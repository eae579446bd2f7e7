/** Removal by key, the one list operation both components perform: `removeItem` in
    src/components/MainFeature.jsx filters line items by id, and `deleteDraft` in
    src/components/SavedDrafts.jsx filters drafts by id, each with
    `xs.filter(x => x.id !== id)`. */
module Lists {

  /** `xs.filter(x => key(x) !== k)`: the elements whose key differs from `k`, in order. */
  function Remove<T, K(==)>(xs: seq<T>, key: T -> K, k: K): (r: seq<T>)
    ensures |r| <= |xs|
    ensures forall i :: 0 <= i < |r| ==> key(r[i]) != k
  {
    if xs == [] then []
    else (if key(xs[0]) == k then [] else [xs[0]]) + Remove(xs[1..], key, k)
  }

  /** No two elements carry the same key. */
  predicate DistinctKeys<T, K(==)>(xs: seq<T>, key: T -> K) {
    forall i, j :: 0 <= i < j < |xs| ==> key(xs[i]) != key(xs[j])
  }

  /** How many elements carry the key `k`. */
  function Count<T, K(==)>(xs: seq<T>, key: T -> K, k: K): nat {
    if xs == [] then 0 else (if key(xs[0]) == k then 1 else 0) + Count(xs[1..], key, k)
  }

  /** The filter keeps exactly the elements whose key differs from the argument. */
  lemma {:induction false} RemoveMembers<T, K>(xs: seq<T>, key: T -> K, k: K)
    ensures forall x :: x in Remove(xs, key, k) <==> x in xs && key(x) != k
    decreases |xs|
  {
    if xs != [] {
      RemoveMembers(xs[1..], key, k);
      assert xs == [xs[0]] + xs[1..];
    }
  }

  lemma RemovedFrom<T, K>(xs: seq<T>, key: T -> K, k: K, x: T)
    requires x in Remove(xs, key, k)
    ensures x in xs
  {
    RemoveMembers(xs, key, k);
  }

  /** The filter keeps the original order: it distributes over concatenation. */
  lemma {:induction false} RemoveAppend<T, K>(a: seq<T>, b: seq<T>, key: T -> K, k: K)
    ensures Remove(a + b, key, k) == Remove(a, key, k) + Remove(b, key, k)
    decreases |a|
  {
    if a != [] {
      assert (a + b)[1..] == a[1..] + b;
      RemoveAppend(a[1..], b, key, k);
    } else {
      assert a + b == b;
    }
  }

  /** Removing a key no element carries leaves the list as it was. */
  lemma {:induction false} RemoveAbsent<T, K>(xs: seq<T>, key: T -> K, k: K)
    requires forall i :: 0 <= i < |xs| ==> key(xs[i]) != k
    ensures Remove(xs, key, k) == xs
    decreases |xs|
  {
    if xs != [] {
      RemoveAbsent(xs[1..], key, k);
      assert [xs[0]] + xs[1..] == xs;
    }
  }

  /** Removing the same key twice is removing it once. */
  lemma RemoveIdempotent<T, K>(xs: seq<T>, key: T -> K, k: K)
    ensures Remove(Remove(xs, key, k), key, k) == Remove(xs, key, k)
  {
    RemoveAbsent(Remove(xs, key, k), key, k);
  }

  /** Exactly the elements with the key are dropped, so the list shrinks by their number. */
  lemma {:induction false} RemoveLength<T, K>(xs: seq<T>, key: T -> K, k: K)
    ensures |Remove(xs, key, k)| == |xs| - Count(xs, key, k)
    decreases |xs|
  {
    if xs != [] {
      RemoveLength(xs[1..], key, k);
    }
  }

  /** When no key occurs twice, at most one element carries any given key. */
  lemma {:induction false} CountDistinct<T, K>(xs: seq<T>, key: T -> K, k: K)
    requires DistinctKeys(xs, key)
    ensures Count(xs, key, k) <= 1
    decreases |xs|
  {
    if xs != [] {
      var rest := xs[1..];
      CountDistinct(rest, key, k);
      if key(xs[0]) == k {
        CountAbsent(rest, key, k);
      }
    }
  }

  lemma {:induction false} CountAbsent<T, K>(xs: seq<T>, key: T -> K, k: K)
    requires forall i :: 0 <= i < |xs| ==> key(xs[i]) != k
    ensures Count(xs, key, k) == 0
    decreases |xs|
  {
    if xs != [] {
      CountAbsent(xs[1..], key, k);
    }
  }

  /** One step of the filter: the head is dropped when its key is `k` and kept otherwise. */
  lemma RemoveCons<T, K>(x: T, xs: seq<T>, key: T -> K, k: K)
    ensures key(x) == k ==> Remove([x] + xs, key, k) == Remove(xs, key, k)
    ensures key(x) != k ==> Remove([x] + xs, key, k) == [x] + Remove(xs, key, k)
  {
    assert ([x] + xs)[1..] == xs;
    assert [] + Remove(xs, key, k) == Remove(xs, key, k);
  }

  /** Removal of two keys commutes. */
  lemma {:induction false} RemoveCommutes<T, K>(xs: seq<T>, key: T -> K, a: K, b: K)
    ensures Remove(Remove(xs, key, a), key, b) == Remove(Remove(xs, key, b), key, a)
    decreases |xs|
  {
    if xs != [] {
      var x, rest := xs[0], xs[1..];
      assert xs == [x] + rest;
      RemoveCommutes(rest, key, a, b);
      RemoveCons(x, rest, key, a);
      RemoveCons(x, rest, key, b);
      RemoveCons(x, Remove(rest, key, a), key, b);
      RemoveCons(x, Remove(rest, key, b), key, a);
    }
  }

  /** Removal keeps keys distinct: what remains is a subsequence of the original. */
  lemma {:induction false} RemoveKeepsDistinct<T, K>(xs: seq<T>, key: T -> K, k: K)
    requires DistinctKeys(xs, key)
    ensures DistinctKeys(Remove(xs, key, k), key)
    decreases |xs|
  {
    if xs != [] {
      var rest := xs[1..];
      assert DistinctKeys(rest, key) by {
        forall i, j | 0 <= i < j < |rest| ensures key(rest[i]) != key(rest[j]) {
          assert rest[i] == xs[i + 1] && rest[j] == xs[j + 1];
        }
      }
      RemoveKeepsDistinct(rest, key, k);
      RemoveMembers(rest, key, k);
      var r := Remove(xs, key, k);
      var tail := Remove(rest, key, k);
      if key(xs[0]) != k {
        assert r == [xs[0]] + tail;
        forall i, j | 0 <= i < j < |r| ensures key(r[i]) != key(r[j]) {
          if i == 0 {
            assert r[j] == tail[j - 1] && tail[j - 1] in tail;
            RemovedFrom(rest, key, k, r[j]);
            var m :| 0 <= m < |rest| && rest[m] == r[j];
            assert xs[m + 1] == r[j];
          } else {
            assert r[i] == tail[i - 1] && r[j] == tail[j - 1];
          }
        }
      } else {
        assert r == tail;
      }
    }
  }
}
