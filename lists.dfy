/**
 * The remove-by-key `filter` that every list page of the dashboard applies
 * after a successful delete: `items.filter(x => x.id !== selected.id)`.
 */
module Lists {

  /** The entries of `s` whose key differs from `k`, in their original order. */
  function Without<T(!new), K(==)>(s: seq<T>, key: T -> K, k: K): (r: seq<T>)
    ensures |r| <= |s|
    ensures forall x :: multiset(r)[x] == if key(x) == k then 0 else multiset(s)[x]
  {
    if s == [] then []
    else
      assert s == [s[0]] + s[1..];
      if key(s[0]) == k then Without(s[1..], key, k)
      else [s[0]] + Without(s[1..], key, k)
  }

  /** Every entry of the result is an entry of `s` without the removed key, and conversely. */
  lemma WithoutMembers<T(!new), K>(s: seq<T>, key: T -> K, k: K, x: T)
    ensures x in Without(s, key, k) <==> x in s && key(x) != k
  {
    assert x in Without(s, key, k) <==> multiset(Without(s, key, k))[x] > 0;
    assert x in s <==> multiset(s)[x] > 0;
  }

  /** The filter works entry by entry: it distributes over concatenation, so the kept entries keep their order. */
  lemma {:induction false} WithoutAppend<T(!new), K>(a: seq<T>, b: seq<T>, key: T -> K, k: K)
    ensures Without(a + b, key, k) == Without(a, key, k) + Without(b, key, k)
  {
    if a == [] {
      assert a + b == b;
    } else {
      assert (a + b)[0] == a[0];
      assert (a + b)[1..] == a[1..] + b;
      WithoutAppend(a[1..], b, key, k);
    }
  }

  /** Removing a key that no entry carries changes nothing. */
  lemma {:induction false} WithoutAbsent<T(!new), K>(s: seq<T>, key: T -> K, k: K)
    requires forall i :: 0 <= i < |s| ==> key(s[i]) != k
    ensures Without(s, key, k) == s
  {
    if s != [] {
      WithoutAbsent(s[1..], key, k);
    }
  }

  /** Deleting the same key twice is the same as deleting it once. */
  lemma WithoutIdempotent<T(!new), K>(s: seq<T>, key: T -> K, k: K)
    ensures Without(Without(s, key, k), key, k) == Without(s, key, k)
  {
    var r := Without(s, key, k);
    forall i | 0 <= i < |r| ensures key(r[i]) != k {
      assert multiset(r)[r[i]] > 0;
    }
    WithoutAbsent(r, key, k);
  }

  /** `s.map(f)`. */
  function MapSeq<T, U>(s: seq<T>, f: T -> U): (r: seq<U>)
    ensures |r| == |s| && forall i :: 0 <= i < |s| ==> r[i] == f(s[i])
  {
    if s == [] then [] else [f(s[0])] + MapSeq(s[1..], f)
  }

  /** Exchanging the entries at two positions keeps the same entries. */
  lemma ExchangeIsPermutation<T>(s: seq<T>, i: nat, j: nat)
    requires i < |s| && j < |s|
    ensures multiset(s[i := s[j]][j := s[i]]) == multiset(s)
  {
    if i != j {
      var t := s[i := s[j]];
      assert multiset(t) == multiset(s) - multiset{s[i]} + multiset{s[j]};
      assert multiset(t[j := s[i]]) == multiset(t) - multiset{t[j]} + multiset{s[i]};
    }
  }

  lemma {:induction false} MapSeqAppend<T, U>(a: seq<T>, b: seq<T>, f: T -> U)
    ensures MapSeq(a + b, f) == MapSeq(a, f) + MapSeq(b, f)
  {
    if a == [] {
      assert a + b == b;
    } else {
      assert (a + b)[1..] == a[1..] + b;
      MapSeqAppend(a[1..], b, f);
    }
  }

  lemma RemoveAt<T>(t: seq<T>, k: nat)
    requires k < |t|
    ensures multiset(t[..k] + t[k + 1..]) == multiset(t) - multiset{t[k]}
  {
    assert t == t[..k] + [t[k]] + t[k + 1..];
  }

  lemma Tail<T>(s: seq<T>)
    requires s != []
    ensures multiset(s[1..]) == multiset(s) - multiset{s[0]}
  {
    assert s == [s[0]] + s[1..];
  }

  /** Mapping a sequence maps the entry taken out at `k` and the rest separately. */
  lemma {:induction false} MapSeqRemoveAt<T, U>(t: seq<T>, k: nat, f: T -> U)
    requires k < |t|
    ensures multiset(MapSeq(t, f)) == multiset{f(t[k])} + multiset(MapSeq(t[..k] + t[k + 1..], f))
  {
    var pre, post := t[..k], t[k + 1..];
    var a, x, b := MapSeq(pre, f), f(t[k]), MapSeq(post, f);
    assert MapSeq(t, f) == a + ([x] + b) by {
      assert t[k..] == [t[k]] + post;
      assert t == pre + t[k..];
      MapSeqAppend(pre, [t[k]] + post, f);
      MapSeqAppend([t[k]], post, f);
      assert MapSeq([t[k]], f) == [x];
    }
    assert MapSeq(pre + post, f) == a + b by {
      MapSeqAppend(pre, post, f);
    }
    assert multiset(a + ([x] + b)) == multiset{x} + multiset(a + b);
  }

  /** Two sequences with the same entries still have the same entries after the same `map`. */
  lemma {:induction false} MapSeqPermutation<T, U>(s: seq<T>, t: seq<T>, f: T -> U)
    requires multiset(s) == multiset(t)
    ensures multiset(MapSeq(s, f)) == multiset(MapSeq(t, f))
  {
    if s == [] {
      assert |t| == |multiset(t)| == 0;
    } else {
      assert s[0] in multiset(t);
      var k :| 0 <= k < |t| && t[k] == s[0];
      var rest := t[..k] + t[k + 1..];
      RemoveAt(t, k);
      assert s == [s[0]] + s[1..];
      assert multiset(rest) == multiset(s[1..]);
      MapSeqPermutation(s[1..], rest, f);
      MapSeqRemoveAt(t, k, f);
    }
  }
}
