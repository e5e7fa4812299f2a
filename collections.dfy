/** Sequence helpers shared by the penalty rules: occurrence counts, the
    distinct elements of a sequence in first-occurrence order, and a model of
    a Python dict (a map plus the insertion order of its keys). */
module Collections {

  datatype Option<T> = None | Some(value: T)

  /** Number of occurrences of `k` in `s`. */
  function Count<K(==)>(s: seq<K>, k: K): (n: nat)
    ensures n <= |s|
    ensures n == 0 <==> k !in s
  {
    if s == [] then 0
    else
      Snoc(s);
      Count(s[..|s| - 1], k) + (if s[|s| - 1] == k then 1 else 0)
  }

  /** A non-empty sequence is its prefix followed by its last element. */
  lemma Snoc<K>(s: seq<K>)
    requires s != []
    ensures s == s[..|s| - 1] + [s[|s| - 1]]
  {
  }

  /** Extending a prefix by one element and cutting it back. */
  lemma PrefixStep<K>(s: seq<K>, i: nat)
    requires i < |s|
    ensures s[..i + 1][..i] == s[..i]
  {
  }

  lemma WholePrefix<K>(s: seq<K>)
    ensures s[..|s|] == s
  {
  }

  lemma CountSnoc<K>(s: seq<K>, x: K, k: K)
    ensures Count(s + [x], k) == Count(s, k) + (if x == k then 1 else 0)
  {
    assert (s + [x])[..|s|] == s;
  }

  lemma CountSingleton<K>(x: K, k: K)
    ensures Count([x], k) == if x == k then 1 else 0
  {
    assert [x][..0] == [];
  }

  lemma {:induction false} CountConcat<K>(s: seq<K>, t: seq<K>, k: K)
    ensures Count(s + t, k) == Count(s, k) + Count(t, k)
  {
    if t != [] {
      var init, x := t[..|t| - 1], t[|t| - 1];
      assert t == init + [x];
      assert s + t == (s + init) + [x];
      CountSnoc(s + init, x, k);
      CountSnoc(init, x, k);
      CountConcat(s, init, k);
    } else {
      assert s + t == s;
    }
  }

  /** No element occurs twice. */
  predicate NoDup<K(==)>(s: seq<K>) {
    forall i, j :: 0 <= i < j < |s| ==> s[i] != s[j]
  }

  lemma NoDupSnoc<K>(s: seq<K>, x: K)
    ensures NoDup(s + [x]) <==> NoDup(s) && x !in s
  {
    var t := s + [x];
    if NoDup(t) {
      assert forall i, j :: 0 <= i < j < |s| ==> s[i] == t[i] && s[j] == t[j];
      forall i | 0 <= i < |s| ensures s[i] != x {
        assert t[i] != t[|s|];
      }
    }
  }

  /** The elements of `s` without repetitions, each where it first occurs. */
  function Distinct<K(==)>(s: seq<K>): (r: seq<K>)
    ensures forall i :: 0 <= i < |r| ==> r[i] in s
    ensures forall i :: 0 <= i < |s| ==> s[i] in r
    ensures NoDup(r)
    ensures |r| <= |s|
    ensures |r| == |s| <==> NoDup(s)
  {
    if s == [] then []
    else
      var init, x := s[..|s| - 1], s[|s| - 1];
      Snoc(s);
      var p := Distinct(init);
      NoDupSnoc(p, x);
      NoDupSnoc(init, x);
      if x in p then p else p + [x]
  }

  lemma DistinctSnoc<K>(s: seq<K>, x: K)
    ensures Distinct(s + [x]) == if x in s then Distinct(s) else Distinct(s) + [x]
  {
    assert (s + [x])[..|s|] == s;
  }

  lemma DistinctMembers<K>(s: seq<K>)
    ensures forall k :: k in Distinct(s) <==> k in s
  {
    forall k | k in s ensures k in Distinct(s) {
      var i :| 0 <= i < |s| && s[i] == k;
    }
  }

  /** Number of elements of `s` equal to an element before them. */
  function Repeats<K(==)>(s: seq<K>): nat {
    if s == [] then 0
    else Repeats(s[..|s| - 1]) + (if s[|s| - 1] in s[..|s| - 1] then 1 else 0)
  }

  lemma RepeatsSnoc<K>(s: seq<K>, x: K)
    ensures Repeats(s + [x]) == Repeats(s) + (if x in s then 1 else 0)
  {
    assert (s + [x])[..|s|] == s;
  }

  /** The repeats are what `Distinct` drops, so there are none exactly when
      `s` has no duplicates. */
  lemma {:induction false} RepeatsDistinct<K>(s: seq<K>)
    ensures Repeats(s) == |s| - |Distinct(s)|
    ensures Repeats(s) == 0 <==> NoDup(s)
  {
    if s != [] {
      var init, x := s[..|s| - 1], s[|s| - 1];
      RepeatsDistinct(init);
      Snoc(s);
      DistinctSnoc(init, x);
    }
  }

  /** Sum of a sequence of integers. */
  function Sum(s: seq<int>): int {
    if s == [] then 0 else Sum(s[..|s| - 1]) + s[|s| - 1]
  }

  lemma SumSnoc(s: seq<int>, x: int)
    ensures Sum(s + [x]) == Sum(s) + x
  {
    assert (s + [x])[..|s|] == s;
  }

  lemma {:induction false} SumConcat(s: seq<int>, t: seq<int>)
    ensures Sum(s + t) == Sum(s) + Sum(t)
  {
    if t != [] {
      var init, x := t[..|t| - 1], t[|t| - 1];
      assert t == init + [x];
      assert s + t == (s + init) + [x];
      SumSnoc(s + init, x);
      SumSnoc(init, x);
      SumConcat(s, init);
    } else {
      assert s + t == s;
    }
  }

  /** A set has two or more elements exactly when it has two different ones. */
  lemma TwoElements<K>(s: set<K>)
    ensures |s| > 1 <==> exists x, y :: x in s && y in s && x != y
  {
    if |s| > 1 {
      var x, y := PickTwo(s);
    } else if exists x, y :: x in s && y in s && x != y {
      var x, y :| x in s && y in s && x != y;
      assert {x, y} <= s;
      assert |{x, y}| == 2;
      SubsetCard({x, y}, s);
    }
  }

  /** Two different elements of a set with more than one. */
  lemma PickTwo<K>(s: set<K>) returns (x: K, y: K)
    requires |s| > 1
    ensures x in s && y in s && x != y
  {
    x :| x in s;
    assert |s - {x}| == |s| - 1;
    y :| y in s - {x};
  }

  lemma SubsetCard<K>(a: set<K>, b: set<K>)
    requires a <= b
    ensures |a| <= |b|
  {
    assert b == a + (b - a);
  }

  function Abs(x: int): nat {
    if x < 0 then -x else x
  }

  /** A Python dict: its entries, and its keys in insertion order (the order
      in which `for k, v in d.items()` visits them). */
  datatype Dict<K(==), V> = Dict(order: seq<K>, entries: map<K, V>) {

    /** `d[k] = v`: an existing key keeps its place, a new one goes last. */
    function Put(k: K, v: V): (d: Dict<K, V>)
      ensures d.entries == entries[k := v]
      ensures d.order == if k in entries then order else order + [k]
    {
      Dict(if k in entries then order else order + [k], entries[k := v])
    }
  }

  function EmptyDict<K(==), V>(): Dict<K, V> {
    Dict([], map[])
  }

  /** `d` is the dict built by storing, in turn, under every key of `keys`:
      its keys are those of `keys`, in first-occurrence order. */
  ghost predicate Tracks<K(!new), V>(d: Dict<K, V>, keys: seq<K>) {
    d.order == Distinct(keys) && forall k :: k in d.entries <==> k in keys
  }

  /** `d.setdefault(k, init)` followed by `d[k] = v` keeps `Tracks`. */
  lemma TracksUpsert<K(!new), V>(d: Dict<K, V>, keys: seq<K>, k: K, init: V, v: V)
    requires Tracks(d, keys)
    ensures Tracks((if k !in d.entries then d.Put(k, init) else d).Put(k, v), keys + [k])
  {
    var d1 := if k !in d.entries then d.Put(k, init) else d;
    TracksPut(d, keys, k, init);
    TracksPut(d1, keys + [k], k, v);
  }

  lemma TracksPut<K(!new), V>(d: Dict<K, V>, keys: seq<K>, k: K, v: V)
    requires Tracks(d, keys)
    ensures Tracks(d.Put(k, v), keys + [k])
    ensures k in keys ==> Tracks(d.Put(k, v), keys)
  {
    DistinctSnoc(keys, k);
  }
}
