/**
 * Insertion-ordered grouping, as d3.group / d3.groups / d3.rollup perform it: the groups are
 * visited in the order in which their key is first seen in the input, and each group keeps
 * its members in input order.
 *
 * The functions carry only their length bounds; what their elements are is stated by the
 * lemmas after each of them, which callers invoke where they need it.
 */
module Grouping {
  import opened Options

  /** No element occurs twice. */
  predicate NoDuplicates<K(==)>(ks: seq<K>) {
    forall i, j :: 0 <= i < j < |ks| ==> ks[i] != ks[j]
  }

  /** The distinct keys of `xs` in first-seen order (the key order of a d3 InternMap). */
  function FirstSeen<T, K(==)>(xs: seq<T>, key: T -> K): (ks: seq<K>)
    ensures |ks| <= |xs|
  {
    if xs == [] then []
    else
      var ks := FirstSeen(xs[..|xs| - 1], key);
      var k := key(xs[|xs| - 1]);
      if k in ks then ks else ks + [k]
  }

  /** The keys listed are exactly the keys of the elements. */
  lemma {:induction false} FirstSeenKeys<T, K(!new)>(xs: seq<T>, key: T -> K)
    ensures forall k :: k in FirstSeen(xs, key) <==> exists i :: 0 <= i < |xs| && key(xs[i]) == k
  {
    if xs != [] {
      var front := xs[..|xs| - 1];
      FirstSeenKeys(front, key);
      assert forall i :: 0 <= i < |front| ==> front[i] == xs[i];
      assert key(xs[|xs| - 1]) in FirstSeen(xs, key);
    }
  }

  /** Each key is listed once. */
  lemma {:induction false} FirstSeenDistinct<T, K(!new)>(xs: seq<T>, key: T -> K)
    ensures NoDuplicates(FirstSeen(xs, key))
  {
    if xs != [] {
      FirstSeenDistinct(xs[..|xs| - 1], key);
    }
  }

  /**
   * First-seen order: every occurrence of a later key is preceded by an occurrence of every
   * earlier key, so the keys are ordered by the position of their first occurrence.
   */
  lemma {:induction false} FirstSeenOrder<T, K(!new)>(xs: seq<T>, key: T -> K, a: nat, b: nat, j: nat)
    requires a < b < |FirstSeen(xs, key)|
    requires j < |xs| && key(xs[j]) == FirstSeen(xs, key)[b]
    ensures exists i :: 0 <= i < j && key(xs[i]) == FirstSeen(xs, key)[a]
  {
    var front := xs[..|xs| - 1];
    var ks := FirstSeen(front, key);
    FirstSeenKeys(front, key);
    assert forall i :: 0 <= i < |front| ==> front[i] == xs[i];
    if key(xs[|xs| - 1]) in ks {
      if j < |xs| - 1 {
        FirstSeenOrder(front, key, a, b, j);
      } else {
        assert ks[b] in ks;
        var j' :| 0 <= j' < |front| && key(front[j']) == ks[b];
        FirstSeenOrder(front, key, a, b, j');
        var i :| 0 <= i < j' && key(front[i]) == ks[a];
        assert key(xs[i]) == ks[a];
      }
    } else if b < |ks| {
      assert j < |xs| - 1;
      FirstSeenOrder(front, key, a, b, j);
    } else {
      assert ks[a] in ks;
      var i :| 0 <= i < |front| && key(front[i]) == ks[a];
      if j < |xs| - 1 {
        assert false;
      }
      assert key(xs[i]) == ks[a];
    }
  }

  /** The elements of `xs` satisfying `p`, in input order (Array.prototype.filter). */
  function Filter<T>(xs: seq<T>, p: T -> bool): (ys: seq<T>)
    ensures |ys| <= |xs|
  {
    if xs == [] then []
    else
      var front := Filter(xs[..|xs| - 1], p);
      var x := xs[|xs| - 1];
      if p(x) then front + [x] else front
  }

  /** An element is kept exactly when it occurs in the input and passes the test. */
  lemma {:induction false} FilterMembers<T(!new)>(xs: seq<T>, p: T -> bool)
    ensures forall y :: y in Filter(xs, p) <==> y in xs && p(y)
  {
    if xs != [] {
      FilterMembers(xs[..|xs| - 1], p);
      assert xs == xs[..|xs| - 1] + [xs[|xs| - 1]];
    }
  }

  lemma {:induction false} FilterAppend<T>(a: seq<T>, b: seq<T>, p: T -> bool)
    ensures Filter(a + b, p) == Filter(a, p) + Filter(b, p)
  {
    if b != [] {
      assert (a + b)[..|a + b| - 1] == a + b[..|b| - 1];
      FilterAppend(a, b[..|b| - 1], p);
    } else {
      assert a + b == a;
    }
  }

  /** Filtering keeps everything when every element passes. */
  lemma {:induction false} FilterAll<T>(xs: seq<T>, p: T -> bool)
    requires forall x :: x in xs ==> p(x)
    ensures Filter(xs, p) == xs
  {
    if xs != [] {
      FilterAll(xs[..|xs| - 1], p);
      assert xs == xs[..|xs| - 1] + [xs[|xs| - 1]];
    }
  }

  /** Filtering keeps nothing when no element passes. */
  lemma {:induction false} FilterNone<T>(xs: seq<T>, p: T -> bool)
    requires forall x :: x in xs ==> !p(x)
    ensures Filter(xs, p) == []
  {
    if xs != [] {
      FilterNone(xs[..|xs| - 1], p);
      assert xs == xs[..|xs| - 1] + [xs[|xs| - 1]];
    }
  }

  /**
   * Two filters that no element satisfies together keep, between them, as many elements as
   * the filter of either condition.
   */
  lemma {:induction false} FilterSplit<T>(xs: seq<T>, p: T -> bool, q: T -> bool, either: T -> bool)
    requires forall x :: !(p(x) && q(x)) && (either(x) <==> p(x) || q(x))
    ensures |Filter(xs, p)| + |Filter(xs, q)| == |Filter(xs, either)|
  {
    if xs != [] {
      FilterSplit(xs[..|xs| - 1], p, q, either);
    }
  }

  /** The first element satisfying `p`, as Array.prototype.find returns it, or None. */
  function Find<T>(xs: seq<T>, p: T -> bool): (r: Option<T>)
    ensures r.Some? ==> p(r.value)
  {
    if xs == [] then None
    else
      var r := Find(xs[..|xs| - 1], p);
      if r.Some? then r
      else if p(xs[|xs| - 1]) then Some(xs[|xs| - 1])
      else None
  }

  /**
   * Nothing is found exactly when no element qualifies; otherwise the element found sits at
   * a qualifying position before which none qualifies.
   */
  lemma {:induction false} FindFirst<T>(xs: seq<T>, p: T -> bool)
    ensures Find(xs, p).None? <==> forall i :: 0 <= i < |xs| ==> !p(xs[i])
    ensures Find(xs, p).Some? ==>
      exists i :: 0 <= i < |xs| && xs[i] == Find(xs, p).value && forall j :: 0 <= j < i ==> !p(xs[j])
  {
    if xs != [] {
      var front := xs[..|xs| - 1];
      FindFirst(front, p);
      assert forall i :: 0 <= i < |front| ==> front[i] == xs[i];
      if Find(front, p).Some? {
        var i :| 0 <= i < |front| && front[i] == Find(front, p).value && forall j :: 0 <= j < i ==> !p(front[j]);
        assert xs[i] == Find(xs, p).value;
      }
    }
  }

  /** Finding among the elements kept by `q` is finding the first element satisfying both. */
  lemma {:induction false} FindFilter<T>(xs: seq<T>, q: T -> bool, p: T -> bool)
    ensures Find(Filter(xs, q), p) == Find(xs, x => q(x) && p(x))
  {
    if xs != [] {
      var front := xs[..|xs| - 1];
      var x := xs[|xs| - 1];
      FindFilter(front, q, p);
      if q(x) {
        var fs := Filter(front, q);
        assert (fs + [x])[..|fs|] == fs;
      }
    }
  }

  /** The last element kept is the input's last element satisfying `p`. */
  lemma {:induction false} FilterLast<T>(xs: seq<T>, p: T -> bool)
    requires Filter(xs, p) != []
    ensures exists i :: 0 <= i < |xs| && xs[i] == Filter(xs, p)[|Filter(xs, p)| - 1] && forall j :: i < j < |xs| ==> !p(xs[j])
  {
    var front := xs[..|xs| - 1];
    if !p(xs[|xs| - 1]) {
      FilterLast(front, p);
      var i :| 0 <= i < |front| && front[i] == Filter(front, p)[|Filter(front, p)| - 1] && forall j :: i < j < |front| ==> !p(front[j]);
      assert xs[i] == front[i];
      assert forall j :: i < j < |xs| - 1 ==> xs[j] == front[j];
    }
  }

  /** The group of key `k`: the elements of `xs` whose key is `k`, in input order. */
  function Select<T, K(==)>(xs: seq<T>, key: T -> K, k: K): (ys: seq<T>)
    ensures |ys| <= |xs|
  {
    Filter(xs, x => key(x) == k)
  }

  /** A group holds exactly the elements with its key, and it is non-empty exactly when its key is listed. */
  lemma SelectMembers<T(!new), K(!new)>(xs: seq<T>, key: T -> K, k: K)
    ensures forall y :: y in Select(xs, key, k) <==> y in xs && key(y) == k
    ensures |Select(xs, key, k)| > 0 <==> k in FirstSeen(xs, key)
  {
    var ys := Select(xs, key, k);
    FilterMembers(xs, x => key(x) == k);
    FirstSeenKeys(xs, key);
    if k in FirstSeen(xs, key) {
      var i :| 0 <= i < |xs| && key(xs[i]) == k;
      assert xs[i] in ys;
    }
    if |ys| > 0 {
      assert ys[0] in ys;
    }
  }

  /**
   * Searching a group finds the first element of the whole input that has the group's key
   * and satisfies `p`, and finds nothing exactly when there is no such element.
   */
  lemma SelectFind<T, K>(xs: seq<T>, key: T -> K, k: K, p: T -> bool)
    ensures Find(Select(xs, key, k), p).None? <==> forall i :: 0 <= i < |xs| ==> !(key(xs[i]) == k && p(xs[i]))
    ensures Find(Select(xs, key, k), p).Some? ==> exists i :: (0 <= i < |xs| && xs[i] == Find(Select(xs, key, k), p).value && key(xs[i]) == k && p(xs[i]) && forall j :: 0 <= j < i ==> !(key(xs[j]) == k && p(xs[j])))
  {
    var q := x => key(x) == k;
    FindFilter(xs, q, p);
    FindFirst(xs, x => q(x) && p(x));
  }

  /** The last element of a non-empty group is the input's last element with the group's key. */
  lemma SelectLast<T(!new), K>(xs: seq<T>, key: T -> K, k: K)
    requires Select(xs, key, k) != []
    ensures exists i :: (0 <= i < |xs| && xs[i] == Select(xs, key, k)[|Select(xs, key, k)| - 1] && key(xs[i]) == k && forall j :: i < j < |xs| ==> key(xs[j]) != k)
  {
    var q := x => key(x) == k;
    var ys := Select(xs, key, k);
    FilterLast(xs, q);
    FilterMembers(xs, q);
    assert ys[|ys| - 1] in ys;
  }

  /** d3.group with one key: each first-seen key paired with its group. */
  function GroupBy<T, K(==)>(xs: seq<T>, key: T -> K): (gs: seq<(K, seq<T>)>)
    ensures |gs| == |FirstSeen(xs, key)|
  {
    var ks := FirstSeen(xs, key);
    seq(|ks|, i requires 0 <= i < |ks| => (ks[i], Select(xs, key, ks[i])))
  }

  /** Every group has at least one element. */
  predicate NonEmptyGroups<K, T>(gs: seq<(K, seq<T>)>) {
    forall i :: 0 <= i < |gs| ==> gs[i].1 != []
  }

  /**
   * The groups are non-empty, their keys are the keys of the elements, and each group holds
   * exactly the elements with its key.
   */
  lemma GroupByGroups<T(!new), K(!new)>(xs: seq<T>, key: T -> K)
    ensures NonEmptyGroups(GroupBy(xs, key))
    ensures forall x :: x in xs ==> exists i :: 0 <= i < |GroupBy(xs, key)| && GroupBy(xs, key)[i].0 == key(x)
    ensures forall i, y :: 0 <= i < |GroupBy(xs, key)| ==>
      (y in GroupBy(xs, key)[i].1 <==> y in xs && key(y) == GroupBy(xs, key)[i].0)
  {
    var gs := GroupBy(xs, key);
    var ks := FirstSeen(xs, key);
    FirstSeenKeys(xs, key);
    forall i | 0 <= i < |gs|
      ensures gs[i].1 != []
      ensures forall y :: y in gs[i].1 <==> y in xs && key(y) == gs[i].0
    {
      SelectMembers(xs, key, ks[i]);
    }
    forall x | x in xs
      ensures exists i :: 0 <= i < |gs| && gs[i].0 == key(x)
    {
      var j :| 0 <= j < |xs| && xs[j] == x;
      assert key(x) in ks;
      var i :| 0 <= i < |ks| && ks[i] == key(x);
      assert gs[i].0 == key(x);
    }
  }

  /** No two groups share a key. */
  lemma GroupByDistinct<T, K(!new)>(xs: seq<T>, key: T -> K)
    ensures forall i, j :: 0 <= i < j < |GroupBy(xs, key)| ==> GroupBy(xs, key)[i].0 != GroupBy(xs, key)[j].0
  {
    FirstSeenDistinct(xs, key);
  }

  /** Selecting from a concatenation is concatenating the selections. */
  lemma SelectAppend<T, K>(a: seq<T>, b: seq<T>, key: T -> K, k: K)
    ensures Select(a + b, key, k) == Select(a, key, k) + Select(b, key, k)
  {
    FilterAppend(a, b, x => key(x) == k);
  }

  /** A group of elements that all have key k selects whole under k. */
  lemma SelectAll<T, K>(xs: seq<T>, key: T -> K, k: K)
    requires forall x :: x in xs ==> key(x) == k
    ensures Select(xs, key, k) == xs
  {
    FilterAll(xs, x => key(x) == k);
  }

  /** Nothing is selected under a key that no element has. */
  lemma SelectNone<T, K>(xs: seq<T>, key: T -> K, k: K)
    requires forall x :: x in xs ==> key(x) != k
    ensures Select(xs, key, k) == []
  {
    FilterNone(xs, x => key(x) == k);
  }

  /** The blocks f(keys[0]), ..., f(keys[n - 1]), one after the other: a loop over groups appending each group's output. */
  function Concat<K, V>(keys: seq<K>, n: nat, f: K -> seq<V>): seq<V>
    requires n <= |keys|
  {
    if n == 0 then [] else Concat(keys, n - 1, f) + f(keys[n - 1])
  }

  /**
   * When each block holds only elements of its own key, selecting key k from the blocks of
   * distinct keys gives k's own block if k is among them, and nothing otherwise.
   */
  lemma {:induction false} ConcatSelect<K, V>(keys: seq<K>, n: nat, f: K -> seq<V>, key: V -> K, k: K)
    requires n <= |keys| && NoDuplicates(keys)
    requires forall u :: Select(f(u), key, k) == if u == k then f(u) else []
    ensures Select(Concat(keys, n, f), key, k) == if k in keys[..n] then f(k) else []
  {
    if n > 0 {
      var u := keys[n - 1];
      ConcatSelect(keys, n - 1, f, key, k);
      SelectAppend(Concat(keys, n - 1, f), f(u), key, k);
      assert keys[..n] == keys[..n - 1] + [u];
      if u == k {
        assert k !in keys[..n - 1];
      }
    }
  }

  /**
   * Grouping `xs` by `key` and concatenating one block per first-seen key, where every element
   * of block u has key u: the elements with key k are exactly k's block, or none when no element
   * of `xs` has key k.
   */
  lemma GroupedSelect<T(!new), K(!new), V>(xs: seq<T>, key: T -> K, f: K -> seq<V>, vkey: V -> K, k: K)
    requires forall u, y :: y in f(u) ==> vkey(y) == u
    ensures Select(Concat(FirstSeen(xs, key), |FirstSeen(xs, key)|, f), vkey, k) ==
      if exists x :: x in xs && key(x) == k then f(k) else []
  {
    var ks := FirstSeen(xs, key);
    FirstSeenDistinct(xs, key);
    FirstSeenKeys(xs, key);
    forall u
      ensures Select(f(u), vkey, k) == if u == k then f(u) else []
    {
      SelectOwn(f(u), vkey, u, k);
    }
    ConcatSelect(ks, |ks|, f, vkey, k);
    assert ks[..|ks|] == ks;
    if exists x :: x in xs && key(x) == k {
      var x :| x in xs && key(x) == k;
      var i :| 0 <= i < |xs| && xs[i] == x;
    } else {
      forall i | 0 <= i < |xs|
        ensures key(xs[i]) != k
      {
        assert xs[i] in xs;
      }
    }
  }

  /** Every element of the concatenation satisfies p when every block's elements do. */
  lemma {:induction false} ConcatAll<K, V>(keys: seq<K>, n: nat, f: K -> seq<V>, p: V -> bool)
    requires n <= |keys|
    requires forall u, x :: x in f(u) ==> p(x)
    ensures forall x :: x in Concat(keys, n, f) ==> p(x)
  {
    if n > 0 {
      ConcatAll(keys, n - 1, f, p);
    }
  }

  /** Selecting key k from elements that all have key u keeps them all or none. */
  lemma SelectOwn<T, K>(xs: seq<T>, key: T -> K, u: K, k: K)
    requires forall x :: x in xs ==> key(x) == u
    ensures Select(xs, key, k) == if u == k then xs else []
  {
    if u == k {
      SelectAll(xs, key, k);
    } else {
      SelectNone(xs, key, k);
    }
  }

  /** The values f(lo), f(lo + 1), ..., f(hi - 1): what a counting loop pushing f(k) builds. */
  function Tabulate<T>(lo: int, hi: int, f: int --> T): (s: seq<T>)
    requires forall k :: lo <= k < hi ==> f.requires(k)
    ensures |s| == if hi <= lo then 0 else hi - lo
    decreases hi - lo
  {
    if hi <= lo then [] else Tabulate(lo, hi - 1, f) + [f(hi - 1)]
  }

  /** Element i of the table is f(lo + i). */
  lemma {:induction false} TabulateAt<T>(lo: int, hi: int, f: int --> T)
    requires forall k :: lo <= k < hi ==> f.requires(k)
    ensures forall i :: 0 <= i < |Tabulate(lo, hi, f)| ==> Tabulate(lo, hi, f)[i] == f(lo + i)
    decreases hi - lo
  {
    if lo < hi {
      TabulateAt(lo, hi - 1, f);
    }
  }

  /** Element i of the table is f(lo + i), for one i. */
  lemma {:induction false} TabulateIndex<T>(lo: int, hi: int, f: int --> T, i: int)
    requires forall k :: lo <= k < hi ==> f.requires(k)
    requires 0 <= i < hi - lo
    ensures Tabulate(lo, hi, f)[i] == f(lo + i)
    decreases hi - lo
  {
    if i < hi - 1 - lo {
      TabulateIndex(lo, hi - 1, f, i);
    }
  }

  /** The present values among f(0), ..., f(n - 1), in order. */
  function Collect<V>(n: int, f: int --> Option<V>): (s: seq<V>)
    requires forall k :: 0 <= k < n ==> f.requires(k)
    ensures |s| <= if n <= 0 then 0 else n
  {
    if n <= 0 then [] else Collect(n - 1, f) + f(n - 1).ToSeq()
  }

  /** The collected values are exactly the present values. */
  lemma {:induction false} CollectMembers<V>(n: int, f: int --> Option<V>)
    requires forall k :: 0 <= k < n ==> f.requires(k)
    ensures forall x :: x in Collect(n, f) <==> exists k :: 0 <= k < n && f(k) == Some(x)
  {
    if n > 0 {
      CollectMembers(n - 1, f);
      assert forall x :: x in Collect(n, f) <==> x in Collect(n - 1, f) || f(n - 1) == Some(x);
    }
  }

  /** When f(0) is absent, at most n - 1 values are collected. */
  lemma {:induction false} CollectSkipsFirst<V>(n: int, f: int --> Option<V>)
    requires forall k :: 0 <= k < n ==> f.requires(k)
    requires n > 0 ==> f(0).None?
    ensures |Collect(n, f)| <= if n <= 0 then 0 else n - 1
  {
    if n > 1 {
      CollectSkipsFirst(n - 1, f);
    }
  }

  /** `f` applied to each element, in order. */
  function Map<V, K>(s: seq<V>, f: V -> K): seq<K> {
    seq(|s|, i requires 0 <= i < |s| => f(s[i]))
  }

  /**
   * Collecting, for each of the first n listed keys, a value exactly when the key passes
   * `present`, each value naming its key, names exactly the passing keys in listed order.
   */
  lemma {:induction false} CollectKeys<K, V>(ks: seq<K>, n: nat, f: int --> Option<V>, present: K -> bool, keyOf: V -> K)
    requires n <= |ks|
    requires forall k :: 0 <= k < n ==> f.requires(k)
    requires forall k :: 0 <= k < n ==> (f(k).Some? <==> present(ks[k])) && (f(k).Some? ==> keyOf(f(k).value) == ks[k])
    ensures Map(Collect(n, f), keyOf) == Filter(ks[..n], present)
  {
    if n > 0 {
      CollectKeys(ks, n - 1, f, present, keyOf);
      assert ks[..n][..n - 1] == ks[..n - 1];
      var c := Collect(n - 1, f);
      assert Map(Collect(n, f), keyOf) == Map(c, keyOf) + Map(f(n - 1).ToSeq(), keyOf);
    }
  }
}
