/**
 * Sequence and dictionary vocabulary for the Python built-ins and the pandas
 * operations the recommender relies on: first-seen de-duplication
 * (`Series.unique`, dict insertion order), insertion-ordered dictionaries,
 * stable sorting (`sort_values`), and `head` / `iloc` with Python's negative
 * indices.
 */
module Collections {
  import opened Wrappers

  predicate Distinct<T(==)>(s: seq<T>) {
    forall i, j :: 0 <= i < j < |s| ==> s[i] != s[j]
  }

  /** Index of the first occurrence of `x` in `s`. */
  function FirstIndex<T(==)>(s: seq<T>, x: T): (i: nat)
    requires x in s
    ensures i < |s| && s[i] == x
    ensures forall j :: 0 <= j < i ==> s[j] != x
  {
    if s[0] == x then 0 else 1 + FirstIndex(s[1..], x)
  }

  /** The distinct elements of `s`, each once, in order of first appearance. */
  function Unique<T(==,!new)>(s: seq<T>): (r: seq<T>)
    ensures Distinct(r)
    ensures forall x :: x in r <==> x in s
    ensures |r| <= |s|
  {
    if s == [] then []
    else
      var init := s[..|s| - 1];
      assert s == init + [s[|s| - 1]];
      var p := Unique(init);
      if s[|s| - 1] in p then p else p + [s[|s| - 1]]
  }

  lemma {:induction false} FirstIndexOfPrefix<T>(s: seq<T>, m: nat, x: T)
    requires m <= |s| && x in s[..m]
    ensures x in s && FirstIndex(s, x) == FirstIndex(s[..m], x)
  {
    if s[0] != x {
      assert s[..m][1..] == s[1..][..m - 1];
      FirstIndexOfPrefix(s[1..], m - 1, x);
    }
  }

  /** `Unique` lists the distinct elements in order of their first appearance. */
  lemma {:induction false} UniqueFirstSeenOrder<T(!new)>(s: seq<T>)
    ensures forall i, j :: 0 <= i < j < |Unique(s)| ==>
      FirstIndex(s, Unique(s)[i]) < FirstIndex(s, Unique(s)[j])
  {
    if s != [] {
      var n := |s| - 1;
      var init := s[..n];
      assert s == init + [s[n]];
      UniqueFirstSeenOrder(init);
      var p := Unique(init);
      forall x | x in init
        ensures FirstIndex(s, x) == FirstIndex(init, x) < n
      {
        FirstIndexOfPrefix(s, n, x);
      }
      if s[n] !in p {
        assert s[n] !in init;
        assert FirstIndex(s, s[n]) == n;
      }
    }
  }

  /** Appending one element to the input extends `Unique` by it iff it is new. */
  lemma {:induction false} UniqueSnoc<T(!new)>(s: seq<T>, x: T)
    ensures Unique(s + [x]) == if x in s then Unique(s) else Unique(s) + [x]
  {
    assert (s + [x])[..|s + [x]| - 1] == s;
  }

  /** In a list without repeats, element `n - 1` is not among the elements before it. */
  lemma {:induction false} DistinctLastNew<T>(s: seq<T>, n: nat)
    requires Distinct(s) && 0 < n <= |s|
    ensures s[n - 1] !in s[..n - 1]
  {
    var t := s[..n - 1];
    forall m | 0 <= m < |t| ensures t[m] != s[n - 1] {
      assert t[m] == s[m];
    }
  }

  lemma {:induction false} DistinctMultiplicity<T>(s: seq<T>, x: T)
    requires Distinct(s)
    ensures multiset(s)[x] <= 1
  {
    if s != [] {
      var init := s[..|s| - 1];
      assert s == init + [s[|s| - 1]];
      assert Distinct(init);
      DistinctMultiplicity(init, x);
      if s[|s| - 1] == x {
        assert x !in init;
      }
    }
  }

  /** A permutation of a sequence without repeats has no repeats. */
  lemma {:induction false} DistinctPermutation<T>(a: seq<T>, b: seq<T>)
    requires multiset(a) == multiset(b) && Distinct(a)
    ensures Distinct(b)
  {
    forall i, j | 0 <= i < j < |b| ensures b[i] != b[j] {
      if b[i] == b[j] {
        var x := b[i];
        assert b == b[..j] + b[j..];
        assert x in b[..j] && x in b[j..];
        assert multiset(b)[x] == multiset(b[..j])[x] + multiset(b[j..])[x];
        DistinctMultiplicity(a, x);
        assert false;
      }
    }
  }

  /** `a` is `b` with some elements deleted, the rest in their order. */
  predicate IsSubsequence<T(==)>(a: seq<T>, b: seq<T>)
    decreases |b|
  {
    if b == [] then a == []
    else (a != [] && a[0] == b[0] && IsSubsequence(a[1..], b[1..])) || IsSubsequence(a, b[1..])
  }

  // ---------------------------------------------------------------------------
  // Insertion-ordered dictionaries (Python `dict`)
  // ---------------------------------------------------------------------------

  /**
   * A Python dict: `keys` lists the keys in insertion order and `entries`
   * holds the values. Assigning to an existing key keeps its position.
   */
  datatype Dict<K(==,!new), V> = Dict(keys: seq<K>, entries: map<K, V>) {

    ghost predicate Valid() {
      Distinct(keys) && forall k :: k in entries <==> k in keys
    }

    /** Every listed key has an entry (the part of `Valid` that lookups need). */
    ghost predicate Indexed() {
      forall k :: k in keys ==> k in entries
    }

    /** `d[k] = v` */
    function Put(k: K, v: V): (d: Dict<K, V>)
      ensures Valid() ==> d.Valid()
      ensures d.entries == entries[k := v]
      ensures k in entries ==> d.keys == keys
      ensures k !in entries ==> d.keys == keys + [k]
    {
      if k in entries then Dict(keys, entries[k := v]) else Dict(keys + [k], entries[k := v])
    }
  }

  function EmptyDict<K(==,!new), V>(): (d: Dict<K, V>)
    ensures d.Valid() && d.keys == [] && d.entries == map[]
  {
    Dict([], map[])
  }

  // ---------------------------------------------------------------------------
  // Stable sorting by a real-valued key (pandas `sort_values`)
  // ---------------------------------------------------------------------------

  ghost predicate SortedDesc<T>(s: seq<T>, key: T -> real) {
    forall i, j :: 0 <= i < j < |s| ==> key(s[i]) >= key(s[j])
  }

  /** Inserts `x` after the last element whose key is at least `key(x)`. */
  function InsertDesc<T>(t: seq<T>, x: T, key: T -> real): (r: seq<T>)
    ensures multiset(r) == multiset(t) + multiset{x}
    ensures |r| == |t| + 1
  {
    if t == [] then [x]
    else if key(t[|t| - 1]) >= key(x) then t + [x]
    else
      assert t == t[..|t| - 1] + [t[|t| - 1]];
      InsertDesc(t[..|t| - 1], x, key) + [t[|t| - 1]]
  }

  lemma {:induction false} InsertDescSorted<T>(t: seq<T>, x: T, key: T -> real)
    requires SortedDesc(t, key)
    ensures SortedDesc(InsertDesc(t, x, key), key)
  {
    if t != [] && key(t[|t| - 1]) < key(x) {
      var init, last := t[..|t| - 1], t[|t| - 1];
      assert SortedDesc(init, key);
      InsertDescSorted(init, x, key);
      var ins := InsertDesc(init, x, key);
      forall y | y in ins ensures key(y) >= key(last) {
        assert y in multiset(ins);
        if y != x {
          assert y in multiset(init);
          var i :| 0 <= i < |init| && init[i] == y;
          assert t[i] == y;
        }
      }
      SortedDescSnoc(ins, last, key);
    }
  }

  lemma {:induction false} SortedDescSnoc<T>(s: seq<T>, last: T, key: T -> real)
    requires SortedDesc(s, key) && forall y :: y in s ==> key(y) >= key(last)
    ensures SortedDesc(s + [last], key)
  {
    var r := s + [last];
    forall i, j | 0 <= i < j < |r| ensures key(r[i]) >= key(r[j]) {
      if j == |r| - 1 {
        assert r[i] in s;
      }
    }
  }

  /** Stable sort, largest key first. */
  function SortDesc<T>(s: seq<T>, key: T -> real): (r: seq<T>)
    ensures multiset(r) == multiset(s)
    ensures |r| == |s|
    ensures SortedDesc(r, key)
  {
    if s == [] then []
    else
      assert s == s[..|s| - 1] + [s[|s| - 1]];
      InsertDescSorted(SortDesc(s[..|s| - 1], key), s[|s| - 1], key);
      InsertDesc(SortDesc(s[..|s| - 1], key), s[|s| - 1], key)
  }

  /** Stable sort, smallest key first. */
  function SortAsc<T>(s: seq<T>, key: T -> real): (r: seq<T>)
    ensures multiset(r) == multiset(s)
    ensures |r| == |s|
    ensures forall i, j :: 0 <= i < j < |r| ==> key(r[i]) <= key(r[j])
  {
    var r := SortDesc(s, x => -key(x));
    assert forall i, j :: 0 <= i < j < |r| ==> -key(r[i]) >= -key(r[j]);
    r
  }

  /** Sorting a sequence that is already in order changes nothing. */
  lemma {:induction false} SortDescOfSorted<T>(s: seq<T>, key: T -> real)
    requires SortedDesc(s, key)
    ensures SortDesc(s, key) == s
  {
    if s != [] {
      var init := s[..|s| - 1];
      assert SortedDesc(init, key);
      SortDescOfSorted(init, key);
      assert s == init + [s[|s| - 1]];
    }
  }

  /** No two positions of `s` carry the same key. */
  ghost predicate UntiedKeys<T>(s: seq<T>, key: T -> real) {
    forall i, j :: 0 <= i < j < |s| ==> key(s[i]) != key(s[j])
  }

  /**
   * Without ties the sorted order is unique: every sort, stable or not,
   * returns the same sequence.
   */
  lemma {:induction false} SortedPermutationUnique<T>(a: seq<T>, b: seq<T>, key: T -> real)
    requires multiset(a) == multiset(b)
    requires SortedDesc(a, key) && SortedDesc(b, key) && UntiedKeys(a, key)
    ensures a == b
    decreases |a|
  {
    assert |a| == |multiset(a)| == |b|;
    if a != [] {
      assert b[0] in multiset(a) && a[0] in multiset(b);
      var j :| 0 <= j < |a| && a[j] == b[0];
      var i :| 0 <= i < |b| && b[i] == a[0];
      assert key(a[0]) >= key(b[0]) >= key(a[0]);
      assert j == 0;
      MultisetTail(a, b);
      assert SortedDesc(a[1..], key) && SortedDesc(b[1..], key);
      assert UntiedKeys(a[1..], key);
      SortedPermutationUnique(a[1..], b[1..], key);
    }
  }

  lemma {:induction false} MultisetTail<T>(a: seq<T>, b: seq<T>)
    requires a != [] && b != [] && a[0] == b[0] && multiset(a) == multiset(b)
    ensures multiset(a[1..]) == multiset(b[1..])
  {
    assert a == [a[0]] + a[1..] && b == [b[0]] + b[1..];
    assert multiset(a[1..]) == multiset(a) - multiset{a[0]};
    assert multiset(b[1..]) == multiset(b) - multiset{a[0]};
  }

  lemma {:induction false} SortedMembers<T>(s: seq<T>, key: T -> real, x: T)
    requires x in s
    ensures x in SortDesc(s, key)
  {
    assert x in multiset(s);
  }

  // ---------------------------------------------------------------------------
  // pandas positional access
  // ---------------------------------------------------------------------------

  /** `df.head(n)`: the first `n` rows, or all but the last `-n` when `n` is negative. */
  function Head<T>(s: seq<T>, n: int): (r: seq<T>)
    ensures r <= s
    ensures n >= 0 ==> |r| == if n <= |s| then n else |s|
    ensures n < 0 ==> |r| == if |s| + n >= 0 then |s| + n else 0
  {
    if n >= 0 then (if n <= |s| then s[..n] else s)
    else if |s| + n >= 0 then s[..|s| + n] else []
  }

  /** `df.iloc[i]`: negative positions count from the end; out of range raises. */
  function ILoc<T>(s: seq<T>, i: int): (r: Result<T>)
    ensures r.Ok? <==> -|s| <= i < |s|
    ensures 0 <= i < |s| ==> r == Ok(s[i])
    ensures -|s| <= i < 0 ==> r == Ok(s[|s| + i])
    ensures r.Err? ==> r.error == IndexError
  {
    if 0 <= i < |s| then Ok(s[i])
    else if -|s| <= i < 0 then Ok(s[|s| + i])
    else Err(IndexError)
  }

  /** Sum of a sequence of reals (`np.sum`, `sum`). */
  function Sum(s: seq<real>): real {
    if s == [] then 0.0 else Sum(s[..|s| - 1]) + s[|s| - 1]
  }

  lemma {:induction false} SumSnoc(s: seq<real>, x: real)
    ensures Sum(s + [x]) == Sum(s) + x
  {
    assert (s + [x])[..|s|] == s;
  }

  /** Every element of `s` lies in [0, 1], so their sum lies in [0, |s|]. */
  lemma {:induction false} SumBounds(s: seq<real>)
    requires forall i :: 0 <= i < |s| ==> 0.0 <= s[i] <= 1.0
    ensures 0.0 <= Sum(s) <= |s| as real
  {
    if s != [] {
      SumBounds(s[..|s| - 1]);
    }
  }

  // ---------------------------------------------------------------------------
  // A loop that appends one result per step and stops at the first exception
  // ---------------------------------------------------------------------------

  /** The values of `rs` in order, or the error of the first failing one. */
  function AllOk<T>(rs: seq<Result<T>>): (r: Result<seq<T>>)
    ensures r.Ok? ==> |r.value| == |rs|
  {
    if rs == [] then Ok([])
    else
      var prev := AllOk(rs[..|rs| - 1]);
      var last := rs[|rs| - 1];
      if prev.Err? then prev
      else if last.Err? then Err(last.error)
      else Ok(prev.value + [last.value])
  }

  lemma {:induction false} AllOkStep<T>(rs: seq<Result<T>>, n: nat)
    requires n < |rs|
    ensures AllOk(rs[..n + 1]) ==
      if AllOk(rs[..n]).Err? then AllOk(rs[..n])
      else if rs[n].Err? then Err(rs[n].error)
      else Ok(AllOk(rs[..n]).value + [rs[n].value])
  {
    assert rs[..n + 1][..n] == rs[..n];
  }

  lemma {:induction false} AllOkPerIndex<T>(rs: seq<Result<T>>)
    ensures AllOk(rs).Ok? <==> forall i :: 0 <= i < |rs| ==> rs[i].Ok?
    ensures AllOk(rs).Ok? ==> forall i :: 0 <= i < |rs| ==> rs[i] == Ok(AllOk(rs).value[i])
  {
    if rs != [] {
      var init := rs[..|rs| - 1];
      AllOkPerIndex(init);
      assert forall i :: 0 <= i < |init| ==> init[i] == rs[i];
    }
  }

  /** One more result either extends the collected values or, failing, decides the whole collection. */
  lemma {:induction false} AllOkExtend<T>(rs: seq<Result<T>>, n: nat, done: seq<T>)
    requires n < |rs| && AllOk(rs[..n]) == Ok(done)
    ensures rs[n].Err? ==> AllOk(rs) == Err(rs[n].error)
    ensures rs[n].Ok? ==> AllOk(rs[..n + 1]) == Ok(done + [rs[n].value])
  {
    AllOkStep(rs, n);
    if rs[n].Err? {
      AllOkFailedPrefix(rs, n + 1);
    }
  }

  lemma {:induction false} AllOkFailedPrefix<T>(rs: seq<Result<T>>, n: nat)
    requires n <= |rs| && AllOk(rs[..n]).Err?
    ensures AllOk(rs) == AllOk(rs[..n])
    decreases |rs| - n
  {
    if n < |rs| {
      assert rs[..n + 1][..n] == rs[..n];
      AllOkFailedPrefix(rs, n + 1);
    } else {
      assert rs[..n] == rs;
    }
  }

  // ---------------------------------------------------------------------------
  // Building a dictionary from (key, value) pairs, in order
  // ---------------------------------------------------------------------------

  /** The keys of a sequence of pairs, in order. */
  function Firsts<K, V>(ps: seq<(K, V)>): (r: seq<K>)
    ensures |r| == |ps| && forall i :: 0 <= i < |ps| ==> r[i] == ps[i].0
  {
    seq(|ps|, i requires 0 <= i < |ps| => ps[i].0)
  }

  /** The values paired with `k`, in order. */
  function ValuesFor<K(==), V>(ps: seq<(K, V)>, k: K): (r: seq<V>)
    ensures |r| <= |ps|
    ensures r == [] <==> k !in Firsts(ps)
  {
    if ps == [] then []
    else
      var init := ps[..|ps| - 1];
      var last := ps[|ps| - 1];
      assert Firsts(ps) == Firsts(init) + [last.0];
      ValuesFor(init, k) + (if last.0 == k then [last.1] else [])
  }

  lemma {:induction false} ValuesForSnoc<K, V>(ps: seq<(K, V)>, p: (K, V), k: K)
    ensures ValuesFor(ps + [p], k) == ValuesFor(ps, k) + (if p.0 == k then [p.1] else [])
  {
    assert (ps + [p])[..|ps|] == ps;
  }

  lemma {:induction false} ValuesForMembers<K, V>(ps: seq<(K, V)>, k: K, v: V)
    ensures v in ValuesFor(ps, k) <==> exists i :: 0 <= i < |ps| && ps[i] == (k, v)
  {
    if ps != [] {
      var init := ps[..|ps| - 1];
      ValuesForMembers(init, k, v);
      assert forall i :: 0 <= i < |init| ==> init[i] == ps[i];
    }
  }

  lemma {:induction false} FirstsSnoc<K, V>(ps: seq<(K, V)>, p: (K, V))
    ensures Firsts(ps + [p]) == Firsts(ps) + [p.0]
  {
  }

  /**
   * `d.setdefault(k, []).append(v)` for each pair in turn: the keys in order
   * of first appearance, each with all of its values in order.
   */
  function Group<K(==,!new), V>(ps: seq<(K, V)>): (d: Dict<K, seq<V>>)
    ensures d.Valid()
    ensures d.keys == Unique(Firsts(ps))
    ensures forall k :: k in d.entries ==> d.entries[k] == ValuesFor(ps, k)
  {
    if ps == [] then EmptyDict()
    else
      var init := ps[..|ps| - 1];
      var last := ps[|ps| - 1];
      var d := Group(init);
      assert ps == init + [last];
      FirstsSnoc(init, last);
      UniqueSnoc(Firsts(init), last.0);
      if last.0 in d.entries then d.Put(last.0, d.entries[last.0] + [last.1])
      else d.Put(last.0, [last.1])
  }

  /**
   * `d[k] = v` for each pair in turn: the keys in order of first appearance,
   * each with its last value.
   */
  function Overwrite<K(==,!new), V>(ps: seq<(K, V)>): (d: Dict<K, V>)
    ensures d.Valid()
    ensures d.keys == Unique(Firsts(ps))
    ensures forall k :: k in d.entries ==> ValuesFor(ps, k) != [] && d.entries[k] == Last(ValuesFor(ps, k))
  {
    if ps == [] then EmptyDict()
    else
      var init := ps[..|ps| - 1];
      var last := ps[|ps| - 1];
      assert ps == init + [last];
      FirstsSnoc(init, last);
      UniqueSnoc(Firsts(init), last.0);
      var d := Overwrite(init).Put(last.0, last.1);
      OverwriteSnocValues(init, last, Overwrite(init));
      d
  }

  /** Writing one more pair keeps every key's value the last one recorded for it. */
  lemma {:induction false} OverwriteSnocValues<K(!new), V>(init: seq<(K, V)>, last: (K, V), prev: Dict<K, V>)
    requires forall k :: k in prev.entries ==> ValuesFor(init, k) != [] && prev.entries[k] == Last(ValuesFor(init, k))
    ensures var d := prev.Put(last.0, last.1);
      forall k :: k in d.entries ==> ValuesFor(init + [last], k) != [] && d.entries[k] == Last(ValuesFor(init + [last], k))
  {
    var d := prev.Put(last.0, last.1);
    forall k | k in d.entries
      ensures ValuesFor(init + [last], k) != [] && d.entries[k] == Last(ValuesFor(init + [last], k))
    {
      ValuesForSnoc(init, last, k);
    }
  }

  function Last<T>(s: seq<T>): T
    requires s != []
  {
    s[|s| - 1]
  }

  /** The lists of `ls` joined end to end, in order. */
  function Flatten<T>(ls: seq<seq<T>>): seq<T> {
    if ls == [] then [] else Flatten(ls[..|ls| - 1]) + ls[|ls| - 1]
  }

  lemma {:induction false} OverwriteSnocStep<K(!new), V>(ps: seq<(K, V)>, p: (K, V))
    ensures Overwrite(ps + [p]) == Overwrite(ps).Put(p.0, p.1)
  {
    assert (ps + [p])[..|ps|] == ps;
  }

  lemma {:induction false} ValuesForAppend<K, V>(a: seq<(K, V)>, b: seq<(K, V)>, k: K)
    ensures ValuesFor(a + b, k) == ValuesFor(a, k) + ValuesFor(b, k)
    decreases |b|
  {
    if b != [] {
      var init := b[..|b| - 1];
      var p := b[|b| - 1];
      assert a + b == (a + init) + [p];
      assert b == init + [p];
      ValuesForAppend(a, init, k);
      ValuesForSnoc(a + init, p, k);
      ValuesForSnoc(init, p, k);
    } else {
      assert a + b == a;
    }
  }

  /** Every value recorded for `k` in `ps` is `v` when every pair carries `v`. */
  lemma {:induction false} ValuesForAllEqual<K, V>(ps: seq<(K, V)>, k: K, v: V)
    requires forall i :: 0 <= i < |ps| ==> ps[i].1 == v
    ensures forall x :: x in ValuesFor(ps, k) ==> x == v
    decreases |ps|
  {
    if ps != [] {
      var init := ps[..|ps| - 1];
      ValuesForAllEqual(init, k, v);
      assert ps == init + [ps[|ps| - 1]];
      ValuesForSnoc(init, ps[|ps| - 1], k);
    }
  }

  /** A key last written in a stretch of pairs that all carry `v` ends up mapped to `v`. */
  lemma {:induction false} OverwriteTail<K(!new), V>(entries: seq<(K, V)>, m: nat, j: nat, v: V)
    requires m <= j < |entries|
    requires forall i :: m <= i < |entries| ==> entries[i].1 == v
    ensures entries[j].0 in Overwrite(entries).entries && Overwrite(entries).entries[entries[j].0] == v
  {
    TailValues(entries, m, j, v);
    LastWriterKey(entries, j);
  }

  /** The values of a key written in such a stretch end with `v`. */
  lemma {:induction false} TailValues<K, V>(entries: seq<(K, V)>, m: nat, j: nat, v: V)
    requires m <= j < |entries|
    requires forall i :: m <= i < |entries| ==> entries[i].1 == v
    ensures ValuesFor(entries, entries[j].0) != [] && Last(ValuesFor(entries, entries[j].0)) == v
  {
    var pre := entries[..m];
    var post := entries[m..];
    assert entries == pre + post;
    assert post[j - m] == entries[j];
    forall i | 0 <= i < |post| ensures post[i].1 == v {
      assert post[i] == entries[m + i];
    }
    ValuesForAppend(pre, post, entries[j].0);
    StretchValues(post, j - m, v);
    LastOfAppend(ValuesFor(pre, entries[j].0), ValuesFor(post, entries[j].0));
  }

  /** In pairs that all carry `v`, every key present has values ending with `v`. */
  lemma {:induction false} StretchValues<K, V>(ps: seq<(K, V)>, j: nat, v: V)
    requires j < |ps|
    requires forall i :: 0 <= i < |ps| ==> ps[i].1 == v
    ensures ValuesFor(ps, ps[j].0) != [] && Last(ValuesFor(ps, ps[j].0)) == v
  {
    assert Firsts(ps)[j] == ps[j].0;
    ValuesForAllEqual(ps, ps[j].0, v);
    LastOfAppend([], ValuesFor(ps, ps[j].0));
    assert [] + ValuesFor(ps, ps[j].0) == ValuesFor(ps, ps[j].0);
  }

  lemma {:induction false} LastOfAppend<T>(a: seq<T>, b: seq<T>)
    requires b != []
    ensures Last(a + b) == Last(b) && Last(b) in b
  {
  }

  // ---------------------------------------------------------------------------
  // Dense ids in order of first appearance
  // ---------------------------------------------------------------------------

  /**
   * `if x not in d: count += 1; d[x] = count` for each element in turn: the
   * distinct elements, in order of first appearance, numbered from 1.
   */
  function Intern<T(==,!new)>(s: seq<T>): (d: Dict<T, nat>)
    ensures d.Valid() && d.keys == Unique(s)
  {
    if s == [] then EmptyDict()
    else
      var init := s[..|s| - 1];
      var x := s[|s| - 1];
      assert s == init + [x];
      UniqueSnoc(init, x);
      var p := Intern(init);
      if x in p.entries then p else p.Put(x, |p.keys| + 1)
  }

  lemma {:induction false} InternSnoc<T(!new)>(s: seq<T>, x: T)
    ensures Intern(s + [x]) ==
      if x in Intern(s).entries then Intern(s) else Intern(s).Put(x, |Intern(s).keys| + 1)
  {
    var t := s + [x];
    assert t[..|t| - 1] == s && t[|t| - 1] == x;
  }

  /** The i-th distinct element (counting from 0) gets id i + 1, so the ids are exactly 1..N. */
  lemma {:induction false} InternIds<T(!new)>(s: seq<T>)
    ensures forall j :: 0 <= j < |Unique(s)| ==> Intern(s).entries[Unique(s)[j]] == j + 1
  {
    if s != [] {
      var init := s[..|s| - 1];
      var x := s[|s| - 1];
      assert s == init + [x];
      InternIds(init);
      InternSnoc(init, x);
      UniqueSnoc(init, x);
    }
  }

  /** An id, once given, never changes. */
  lemma {:induction false} InternStable<T(!new)>(s: seq<T>, m: nat, x: T)
    requires m <= |s| && x in s[..m]
    ensures x in Intern(s).entries && Intern(s).entries[x] == Intern(s[..m]).entries[x]
    decreases |s| - m
  {
    if m < |s| {
      assert s[..m + 1] == s[..m] + [s[m]];
      InternSnoc(s[..m], s[m]);
      InternStable(s, m + 1, x);
    } else {
      assert s[..m] == s;
    }
  }

  /** The pair written last for its key decides that key's value. */
  lemma {:induction false} OverwriteLastWriter<K(!new), V>(ps: seq<(K, V)>, i: nat)
    requires i < |ps|
    requires forall j :: i < j < |ps| ==> ps[j].0 != ps[i].0
    ensures ps[i].0 in Overwrite(ps).entries && Overwrite(ps).entries[ps[i].0] == ps[i].1
  {
    LastWriterValues(ps, i);
    LastWriterKey(ps, i);
  }

  /** The values of the last writer's key end with the value it wrote. */
  lemma {:induction false} LastWriterValues<K, V>(ps: seq<(K, V)>, i: nat)
    requires i < |ps|
    requires forall j :: i < j < |ps| ==> ps[j].0 != ps[i].0
    ensures ValuesFor(ps, ps[i].0) != [] && Last(ValuesFor(ps, ps[i].0)) == ps[i].1
  {
    var k := ps[i].0;
    var pre := ps[..i] + [ps[i]];
    var post := ps[i + 1..];
    assert ps == pre + post;
    assert k !in Firsts(post) by {
      forall j | 0 <= j < |post| ensures Firsts(post)[j] != k {
        assert post[j] == ps[i + 1 + j];
      }
    }
    ValuesForAppend(pre, post, k);
    ValuesForSnoc(ps[..i], ps[i], k);
  }

  /** Every first component is a key of the built dictionary. */
  lemma {:induction false} LastWriterKey<K(!new), V>(ps: seq<(K, V)>, i: nat)
    requires i < |ps|
    ensures ps[i].0 in Overwrite(ps).entries
  {
    assert Firsts(ps)[i] == ps[i].0;
    assert ps[i].0 in Unique(Firsts(ps));
  }

  /** The id of `k`, or 0 (never an id) when it has none. */
  function IdOf<K(==,!new)>(ids: Dict<K, nat>, k: K): nat {
    if k in ids.entries then ids.entries[k] else 0
  }
  /** Each second component paired with the id of its first component. */
  function Relabel<K(==,!new), V>(pairs: seq<(K, V)>, ids: Dict<K, nat>): (r: seq<(V, nat)>)
    ensures |r| == |pairs|
    ensures forall i :: 0 <= i < |pairs| ==> r[i] == (pairs[i].1, IdOf(ids, pairs[i].0))
  {
    seq(|pairs|, i requires 0 <= i < |pairs| => (pairs[i].1, IdOf(ids, pairs[i].0)))
  }
  lemma {:induction false} RelabelAgree<K(!new), V>(pairs: seq<(K, V)>, p: (K, V), before: Dict<K, nat>, after: Dict<K, nat>)
    requires forall i :: 0 <= i < |pairs| ==> IdOf(after, pairs[i].0) == IdOf(before, pairs[i].0)
    ensures Relabel(pairs + [p], after) == Relabel(pairs, before) + [(p.1, IdOf(after, p.0))]
  {
    var l := Relabel(pairs + [p], after);
    var r := Relabel(pairs, before) + [(p.1, IdOf(after, p.0))];
    forall i | 0 <= i < |l| ensures l[i] == r[i] {
      if i < |pairs| {
        assert (pairs + [p])[i] == pairs[i];
      }
    }
  }
  /** Numbering one more pair leaves the earlier pairs' numbers alone. */
  lemma {:induction false} RelabelExtend<K(!new), V>(pairs: seq<(K, V)>, p: (K, V))
    ensures Relabel(pairs + [p], Intern(Firsts(pairs + [p])))
         == Relabel(pairs, Intern(Firsts(pairs))) + [(p.1, IdOf(Intern(Firsts(pairs + [p])), p.0))]
  {
    var before := Intern(Firsts(pairs));
    var after := Intern(Firsts(pairs + [p]));
    FirstsSnoc(pairs, p);
    InternSnocIds(Firsts(pairs), p.0);
    FirstsInterned(pairs);
    RelabelAgree(pairs, p, before, after);
  }

  /** Every first component has an id. */
  lemma {:induction false} FirstsInterned<K(!new), V>(pairs: seq<(K, V)>)
    ensures forall i :: 0 <= i < |pairs| ==> pairs[i].0 in Intern(Firsts(pairs)).entries
  {
    forall i | 0 <= i < |pairs| ensures pairs[i].0 in Intern(Firsts(pairs)).entries {
      assert Firsts(pairs)[i] == pairs[i].0;
    }
  }

  /**
   * One step of numbering pairs by their first component while mapping
   * each second component to the number (`if k not in ids: count += 1;
   * ids[k] = count; m[v] = ids[k]`).
   */
  lemma {:induction false} NumberingStep<K(!new), V(!new)>(pairs: seq<(K, V)>, p: (K, V), ids: Dict<K, nat>, m: Dict<V, nat>, count: nat)
    requires ids == Intern(Firsts(pairs)) && count == |ids.keys| && m == Overwrite(Relabel(pairs, ids))
    ensures var id := if p.0 in ids.entries then ids.entries[p.0] else count + 1;
      && ids.Put(p.0, id) == Intern(Firsts(pairs + [p]))
      && |ids.Put(p.0, id).keys| == (if p.0 in ids.entries then count else count + 1)
      && m.Put(p.1, id) == Overwrite(Relabel(pairs + [p], ids.Put(p.0, id)))
  {
    NumberingIdsStep(pairs, p, ids, count);
    var id := if p.0 in ids.entries then ids.entries[p.0] else count + 1;
    RelabelExtend(pairs, p);
    OverwriteSnocStep(Relabel(pairs, ids), (p.1, id));
  }

  /** The id step of the numbering: an unseen first component gets the next id. */
  lemma {:induction false} NumberingIdsStep<K(!new), V>(pairs: seq<(K, V)>, p: (K, V), ids: Dict<K, nat>, count: nat)
    requires ids == Intern(Firsts(pairs)) && count == |ids.keys|
    ensures var id := if p.0 in ids.entries then ids.entries[p.0] else count + 1;
      && ids.Put(p.0, id) == Intern(Firsts(pairs + [p]))
      && |ids.Put(p.0, id).keys| == (if p.0 in ids.entries then count else count + 1)
  {
    var id := if p.0 in ids.entries then ids.entries[p.0] else count + 1;
    FirstsSnoc(pairs, p);
    InternSnoc(Firsts(pairs), p.0);
    if p.0 in ids.entries {
      assert ids.entries[p.0 := id] == ids.entries;
      assert ids.Put(p.0, id) == ids;
    }
  }

  /** A second component that does not recur later is mapped to the id of its own first component. */
  lemma {:induction false} NumberingLastWriter<K(!new), V(!new)>(pairs: seq<(K, V)>, i: nat)
    requires i < |pairs| && forall j :: i < j < |pairs| ==> pairs[j].1 != pairs[i].1
    ensures var ids := Intern(Firsts(pairs));
      var m := Overwrite(Relabel(pairs, ids));
      pairs[i].0 in ids.entries && pairs[i].1 in m.entries && m.entries[pairs[i].1] == ids.entries[pairs[i].0]
  {
    FirstsInterned(pairs);
    var rs := Relabel(pairs, Intern(Firsts(pairs)));
    OverwriteLastWriter(rs, i);
  }

  /** Interning one more element keeps every earlier id and gives the new one the next number. */
  lemma {:induction false} InternSnocIds<T(!new)>(s: seq<T>, x: T)
    ensures forall y :: y in Intern(s).entries ==> IdOf(Intern(s + [x]), y) == IdOf(Intern(s), y)
    ensures IdOf(Intern(s + [x]), x) == if x in Intern(s).entries then Intern(s).entries[x] else |Intern(s).keys| + 1
  {
    InternSnoc(s, x);
  }
}
