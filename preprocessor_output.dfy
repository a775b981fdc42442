/**
 * The line format of `save_mapping` (main/preprocessor.py): one line
 * "key<sep>value\n" per entry, or per element of the entry's value set, and
 * how such a file reads back through `load_mapping`. Opening and writing the
 * file are left to the caller; `str()` of keys and values is a parameter.
 */
module MappingOutput {
  import opened Wrappers
  import opened Collections
  import opened Strings
  import opened Json
  import opened DataLoader

  /** `str()` of a key or a value. */
  type Show<!T> = T -> string

  /**
   * What `save_mapping` is given: one value per key, or, with `value_is_set`,
   * a set per key, listed in the order iterating that set yields.
   */
  datatype Saved<K(==,!new), V> = Single(single: Dict<K, V>) | Sets(sets: Dict<K, seq<V>>)

  ghost predicate SavedValid<K(!new), V>(m: Saved<K, V>) {
    match m
    case Single(d) => d.Valid()
    case Sets(d) => d.Valid()
  }

  /** `"{}{}{}\n".format(key, col_separator, val)` */
  function Line(key: string, sep: string, val: string): string {
    key + sep + val + "\n"
  }

  /** The (key, value) texts of a one-value mapping, in key order. */
  function SinglePairs<K(!new), V>(d: Dict<K, V>, showKey: Show<K>, showVal: Show<V>): (ps: seq<(string, string)>)
    requires d.Valid()
    ensures |ps| == |d.keys|
  {
    seq(|d.keys|, i requires 0 <= i < |d.keys| => (showKey(d.keys[i]), showVal(d.entries[d.keys[i]])))
  }

  /** The (key, value) texts written for one key of a set mapping. */
  function ValuePairs<K(!new), V>(key: K, vals: seq<V>, showKey: Show<K>, showVal: Show<V>): (ps: seq<(string, string)>)
    ensures |ps| == |vals|
  {
    seq(|vals|, j requires 0 <= j < |vals| => (showKey(key), showVal(vals[j])))
  }

  /** The (key, value) texts of the first `n` keys of a set mapping. */
  function SetPairs<K(!new), V>(d: Dict<K, seq<V>>, showKey: Show<K>, showVal: Show<V>, n: nat): seq<(string, string)>
    requires d.Valid() && n <= |d.keys|
  {
    if n == 0 then []
    else SetPairs(d, showKey, showVal, n - 1) + ValuePairs(d.keys[n - 1], d.entries[d.keys[n - 1]], showKey, showVal)
  }

  function Pairs<K(!new), V>(m: Saved<K, V>, showKey: Show<K>, showVal: Show<V>): seq<(string, string)>
    requires SavedValid(m)
  {
    match m
    case Single(d) => SinglePairs(d, showKey, showVal)
    case Sets(d) => SetPairs(d, showKey, showVal, |d.keys|)
  }

  function Lines(ps: seq<(string, string)>, sep: string): (ls: seq<string>)
    ensures |ls| == |ps|
  {
    seq(|ps|, i requires 0 <= i < |ps| => Line(ps[i].0, sep, ps[i].1))
  }

  /** The lines `save_mapping` writes, in order. */
  function SaveMappingSpec<K(!new), V>(m: Saved<K, V>, showKey: Show<K>, showVal: Show<V>, sep: string): seq<string>
    requires SavedValid(m)
  {
    Lines(Pairs(m, showKey, showVal), sep)
  }

  lemma {:induction false} LinesAppend(a: seq<(string, string)>, b: seq<(string, string)>, sep: string)
    ensures Lines(a + b, sep) == Lines(a, sep) + Lines(b, sep)
  {
  }

  method SaveMapping<K(!new), V>(m: Saved<K, V>, showKey: Show<K>, showVal: Show<V>, sep: string) returns (lines: seq<string>)
    requires SavedValid(m)
    ensures lines == SaveMappingSpec(m, showKey, showVal, sep)
  {
    lines := [];
    match m
    case Sets(d) =>
      var k := 0;
      while k < |d.keys|
        invariant 0 <= k <= |d.keys|
        invariant lines == Lines(SetPairs(d, showKey, showVal, k), sep)
      {
        var key := d.keys[k];
        var vals := d.entries[key];
        lines := SaveValues(key, vals, showKey, showVal, sep, lines);
        LinesAppend(SetPairs(d, showKey, showVal, k), ValuePairs(key, vals, showKey, showVal), sep);
        k := k + 1;
      }
    case Single(d) =>
      var k := 0;
      while k < |d.keys|
        invariant 0 <= k <= |d.keys|
        invariant lines == Lines(SinglePairs(d, showKey, showVal)[..k], sep)
      {
        var key := d.keys[k];
        var val := d.entries[key];
        LinesAppend(SinglePairs(d, showKey, showVal)[..k], [(showKey(key), showVal(val))], sep);
        assert SinglePairs(d, showKey, showVal)[..k + 1] == SinglePairs(d, showKey, showVal)[..k] + [(showKey(key), showVal(val))];
        lines := lines + [Line(showKey(key), sep, showVal(val))];
        k := k + 1;
      }
      assert SinglePairs(d, showKey, showVal)[..k] == SinglePairs(d, showKey, showVal);
  }

  /** The inner loop over one key's value set. */
  method SaveValues<K(!new), V>(key: K, vals: seq<V>, showKey: Show<K>, showVal: Show<V>, sep: string, lines: seq<string>)
    returns (lines': seq<string>)
    ensures lines' == lines + Lines(ValuePairs(key, vals, showKey, showVal), sep)
  {
    lines' := lines;
    var j := 0;
    while j < |vals|
      invariant 0 <= j <= |vals|
      invariant lines' == lines + Lines(ValuePairs(key, vals[..j], showKey, showVal), sep)
    {
      var val := vals[j];
      assert ValuePairs(key, vals[..j + 1], showKey, showVal)
          == ValuePairs(key, vals[..j], showKey, showVal) + [(showKey(key), showVal(val))];
      LinesAppend(ValuePairs(key, vals[..j], showKey, showVal), [(showKey(key), showVal(val))], sep);
      lines' := lines' + [Line(showKey(key), sep, showVal(val))];
      j := j + 1;
    }
    assert vals[..j] == vals;
  }

  // ---------------------------------------------------------------------------
  // Reading the file back
  // ---------------------------------------------------------------------------

  /**
   * Text that survives the line format: no column separator and no line break.
   * Reading in text mode translates a carriage return into a line break too,
   * so it is excluded as well.
   */
  predicate Clean(s: string) {
    '\t' !in s && '\n' !in s && '\r' !in s
  }

  /** Every key and value of the mapping prints as clean text. */
  ghost predicate Writable<K(!new), V>(m: Saved<K, V>, showKey: Show<K>, showVal: Show<V>) {
    match m
    case Single(d) => forall k :: k in d.entries ==> Clean(showKey(k)) && Clean(showVal(d.entries[k]))
    case Sets(d) => forall k :: k in d.entries ==>
      Clean(showKey(k)) && forall j :: 0 <= j < |d.entries[k]| ==> Clean(showVal(d.entries[k][j]))
  }

  /** `str(key)` differs for different keys. */
  ghost predicate ShowsApart<K>(keys: seq<K>, showKey: Show<K>) {
    forall i, j :: 0 <= i < j < |keys| ==> showKey(keys[i]) != showKey(keys[j])
  }

  /** What `load_mapping` with an empty `eval_set` and a tab separator makes of the saved lines. */
  function Reloaded<K(!new), V>(m: Saved<K, V>, showKey: Show<K>, showVal: Show<V>, eval: Eval): Result<Mapping>
    requires SavedValid(m)
  {
    LoadMappingSpec(Some(SaveMappingSpec(m, showKey, showVal, COL_SEPARATOR)), m.Sets?, {}, COL_SEPARATOR, eval)
  }

  function AsStrs(ps: seq<(string, string)>): (r: seq<(Value, Value)>)
    ensures |r| == |ps|
  {
    seq(|ps|, i requires 0 <= i < |ps| => (Str(ps[i].0), Str(ps[i].1)))
  }

  /** A written line parses back to its key and value as strings. */
  lemma {:induction false} ParseWrittenLine(key: string, val: string, eval: Eval)
    requires Clean(key) && Clean(val)
    ensures MappingLine(Line(key, COL_SEPARATOR, val), {}, COL_SEPARATOR, eval) == Ok((Str(key), Str(val)))
  {
    var x := key + "\t" + val;
    assert Line(key, COL_SEPARATOR, val) == x + ['\n'];
    assert '\n' !in x by {
      forall i | 0 <= i < |x| ensures x[i] != '\n' {
        if i < |key| { assert x[i] == key[i]; }
        else if i > |key| { assert x[i] == val[i - |key| - 1]; }
      }
    }
    StripTerminated(x, '\n');
    assert Join([key, val], "\t") == x by {
      assert [key, val][1..] == [val];
    }
    SplitJoin([key, val], '\t');
    assert Fields(Line(key, COL_SEPARATOR, val), COL_SEPARATOR) == Ok([key, val]);
  }

  lemma {:induction false} AllOkOfOks<T>(rs: seq<Result<T>>, vs: seq<T>)
    requires |rs| == |vs| && forall i :: 0 <= i < |rs| ==> rs[i] == Ok(vs[i])
    ensures AllOk(rs) == Ok(vs)
  {
    if rs != [] {
      var n := |rs| - 1;
      AllOkOfOks(rs[..n], vs[..n]);
      assert vs == vs[..n] + [vs[n]];
    }
  }

  lemma {:induction false} SetPairsClean<K(!new), V>(d: Dict<K, seq<V>>, showKey: Show<K>, showVal: Show<V>, n: nat)
    requires d.Valid() && n <= |d.keys| && Writable(Sets(d), showKey, showVal)
    ensures forall i :: 0 <= i < |SetPairs(d, showKey, showVal, n)| ==>
      Clean(SetPairs(d, showKey, showVal, n)[i].0) && Clean(SetPairs(d, showKey, showVal, n)[i].1)
  {
    if n > 0 {
      SetPairsClean(d, showKey, showVal, n - 1);
      var key := d.keys[n - 1];
      assert key in d.entries;
      var pre := SetPairs(d, showKey, showVal, n - 1);
      var post := ValuePairs(key, d.entries[key], showKey, showVal);
      var all: seq<(string, string)> := pre + post;
      forall i | 0 <= i < |all| ensures Clean(all[i].0) && Clean(all[i].1) {
        if i >= |pre| {
          assert all[i] == post[i - |pre|];
        }
      }
    }
  }

  lemma {:induction false} PairsClean<K(!new), V>(m: Saved<K, V>, showKey: Show<K>, showVal: Show<V>)
    requires SavedValid(m) && Writable(m, showKey, showVal)
    ensures forall i :: 0 <= i < |Pairs(m, showKey, showVal)| ==>
      Clean(Pairs(m, showKey, showVal)[i].0) && Clean(Pairs(m, showKey, showVal)[i].1)
  {
    match m
    case Single(d) =>
      forall i | 0 <= i < |d.keys| ensures Clean(Pairs(m, showKey, showVal)[i].0) && Clean(Pairs(m, showKey, showVal)[i].1) {
        assert d.keys[i] in d.entries;
      }
    case Sets(d) =>
      SetPairsClean(d, showKey, showVal, |d.keys|);
  }

  /**
   * Saving with a tab separator and loading with an empty `eval_set` gives
   * every written key and value back as a string: grouped in file order for
   * a set mapping, last value winning otherwise.
   */
  lemma {:induction false} SaveLoadRoundTrip<K(!new), V>(m: Saved<K, V>, showKey: Show<K>, showVal: Show<V>, eval: Eval)
    requires SavedValid(m) && Writable(m, showKey, showVal)
    ensures Reloaded(m, showKey, showVal, eval) ==
      Ok(if m.Sets? then Grouped(Group(AsStrs(Pairs(m, showKey, showVal))))
         else Flat(Overwrite(AsStrs(Pairs(m, showKey, showVal)))))
  {
    var ps := Pairs(m, showKey, showVal);
    var lines := SaveMappingSpec(m, showKey, showVal, COL_SEPARATOR);
    var rs := MappingLines(lines, {}, COL_SEPARATOR, eval);
    PairsClean(m, showKey, showVal);
    forall i | 0 <= i < |rs| ensures rs[i] == Ok(AsStrs(ps)[i]) {
      ParseWrittenLine(ps[i].0, ps[i].1, eval);
    }
    AllOkOfOks(rs, AsStrs(ps));
  }

  // ---------------------------------------------------------------------------
  // What the reloaded dictionary holds
  // ---------------------------------------------------------------------------

  function StrsOf(s: seq<string>): (r: seq<Value>)
    ensures |r| == |s|
  {
    seq(|s|, i requires 0 <= i < |s| => Str(s[i]))
  }

  lemma {:induction false} UniqueOfDistinct<T(!new)>(s: seq<T>)
    requires Distinct(s)
    ensures Unique(s) == s
  {
    if s != [] {
      var n := |s| - 1;
      assert s == s[..n] + [s[n]];
      UniqueOfDistinct(s[..n]);
      UniqueSnoc(s[..n], s[n]);
    }
  }

  /** The printed keys of a one-value mapping, as the strings `load_mapping` reads. */
  function ShownKeys<K(!new), V>(d: Dict<K, V>, showKey: Show<K>): (r: seq<Value>)
    ensures |r| == |d.keys|
  {
    seq(|d.keys|, i requires 0 <= i < |d.keys| => Str(showKey(d.keys[i])))
  }

  /**
   * Read back, a one-value mapping whose keys print apart has the printed
   * keys in the original order, each holding its own printed value.
   */
  lemma {:induction false} SingleReloaded<K(!new), V>(d: Dict<K, V>, showKey: Show<K>, showVal: Show<V>)
    requires d.Valid() && ShowsApart(d.keys, showKey)
    ensures Overwrite(AsStrs(SinglePairs(d, showKey, showVal))).keys == ShownKeys(d, showKey)
    ensures forall k :: k in d.entries ==>
      && Str(showKey(k)) in Overwrite(AsStrs(SinglePairs(d, showKey, showVal))).entries
      && Overwrite(AsStrs(SinglePairs(d, showKey, showVal))).entries[Str(showKey(k))] == Str(showVal(d.entries[k]))
  {
    var ps := AsStrs(SinglePairs(d, showKey, showVal));
    assert Firsts(ps) == ShownKeys(d, showKey);
    var shown := ShownKeys(d, showKey);
    forall i, j | 0 <= i < j < |shown| ensures shown[i] != shown[j] {
      assert showKey(d.keys[i]) != showKey(d.keys[j]);
    }
    UniqueOfDistinct(ShownKeys(d, showKey));
    forall k | k in d.entries
      ensures Str(showKey(k)) in Overwrite(ps).entries && Overwrite(ps).entries[Str(showKey(k))] == Str(showVal(d.entries[k]))
    {
      var i :| 0 <= i < |d.keys| && d.keys[i] == k;
      assert ps[i] == (Str(showKey(k)), Str(showVal(d.entries[k])));
      OverwriteLastWriter(ps, i);
    }
  }

  /** The printed values of one value set, in iteration order. */
  function Shown<V>(vals: seq<V>, showVal: Show<V>): (r: seq<string>)
    ensures |r| == |vals|
  {
    seq(|vals|, j requires 0 <= j < |vals| => showVal(vals[j]))
  }

  lemma {:induction false} AsStrsAppend(a: seq<(string, string)>, b: seq<(string, string)>)
    ensures AsStrs(a + b) == AsStrs(a) + AsStrs(b)
  {
  }

  /** Reading the texts as strings commutes with collecting the values of a key. */
  lemma {:induction false} ValuesForAsStrs(ps: seq<(string, string)>, x: string)
    ensures ValuesFor(AsStrs(ps), Str(x)) == StrsOf(ValuesFor(ps, x))
  {
    if ps != [] {
      var n := |ps| - 1;
      var pre := ps[..n];
      assert ps == pre + [ps[n]];
      ValuesForAsStrs(pre, x);
      AsStrsAppend(pre, [ps[n]]);
      ValuesForSnoc(AsStrs(pre), (Str(ps[n].0), Str(ps[n].1)), Str(x));
      ValuesForSnoc(pre, ps[n], x);
      if ps[n].0 == x {
        assert StrsOf(ValuesFor(pre, x) + [ps[n].1]) == StrsOf(ValuesFor(pre, x)) + [Str(ps[n].1)];
      }
    }
  }

  lemma {:induction false} ShownSnoc<V>(vals: seq<V>, showVal: Show<V>)
    requires vals != []
    ensures Shown(vals, showVal) == Shown(vals[..|vals| - 1], showVal) + [showVal(vals[|vals| - 1])]
  {
    var n := |vals| - 1;
    var a, b := Shown(vals, showVal), Shown(vals[..n], showVal) + [showVal(vals[n])];
    forall j | 0 <= j < |a| ensures a[j] == b[j] {
      if j < n {
        assert vals[..n][j] == vals[j];
      }
    }
  }

  lemma {:induction false} ValuePairsSnoc<K(!new), V>(key: K, vals: seq<V>, showKey: Show<K>, showVal: Show<V>)
    requires vals != []
    ensures ValuePairs(key, vals, showKey, showVal)
         == ValuePairs(key, vals[..|vals| - 1], showKey, showVal) + [(showKey(key), showVal(vals[|vals| - 1]))]
  {
    var n := |vals| - 1;
    var a := ValuePairs(key, vals, showKey, showVal);
    var b := ValuePairs(key, vals[..n], showKey, showVal) + [(showKey(key), showVal(vals[n]))];
    forall j | 0 <= j < |a| ensures a[j] == b[j] {
      if j < n {
        assert vals[..n][j] == vals[j];
      }
    }
  }

  /** The values one key's lines carry under a printed key. */
  lemma {:induction false} ValuePairsValues<K(!new), V>(key: K, vals: seq<V>, showKey: Show<K>, showVal: Show<V>, x: string)
    ensures ValuesFor(ValuePairs(key, vals, showKey, showVal), x)
         == if x == showKey(key) then Shown(vals, showVal) else []
  {
    if vals != [] {
      var n := |vals| - 1;
      ValuePairsValues(key, vals[..n], showKey, showVal, x);
      var pre := ValuePairs(key, vals[..n], showKey, showVal);
      var p := (showKey(key), showVal(vals[n]));
      ValuePairsSnoc(key, vals, showKey, showVal);
      ValuesForSnoc(pre, p, x);
      ShownSnoc(vals, showVal);
    }
  }

  /** Under the printed `i`-th key, the lines of the first `n` keys carry its printed values once `i < n`. */
  lemma {:induction false} SetPairsValues<K(!new), V>(d: Dict<K, seq<V>>, showKey: Show<K>, showVal: Show<V>, n: nat, i: nat)
    requires d.Valid() && ShowsApart(d.keys, showKey) && n <= |d.keys| && i < |d.keys|
    ensures ValuesFor(SetPairs(d, showKey, showVal, n), showKey(d.keys[i]))
         == if i < n then Shown(d.entries[d.keys[i]], showVal) else []
  {
    if n > 0 {
      var x := showKey(d.keys[i]);
      var key := d.keys[n - 1];
      var pre := SetPairs(d, showKey, showVal, n - 1);
      var post := ValuePairs(key, d.entries[key], showKey, showVal);
      SetPairsValues(d, showKey, showVal, n - 1, i);
      ValuePairsValues(key, d.entries[key], showKey, showVal, x);
      if i == n - 1 {
        ValuesForJoin(pre, post, x, [], Shown(d.entries[d.keys[i]], showVal));
      } else {
        ShownApart(d.keys, showKey, i, n - 1);
        ValuesForJoin(pre, post, x, if i < n - 1 then Shown(d.entries[d.keys[i]], showVal) else [], []);
      }
    }
  }

  lemma {:induction false} ValuesForJoin(pre: seq<(string, string)>, post: seq<(string, string)>, x: string, a: seq<string>, b: seq<string>)
    requires ValuesFor(pre, x) == a && ValuesFor(post, x) == b
    ensures ValuesFor(pre + post, x) == a + b
  {
    ValuesForAppend(pre, post, x);
  }

  lemma {:induction false} ShownApart<K>(keys: seq<K>, showKey: Show<K>, i: nat, j: nat)
    requires ShowsApart(keys, showKey) && i < |keys| && j < |keys| && i != j
    ensures showKey(keys[i]) != showKey(keys[j])
  {
    if i > j {
      assert showKey(keys[j]) != showKey(keys[i]);
    }
  }

  /** Every line of the first `n` keys carries the printed form of one of them. */
  lemma {:induction false} SetPairsKeys<K(!new), V>(d: Dict<K, seq<V>>, showKey: Show<K>, showVal: Show<V>, n: nat)
    requires d.Valid() && n <= |d.keys|
    ensures forall x :: x in Firsts(AsStrs(SetPairs(d, showKey, showVal, n))) ==>
      exists i :: 0 <= i < n && x == Str(showKey(d.keys[i]))
  {
    if n > 0 {
      SetPairsKeys(d, showKey, showVal, n - 1);
      var key := d.keys[n - 1];
      var pre := SetPairs(d, showKey, showVal, n - 1);
      var post := ValuePairs(key, d.entries[key], showKey, showVal);
      AsStrsAppend(pre, post);
      var all := AsStrs(pre + post);
      forall x | x in Firsts(all) ensures exists i :: 0 <= i < n && x == Str(showKey(d.keys[i])) {
        var j :| 0 <= j < |all| && Firsts(all)[j] == x;
        if j < |pre| {
          assert Firsts(AsStrs(pre))[j] == x;
          assert x in Firsts(AsStrs(pre));
          var i :| 0 <= i < n - 1 && x == Str(showKey(d.keys[i]));
          assert 0 <= i < n;
        } else {
          assert all[j] == AsStrs(post)[j - |pre|];
          assert x == Str(showKey(d.keys[n - 1]));
        }
      }
    }
  }

  /** What the reloaded lines group under one printed key. */
  lemma {:induction false} SetsReloadedAt<K(!new), V>(d: Dict<K, seq<V>>, showKey: Show<K>, showVal: Show<V>, k: K)
    requires d.Valid() && ShowsApart(d.keys, showKey) && k in d.entries
    ensures ValuesFor(AsStrs(SetPairs(d, showKey, showVal, |d.keys|)), Str(showKey(k))) == StrsOf(Shown(d.entries[k], showVal))
  {
    var i :| 0 <= i < |d.keys| && d.keys[i] == k;
    SetPairsValues(d, showKey, showVal, |d.keys|, i);
    ValuesForAsStrs(SetPairs(d, showKey, showVal, |d.keys|), showKey(k));
  }

  /**
   * Read back, a set mapping whose keys print apart groups under each printed
   * key exactly that key's printed values, in iteration order; a key with an
   * empty set writes no line and does not come back.
   */
  lemma {:induction false} SetsReloaded<K(!new), V>(d: Dict<K, seq<V>>, showKey: Show<K>, showVal: Show<V>)
    requires d.Valid() && ShowsApart(d.keys, showKey)
    ensures forall k :: k in d.entries ==>
      (Str(showKey(k)) in Group(AsStrs(SetPairs(d, showKey, showVal, |d.keys|))).entries <==> d.entries[k] != [])
    ensures forall k :: k in d.entries && d.entries[k] != [] ==>
      Group(AsStrs(SetPairs(d, showKey, showVal, |d.keys|))).entries[Str(showKey(k))] == StrsOf(Shown(d.entries[k], showVal))
  {
    forall k | k in d.entries
      ensures ValuesFor(AsStrs(SetPairs(d, showKey, showVal, |d.keys|)), Str(showKey(k))) == StrsOf(Shown(d.entries[k], showVal))
    {
      SetsReloadedAt(d, showKey, showVal, k);
    }
  }

  /** Every key read back is the printed form of a key of the mapping. */
  lemma {:induction false} SetsReloadedKeys<K(!new), V>(d: Dict<K, seq<V>>, showKey: Show<K>, showVal: Show<V>)
    requires d.Valid()
    ensures forall x :: x in Group(AsStrs(SetPairs(d, showKey, showVal, |d.keys|))).entries ==>
      exists k :: k in d.entries && x == Str(showKey(k))
  {
    var ps := AsStrs(SetPairs(d, showKey, showVal, |d.keys|));
    SetPairsKeys(d, showKey, showVal, |d.keys|);
    forall x | x in Group(ps).entries ensures exists k :: k in d.entries && x == Str(showKey(k)) {
      var i :| 0 <= i < |d.keys| && x == Str(showKey(d.keys[i]));
      assert d.keys[i] in d.entries;
    }
  }
}
