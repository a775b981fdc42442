/**
 * Feature construction (main/preprocessor.py, `handle_attributes_features`,
 * `init_features`, `apply_queries`, `exist_queries`,
 * `map_restaurant_to_feature_dict`). A feature is named by a path of keys
 * joined with "::"; a restaurant's feature vector is the set of
 * (feature name, value) pairs read along those paths.
 */
module FeaturePreprocessor {
  import opened Wrappers
  import opened Collections
  import opened Strings
  import opened Json
  import opened BusinessPreprocessor

  const FEATURE_SEPARATOR: string := "::"
  const DEFAULT_VAL_IF_NOT_EXIST: string := "!other"

  /** What a value feature may take: a set of attribute values, or the list of clock times. */
  datatype Domain = Choices(choices: set<Value>) | Times(times: seq<string>)

  type ValFeatures = Dict<string, Domain>

  /** The three feature lists `init_features` returns. */
  datatype FeatureSpace = FeatureSpace(tf: seq<string>, val: ValFeatures, exist: seq<string>)

  // ---------------------------------------------------------------------------
  // handle_attributes_features
  // ---------------------------------------------------------------------------

  /** The collected attribute table and the dictionaries inside it are well formed. */
  ghost predicate TableValid(table: AttrTable) {
    table.Valid() && forall k :: k in table.entries && table.entries[k].Nested? ==> table.entries[k].inner.Valid()
  }

  /** Every attribute listed in the table, and every inner key listed in a nested one, has an entry. */
  ghost predicate TableIndexed(table: AttrTable) {
    table.Indexed() && forall k :: k in table.entries && table.entries[k].Nested? ==> table.entries[k].inner.Indexed()
  }

  /** The first `m` inner features of a nested attribute: `attributes::<key>::<inner key>`. */
  function InnerFeatures(key: string, inner: Dict<string, set<Value>>, m: nat, sep: string)
    : (r: seq<(string, set<Value>)>)
    requires inner.Indexed() && m <= |inner.keys|
    ensures |r| == m
  {
    if m == 0 then []
    else
      var ik := inner.keys[m - 1];
      InnerFeatures(key, inner, m - 1, sep) + [(ATTRIBUTES + sep + key + sep + ik, inner.entries[ik])]
  }

  /** The features one attribute contributes, in visiting order. */
  function EntryFeatures(key: string, entry: AttrEntry, sep: string): seq<(string, set<Value>)>
    requires entry.Nested? ==> entry.inner.Indexed()
  {
    match entry
    case Values(vals) => [(ATTRIBUTES + sep + key, vals)]
    case Nested(inner) => InnerFeatures(key, inner, |inner.keys|, sep)
  }

  /** The (name, value set) pairs of the first `n` attributes, in the order the loops visit them. */
  function AttrFeatures(table: AttrTable, n: nat, sep: string): seq<(string, set<Value>)>
    requires TableIndexed(table) && n <= |table.keys|
  {
    if n == 0 then []
    else AttrFeatures(table, n - 1, sep) + EntryFeatures(table.keys[n - 1], table.entries[table.keys[n - 1]], sep)
  }

  /** One attribute feature: a true/false feature, or a value feature whose values gain the default. */
  function HandleOne(tf: seq<string>, val: ValFeatures, feature: (string, set<Value>), default: string)
    : (seq<string>, ValFeatures)
  {
    if IsBooleanSet(feature.1) then (tf + [feature.0], val)
    else (tf, val.Put(feature.0, Choices(feature.1 + {Str(default)})))
  }

  function HandleAll(tf: seq<string>, val: ValFeatures, fs: seq<(string, set<Value>)>, default: string)
    : (seq<string>, ValFeatures)
  {
    if fs == [] then (tf, val)
    else
      var prev := HandleAll(tf, val, fs[..|fs| - 1], default);
      HandleOne(prev.0, prev.1, fs[|fs| - 1], default)
  }

  lemma {:induction false} HandleAllSnoc(tf: seq<string>, val: ValFeatures, fs: seq<(string, set<Value>)>,
                      f: (string, set<Value>), default: string)
    ensures HandleAll(tf, val, fs + [f], default) ==
      HandleOne(HandleAll(tf, val, fs, default).0, HandleAll(tf, val, fs, default).1, f, default)
  {
    assert (fs + [f])[..|fs|] == fs;
  }

  /** The names of the features whose value sets hold only booleans, in order. */
  function BooleanNames(fs: seq<(string, set<Value>)>): seq<string> {
    if fs == [] then []
    else BooleanNames(fs[..|fs| - 1]) + (if IsBooleanSet(fs[|fs| - 1].1) then [fs[|fs| - 1].0] else [])
  }

  /** The loop body for one attribute feature, as `handle_attributes_features` writes it. */
  method HandleFeature(tf: seq<string>, val: ValFeatures, name: string, vals: set<Value>, default: string)
    returns (tf': seq<string>, val': ValFeatures)
    ensures (tf', val') == HandleOne(tf, val, (name, vals), default)
  {
    tf', val' := tf, val;
    var allBoolean := true;
    var rest := vals;
    while rest != {}
      invariant rest <= vals
      invariant allBoolean <==> forall v :: v in vals - rest ==> v.Bool?
      decreases |rest|
    {
      var v :| v in rest;
      if !v.Bool? {
        allBoolean := false;
      }
      rest := rest - {v};
    }
    assert vals - rest == vals;
    if allBoolean {
      tf' := tf' + [name];
    } else {
      val' := val'.Put(name, Choices(vals + {Str(default)}));
    }
  }

  /** `HandleAll` over `a + b` is `HandleAll` over `b` from where `a` left off. */
  lemma {:induction false} HandleAllAppend(tf: seq<string>, val: ValFeatures, a: seq<(string, set<Value>)>,
                                           b: seq<(string, set<Value>)>, default: string)
    ensures HandleAll(tf, val, a + b, default) ==
      HandleAll(HandleAll(tf, val, a, default).0, HandleAll(tf, val, a, default).1, b, default)
    decreases |b|
  {
    if b == [] {
      assert a + b == a;
    } else {
      var init := b[..|b| - 1];
      var f := b[|b| - 1];
      assert a + b == (a + init) + [f];
      assert b == init + [f];
      HandleAllAppend(tf, val, a, init, default);
      HandleAllSnoc(tf, val, a + init, f, default);
      var mid := HandleAll(tf, val, a, default);
      HandleAllSnoc(mid.0, mid.1, init, f, default);
    }
  }

  /** The inner loop over a nested attribute. */
  method HandleNested(tf: seq<string>, val: ValFeatures, key: string, inner: Dict<string, set<Value>>,
                      default: string, sep: string)
    returns (tf': seq<string>, val': ValFeatures)
    requires inner.Indexed()
    ensures (tf', val') == HandleAll(tf, val, InnerFeatures(key, inner, |inner.keys|, sep), default)
  {
    tf', val' := tf, val;
    var j := 0;
    while j < |inner.keys|
      invariant 0 <= j <= |inner.keys|
      invariant (tf', val') == HandleAll(tf, val, InnerFeatures(key, inner, j, sep), default)
    {
      var innerKey := inner.keys[j];
      var name := ATTRIBUTES + sep + key + sep + innerKey;
      HandleAllSnoc(tf, val, InnerFeatures(key, inner, j, sep), (name, inner.entries[innerKey]), default);
      tf', val' := HandleFeature(tf', val', name, inner.entries[innerKey], default);
      j := j + 1;
    }
  }

  lemma {:induction false} AttrFeaturesStep(table: AttrTable, i: nat, sep: string)
    requires TableIndexed(table) && i < |table.keys|
    ensures table.keys[i] in table.entries
    ensures var e := table.entries[table.keys[i]];
      && (e.Nested? ==> e.inner.Indexed())
      && AttrFeatures(table, i + 1, sep) == AttrFeatures(table, i, sep) + EntryFeatures(table.keys[i], e, sep)
  {
  }

  /** One attribute of the table: its plain feature, or the inner loop over its nested features. */
  method HandleEntry(tf: seq<string>, val: ValFeatures, key: string, entry: AttrEntry, default: string, sep: string)
    returns (tf': seq<string>, val': ValFeatures)
    requires entry.Nested? ==> entry.inner.Indexed()
    ensures (tf', val') == HandleAll(tf, val, EntryFeatures(key, entry, sep), default)
  {
    if entry.Nested? {
      tf', val' := HandleNested(tf, val, key, entry.inner, default, sep);
    } else {
      var name := ATTRIBUTES + sep + key;
      HandleAllSnoc(tf, val, [], (name, entry.vals), default);
      assert [] + [(name, entry.vals)] == [(name, entry.vals)];
      tf', val' := HandleFeature(tf, val, name, entry.vals, default);
    }
  }

  /** The feature lists of the first `n` attributes, one list per attribute, in visiting order. */
  function EntryLists(table: AttrTable, n: nat, sep: string): (r: seq<seq<(string, set<Value>)>>)
    requires TableIndexed(table) && n <= |table.keys|
    ensures |r| == n
  {
    if n == 0 then []
    else EntryLists(table, n - 1, sep) + [EntryFeatures(table.keys[n - 1], table.entries[table.keys[n - 1]], sep)]
  }

  /** The features and value features after handling each list in turn, as the outer loop does. */
  function HandleEach(tf: seq<string>, val: ValFeatures, lists: seq<seq<(string, set<Value>)>>, default: string)
    : (seq<string>, ValFeatures)
  {
    if lists == [] then (tf, val)
    else
      var prev := HandleEach(tf, val, lists[..|lists| - 1], default);
      HandleAll(prev.0, prev.1, lists[|lists| - 1], default)
  }

  lemma {:induction false} HandleEachSnoc(tf: seq<string>, val: ValFeatures, lists: seq<seq<(string, set<Value>)>>,
                       l: seq<(string, set<Value>)>, default: string)
    ensures HandleEach(tf, val, lists + [l], default) ==
      HandleAll(HandleEach(tf, val, lists, default).0, HandleEach(tf, val, lists, default).1, l, default)
  {
    assert (lists + [l])[..|lists|] == lists;
  }

  /** Handling `a` and then `e` from where `a` left off is handling `a + e`. */
  lemma {:induction false} HandleAllChain(tf: seq<string>, val: ValFeatures, a: seq<(string, set<Value>)>, e: seq<(string, set<Value>)>,
                       fs: seq<(string, set<Value>)>, prev: (seq<string>, ValFeatures), next: (seq<string>, ValFeatures),
                       default: string)
    requires prev == HandleAll(tf, val, a, default) && fs == a + e
    requires next == HandleAll(prev.0, prev.1, e, default)
    ensures HandleAll(tf, val, fs, default) == next
  {
    HandleAllAppend(tf, val, a, e, default);
  }

  /** Handling the lists one after another handles their concatenation. */
  lemma {:induction false} HandleEachIsHandleAll(tf: seq<string>, val: ValFeatures,
                                                 lists: seq<seq<(string, set<Value>)>>, default: string)
    ensures HandleEach(tf, val, lists, default) == HandleAll(tf, val, Flatten(lists), default)
  {
    if lists != [] {
      var init := lists[..|lists| - 1];
      HandleEachIsHandleAll(tf, val, init, default);
      HandleAllChain(tf, val, Flatten(init), lists[|lists| - 1], Flatten(lists), HandleEach(tf, val, init, default),
                     HandleEach(tf, val, lists, default), default);
    }
  }

  /** The flat feature list is the concatenation of the per-attribute lists. */
  lemma {:induction false} AttrFeaturesFlat(table: AttrTable, n: nat, sep: string)
    requires TableIndexed(table) && n <= |table.keys|
    ensures AttrFeatures(table, n, sep) == Flatten(EntryLists(table, n, sep))
  {
    if n > 0 {
      AttrFeaturesFlat(table, n - 1, sep);
      var lists := EntryLists(table, n, sep);
      assert lists[..|lists| - 1] == EntryLists(table, n - 1, sep);
    }
  }

  /** Handling the table attribute by attribute handles its features in visiting order. */
  lemma {:induction false} HandleTableIsHandleAll(tf: seq<string>, val: ValFeatures, table: AttrTable, n: nat, default: string, sep: string)
    requires TableIndexed(table) && n <= |table.keys|
    ensures HandleEach(tf, val, EntryLists(table, n, sep), default) == HandleAll(tf, val, AttrFeatures(table, n, sep), default)
  {
    AttrFeaturesFlat(table, n, sep);
    HandleEachIsHandleAll(tf, val, EntryLists(table, n, sep), default);
  }

  method HandleAttributesFeatures(tf: seq<string>, val: ValFeatures, attributes: AttrTable,
                                  default: string, sep: string)
    returns (tf': seq<string>, val': ValFeatures)
    requires TableIndexed(attributes)
    ensures (tf', val') == HandleEach(tf, val, EntryLists(attributes, |attributes.keys|, sep), default)
  {
    tf', val' := tf, val;
    var i := 0;
    while i < |attributes.keys|
      invariant 0 <= i <= |attributes.keys|
      invariant (tf', val') == HandleEach(tf, val, EntryLists(attributes, i, sep), default)
    {
      var key := attributes.keys[i];
      AttrFeaturesStep(attributes, i, sep);
      HandleEachSnoc(tf, val, EntryLists(attributes, i, sep), EntryFeatures(key, attributes.entries[key], sep), default);
      tf', val' := HandleEntry(tf', val', key, attributes.entries[key], default, sep);
      i := i + 1;
    }
  }

  /**
   * Every attribute feature lands on one side: the boolean ones are appended
   * to the true/false list in visiting order, every other one becomes a value
   * feature whose values include the default; value features not named by an
   * attribute are untouched and none moves.
   */
  lemma {:induction false} HandleAllContents(tf: seq<string>, val: ValFeatures,
                                             fs: seq<(string, set<Value>)>, default: string)
    requires val.Valid()
    ensures var r := HandleAll(tf, val, fs, default);
      && r.0 == tf + BooleanNames(fs)
      && r.1.Valid() && val.keys <= r.1.keys
      && (forall i :: 0 <= i < |fs| && !IsBooleanSet(fs[i].1) ==>
            fs[i].0 in r.1.entries && r.1.entries[fs[i].0].Choices? && Str(default) in r.1.entries[fs[i].0].choices)
      && (forall k :: k in val.entries && k !in Firsts(fs) ==> k in r.1.entries && r.1.entries[k] == val.entries[k])
  {
    if fs != [] {
      var init := fs[..|fs| - 1];
      var f := fs[|fs| - 1];
      HandleAllContents(tf, val, init, default);
      assert fs == init + [f];
      FirstsSnoc(init, f);
    }
  }

  // ---------------------------------------------------------------------------
  // init_features
  // ---------------------------------------------------------------------------

  /** `[prefix + sep + x for x in xs]` */
  function Prefixed(prefix: string, sep: string, xs: seq<string>): (r: seq<string>)
    ensures |r| == |xs| && forall i :: 0 <= i < |xs| ==> r[i] == prefix + sep + xs[i]
  {
    seq(|xs|, i requires 0 <= i < |xs| => prefix + sep + xs[i])
  }

  /** The clock times of `init_24_hours()` followed by the constant default value. */
  function TimeList(): seq<string> {
    Labels(Slots(24, 0, 5)) + [DEFAULT_VAL_IF_NOT_EXIST]
  }

  /** `valfeatures[name] = time_list` for each name. */
  function PutTimes(val: ValFeatures, names: seq<string>, times: seq<string>): ValFeatures {
    if names == [] then val
    else PutTimes(val, names[..|names| - 1], times).Put(names[|names| - 1], Times(times))
  }

  /**
   * What `init_features` returns. `categories` is the category set in its
   * iteration order. `default` is never read: the city and time features
   * gain the constant default value, and the attribute features are named
   * with the default separator and default value, since `init_features`
   * does not pass its own on to `handle_attributes_features`.
   */
  function InitFeaturesSpec(attributes: AttrTable, categories: seq<string>, cities: set<Value>,
                            workdays: seq<string>, startTime: seq<string>, endTime: seq<string>,
                            default: string, sep: string): FeatureSpace
    requires TableValid(attributes)
  {
    var exist := Prefixed(CATEGORIES, sep, categories) + Prefixed(WORKDAYS, sep, workdays);
    var val1 := InitialValFeatures(cities, startTime, endTime);
    var handled := HandleAll([], val1, AttrFeatures(attributes, |attributes.keys|, FEATURE_SEPARATOR),
                             DEFAULT_VAL_IF_NOT_EXIST);
    FeatureSpace(handled.0, handled.1, exist)
  }

  method AppendPrefixed(acc: seq<string>, prefix: string, sep: string, xs: seq<string>) returns (r: seq<string>)
    ensures r == acc + Prefixed(prefix, sep, xs)
  {
    r := acc;
    var i := 0;
    while i < |xs|
      invariant 0 <= i <= |xs| && r == acc + Prefixed(prefix, sep, xs[..i])
    {
      assert Prefixed(prefix, sep, xs[..i + 1]) == Prefixed(prefix, sep, xs[..i]) + [prefix + sep + xs[i]];
      r := r + [prefix + sep + xs[i]];
      i := i + 1;
    }
    assert xs[..i] == xs;
  }

  method AssignTimes(val: ValFeatures, names: seq<string>, times: seq<string>) returns (r: ValFeatures)
    ensures r == PutTimes(val, names, times)
  {
    r := val;
    var i := 0;
    while i < |names|
      invariant 0 <= i <= |names| && r == PutTimes(val, names[..i], times)
    {
      assert names[..i + 1][..i] == names[..i];
      r := r.Put(names[i], Times(times));
      i := i + 1;
    }
    assert names[..i] == names;
  }

  method InitFeatures(attributes: AttrTable, categories: seq<string>, cities: set<Value>,
                      workdays: seq<string>, startTime: seq<string>, endTime: seq<string>,
                      default: string, sep: string)
    returns (r: FeatureSpace)
    requires TableValid(attributes)
    ensures r == InitFeaturesSpec(attributes, categories, cities, workdays, startTime, endTime, default, sep)
  {
    var existFeatures := AppendPrefixed([], CATEGORIES, sep, categories);
    var valFeatures: ValFeatures := EmptyDict();
    valFeatures := valFeatures.Put(CITY, Choices(cities + {Str(DEFAULT_VAL_IF_NOT_EXIST)}));
    existFeatures := AppendPrefixed(existFeatures, WORKDAYS, sep, workdays);
    assert existFeatures == Prefixed(CATEGORIES, sep, categories) + Prefixed(WORKDAYS, sep, workdays);
    var hours := Init24Hours(5);
    var timeList := hours.value + [DEFAULT_VAL_IF_NOT_EXIST];
    valFeatures := AssignTimes(valFeatures, startTime, timeList);
    valFeatures := AssignTimes(valFeatures, endTime, timeList);
    ghost var val1 := InitialValFeatures(cities, startTime, endTime);
    assert valFeatures == val1;
    var tfFeatures;
    tfFeatures, valFeatures := HandleAttributesFeatures([], valFeatures, attributes,
                                                        DEFAULT_VAL_IF_NOT_EXIST, FEATURE_SEPARATOR);
    HandleTableIsHandleAll([], val1, attributes, |attributes.keys|, DEFAULT_VAL_IF_NOT_EXIST, FEATURE_SEPARATOR);
    r := FeatureSpace(tfFeatures, valFeatures, existFeatures);
  }

  lemma {:induction false} PutTimesContents(val: ValFeatures, names: seq<string>, times: seq<string>)
    requires val.Valid()
    ensures var r := PutTimes(val, names, times);
      && r.Valid() && val.keys <= r.keys
      && (forall n :: n in names ==> n in r.entries && r.entries[n] == Times(times))
      && (forall k :: k in val.entries && k !in names ==> k in r.entries && r.entries[k] == val.entries[k])
  {
    if names != [] {
      PutTimesContents(val, names[..|names| - 1], times);
      assert names == names[..|names| - 1] + [names[|names| - 1]];
    }
  }

  /** An attribute feature name is never "city". */
  lemma {:induction false} AttrNameNotCity(fs: seq<(string, set<Value>)>, table: AttrTable, n: nat)
    requires TableValid(table) && n <= |table.keys| && fs == AttrFeatures(table, n, FEATURE_SEPARATOR)
    ensures CITY !in Firsts(fs)
  {
    forall i | 0 <= i < |fs| ensures fs[i].0 != CITY {
      AttrFeatureNamePrefix(table, n, i);
    }
  }

  lemma {:induction false} AttrFeatureNamePrefix(table: AttrTable, n: nat, i: nat)
    requires TableValid(table) && n <= |table.keys| && i < |AttrFeatures(table, n, FEATURE_SEPARATOR)|
    ensures |AttrFeatures(table, n, FEATURE_SEPARATOR)[i].0| > |CITY|
  {
    var prev := AttrFeatures(table, n - 1, FEATURE_SEPARATOR);
    var key := table.keys[n - 1];
    var entry := table.entries[key];
    if i < |prev| {
      AttrFeatureNamePrefix(table, n - 1, i);
    } else if entry.Nested? {
      InnerNamePrefix(key, entry.inner, |entry.inner.keys|, i - |prev|);
    }
  }

  lemma {:induction false} InnerNamePrefix(key: string, inner: Dict<string, set<Value>>, m: nat, j: nat)
    requires inner.Valid() && m <= |inner.keys| && j < m
    ensures |InnerFeatures(key, inner, m, FEATURE_SEPARATOR)[j].0| > |CITY|
  {
    if j < m - 1 {
      InnerNamePrefix(key, inner, m - 1, j);
    }
  }

  /** The value features `init_features` sets before the attribute features are handled. */
  function InitialValFeatures(cities: set<Value>, startTime: seq<string>, endTime: seq<string>): ValFeatures {
    var val0 := EmptyDict<string, Domain>().Put(CITY, Choices(cities + {Str(DEFAULT_VAL_IF_NOT_EXIST)}));
    PutTimes(PutTimes(val0, startTime, TimeList()), endTime, TimeList())
  }

  lemma {:induction false} InitialValFeaturesContents(cities: set<Value>, startTime: seq<string>, endTime: seq<string>)
    ensures var v := InitialValFeatures(cities, startTime, endTime);
      && v.Valid()
      && (CITY !in startTime + endTime ==>
            CITY in v.entries && v.entries[CITY] == Choices(cities + {Str(DEFAULT_VAL_IF_NOT_EXIST)}))
      && (forall n :: n in startTime + endTime ==> n in v.entries && v.entries[n] == Times(TimeList()))
  {
    var val0 := EmptyDict<string, Domain>().Put(CITY, Choices(cities + {Str(DEFAULT_VAL_IF_NOT_EXIST)}));
    var val1 := PutTimes(val0, startTime, TimeList());
    PutTimesContents(val0, startTime, TimeList());
    PutTimesContents(val1, endTime, TimeList());
  }

  /** The clock-time list has the 288 five-minute slots of a day and ends with the constant default value. */
  lemma {:induction false} TimeListShape()
    ensures |TimeList()| == 289 && TimeList()[288] == DEFAULT_VAL_IF_NOT_EXIST
  {
    DefaultGrid();
  }

  /**
   * `init_features`: the true/false features are the boolean attribute
   * features in order; "city" takes the cities plus the constant default and
   * each start and end time name takes the clock times plus that constant,
   * whatever `default` is passed, unless
   * a later write (a time name "city", an attribute feature of that name)
   * replaces them.
   */
  lemma {:induction false} InitFeaturesContents(attributes: AttrTable, categories: seq<string>, cities: set<Value>,
                             workdays: seq<string>, startTime: seq<string>, endTime: seq<string>,
                             default: string, sep: string)
    requires TableValid(attributes)
    ensures var r := InitFeaturesSpec(attributes, categories, cities, workdays, startTime, endTime, default, sep);
      var fs := AttrFeatures(attributes, |attributes.keys|, FEATURE_SEPARATOR);
      && r.tf == BooleanNames(fs)
      && (CITY !in startTime + endTime ==>
            CITY in r.val.entries && r.val.entries[CITY] == Choices(cities + {Str(DEFAULT_VAL_IF_NOT_EXIST)}))
      && (forall n :: n in startTime + endTime && n !in Firsts(fs) ==>
            n in r.val.entries && r.val.entries[n] == Times(TimeList()))
  {
    var fs := AttrFeatures(attributes, |attributes.keys|, FEATURE_SEPARATOR);
    var v := InitialValFeatures(cities, startTime, endTime);
    InitialValFeaturesContents(cities, startTime, endTime);
    HandleAllContents([], v, fs, DEFAULT_VAL_IF_NOT_EXIST);
    AttrNameNotCity(fs, attributes, |attributes.keys|);
  }

  // ---------------------------------------------------------------------------
  // apply_queries and exist_queries
  // ---------------------------------------------------------------------------

  /**
   * The `for` loop of `apply_queries` from `res` on: `None` when a key is not
   * `in` the current value, otherwise the value at the end of the path.
   */
  function Walk(res: Value, qs: seq<string>): Result<Option<Value>>
    decreases |qs|
  {
    if qs == [] then Ok(Some(res))
    else
      var present :- In(qs[0], res);
      if !present then Ok(None)
      else
        var next :- Get(res, qs[0]);
        Walk(next, qs[1..])
  }

  function ApplyQueriesSpec(restaurant: Value, qs: seq<string>, default: Value, target: Kind): Result<Value> {
    var found :- Walk(restaurant, qs);
    if found.None? || !IsInstance(found.value, target) then Ok(default) else Ok(found.value)
  }

  method ApplyQueries(restaurant: Value, qs: seq<string>, default: Value, target: Kind) returns (r: Result<Value>)
    ensures r == ApplyQueriesSpec(restaurant, qs, default, target)
  {
    var res := restaurant;
    var i := 0;
    while i < |qs|
      invariant 0 <= i <= |qs|
      invariant Walk(restaurant, qs) == Walk(res, qs[i..])
    {
      assert qs[i..][1..] == qs[i + 1..];
      var present := In(qs[i], res);
      if present.Err? {
        return Err(present.error);
      }
      if !present.value {
        return Ok(default);
      }
      var next := Get(res, qs[i]);
      if next.Err? {
        return Err(next.error);
      }
      res := next.value;
      i := i + 1;
    }
    assert qs[i..] == [];
    if !IsInstance(res, target) {
      return Ok(default);
    }
    r := Ok(res);
  }

  /** Plain nested dictionary lookup: `None` as soon as a value is not a dictionary or lacks the key. */
  function Lookup(v: Value, qs: seq<string>): Option<Value>
    decreases |qs|
  {
    if qs == [] then Some(v)
    else if v.Obj? && qs[0] in v.fields.entries then Lookup(v.fields.entries[qs[0]], qs[1..])
    else None
  }

  /**
   * `apply_queries` either raises `TypeError` (a value on the path that
   * cannot be searched or indexed by a string) or returns the nested value
   * when every key is present and the value has the target type, and the
   * default otherwise.
   */
  lemma {:induction false} ApplyQueriesMeaning(restaurant: Value, qs: seq<string>, default: Value, target: Kind)
    ensures var r := ApplyQueriesSpec(restaurant, qs, default, target);
      && (r.Err? ==> r.error == TypeError)
      && (r.Ok? ==> r.value == match Lookup(restaurant, qs)
                               case Some(x) => if IsInstance(x, target) then x else default
                               case None => default)
  {
    WalkIsLookup(restaurant, qs);
  }

  lemma {:induction false} WalkIsLookup(v: Value, qs: seq<string>)
    ensures Walk(v, qs).Err? ==> Walk(v, qs).error == TypeError
    ensures Walk(v, qs).Ok? ==> Walk(v, qs).value == Lookup(v, qs)
    decreases |qs|
  {
    if qs != [] && In(qs[0], v) == Ok(true) && v.Obj? {
      WalkIsLookup(v.fields.entries[qs[0]], qs[1..]);
    }
  }

  /** `res = res[q]` along `qs`. */
  function Descend(res: Value, qs: seq<string>): Result<Value>
    decreases |qs|
  {
    if qs == [] then Ok(res)
    else
      var next :- Get(res, qs[0]);
      Descend(next, qs[1..])
  }

  /** `exist_queries`: descend all keys but the last, then test the last with `in`. */
  function ExistQueriesSpec(restaurant: Value, qs: seq<string>): Result<bool> {
    if qs == [] then Err(IndexError)    // `qs[len(qs) - 1]` on an empty list
    else
      var res :- Descend(restaurant, qs[..|qs| - 1]);
      In(qs[|qs| - 1], res)
  }

  method ExistQueries(restaurant: Value, qs: seq<string>) returns (r: Result<bool>)
    ensures r == ExistQueriesSpec(restaurant, qs)
  {
    var res := restaurant;
    if |qs| == 0 {
      return Err(IndexError);
    }
    var i := 0;
    while i < |qs| - 1
      invariant 0 <= i <= |qs| - 1
      invariant Descend(restaurant, qs[..|qs| - 1]) == Descend(res, qs[i..|qs| - 1])
    {
      assert qs[i..|qs| - 1][1..] == qs[i + 1..|qs| - 1];
      var next := Get(res, qs[i]);
      if next.Err? {
        return Err(next.error);
      }
      res := next.value;
      i := i + 1;
    }
    assert qs[i..|qs| - 1] == [];
    r := In(qs[|qs| - 1], res);
  }

  // ---------------------------------------------------------------------------
  // map_restaurant_to_feature_dict
  // ---------------------------------------------------------------------------

  /** The three kinds of feature and how each is read. */
  datatype Job = TfJob(name: string) | ValJob(name: string) | ExistJob(name: string)

  function Jobs(tf: seq<string>, val: ValFeatures, exist: seq<string>): (r: seq<Job>)
    ensures |r| == |tf| + |val.keys| + |exist|
    ensures forall i :: 0 <= i < |tf| ==> r[i] == TfJob(tf[i])
    ensures forall i :: 0 <= i < |val.keys| ==> r[|tf| + i] == ValJob(val.keys[i])
    ensures forall i :: 0 <= i < |exist| ==> r[|tf| + |val.keys| + i] == ExistJob(exist[i])
  {
    seq(|tf|, i requires 0 <= i < |tf| => TfJob(tf[i]))
      + seq(|val.keys|, i requires 0 <= i < |val.keys| => ValJob(val.keys[i]))
      + seq(|exist|, i requires 0 <= i < |exist| => ExistJob(exist[i]))
  }

  /**
   * The dictionary entry a job writes: a true/false feature reads a boolean
   * (default `defaultBool`), a value feature a string (default `default`),
   * and an exist feature is `exist_queries(...) is not None`, which is True
   * whenever the query returns.
   */
  function JobEntry(restaurant: Value, job: Job, sep: string, default: string, defaultBool: bool)
    : Result<(string, Value)>
  {
    var qs :- PySplit(job.name, sep);
    match job
    case TfJob(name) =>
      var v :- ApplyQueriesSpec(restaurant, qs, Bool(defaultBool), BoolKind);
      Ok((name, v))
    case ValJob(name) =>
      var v :- ApplyQueriesSpec(restaurant, qs, Str(default), StrKind);
      Ok((name, v))
    case ExistJob(name) =>
      var found :- ExistQueriesSpec(restaurant, qs);
      Ok((name, Bool(true)))
  }

  function JobEntries(restaurant: Value, jobs: seq<Job>, sep: string, default: string, defaultBool: bool)
    : (rs: seq<Result<(string, Value)>>)
    ensures |rs| == |jobs|
    ensures forall i {:trigger rs[i]} :: 0 <= i < |jobs| ==> rs[i] == JobEntry(restaurant, jobs[i], sep, default, defaultBool)
  {
    seq(|jobs|, i requires 0 <= i < |jobs| => JobEntry(restaurant, jobs[i], sep, default, defaultBool))
  }

  /** The feature dictionary of a restaurant, filled in job order (later writes win). */
  function FeatureDictSpec(restaurant: Value, space: FeatureSpace, sep: string, default: string, defaultBool: bool)
    : Result<Dict<string, Value>>
  {
    var entries :- AllOk(JobEntries(restaurant, Jobs(space.tf, space.val, space.exist), sep, default, defaultBool));
    Ok(Overwrite(entries))
  }

  /** `frozenset(feature_dict.items())` */
  function ItemSet(d: Dict<string, Value>): set<(string, Value)> {
    set k | k in d.entries :: (k, d.entries[k])
  }

  /** The value one job reads from the restaurant. */
  method ComputeEntry(restaurant: Value, job: Job, sep: string, default: string, defaultBool: bool)
    returns (r: Result<(string, Value)>)
    ensures r == JobEntry(restaurant, job, sep, default, defaultBool)
  {
    var qs := PySplit(job.name, sep);
    if qs.Err? {
      return Err(qs.error);
    }
    var v: Result<Value>;
    match job {
      case TfJob(name) =>
        v := ApplyQueries(restaurant, qs.value, Bool(defaultBool), BoolKind);
      case ValJob(name) =>
        v := ApplyQueries(restaurant, qs.value, Str(default), StrKind);
      case ExistJob(name) =>
        var found := ExistQueries(restaurant, qs.value);
        v := if found.Err? then Err(found.error) else Ok(Bool(true));
    }
    if v.Err? {
      return Err(v.error);
    }
    r := Ok((job.name, v.value));
  }

  method MapRestaurantToFeatureDict(restaurant: Value, space: FeatureSpace, sep: string,
                                    default: string, defaultBool: bool)
    returns (r: Result<set<(string, Value)>>)
    ensures FeatureDictSpec(restaurant, space, sep, default, defaultBool).Err? ==>
      r == Err(FeatureDictSpec(restaurant, space, sep, default, defaultBool).error)
    ensures FeatureDictSpec(restaurant, space, sep, default, defaultBool).Ok? ==>
      r == Ok(ItemSet(FeatureDictSpec(restaurant, space, sep, default, defaultBool).value))
  {
    var featureDict := FillFeatureDict(restaurant, Jobs(space.tf, space.val, space.exist), sep, default, defaultBool);
    if featureDict.Err? {
      return Err(featureDict.error);
    }
    r := Ok(ItemSet(featureDict.value));
  }

  /** The loop over the jobs: every job writes its entry into the dictionary, the first failure ends it. */
  method FillFeatureDict(restaurant: Value, jobs: seq<Job>, sep: string, default: string, defaultBool: bool)
    returns (r: Result<Dict<string, Value>>)
    ensures var entries := AllOk(JobEntries(restaurant, jobs, sep, default, defaultBool));
      && (entries.Err? ==> r == Err(entries.error))
      && (entries.Ok? ==> r == Ok(Overwrite(entries.value)))
  {
    ghost var done: seq<(string, Value)> := [];
    var featureDict: Dict<string, Value> := EmptyDict();
    var i := 0;
    assert JobEntries(restaurant, jobs, sep, default, defaultBool)[..0] == [];
    while i < |jobs|
      invariant FilledTo(restaurant, jobs, sep, default, defaultBool, i, done, featureDict)
    {
      var entry;
      entry, done, featureDict := FillEntry(restaurant, jobs, sep, default, defaultBool, i, done, featureDict);
      if entry.Err? {
        return Err(entry.error);
      }
      i := i + 1;
    }
    assert JobEntries(restaurant, jobs, sep, default, defaultBool)[..i] == JobEntries(restaurant, jobs, sep, default, defaultBool);
    r := Ok(featureDict);
  }

  /** The dictionary holds what the first `i` jobs wrote, later writes winning. */
  ghost predicate FilledTo(restaurant: Value, jobs: seq<Job>, sep: string, default: string, defaultBool: bool,
                           i: int, done: seq<(string, Value)>, featureDict: Dict<string, Value>) {
    && 0 <= i <= |jobs|
    && AllOk(JobEntries(restaurant, jobs, sep, default, defaultBool)[..i]) == Ok(done)
    && featureDict == Overwrite(done)
  }

  /** Job `i` writes its entry, or its failure is the failure of all the jobs. */
  method FillEntry(restaurant: Value, jobs: seq<Job>, sep: string, default: string, defaultBool: bool,
                   i: nat, ghost done: seq<(string, Value)>, featureDict: Dict<string, Value>)
    returns (entry: Result<(string, Value)>, ghost done': seq<(string, Value)>, featureDict': Dict<string, Value>)
    requires FilledTo(restaurant, jobs, sep, default, defaultBool, i, done, featureDict) && i < |jobs|
    ensures entry.Err? ==> AllOk(JobEntries(restaurant, jobs, sep, default, defaultBool)) == Err(entry.error)
    ensures entry.Ok? ==> FilledTo(restaurant, jobs, sep, default, defaultBool, i + 1, done', featureDict')
  {
    ghost var rs := JobEntries(restaurant, jobs, sep, default, defaultBool);
    AllOkStep(rs, i);
    entry := ComputeEntry(restaurant, jobs[i], sep, default, defaultBool);
    done', featureDict' := done, featureDict;
    if entry.Err? {
      AllOkFailedPrefix(rs, i + 1);
      return;
    }
    OverwriteSnocStep(done, entry.value);
    featureDict' := featureDict.Put(entry.value.0, entry.value.1);
    done' := done + [entry.value];
  }

  /** The entries the jobs write: one per listed feature name, in order, and True for every exist feature. */
  lemma {:induction false} JobEntriesShape(restaurant: Value, space: FeatureSpace, sep: string, default: string, defaultBool: bool,
                        entries: seq<(string, Value)>)
    requires AllOk(JobEntries(restaurant, Jobs(space.tf, space.val, space.exist), sep, default, defaultBool)) == Ok(entries)
    ensures Firsts(entries) == space.tf + space.val.keys + space.exist
    ensures forall i :: |space.tf| + |space.val.keys| <= i < |entries| ==> entries[i].1 == Bool(true)
  {
    var jobs := Jobs(space.tf, space.val, space.exist);
    EntriesFollowJobs(restaurant, jobs, entries, sep, default, defaultBool);
    JobNames(space);
  }

  lemma {:induction false} JobNames(space: FeatureSpace)
    ensures var jobs := Jobs(space.tf, space.val, space.exist);
      forall i :: 0 <= i < |jobs| ==>
        && jobs[i].name == (space.tf + space.val.keys + space.exist)[i]
        && (i >= |space.tf| + |space.val.keys| ==> jobs[i].ExistJob?)
  {
  }

  /** When every job succeeds, entry `i` is named after job `i`, and an exist job's entry is True. */
  lemma {:induction false} EntriesFollowJobs(restaurant: Value, jobs: seq<Job>, entries: seq<(string, Value)>,
                          sep: string, default: string, defaultBool: bool)
    requires AllOk(JobEntries(restaurant, jobs, sep, default, defaultBool)) == Ok(entries)
    ensures |entries| == |jobs|
    ensures forall i :: 0 <= i < |jobs| ==> entries[i].0 == jobs[i].name
    ensures forall i :: 0 <= i < |jobs| && jobs[i].ExistJob? ==> entries[i].1 == Bool(true)
  {
    var rs := JobEntries(restaurant, jobs, sep, default, defaultBool);
    AllOkPerIndex(rs);
    forall i | 0 <= i < |jobs|
      ensures entries[i].0 == jobs[i].name
      ensures jobs[i].ExistJob? ==> entries[i].1 == Bool(true)
    {
      JobEntryShape(restaurant, jobs[i], sep, default, defaultBool);
    }
  }

  lemma {:induction false} JobEntryShape(restaurant: Value, job: Job, sep: string, default: string, defaultBool: bool)
    ensures var r := JobEntry(restaurant, job, sep, default, defaultBool);
      r.Ok? ==> r.value.0 == job.name && (job.ExistJob? ==> r.value.1 == Bool(true))
  {
  }

  /**
   * A restaurant's feature dictionary has the listed feature names as keys,
   * each once, in first-listed order.
   */
  lemma {:induction false} FeatureDictKeys(restaurant: Value, space: FeatureSpace, sep: string, default: string, defaultBool: bool)
    requires FeatureDictSpec(restaurant, space, sep, default, defaultBool).Ok?
    ensures var d := FeatureDictSpec(restaurant, space, sep, default, defaultBool).value;
      && d.keys == Unique(space.tf + space.val.keys + space.exist)
      && forall k :: k in d.entries <==> k in space.tf || k in space.val.keys || k in space.exist
  {
    var rs := JobEntries(restaurant, Jobs(space.tf, space.val, space.exist), sep, default, defaultBool);
    JobEntriesShape(restaurant, space, sep, default, defaultBool, AllOk(rs).value);
  }

  /** Every exist feature of a restaurant is True: `exist_queries(...) is not None` never fails to hold. */
  lemma {:induction false} ExistFeaturesTrue(restaurant: Value, space: FeatureSpace, sep: string, default: string, defaultBool: bool)
    requires FeatureDictSpec(restaurant, space, sep, default, defaultBool).Ok?
    ensures forall k :: k in space.exist ==>
      (k, Bool(true)) in ItemSet(FeatureDictSpec(restaurant, space, sep, default, defaultBool).value)
  {
    var rs := JobEntries(restaurant, Jobs(space.tf, space.val, space.exist), sep, default, defaultBool);
    var entries := AllOk(rs).value;
    JobEntriesShape(restaurant, space, sep, default, defaultBool, entries);
    var m := |space.tf| + |space.val.keys|;
    forall k | k in space.exist ensures (k, Bool(true)) in ItemSet(Overwrite(entries)) {
      var i := FirstIndex(space.exist, k);
      assert Firsts(entries)[m + i] == k;
      OverwriteTail(entries, m, m + i, Bool(true));
    }
  }
}
