/**
 * The delimited-line loaders (main/data_loader.py). A file is given as the
 * list `readlines()` returns (every line keeps its '\n'), or as `None` when
 * opening it fails, which the loaders catch and answer with an empty result.
 * `ast.literal_eval` is a parameter `eval`, since it is Python's own parser.
 */
module DataLoader {
  import opened Wrappers
  import opened Collections
  import opened Strings
  import opened Json

  const KEY_VAL_SEPARATOR: string := ";;"
  const COL_SEPARATOR: string := "\t"

  /** The text of a file, or `None` when `open` raises `IOError`. */
  type File = Option<seq<string>>

  /** `ast.literal_eval`, supplied from outside; it raises on malformed text. */
  type Eval = string -> Result<Value>

  /** `line.strip('\n').split(sep)`; Python rejects an empty separator with `ValueError`. */
  function Fields(line: string, sep: string): (r: Result<seq<string>>)
    ensures r.Err? <==> sep == []
    ensures r.Err? ==> r.error == ValueError
    ensures r.Ok? ==> |r.value| >= 1 && Join(r.value, sep) == Strip(line, '\n')
  {
    if sep == [] then Err(ValueError)
    else
      JoinSplit(Strip(line, '\n'), sep);
      Ok(Split(Strip(line, '\n'), sep))
  }

  /** `[name, value] = line.strip('\n').split(sep)`: unpacking other than two fields raises `ValueError`. */
  function NameValue(line: string, sep: string): (r: Result<(string, string)>)
    ensures r.Err? ==> r.error == ValueError
    ensures r.Ok? <==> Fields(line, sep).Ok? && |Fields(line, sep).value| == 2
    ensures r.Ok? ==>
      && r.value.0 + sep + r.value.1 == Strip(line, '\n')
      && !Contains(r.value.0, sep) && !Contains(r.value.1, sep)
  {
    var fields :- Fields(line, sep);
    if |fields| != 2 then Err(ValueError)
    else
      assert Join(fields, sep) == fields[0] + sep + Join(fields[1..], sep);
      Ok((fields[0], fields[1]))
  }

  function NameValues(lines: seq<string>, sep: string): (rs: seq<Result<(string, string)>>)
    ensures |rs| == |lines| && forall i :: 0 <= i < |lines| ==> rs[i] == NameValue(lines[i], sep)
  {
    seq(|lines|, i requires 0 <= i < |lines| => NameValue(lines[i], sep))
  }

  lemma {:induction false} GroupSnoc<K(!new), V>(ps: seq<(K, V)>, p: (K, V))
    ensures Group(ps + [p]) ==
      if p.0 in Group(ps).entries then Group(ps).Put(p.0, Group(ps).entries[p.0] + [p.1])
      else Group(ps).Put(p.0, [p.1])
  {
    assert (ps + [p])[..|ps|] == ps;
  }

  lemma {:induction false} OverwriteSnoc<K(!new), V>(ps: seq<(K, V)>, p: (K, V))
    ensures Overwrite(ps + [p]) == Overwrite(ps).Put(p.0, p.1)
  {
    assert (ps + [p])[..|ps|] == ps;
  }

  /** `if key not in d: d[key] = list()` followed by `d[key].append(value)`. */
  method AppendValue<K(==,!new), V>(d: Dict<K, seq<V>>, ghost pairs: seq<(K, V)>, key: K, value: V)
    returns (d': Dict<K, seq<V>>)
    requires d == Group(pairs)
    ensures d' == Group(pairs + [(key, value)])
  {
    GroupSnoc(pairs, (key, value));
    d' := d;
    if key !in d'.entries {
      d' := d'.Put(key, []);
    }
    d' := d'.Put(key, d'.entries[key] + [value]);
  }

  // ---------------------------------------------------------------------------
  // load_features
  // ---------------------------------------------------------------------------

  /** What `load_features` returns: a name-to-values dictionary or the raw lines. */
  datatype Features = FeatureMap(mapping: Dict<string, seq<string>>) | FeatureList(lines: seq<string>)

  function LoadFeaturesSpec(file: File, loadMapping: bool, sep: string): Result<Features> {
    if !loadMapping then Ok(FeatureList(if file.None? then [] else file.value))
    else if file.None? then Ok(FeatureMap(EmptyDict()))
    else
      var pairs :- AllOk(NameValues(file.value, sep));
      Ok(FeatureMap(Group(pairs)))
  }

  method LoadFeatures(file: File, loadMapping: bool, sep: string) returns (r: Result<Features>)
    ensures r == LoadFeaturesSpec(file, loadMapping, sep)
  {
    if loadMapping {
      var features: Dict<string, seq<string>> := EmptyDict();
      if file.Some? {
        var lines := file.value;
        ghost var rs := NameValues(lines, sep);
        ghost var pairs: seq<(string, string)> := [];
        var i := 0;
        assert rs[..0] == [];
        while i < |lines|
          invariant 0 <= i <= |lines|
          invariant AllOk(rs[..i]) == Ok(pairs)
          invariant features == Group(pairs)
        {
          AllOkStep(rs, i);
          var nv := NameValue(lines[i], sep);
          if nv.Err? {
            AllOkFailedPrefix(rs, i + 1);
            return Err(nv.error);
          }
          var (name, value) := nv.value;
          features := AppendValue(features, pairs, name, value);
          pairs := pairs + [(name, value)];
          i := i + 1;
        }
        assert rs[..i] == rs;
      }
      r := Ok(FeatureMap(features));
    } else {
      var features: seq<string> := [];
      if file.Some? {
        var lines := file.value;
        var i := 0;
        while i < |lines|
          invariant 0 <= i <= |lines| && features == lines[..i]
        {
          features := features + [lines[i]];
          i := i + 1;
        }
        assert lines[..i] == lines;
      }
      r := Ok(FeatureList(features));
    }
  }

  /**
   * In mapping mode the names appear in file order of first appearance, each
   * with the values of its lines in file order; name, separator and value
   * put together give back the line without its newlines.
   */
  lemma {:induction false} FeatureMapContents(lines: seq<string>, sep: string)
    requires LoadFeaturesSpec(Some(lines), true, sep).Ok?
    ensures var pairs := AllOk(NameValues(lines, sep)).value;
      var m := LoadFeaturesSpec(Some(lines), true, sep).value.mapping;
      && |pairs| == |lines|
      && (forall i :: 0 <= i < |lines| ==> pairs[i].0 + sep + pairs[i].1 == Strip(lines[i], '\n'))
      && m.keys == Unique(Firsts(pairs))
      && (forall name :: name in m.entries ==> m.entries[name] == ValuesFor(pairs, name))
  {
    var rs := NameValues(lines, sep);
    AllOkPerIndex(rs);
    var pairs := AllOk(rs).value;
    forall i | 0 <= i < |lines| ensures pairs[i].0 + sep + pairs[i].1 == Strip(lines[i], '\n') {
      assert rs[i] == Ok(pairs[i]);
    }
  }

  // ---------------------------------------------------------------------------
  // load_mapping
  // ---------------------------------------------------------------------------

  /** Field `i` of a line: literal-evaluated when `i` is in `evalSet`, else the text itself. */
  function FieldValue(raw: string, i: int, evalSet: set<int>, eval: Eval): (r: Result<Value>)
    ensures i !in evalSet ==> r == Ok(Str(raw))
  {
    if i in evalSet then eval(raw) else Ok(Str(raw))
  }

  /** One line of `load_mapping`, parsed and checked up to the dictionary access. */
  function MappingLine(line: string, evalSet: set<int>, sep: string, eval: Eval): (r: Result<(Value, Value)>)
    ensures r.Ok? ==> NameValue(line, sep).Ok? && Hashable(r.value.0)
    ensures evalSet == {} && NameValue(line, sep).Ok? ==>
      r == Ok((Str(NameValue(line, sep).value.0), Str(NameValue(line, sep).value.1)))
  {
    var nv :- NameValue(line, sep);
    var key :- FieldValue(nv.0, 0, evalSet, eval);
    var val :- FieldValue(nv.1, 1, evalSet, eval);
    if !Hashable(key) then Err(TypeError) else Ok((key, val))
  }

  function MappingLines(lines: seq<string>, evalSet: set<int>, sep: string, eval: Eval)
    : (rs: seq<Result<(Value, Value)>>)
    ensures |rs| == |lines|
    ensures forall i :: 0 <= i < |lines| ==> rs[i] == MappingLine(lines[i], evalSet, sep, eval)
  {
    seq(|lines|, i requires 0 <= i < |lines| => MappingLine(lines[i], evalSet, sep, eval))
  }

  /** What `load_mapping` returns: keys to lists of values, or keys to their last value. */
  datatype Mapping = Grouped(groups: Dict<Value, seq<Value>>) | Flat(entries: Dict<Value, Value>)

  function LoadMappingSpec(file: File, valueIsSet: bool, evalSet: set<int>, sep: string, eval: Eval)
    : Result<Mapping>
  {
    if file.None? then Ok(if valueIsSet then Grouped(EmptyDict()) else Flat(EmptyDict()))
    else
      var pairs :- AllOk(MappingLines(file.value, evalSet, sep, eval));
      Ok(if valueIsSet then Grouped(Group(pairs)) else Flat(Overwrite(pairs)))
  }

  method LoadMapping(file: File, valueIsSet: bool, evalSet: set<int>, sep: string, eval: Eval)
    returns (r: Result<Mapping>)
    ensures r == LoadMappingSpec(file, valueIsSet, evalSet, sep, eval)
  {
    var grouped: Dict<Value, seq<Value>> := EmptyDict();
    var flat: Dict<Value, Value> := EmptyDict();
    if file.Some? {
      var lines := file.value;
      ghost var rs := MappingLines(lines, evalSet, sep, eval);
      ghost var pairs: seq<(Value, Value)> := [];
      var i := 0;
      assert rs[..0] == [];
      while i < |lines|
        invariant 0 <= i <= |lines| && AllOk(rs[..i]) == Ok(pairs)
        invariant Built(valueIsSet, grouped, flat, pairs)
      {
        AllOkStep(rs, i);
        var line, grouped', flat' := LoadMappingLine(lines[i], valueIsSet, evalSet, sep, eval, grouped, flat, pairs);
        if line.Err? {
          AllOkFailedPrefix(rs, i + 1);
          return Err(line.error);
        }
        grouped, flat := grouped', flat';
        pairs := pairs + [line.value];
        i := i + 1;
      }
      assert rs[..i] == rs;
    }
    r := Ok(if valueIsSet then Grouped(grouped) else Flat(flat));
  }

  /** The dictionary the loop has built from `pairs`, in the mode `valueIsSet` selects. */
  ghost predicate Built(valueIsSet: bool, grouped: Dict<Value, seq<Value>>, flat: Dict<Value, Value>,
                        pairs: seq<(Value, Value)>) {
    (valueIsSet ==> grouped == Group(pairs)) && (!valueIsSet ==> flat == Overwrite(pairs))
  }

  /** The loop body: parse one line and store its value under its key. */
  method LoadMappingLine(text: string, valueIsSet: bool, evalSet: set<int>, sep: string, eval: Eval,
                         grouped: Dict<Value, seq<Value>>, flat: Dict<Value, Value>, ghost pairs: seq<(Value, Value)>)
    returns (line: Result<(Value, Value)>, grouped': Dict<Value, seq<Value>>, flat': Dict<Value, Value>)
    requires Built(valueIsSet, grouped, flat, pairs)
    ensures line == MappingLine(text, evalSet, sep, eval)
    ensures line.Ok? ==> Built(valueIsSet, grouped', flat', pairs + [line.value])
  {
    grouped', flat' := grouped, flat;
    line := MappingLine(text, evalSet, sep, eval);
    if line.Err? {
      return;
    }
    var (key, val) := line.value;
    if valueIsSet {
      grouped' := AppendValue(grouped, pairs, key, val);
    } else {
      OverwriteSnoc(pairs, (key, val));
      flat' := flat.Put(key, val);
    }
  }

  // ---------------------------------------------------------------------------
  // load_reviews
  // ---------------------------------------------------------------------------

  /** One line of `load_reviews`: exactly four fields, each evaluated when its index is in `evalSet`. */
  function ReviewLine(line: string, evalSet: set<int>, sep: string, eval: Eval): (r: Result<seq<Value>>)
    ensures r.Ok? ==> Fields(line, sep).Ok? && |Fields(line, sep).value| == 4 && |r.value| == 4
    ensures r.Ok? ==> forall j :: 0 <= j < 4 ==>
      FieldValue(Fields(line, sep).value[j], j, evalSet, eval) == Ok(r.value[j])
    ensures Fields(line, sep).Ok? && |Fields(line, sep).value| != 4 ==> r == Err(ValueError)
  {
    var fields :- Fields(line, sep);
    if |fields| != 4 then Err(ValueError)
    else
      var user :- FieldValue(fields[0], 0, evalSet, eval);
      var restaurant :- FieldValue(fields[1], 1, evalSet, eval);
      var rating :- FieldValue(fields[2], 2, evalSet, eval);
      var timestamp :- FieldValue(fields[3], 3, evalSet, eval);
      Ok([user, restaurant, rating, timestamp])
  }

  function ReviewLines(lines: seq<string>, evalSet: set<int>, sep: string, eval: Eval)
    : (rs: seq<Result<seq<Value>>>)
    ensures |rs| == |lines|
    ensures forall i :: 0 <= i < |lines| ==> rs[i] == ReviewLine(lines[i], evalSet, sep, eval)
  {
    seq(|lines|, i requires 0 <= i < |lines| => ReviewLine(lines[i], evalSet, sep, eval))
  }

  function LoadReviewsSpec(file: File, evalSet: set<int>, sep: string, eval: Eval): Result<seq<seq<Value>>> {
    if file.None? then Ok([]) else AllOk(ReviewLines(file.value, evalSet, sep, eval))
  }

  method LoadReviews(file: File, evalSet: set<int>, sep: string, eval: Eval) returns (r: Result<seq<seq<Value>>>)
    ensures r == LoadReviewsSpec(file, evalSet, sep, eval)
  {
    var reviews: seq<seq<Value>> := [];
    if file.Some? {
      var lines := file.value;
      ghost var rs := ReviewLines(lines, evalSet, sep, eval);
      var i := 0;
      assert rs[..0] == [];
      while i < |lines|
        invariant 0 <= i <= |lines|
        invariant AllOk(rs[..i]) == Ok(reviews)
      {
        AllOkStep(rs, i);
        var review := ReviewLine(lines[i], evalSet, sep, eval);
        if review.Err? {
          AllOkFailedPrefix(rs, i + 1);
          return Err(review.error);
        }
        reviews := reviews + [review.value];
        i := i + 1;
      }
      assert rs[..i] == rs;
    }
    r := Ok(reviews);
  }

  /** One review of four fields per line, in file order. */
  lemma {:induction false} ReviewsPerLine(lines: seq<string>, evalSet: set<int>, sep: string, eval: Eval)
    requires LoadReviewsSpec(Some(lines), evalSet, sep, eval).Ok?
    ensures var reviews := LoadReviewsSpec(Some(lines), evalSet, sep, eval).value;
      && |reviews| == |lines|
      && forall i :: 0 <= i < |lines| ==>
           |reviews[i]| == 4 && ReviewLine(lines[i], evalSet, sep, eval) == Ok(reviews[i])
  {
    var rs := ReviewLines(lines, evalSet, sep, eval);
    AllOkPerIndex(rs);
  }

  /** A file that cannot be opened loads as an empty list or dictionary. */
  lemma {:induction false} MissingFileLoadsEmpty(loadMapping: bool, valueIsSet: bool, evalSet: set<int>, sep: string, eval: Eval)
    ensures LoadFeaturesSpec(None, loadMapping, sep) ==
      Ok(if loadMapping then FeatureMap(EmptyDict()) else FeatureList([]))
    ensures LoadMappingSpec(None, valueIsSet, evalSet, sep, eval).Ok?
    ensures var m := LoadMappingSpec(None, valueIsSet, evalSet, sep, eval).value;
      if valueIsSet then m == Grouped(EmptyDict()) else m == Flat(EmptyDict())
    ensures LoadReviewsSpec(None, evalSet, sep, eval) == Ok([])
  {
  }
}
