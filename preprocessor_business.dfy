/**
 * Clean-up of one Yelp business record and collection of its attributes
 * (main/preprocessor.py, `preprocess_categories`,
 * `preprocess_hours_extend_workdays`, `add_attributes`, `init_24_hours`,
 * `is_boolean_set`). The source updates the caller's dictionaries in place;
 * here each operation takes the dictionary and returns its new value.
 */
module BusinessPreprocessor {
  import opened Wrappers
  import opened Collections
  import opened Strings
  import opened Json

  const HOURS: string := "hours"
  const CATEGORIES: string := "categories"
  const ATTRIBUTES: string := "attributes"
  const CITY: string := "city"
  const WORKDAYS: string := "workdays"
  const WORKDAYS_VALUE: seq<string> :=
    ["Monday", "Tuesday", "Wednesday", "Thursday", "Friday", "Saturday", "Sunday"]
  const EXCLUDE_WORDS: seq<string> := ["Food", "Restaurants"]
  const CATEGORY_SEPARATOR: string := ", "
  const HOURS_SEPARATOR: string := "-"

  /** A business record after `json.loads`: field names to values. */
  type Record = Dict<string, Value>

  function StartName(day: string): string {
    day + "_start_time"
  }

  function EndName(day: string): string {
    day + "_end_time"
  }

  function Strs(xs: seq<string>): (r: seq<Value>)
    ensures |r| == |xs| && forall i :: 0 <= i < |xs| ==> r[i] == Str(xs[i])
  {
    seq(|xs|, i requires 0 <= i < |xs| => Str(xs[i]))
  }

  // ---------------------------------------------------------------------------
  // preprocess_categories
  // ---------------------------------------------------------------------------

  /** `[x for x in pieces if x not in exclude]` */
  function Keywords(pieces: seq<string>, exclude: seq<string>): (r: seq<string>)
    ensures IsSubsequence(r, pieces)
    ensures forall x :: x in r <==> x in pieces && x !in exclude
  {
    if pieces == [] then []
    else if pieces[0] in exclude then Keywords(pieces[1..], exclude)
    else [pieces[0]] + Keywords(pieces[1..], exclude)
  }

  /** The category keywords of a categories string. */
  function CategoryWords(text: string, exclude: seq<string>): seq<string> {
    Keywords(Split(text, CATEGORY_SEPARATOR), exclude)
  }

  /**
   * `business["categories"]` becomes the list of its ", "-separated words
   * without the excluded ones; a missing field raises `KeyError` and a value
   * that is not a string has no `split` (`AttributeError`).
   */
  function PreprocessCategories(business: Record, exclude: seq<string>): (r: Result<Record>)
    requires business.Valid()
    ensures r.Ok? <==> CATEGORIES in business.entries && business.entries[CATEGORIES].Str?
    ensures r.Err? ==> r.error == if CATEGORIES in business.entries then AttributeError else KeyError
    ensures r.Ok? ==>
      && r.value.Valid() && r.value.keys == business.keys
      && r.value.entries[CATEGORIES] == List(Strs(CategoryWords(business.entries[CATEGORIES].s, exclude)))
      && forall k :: k in business.entries && k != CATEGORIES ==> r.value.entries[k] == business.entries[k]
  {
    if CATEGORIES !in business.entries then Err(KeyError)
    else
      var text := business.entries[CATEGORIES];
      if !text.Str? then Err(AttributeError)
      else Ok(business.Put(CATEGORIES, List(Strs(CategoryWords(text.s, exclude)))))
  }

  /**
   * The words kept are exactly the pieces not excluded, in their order; with
   * nothing excluded, joining them with ", " gives the original string back.
   */
  lemma {:induction false} CategoryWordsContents(text: string, exclude: seq<string>)
    ensures IsSubsequence(CategoryWords(text, exclude), Split(text, CATEGORY_SEPARATOR))
    ensures forall x :: x in CategoryWords(text, exclude) <==>
      x in Split(text, CATEGORY_SEPARATOR) && x !in exclude
    ensures (forall x :: x in Split(text, CATEGORY_SEPARATOR) ==> x !in exclude) ==>
      Join(CategoryWords(text, exclude), CATEGORY_SEPARATOR) == text
  {
    var pieces := Split(text, CATEGORY_SEPARATOR);
    if forall x :: x in pieces ==> x !in exclude {
      KeywordsKeepAll(pieces, exclude);
      JoinSplit(text, CATEGORY_SEPARATOR);
    }
  }

  lemma {:induction false} KeywordsKeepAll(pieces: seq<string>, exclude: seq<string>)
    requires forall x :: x in pieces ==> x !in exclude
    ensures Keywords(pieces, exclude) == pieces
  {
    if pieces != [] {
      assert pieces[0] in pieces;
      KeywordsKeepAll(pieces[1..], exclude);
    }
  }

  // ---------------------------------------------------------------------------
  // preprocess_hours_extend_workdays
  // ---------------------------------------------------------------------------

  /** `hour.split("-")` read at 0 and 1. */
  function DayHours(hour: Value): (r: Result<(string, string)>)
    ensures r.Err? ==> r.error == if hour.Str? then IndexError else AttributeError
  {
    if !hour.Str? then Err(AttributeError)
    else
      var parts := Split(hour.s, HOURS_SEPARATOR);
      if |parts| < 2 then Err(IndexError) else Ok((parts[0], parts[1]))
  }

  /**
   * A day's hours split only when they are a string holding "-" (otherwise
   * `IndexError`, or `AttributeError` for a non-string); for "open-close"
   * the two parts put back together give the hours again.
   */
  lemma {:induction false} DayHoursParts(hour: Value)
    ensures DayHours(hour).Ok? <==> hour.Str? && Contains(hour.s, HOURS_SEPARATOR)
    ensures DayHours(hour).Ok? && |Split(hour.s, HOURS_SEPARATOR)| == 2 ==>
      DayHours(hour).value.0 + HOURS_SEPARATOR + DayHours(hour).value.1 == hour.s
  {
    if hour.Str? {
      var parts := Split(hour.s, HOURS_SEPARATOR);
      SplitPieces(hour.s, HOURS_SEPARATOR);
      JoinSplit(hour.s, HOURS_SEPARATOR);
      if |parts| == 2 {
        assert parts[1..] == [parts[1]];
        assert Join(parts, HOURS_SEPARATOR) == parts[0] + HOURS_SEPARATOR + parts[1];
      }
    }
  }

  /** One day of the hours loop: its start and end time written into the record. */
  function DayStep(prev: Record, day: string, hour: Value): (r: Result<Record>)
    ensures r.Ok? <==> DayHours(hour).Ok?
  {
    var times :- DayHours(hour);
    Ok(prev.Put(StartName(day), Str(times.0)).Put(EndName(day), Str(times.1)))
  }

  /** The record after the first `n` days of `hours` have written their start and end times. */
  function ExtendDays(business: Record, hours: Dict<string, Value>, n: nat): Result<Record>
    requires hours.Indexed() && n <= |hours.keys|
  {
    if n == 0 then Ok(business)
    else
      var prev :- ExtendDays(business, hours, n - 1);
      DayStep(prev, hours.keys[n - 1], hours.entries[hours.keys[n - 1]])
  }

  /** The record's hours dictionary, when it has one, is a well-formed dictionary. */
  ghost predicate HoursValid(business: Record) {
    HOURS in business.entries && business.entries[HOURS].Obj? ==> business.entries[HOURS].fields.Valid()
  }

  /** What `preprocess_hours_extend_workdays` leaves in the record, or the error it raises. */
  function PreprocessHours(business: Record): Result<Record>
    requires HoursValid(business)
  {
    if HOURS !in business.entries then Err(KeyError)
    else
      var hours := business.entries[HOURS];
      if !hours.Obj? then Err(AttributeError)
      else
        var extended :- ExtendDays(business, hours.fields, |hours.fields.keys|);
        Ok(extended.Put(WORKDAYS, List(Strs(hours.fields.keys))))
  }

  method PreprocessHoursExtendWorkdays(business: Record) returns (r: Result<Record>)
    requires HoursValid(business)
    ensures r == PreprocessHours(business)
  {
    if HOURS !in business.entries {
      return Err(KeyError);
    }
    var hours := business.entries[HOURS];
    if !hours.Obj? {
      return Err(AttributeError);
    }
    var extended, workdays := ExtendWorkdays(business, hours.fields);
    if extended.Err? {
      return Err(extended.error);
    }
    r := Ok(extended.value.Put(WORKDAYS, List(Strs(workdays))));
  }

  /** The loop over `hours.items()`: writes each day's times and lists the days visited. */
  method ExtendWorkdays(business: Record, fields: Dict<string, Value>)
    returns (r: Result<Record>, workdays: seq<string>)
    requires fields.Indexed()
    ensures r == ExtendDays(business, fields, |fields.keys|)
    ensures r.Ok? ==> workdays == fields.keys
  {
    workdays := [];
    var current := business;
    var i := 0;
    while i < |fields.keys|
      invariant ExtendedTo(business, fields, i, current)
      invariant workdays == fields.keys[..i]
    {
      workdays := workdays + [fields.keys[i]];
      var next := ExtendDay(business, fields, i, current);
      if next.Err? {
        ExtendDaysFailed(business, fields, i + 1);
        return next, workdays;
      }
      current := next.value;
      i := i + 1;
    }
    r := Ok(current);
  }

  /** The loop's state after `i` days: the record the first `i` steps produce. */
  ghost predicate ExtendedTo(business: Record, fields: Dict<string, Value>, i: int, current: Record) {
    fields.Indexed() && 0 <= i <= |fields.keys| && ExtendDays(business, fields, i) == Ok(current)
  }

  /** The loop body for the `i`-th day of `hours`. */
  method ExtendDay(ghost business: Record, fields: Dict<string, Value>, i: nat, current: Record)
    returns (next: Result<Record>)
    requires ExtendedTo(business, fields, i, current) && i < |fields.keys|
    ensures next == ExtendDays(business, fields, i + 1)
    ensures next.Ok? ==> ExtendedTo(business, fields, i + 1, next.value)
  {
    var day := fields.keys[i];
    next := WriteDayTimes(current, day, fields.entries[day]);
    ExtendDaysNext(business, fields, i, current, next);
  }

  lemma {:induction false} ExtendDaysNext(business: Record, hours: Dict<string, Value>, i: nat, current: Record, next: Result<Record>)
    requires hours.Indexed() && i < |hours.keys| && ExtendDays(business, hours, i) == Ok(current)
    requires next == DayStep(current, hours.keys[i], hours.entries[hours.keys[i]])
    ensures ExtendDays(business, hours, i + 1) == next
  {
  }

  /** `start_end = hour.split("-")` and the two assignments into the record. */
  method WriteDayTimes(current: Record, day: string, hour: Value) returns (r: Result<Record>)
    ensures r == DayStep(current, day, hour)
  {
    var startEnd := DayHours(hour);
    if startEnd.Err? {
      return Err(startEnd.error);
    }
    var next := current.Put(StartName(day), Str(startEnd.value.0));
    next := next.Put(EndName(day), Str(startEnd.value.1));
    r := Ok(next);
  }

  lemma {:induction false} ExtendDaysFailed(business: Record, hours: Dict<string, Value>, n: nat)
    requires hours.Indexed() && n <= |hours.keys| && ExtendDays(business, hours, n).Err?
    ensures ExtendDays(business, hours, |hours.keys|) == ExtendDays(business, hours, n)
    decreases |hours.keys| - n
  {
    if n < |hours.keys| {
      ExtendDaysFailed(business, hours, n + 1);
    }
  }

  /** `k` is the start or end field of one of `days`. */
  predicate IsDayField(k: string, days: seq<string>) {
    exists d :: d in days && (k == StartName(d) || k == EndName(d))
  }

  lemma {:induction false} StartNameInjective(a: string, b: string)
    requires StartName(a) == StartName(b)
    ensures a == b
  {
    assert a == StartName(a)[..|a|];
  }

  lemma {:induction false} EndNameInjective(a: string, b: string)
    requires EndName(a) == EndName(b)
    ensures a == b
  {
    assert a == EndName(a)[..|a|];
  }

  lemma {:induction false} StartNotEnd(a: string, b: string)
    ensures StartName(a) != EndName(b)
  {
    var s := StartName(a);
    assert s[|s| - 9] == 't';
    assert |EndName(b)| == |s| ==> EndName(b)[|s| - 9] == '_';
  }

  lemma {:induction false} WorkdaysNotDayField(d: string)
    ensures StartName(d) != WORKDAYS && EndName(d) != WORKDAYS
  {
    assert |StartName(d)| >= 11 && |EndName(d)| >= 9;
  }

  /** One day's step writes its two fields and leaves every other field where and as it was. */
  lemma {:induction false} DayStepContents(prev: Record, day: string, hour: Value)
    requires prev.Valid() && DayStep(prev, day, hour).Ok?
    ensures var r := DayStep(prev, day, hour).value;
      && r.Valid() && prev.keys <= r.keys
      && StartName(day) in r.entries && EndName(day) in r.entries
      && r.entries[StartName(day)] == Str(DayHours(hour).value.0)
      && r.entries[EndName(day)] == Str(DayHours(hour).value.1)
      && forall k :: k in prev.entries && k != StartName(day) && k != EndName(day) ==>
           k in r.entries && r.entries[k] == prev.entries[k]
  {
    StartNotEnd(day, day);
  }

  /** A day's fields are not touched by another day's step. */
  lemma {:induction false} OtherDayFields(d: string, day: string)
    requires d != day
    ensures StartName(d) != StartName(day) && StartName(d) != EndName(day)
    ensures EndName(d) != StartName(day) && EndName(d) != EndName(day)
  {
    if StartName(d) == StartName(day) { StartNameInjective(d, day); }
    if EndName(d) == EndName(day) { EndNameInjective(d, day); }
    StartNotEnd(d, day);
    StartNotEnd(day, d);
  }

  lemma {:induction false} NotDayFieldOfPrefix(k: string, days: seq<string>, n: nat)
    requires 0 < n <= |days| && !IsDayField(k, days[..n])
    ensures !IsDayField(k, days[..n - 1]) && k != StartName(days[n - 1]) && k != EndName(days[n - 1])
  {
    forall d | d in days[..n - 1] ensures k != StartName(d) && k != EndName(d) {
      assert d in days[..n];
    }
    assert days[n - 1] in days[..n];
  }

  /** The hours loop never moves a field and leaves every field that is not a day field alone. */
  lemma {:induction false} ExtendDaysKeeps(business: Record, hours: Dict<string, Value>, n: nat)
    requires ExtendOk(business, hours, n)
    ensures var r := ExtendDays(business, hours, n).value;
      && r.Valid() && business.keys <= r.keys
      && forall k :: k in business.entries && !IsDayField(k, hours.keys[..n]) ==>
           k in r.entries && r.entries[k] == business.entries[k]
  {
    if n > 0 {
      ExtendDaysKeeps(business, hours, n - 1);
      var prev := ExtendDays(business, hours, n - 1).value;
      var day := hours.keys[n - 1];
      var hour := hours.entries[day];
      assert ExtendDays(business, hours, n) == DayStep(prev, day, hour);
      DayStepContents(prev, day, hour);
      var r := ExtendDays(business, hours, n).value;
      forall k | k in business.entries && !IsDayField(k, hours.keys[..n])
        ensures k in r.entries && r.entries[k] == business.entries[k]
      {
        NotDayFieldOfPrefix(k, hours.keys, n);
      }
    }
  }

  /** The first `n` days of well-formed dictionaries extend the record without an error. */
  ghost predicate ExtendOk(business: Record, hours: Dict<string, Value>, n: int) {
    business.Valid() && hours.Valid() && 0 <= n <= |hours.keys| && ExtendDays(business, hours, n).Ok?
  }

  /** Each of the first `n` days of `hours` holds its start and end time in `r`. */
  predicate WrittenUpTo(r: Record, hours: Dict<string, Value>, n: nat)
    requires hours.Valid() && n <= |hours.keys|
  {
    forall i {:trigger DayWritten(r, hours.keys[i], hours.entries[hours.keys[i]])} ::
      0 <= i < n ==> DayWritten(r, hours.keys[i], hours.entries[hours.keys[i]])
  }

  lemma {:induction false} WrittenAt(r: Record, hours: Dict<string, Value>, n: nat, i: nat)
    requires hours.Valid() && n <= |hours.keys| && WrittenUpTo(r, hours, n) && i < n
    ensures DayWritten(r, hours.keys[i], hours.entries[hours.keys[i]])
  {
  }

  /** After the first `n` days, each of them holds its start and end time. */
  lemma {:induction false} ExtendDaysWrites(business: Record, hours: Dict<string, Value>, n: nat)
    requires ExtendOk(business, hours, n)
    ensures ExtendDays(business, hours, n).value.Valid()
    ensures WrittenUpTo(ExtendDays(business, hours, n).value, hours, n)
  {
    if n > 0 {
      var before := ExtendDays(business, hours, n - 1);
      var day := hours.keys[n - 1];
      assert before.Ok? && ExtendDays(business, hours, n) == DayStep(before.value, day, hours.entries[day]);
      ExtendDaysWrites(business, hours, n - 1);
      ExtendDaysWritesStep(before.value, hours, n);
    }
  }

  /** The `n`-th day's step writes that day and keeps the days before it. */
  lemma {:induction false} ExtendDaysWritesStep(prev: Record, hours: Dict<string, Value>, n: nat)
    requires prev.Valid() && hours.Valid() && 0 < n <= |hours.keys|
    requires DayStep(prev, hours.keys[n - 1], hours.entries[hours.keys[n - 1]]).Ok?
    requires WrittenUpTo(prev, hours, n - 1)
    ensures DayStep(prev, hours.keys[n - 1], hours.entries[hours.keys[n - 1]]).value.Valid()
    ensures WrittenUpTo(DayStep(prev, hours.keys[n - 1], hours.entries[hours.keys[n - 1]]).value, hours, n)
  {
    var day := hours.keys[n - 1];
    var hour := hours.entries[day];
    DayStepContents(prev, day, hour);
    forall i | 0 <= i < n - 1
      ensures DayWritten(DayStep(prev, day, hour).value, hours.keys[i], hours.entries[hours.keys[i]])
    {
      DayWrittenKept(prev, day, hour, hours.keys[i], hours.entries[hours.keys[i]]);
    }
  }

  lemma {:induction false} DayWrittenKept(prev: Record, day: string, hour: Value, d: string, h: Value)
    requires prev.Valid() && DayStep(prev, day, hour).Ok? && d != day && DayWritten(prev, d, h)
    ensures DayWritten(DayStep(prev, day, hour).value, d, h)
  {
    DayStepContents(prev, day, hour);
    OtherDayFields(d, day);
  }

  /** The record holds the start and end time that `hour` splits into. */
  predicate DayWritten(r: Record, day: string, hour: Value) {
    && DayHours(hour).Ok?
    && StartName(day) in r.entries && EndName(day) in r.entries
    && r.entries[StartName(day)] == Str(DayHours(hour).value.0)
    && r.entries[EndName(day)] == Str(DayHours(hour).value.1)
  }

  /**
   * `preprocess_hours_extend_workdays` writes each day's start and end time,
   * lists the days in hours order under "workdays", keeps every other field
   * and never moves an existing field.
   */
  lemma {:induction false} PreprocessHoursContents(business: Record)
    requires business.Valid() && HoursValid(business) && PreprocessHours(business).Ok?
    ensures var r := PreprocessHours(business).value;
      var hours := business.entries[HOURS].fields;
      && r.Valid() && business.keys <= r.keys
      && WORKDAYS in r.entries && r.entries[WORKDAYS] == List(Strs(hours.keys))
      && (forall day :: day in hours.keys ==>
            && DayHours(hours.entries[day]).Ok?
            && StartName(day) in r.entries && EndName(day) in r.entries
            && r.entries[StartName(day)] == Str(DayHours(hours.entries[day]).value.0)
            && r.entries[EndName(day)] == Str(DayHours(hours.entries[day]).value.1))
      && (forall k :: k in business.entries && k != WORKDAYS && !IsDayField(k, hours.keys) ==>
            k in r.entries && r.entries[k] == business.entries[k])
  {
    var hours := business.entries[HOURS].fields;
    var n := |hours.keys|;
    ExtendDaysKeeps(business, hours, n);
    ExtendDaysWrites(business, hours, n);
    assert hours.keys[..n] == hours.keys;
    var r := PreprocessHours(business).value;
    var extended := ExtendDays(business, hours, n).value;
    forall day | day in hours.keys
      ensures StartName(day) != WORKDAYS && EndName(day) != WORKDAYS
      ensures DayWritten(extended, day, hours.entries[day])
    {
      WorkdaysNotDayField(day);
      var i := FirstIndex(hours.keys, day);
      WrittenAt(extended, hours, n, i);
    }
  }

  // ---------------------------------------------------------------------------
  // add_attributes
  // ---------------------------------------------------------------------------

  /** A collected attribute: the set of its values, or per inner key the set of inner values. */
  datatype AttrEntry = Values(vals: set<Value>) | Nested(inner: Dict<string, set<Value>>)

  type AttrTable = Dict<string, AttrEntry>

  /** `inner_vals = inner.get(k, set()); inner_vals.add(v); inner[k] = inner_vals` for the first `n` inner pairs. */
  function AddInner(inner: Dict<string, set<Value>>, fields: Dict<string, Value>, n: nat)
    : Result<Dict<string, set<Value>>>
    requires fields.Valid() && n <= |fields.keys|
  {
    if n == 0 then Ok(inner)
    else
      var prev :- AddInner(inner, fields, n - 1);
      var k := fields.keys[n - 1];
      var v := fields.entries[k];
      if !Hashable(v) then Err(TypeError)
      else Ok(prev.Put(k, (if k in prev.entries then prev.entries[k] else {}) + {v}))
  }

  /** One `(key, val)` pair of a business's attributes added to the table. */
  function AddAttribute(table: AttrTable, key: string, val: Value): Result<AttrTable>
    requires val.Obj? ==> val.fields.Valid()
  {
    if val.Obj? then
      var start := if key in table.entries then table.entries[key] else Nested(EmptyDict());
      if start.Values? then
        // a set has no `get`, but an empty dictionary never asks for it and the set is stored back
        if |val.fields.keys| > 0 then Err(AttributeError) else Ok(table.Put(key, start))
      else
        var inner :- AddInner(start.inner, val.fields, |val.fields.keys|);
        Ok(table.Put(key, Nested(inner)))
    else
      var start := if key in table.entries then table.entries[key] else Values({});
      if start.Nested? then Err(AttributeError)     // a dict has no `add`
      else if !Hashable(val) then Err(TypeError)
      else Ok(table.Put(key, Values(start.vals + {val})))
  }

  /** A business's attribute dictionary and the dictionaries inside it are well formed. */
  ghost predicate AttrsValid(attrs: Dict<string, Value>) {
    attrs.Valid() && forall k :: k in attrs.entries && attrs.entries[k].Obj? ==> attrs.entries[k].fields.Valid()
  }

  ghost predicate BusinessAttrsValid(business: Record) {
    ATTRIBUTES in business.entries && business.entries[ATTRIBUTES].Obj? ==>
      AttrsValid(business.entries[ATTRIBUTES].fields)
  }

  /** The table after the first `n` attributes of a business. */
  function AddAttributesUpTo(table: AttrTable, attrs: Dict<string, Value>, n: nat): Result<AttrTable>
    requires AttrsValid(attrs) && n <= |attrs.keys|
  {
    if n == 0 then Ok(table)
    else
      var prev :- AddAttributesUpTo(table, attrs, n - 1);
      AddAttribute(prev, attrs.keys[n - 1], attrs.entries[attrs.keys[n - 1]])
  }

  /** What `add_attributes` leaves in the table, or the error it raises. */
  function AddAttributesSpec(table: AttrTable, business: Record): Result<AttrTable>
    requires BusinessAttrsValid(business)
  {
    if ATTRIBUTES !in business.entries then Err(KeyError)
    else
      var attrs := business.entries[ATTRIBUTES];
      if !attrs.Obj? then Err(AttributeError)
      else AddAttributesUpTo(table, attrs.fields, |attrs.fields.keys|)
  }

  method AddInnerValues(inner: Dict<string, set<Value>>, fields: Dict<string, Value>)
    returns (r: Result<Dict<string, set<Value>>>)
    requires fields.Valid()
    ensures r == AddInner(inner, fields, |fields.keys|)
  {
    var current := inner;
    var j := 0;
    while j < |fields.keys|
      invariant 0 <= j <= |fields.keys|
      invariant AddInner(inner, fields, j) == Ok(current)
    {
      var innerKey := fields.keys[j];
      var innerVal := fields.entries[innerKey];
      var innerVals := if innerKey in current.entries then current.entries[innerKey] else {};
      if !Hashable(innerVal) {
        AddInnerFailed(inner, fields, j + 1);
        return Err(TypeError);
      }
      innerVals := innerVals + {innerVal};
      current := current.Put(innerKey, innerVals);
      j := j + 1;
    }
    r := Ok(current);
  }

  lemma {:induction false} AddInnerFailed(inner: Dict<string, set<Value>>, fields: Dict<string, Value>, n: nat)
    requires fields.Valid() && n <= |fields.keys| && AddInner(inner, fields, n).Err?
    ensures AddInner(inner, fields, |fields.keys|) == AddInner(inner, fields, n)
    decreases |fields.keys| - n
  {
    if n < |fields.keys| {
      AddInnerFailed(inner, fields, n + 1);
    }
  }

  lemma {:induction false} AddAttributesFailed(table: AttrTable, attrs: Dict<string, Value>, n: nat)
    requires AttrsValid(attrs) && n <= |attrs.keys| && AddAttributesUpTo(table, attrs, n).Err?
    ensures AddAttributesUpTo(table, attrs, |attrs.keys|) == AddAttributesUpTo(table, attrs, n)
    decreases |attrs.keys| - n
  {
    if n < |attrs.keys| {
      AddAttributesFailed(table, attrs, n + 1);
    }
  }

  method AddAttributes(table: AttrTable, business: Record) returns (r: Result<AttrTable>)
    requires BusinessAttrsValid(business)
    ensures r == AddAttributesSpec(table, business)
  {
    if ATTRIBUTES !in business.entries {
      return Err(KeyError);
    }
    var attrs := business.entries[ATTRIBUTES];
    if !attrs.Obj? {
      return Err(AttributeError);
    }
    var fields := attrs.fields;
    var current := table;
    var i := 0;
    while i < |fields.keys|
      invariant AddedTo(table, fields, i, current)
    {
      var next := AddAttributeAt(table, fields, i, current);
      if next.Err? {
        AddAttributesFailed(table, fields, i + 1);
        return next;
      }
      current := next.value;
      i := i + 1;
    }
    r := Ok(current);
  }

  /** The loop's state after `i` attributes: the table the first `i` steps produce. */
  ghost predicate AddedTo(table: AttrTable, fields: Dict<string, Value>, i: int, current: AttrTable) {
    AttrsValid(fields) && 0 <= i <= |fields.keys| && AddAttributesUpTo(table, fields, i) == Ok(current)
  }

  /** The loop body for the `i`-th attribute. */
  method AddAttributeAt(ghost table: AttrTable, fields: Dict<string, Value>, i: nat, current: AttrTable)
    returns (next: Result<AttrTable>)
    requires AddedTo(table, fields, i, current) && i < |fields.keys|
    ensures next == AddAttributesUpTo(table, fields, i + 1)
    ensures next.Ok? ==> AddedTo(table, fields, i + 1, next.value)
  {
    var key := fields.keys[i];
    next := AddOneAttribute(current, key, fields.entries[key]);
  }

  /** One attribute: its value added to the key's set, or its inner pairs to the key's inner sets. */
  method AddOneAttribute(current: AttrTable, key: string, val: Value) returns (next: Result<AttrTable>)
    requires val.Obj? ==> val.fields.Valid()
    ensures next == AddAttribute(current, key, val)
  {
    if val.Obj? {
      var start := if key in current.entries then current.entries[key] else Nested(EmptyDict());
      if start.Values? {
        next := if |val.fields.keys| > 0 then Err(AttributeError) else Ok(current.Put(key, start));
      } else {
        var inner := AddInnerValues(start.inner, val.fields);
        next := if inner.Err? then Err(inner.error) else Ok(current.Put(key, Nested(inner.value)));
      }
    } else {
      var start := if key in current.entries then current.entries[key] else Values({});
      if start.Nested? {
        next := Err(AttributeError);
      } else if !Hashable(val) {
        next := Err(TypeError);
      } else {
        next := Ok(current.Put(key, Values(start.vals + {val})));
      }
    }
  }

  /** The table only grows: every value recorded before is still recorded. */
  predicate Covers(after: AttrTable, before: AttrTable) {
    forall k :: k in before.entries ==>
      && k in after.entries
      && after.entries[k].Values? == before.entries[k].Values?
      && (before.entries[k].Values? ==> before.entries[k].vals <= after.entries[k].vals)
      && (before.entries[k].Nested? ==>
            forall ik :: ik in before.entries[k].inner.entries ==>
              ik in after.entries[k].inner.entries
              && before.entries[k].inner.entries[ik] <= after.entries[k].inner.entries[ik])
  }

  lemma {:induction false} AddInnerCovers(inner: Dict<string, set<Value>>, fields: Dict<string, Value>, n: nat)
    requires fields.Valid() && n <= |fields.keys| && AddInner(inner, fields, n).Ok?
    ensures var r := AddInner(inner, fields, n).value;
      && (forall ik :: ik in inner.entries ==> ik in r.entries && inner.entries[ik] <= r.entries[ik])
      && (forall j :: 0 <= j < n ==>
            fields.keys[j] in r.entries && fields.entries[fields.keys[j]] in r.entries[fields.keys[j]])
  {
    if n > 0 {
      AddInnerCovers(inner, fields, n - 1);
    }
  }

  lemma {:induction false} AddAttributeCovers(table: AttrTable, key: string, val: Value)
    requires val.Obj? ==> val.fields.Valid()
    requires AddAttribute(table, key, val).Ok?
    ensures var r := AddAttribute(table, key, val).value;
      && Covers(r, table)
      && key in r.entries
      && (val.Obj? && |val.fields.keys| > 0 ==> r.entries[key].Nested? && forall ik :: ik in val.fields.keys ==>
            ik in r.entries[key].inner.entries && val.fields.entries[ik] in r.entries[key].inner.entries[ik])
      && (val.Obj? && |val.fields.keys| == 0 ==>
            r.entries[key] == (if key in table.entries then table.entries[key] else Nested(EmptyDict())))
      && (!val.Obj? ==> r.entries[key].Values? && val in r.entries[key].vals)
  {
    if val.Obj? && !(key in table.entries && table.entries[key].Values?) {
      var start := if key in table.entries then table.entries[key] else Nested(EmptyDict());
      AddInnerCovers(start.inner, val.fields, |val.fields.keys|);
      forall ik | ik in val.fields.keys
        ensures exists j :: 0 <= j < |val.fields.keys| && val.fields.keys[j] == ik
      {
        assert val.fields.keys[FirstIndex(val.fields.keys, ik)] == ik;
      }
    }
  }

  /**
   * An empty dictionary value over a key that already holds a set of plain
   * values raises nothing: the inner loop never calls `get`, and the set is
   * stored back unchanged.
   */
  lemma {:induction false} EmptyDictKeepsValues(table: AttrTable, key: string, val: Value)
    requires table.Valid() && key in table.entries && table.entries[key].Values?
    requires val.Obj? && val.fields.Valid() && val.fields.keys == []
    ensures AddAttribute(table, key, val) == Ok(table)
  {
    assert table.entries[key := table.entries[key]] == table.entries;
  }

  /** A non-empty dictionary value over a set of plain values raises AttributeError, as the set has no `get`. */
  lemma {:induction false} NonEmptyDictOverValuesFails(table: AttrTable, key: string, val: Value)
    requires key in table.entries && table.entries[key].Values?
    requires val.Obj? && val.fields.Valid() && |val.fields.keys| > 0
    ensures AddAttribute(table, key, val) == Err(AttributeError)
  {
  }

  lemma {:induction false} CoversAt(after: AttrTable, before: AttrTable, k: string)
    requires Covers(after, before) && k in before.entries
    ensures k in after.entries && after.entries[k].Values? == before.entries[k].Values?
    ensures before.entries[k].Values? ==> before.entries[k].vals <= after.entries[k].vals
  {
  }

  lemma {:induction false} CoversTransitive(a: AttrTable, b: AttrTable, c: AttrTable)
    requires Covers(b, a) && Covers(c, b)
    ensures Covers(c, a)
  {
  }

  lemma {:induction false} CoversReflexive(a: AttrTable)
    ensures Covers(a, a)
  {
  }

  /** The table records value `v` of attribute `k`: a plain value in the key's set, a dictionary as inner sets. */
  predicate Collected(r: AttrTable, k: string, v: Value) {
    && k in r.entries
    && (!v.Obj? ==> r.entries[k].Values? && v in r.entries[k].vals)
    && (v.Obj? && |v.fields.keys| > 0 ==> r.entries[k].Nested?)
  }

  lemma {:induction false} CollectedKept(after: AttrTable, before: AttrTable, k: string, v: Value)
    requires Covers(after, before) && Collected(before, k, v)
    ensures Collected(after, k, v)
  {
    CoversAt(after, before, k);
  }

  /**
   * `add_attributes` keeps everything already collected and records each
   * attribute value of the business: a plain value in its key's set, a
   * dictionary's values in the sets of their inner keys.
   */
  lemma {:induction false} AddAttributesCollects(table: AttrTable, attrs: Dict<string, Value>, n: nat)
    requires AttrsValid(attrs) && n <= |attrs.keys| && AddAttributesUpTo(table, attrs, n).Ok?
    ensures var r := AddAttributesUpTo(table, attrs, n).value;
      && Covers(r, table)
      && forall j :: 0 <= j < n ==> Collected(r, attrs.keys[j], attrs.entries[attrs.keys[j]])
  {
    if n == 0 {
      CoversReflexive(table);
    } else {
      AddAttributesCollects(table, attrs, n - 1);
      var prev := AddAttributesUpTo(table, attrs, n - 1).value;
      var key := attrs.keys[n - 1];
      assert AddAttributesUpTo(table, attrs, n) == AddAttribute(prev, key, attrs.entries[key]);
      AddAttributeCovers(prev, key, attrs.entries[key]);
      CollectsStep(table, attrs, n, prev, AddAttributesUpTo(table, attrs, n).value);
    }
  }

  lemma {:induction false} CollectsStep(table: AttrTable, attrs: Dict<string, Value>, n: nat, prev: AttrTable, r: AttrTable)
    requires attrs.Indexed() && 0 < n <= |attrs.keys|
    requires Covers(prev, table) && Covers(r, prev)
    requires forall j :: 0 <= j < n - 1 ==> Collected(prev, attrs.keys[j], attrs.entries[attrs.keys[j]])
    requires Collected(r, attrs.keys[n - 1], attrs.entries[attrs.keys[n - 1]])
    ensures Covers(r, table)
    ensures forall j :: 0 <= j < n ==> Collected(r, attrs.keys[j], attrs.entries[attrs.keys[j]])
  {
    CoversTransitive(table, prev, r);
    forall j | 0 <= j < n - 1
      ensures Collected(r, attrs.keys[j], attrs.entries[attrs.keys[j]])
    {
      CollectedKept(r, prev, attrs.keys[j], attrs.entries[attrs.keys[j]]);
    }
  }

  // ---------------------------------------------------------------------------
  // init_24_hours and is_boolean_set
  // ---------------------------------------------------------------------------

  /**
   * The (hour, minute) pairs of hours 0..h-1 and, in hour h, of minutes
   * 0..m-1 whose minute is a multiple of `interval`, in time order.
   */
  function Slots(h: nat, m: nat, interval: int): (r: seq<(nat, nat)>)
    requires interval != 0 && m <= 60
    decreases h, m
  {
    if m == 0 then (if h == 0 then [] else Slots(h - 1, 60, interval))
    else Slots(h, m - 1, interval) + (if (m - 1) % interval == 0 then [(h, m - 1)] else [])
  }

  /** `"{}:{}".format(hour, minute)`: unpadded decimal hour and minute. */
  function TimeLabel(slot: (nat, nat)): string {
    NatToString(slot.0) + ":" + NatToString(slot.1)
  }

  function Labels(slots: seq<(nat, nat)>): (r: seq<string>)
    ensures |r| == |slots| && forall i :: 0 <= i < |slots| ==> r[i] == TimeLabel(slots[i])
  {
    seq(|slots|, i requires 0 <= i < |slots| => TimeLabel(slots[i]))
  }

  /** The nested `for hour in range(24): for minute in range(60)` loop; `% 0` raises. */
  method Init24Hours(interval: int) returns (r: Result<seq<string>>)
    ensures r.Err? <==> interval == 0
    ensures r.Err? ==> r.error == ZeroDivisionError
    ensures r.Ok? ==> r.value == Labels(Slots(24, 0, interval))
  {
    if interval == 0 {
      return Err(ZeroDivisionError);
    }
    var res: seq<string> := [];
    var hour := 0;
    while hour < 24
      invariant 0 <= hour <= 24
      invariant res == Labels(Slots(hour, 0, interval))
    {
      var minute := 0;
      while minute < 60
        invariant 0 <= minute <= 60
        invariant res == Labels(Slots(hour, minute, interval))
      {
        if minute % interval == 0 {
          res := res + [TimeLabel((hour, minute))];
        }
        minute := minute + 1;
      }
      assert Slots(hour + 1, 0, interval) == Slots(hour, 60, interval);
      hour := hour + 1;
    }
    r := Ok(res);
  }

  /** Minutes of a slot are below 60 and hours below the bound. */
  function Minutes(slot: (nat, nat)): nat {
    slot.0 * 60 + slot.1
  }

  /**
   * The slots are exactly the (hour, minute) pairs before (h, m) whose minute
   * is a multiple of the interval, strictly increasing in time.
   */
  lemma {:induction false} SlotsContents(h: nat, m: nat, interval: int)
    requires interval != 0 && m <= 60
    ensures forall s :: s in Slots(h, m, interval) <==>
      s.1 < 60 && Minutes(s) < h * 60 + m && s.1 % interval == 0
    ensures forall i, j :: 0 <= i < j < |Slots(h, m, interval)| ==>
      Minutes(Slots(h, m, interval)[i]) < Minutes(Slots(h, m, interval)[j])
    decreases h, m
  {
    if m == 0 {
      if h > 0 {
        SlotsContents(h - 1, 60, interval);
      }
    } else {
      SlotsContents(h, m - 1, interval);
      var prev := Slots(h, m - 1, interval);
      forall s: (nat, nat) | s.1 < 60 && Minutes(s) < h * 60 + m && s.1 % interval == 0
        ensures s in Slots(h, m, interval)
      {
        if Minutes(s) == h * 60 + m - 1 {
          assert s.0 == h && s.1 == m - 1;
        }
      }
    }
  }

  lemma {:induction false} SlotsCountFive(h: nat, m: nat)
    requires m <= 60
    ensures |Slots(h, m, 5)| == 12 * h + (m + 4) / 5
    decreases h, m
  {
    if m == 0 {
      if h > 0 {
        SlotsCountFive(h - 1, 60);
      }
    } else {
      SlotsCountFive(h, m - 1);
    }
  }

  /** The default grid of `init_24_hours()` has 288 times. */
  lemma {:induction false} DefaultGrid()
    ensures |Slots(24, 0, 5)| == 288
  {
    SlotsCountFive(24, 0);
  }

  /** `is_boolean_set`: every member is a boolean (vacuously true for the empty set). */
  predicate IsBooleanSet(s: set<Value>) {
    forall v :: v in s ==> v.Bool?
  }
}
