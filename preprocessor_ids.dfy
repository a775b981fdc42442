/**
 * Id assignment (main/preprocessor.py, `develop_feature_ids` and
 * `load_reviews_and_users`): restaurants with the same feature vector share
 * a feature id, feature ids and user ids are handed out 1, 2, ... in order
 * of first appearance, and each (user, restaurant) pair keeps its latest
 * review.
 */
module IdAssignment {
  import opened Wrappers
  import opened Collections
  import opened Json
  import opened FeaturePreprocessor

  const RATING: string := "stars"
  const TIMESTAMP: string := "date"
  const USER_ID: string := "user_id"
  const RESTAURANT_ID: string := "business_id"

  /** `record[field]` used as a dictionary key: `TypeError` when the value is unhashable. */
  function KeyOf(record: Value, field: string): (r: Result<Value>)
    ensures r.Ok? <==> record.Obj? && field in record.fields.entries && Hashable(record.fields.entries[field])
    ensures r.Ok? ==> r.value == record.fields.entries[field]
  {
    var v :- Get(record, field);
    if Hashable(v) then Ok(v) else Err(TypeError)
  }

  // ---------------------------------------------------------------------------
  // develop_feature_ids
  // ---------------------------------------------------------------------------

  type FeatureVector = set<(string, Value)>

  datatype FeatureIds = FeatureIds(vectorToInt: Dict<FeatureVector, nat>, restaurantToInt: Dict<Value, nat>)

  /** What one restaurant contributes: its feature vector, then its business id. */
  function VectorAndId(restaurant: Value, space: FeatureSpace, sep: string): Result<(FeatureVector, Value)> {
    var d :- FeatureDictSpec(restaurant, space, sep, DEFAULT_VAL_IF_NOT_EXIST, false);
    var rid :- KeyOf(restaurant, RESTAURANT_ID);
    Ok((ItemSet(d), rid))
  }

  function VectorsAndIds(restaurants: seq<Value>, space: FeatureSpace, sep: string)
    : (rs: seq<Result<(FeatureVector, Value)>>)
    ensures |rs| == |restaurants|
    ensures forall i :: 0 <= i < |restaurants| ==> rs[i] == VectorAndId(restaurants[i], space, sep)
  {
    seq(|restaurants|, i requires 0 <= i < |restaurants| => VectorAndId(restaurants[i], space, sep))
  }

  /**
   * What `develop_feature_ids` returns: the distinct feature vectors numbered
   * in order of first appearance, and every business id mapped to the number
   * of its restaurant's vector (a repeated business id keeps the last one).
   */
  function DevelopFeatureIdsSpec(restaurants: seq<Value>, space: FeatureSpace, sep: string): Result<FeatureIds> {
    var pairs :- AllOk(VectorsAndIds(restaurants, space, sep));
    Ok(Numbered(pairs))
  }

  /** The two dictionaries built from the (vector, business id) pairs. */
  function Numbered(pairs: seq<(FeatureVector, Value)>): FeatureIds {
    var ids := Intern(Firsts(pairs));
    FeatureIds(ids, Overwrite(Relabel(pairs, ids)))
  }

  /** The start of the loop body: the restaurant's feature vector, then its business id. */
  method RestaurantVectorAndId(restaurant: Value, space: FeatureSpace, sep: string)
    returns (r: Result<(FeatureVector, Value)>)
    ensures r == VectorAndId(restaurant, space, sep)
  {
    var featureDict := MapRestaurantToFeatureDict(restaurant, space, sep, DEFAULT_VAL_IF_NOT_EXIST, false);
    if featureDict.Err? {
      return Err(featureDict.error);
    }
    var rid := KeyOf(restaurant, RESTAURANT_ID);
    if rid.Err? {
      return Err(rid.error);
    }
    r := Ok((featureDict.value, rid.value));
  }

  /**
   * The rest of the loop body: an unseen vector gets the next number, and the
   * business id is mapped to its vector's number.
   */
  method NumberPair(ghost pairs: seq<(FeatureVector, Value)>, vectorToInt: Dict<FeatureVector, nat>,
                    restaurantToInt: Dict<Value, nat>, count: nat, pair: (FeatureVector, Value))
    returns (vectorToInt': Dict<FeatureVector, nat>, restaurantToInt': Dict<Value, nat>, count': nat)
    requires vectorToInt == Intern(Firsts(pairs)) && count == |vectorToInt.keys|
    requires restaurantToInt == Overwrite(Relabel(pairs, vectorToInt))
    ensures vectorToInt' == Intern(Firsts(pairs + [pair])) && count' == |vectorToInt'.keys|
    ensures restaurantToInt' == Overwrite(Relabel(pairs + [pair], vectorToInt'))
  {
    NumberingStep(pairs, pair, vectorToInt, restaurantToInt, count);
    var (vector, rid) := pair;
    var id: nat;
    count' := count;
    if vector in vectorToInt.entries {
      id := vectorToInt.entries[vector];
    } else {
      count' := count + 1;
      id := count';
    }
    vectorToInt' := vectorToInt.Put(vector, id);
    restaurantToInt' := restaurantToInt.Put(rid, id);
  }

  method DevelopFeatureIds(restaurants: seq<Value>, space: FeatureSpace, sep: string) returns (r: Result<FeatureIds>)
    ensures r == DevelopFeatureIdsSpec(restaurants, space, sep)
  {
    ghost var rs := VectorsAndIds(restaurants, space, sep);
    ghost var pairs: seq<(FeatureVector, Value)> := [];
    var vectorToInt: Dict<FeatureVector, nat> := EmptyDict();
    var restaurantToInt: Dict<Value, nat> := EmptyDict();
    var count := 0;
    var i := 0;
    assert rs[..0] == [];
    while i < |restaurants|
      invariant 0 <= i <= |restaurants|
      invariant AllOk(rs[..i]) == Ok(pairs)
      invariant vectorToInt == Intern(Firsts(pairs))
      invariant count == |vectorToInt.keys|
      invariant restaurantToInt == Overwrite(Relabel(pairs, vectorToInt))
    {
      var pair := RestaurantVectorAndId(restaurants[i], space, sep);
      AllOkExtend(rs, i, pairs);
      if pair.Err? {
        return Err(pair.error);
      }
      vectorToInt, restaurantToInt, count := NumberPair(pairs, vectorToInt, restaurantToInt, count, pair.value);
      pairs := pairs + [pair.value];
      i := i + 1;
    }
    assert rs[..i] == rs;
    r := Ok(FeatureIds(vectorToInt, restaurantToInt));
  }

  /**
   * `develop_feature_ids`: the numbered vectors are the distinct feature
   * vectors in order of first appearance, numbered 1..N with N their count;
   * every business id is numbered, and a restaurant whose business id does
   * not recur later gets exactly its own vector's number, so restaurants
   * with equal vectors share a number.
   */
  lemma {:induction false} DevelopFeatureIdsMeaning(pairs: seq<(FeatureVector, Value)>)
    ensures var r := Numbered(pairs);
      && r.vectorToInt.keys == Unique(Firsts(pairs))
      && (forall j :: 0 <= j < |r.vectorToInt.keys| ==> r.vectorToInt.entries[r.vectorToInt.keys[j]] == j + 1)
      && r.restaurantToInt.keys == Unique(Firsts(Relabel(pairs, r.vectorToInt)))
      && (forall i :: 0 <= i < |pairs| && (forall j :: i < j < |pairs| ==> pairs[j].1 != pairs[i].1) ==>
            pairs[i].1 in r.restaurantToInt.entries && pairs[i].0 in r.vectorToInt.entries
            && r.restaurantToInt.entries[pairs[i].1] == r.vectorToInt.entries[pairs[i].0])
  {
    InternIds(Firsts(pairs));
    forall i | 0 <= i < |pairs| && (forall j :: i < j < |pairs| ==> pairs[j].1 != pairs[i].1)
      ensures var ids := Intern(Firsts(pairs));
        var m := Overwrite(Relabel(pairs, ids));
        pairs[i].0 in ids.entries && pairs[i].1 in m.entries && m.entries[pairs[i].1] == ids.entries[pairs[i].0]
    {
      NumberingLastWriter(pairs, i);
    }
  }

  /** Each restaurant's vector and business id are what `map_restaurant_to_feature_dict` and `restaurant["business_id"]` give. */
  lemma {:induction false} DevelopFeatureIdsInputs(restaurants: seq<Value>, space: FeatureSpace, sep: string)
    requires DevelopFeatureIdsSpec(restaurants, space, sep).Ok?
    ensures var pairs := AllOk(VectorsAndIds(restaurants, space, sep)).value;
      forall i :: 0 <= i < |restaurants| ==>
        && FeatureDictSpec(restaurants[i], space, sep, DEFAULT_VAL_IF_NOT_EXIST, false).Ok?
        && pairs[i].0 == ItemSet(FeatureDictSpec(restaurants[i], space, sep, DEFAULT_VAL_IF_NOT_EXIST, false).value)
        && restaurants[i].Obj? && RESTAURANT_ID in restaurants[i].fields.entries
        && pairs[i].1 == restaurants[i].fields.entries[RESTAURANT_ID]
  {
    AllOkPerIndex(VectorsAndIds(restaurants, space, sep));
  }

  // ---------------------------------------------------------------------------
  // load_reviews_and_users
  // ---------------------------------------------------------------------------

  /** A review of a known restaurant, as the loop reads it. */
  datatype Kept<U, R, X> = Kept(user: U, restaurant: R, timestamp: int, rating: X)

  /**
   * One line of the review file once `json.loads` has parsed it (or failed
   * to): a review of a restaurant without a feature id is skipped (`None`)
   * before its rating, date or user is read. `toTimestamp` stands for
   * `int(datetime.strptime(date, ...).timestamp())`.
   */
  function ParseReview(line: Result<Value>, restaurantIds: Dict<Value, nat>, toTimestamp: Value -> Result<int>)
    : (r: Result<Option<Kept<Value, Value, Value>>>)
    ensures r == Ok(None) <==>
      line.Ok? && KeyOf(line.value, RESTAURANT_ID).Ok? && KeyOf(line.value, RESTAURANT_ID).value !in restaurantIds.entries
    ensures r.Ok? && r.value.Some? ==>
      && r.value.value.restaurant in restaurantIds.entries
      && line.Ok? && KeyOf(line.value, RESTAURANT_ID) == Ok(r.value.value.restaurant)
      && KeyOf(line.value, USER_ID) == Ok(r.value.value.user)
      && Get(line.value, RATING) == Ok(r.value.value.rating)
  {
    var record :- line;
    var rid :- KeyOf(record, RESTAURANT_ID);
    if rid !in restaurantIds.entries then Ok(None)
    else
      var rating :- Get(record, RATING);
      var date :- Get(record, TIMESTAMP);
      var timestamp :- toTimestamp(date);
      var user :- KeyOf(record, USER_ID);
      Ok(Some(Kept(user, rid, timestamp, rating)))
  }

  function ParseReviews(lines: seq<Result<Value>>, restaurantIds: Dict<Value, nat>, toTimestamp: Value -> Result<int>)
    : (rs: seq<Result<Option<Kept<Value, Value, Value>>>>)
    ensures |rs| == |lines|
    ensures forall i :: 0 <= i < |lines| ==> rs[i] == ParseReview(lines[i], restaurantIds, toTimestamp)
  {
    seq(|lines|, i requires 0 <= i < |lines| => ParseReview(lines[i], restaurantIds, toTimestamp))
  }

  function Somes<T>(os: seq<Option<T>>): seq<T> {
    if os == [] then []
    else Somes(os[..|os| - 1]) + (if os[|os| - 1].Some? then [os[|os| - 1].value] else [])
  }

  lemma {:induction false} SomesSnoc<T>(os: seq<Option<T>>, o: Option<T>)
    ensures Somes(os + [o]) == Somes(os) + (if o.Some? then [o.value] else [])
  {
    assert (os + [o])[..|os|] == os;
  }

  /** user id -> restaurant -> (timestamp, rating) of the review kept for the pair. */
  type Latest<R(==,!new), X> = Dict<nat, Dict<R, (int, X)>>

  ghost predicate LatestValid<R(!new), X>(latest: Latest<R, X>) {
    latest.Valid() && forall uid :: uid in latest.entries ==> latest.entries[uid].Valid()
  }

  datatype ReviewState<U(==,!new), R(==,!new), X> = ReviewState(users: Dict<U, nat>, latest: Latest<R, X>)

  function Users<U, R, X>(ks: seq<Kept<U, R, X>>): (r: seq<U>)
    ensures |r| == |ks| && forall i :: 0 <= i < |ks| ==> r[i] == ks[i].user
  {
    seq(|ks|, i requires 0 <= i < |ks| => ks[i].user)
  }

  lemma {:induction false} UsersSnoc<U, R, X>(ks: seq<Kept<U, R, X>>, k: Kept<U, R, X>)
    ensures Users(ks + [k]) == Users(ks) + [k.user]
  {
    assert forall i :: 0 <= i < |ks| ==> (ks + [k])[i] == ks[i];
  }

  /**
   * One kept review: the user is numbered if new, and the review is stored
   * for its (user, restaurant) pair unless one is stored already with a
   * timestamp at least as late.
   */
  function Record<U(==,!new), R(==,!new), X>(st: ReviewState<U, R, X>, k: Kept<U, R, X>): ReviewState<U, R, X> {
    var users := if k.user in st.users.entries then st.users else st.users.Put(k.user, |st.users.keys| + 1);
    var uid := IdOf(users, k.user);
    var inner := if uid in st.latest.entries then st.latest.entries[uid] else EmptyDict();
    var inner' :=
      if k.restaurant !in inner.entries || k.timestamp > inner.entries[k.restaurant].0
      then inner.Put(k.restaurant, (k.timestamp, k.rating))
      else inner;
    ReviewState(users, st.latest.Put(uid, inner'))
  }

  function RecordAll<U(==,!new), R(==,!new), X>(ks: seq<Kept<U, R, X>>): (st: ReviewState<U, R, X>)
    ensures st.users.Valid() && LatestValid(st.latest)
  {
    if ks == [] then ReviewState(EmptyDict(), EmptyDict())
    else Record(RecordAll(ks[..|ks| - 1]), ks[|ks| - 1])
  }

  /** The users are numbered in order of first appearance. */
  lemma {:induction false} RecordAllUsers<U(!new), R(!new), X>(ks: seq<Kept<U, R, X>>)
    ensures RecordAll(ks).users == Intern(Users(ks))
  {
    if ks != [] {
      var init := ks[..|ks| - 1];
      var k := ks[|ks| - 1];
      assert ks == init + [k];
      RecordAllUsers(init);
      RecordAllSnoc(init, k);
      UsersSnoc(init, k);
      InternSnoc(Users(init), k.user);
    }
  }

  lemma {:induction false} RecordAllSnoc<U(!new), R(!new), X>(ks: seq<Kept<U, R, X>>, k: Kept<U, R, X>)
    ensures RecordAll(ks + [k]) == Record(RecordAll(ks), k)
  {
    assert (ks + [k])[..|ks|] == ks;
  }

  /** The review stored for a (user id, restaurant) pair. */
  ghost predicate Stored<R(!new), X>(latest: Latest<R, X>, uid: nat, rid: R, v: (int, X)) {
    uid in latest.entries && rid in latest.entries[uid].entries && latest.entries[uid].entries[rid] == v
  }

  ghost predicate SamePair<U(!new), R, X>(ks: seq<Kept<U, R, X>>, ids: Dict<U, nat>, j: int, uid: nat, rid: R)
    requires 0 <= j < |ks|
  {
    IdOf(ids, ks[j].user) == uid && ks[j].restaurant == rid
  }

  /** Review `j` is the first of its pair with the stored timestamp, and it is what is stored. */
  ghost predicate FirstLatest<U(!new), R, X>(ks: seq<Kept<U, R, X>>, ids: Dict<U, nat>, j: int, uid: nat, rid: R, v: (int, X)) {
    && 0 <= j < |ks| && SamePair(ks, ids, j, uid, rid)
    && v == (ks[j].timestamp, ks[j].rating)
    && forall j' :: 0 <= j' < j && SamePair(ks, ids, j', uid, rid) ==> ks[j'].timestamp < ks[j].timestamp
  }

  /** Numbering one more user leaves the earlier users' ids alone. */
  lemma {:induction false} UserIdsStable<U(!new), R, X>(ks: seq<Kept<U, R, X>>, k: Kept<U, R, X>)
    ensures forall j :: 0 <= j < |ks| ==>
      IdOf(Intern(Users(ks + [k])), ks[j].user) == IdOf(Intern(Users(ks)), ks[j].user)
    ensures IdOf(Intern(Users(ks + [k])), k.user) ==
      if k.user in Intern(Users(ks)).entries then Intern(Users(ks)).entries[k.user] else |Intern(Users(ks)).keys| + 1
  {
    var s := Users(ks);
    var before := Intern(s);
    var after := Intern(Users(ks + [k]));
    UsersSnoc(ks, k);
    assert after == Intern(s + [k.user]);
    InternSnocIds(s, k.user);
    forall j | 0 <= j < |ks|
      ensures IdOf(after, ks[j].user) == IdOf(before, ks[j].user)
    {
      assert s[j] == ks[j].user;
      assert ks[j].user in before.keys;
    }
  }

  /** Recording a review never drops a stored pair nor makes its timestamp earlier. */
  lemma {:induction false} RecordKeeps<U(!new), R(!new), X>(st: ReviewState<U, R, X>, k: Kept<U, R, X>)
    requires LatestValid(st.latest)
    ensures var next := Record(st, k);
      forall uid, rid :: uid in st.latest.entries && rid in st.latest.entries[uid].entries ==>
        && uid in next.latest.entries && rid in next.latest.entries[uid].entries
        && st.latest.entries[uid].entries[rid].0 <= next.latest.entries[uid].entries[rid].0
  {
  }

  /** The recorded review's pair is stored afterwards, with a timestamp no earlier than the review's. */
  lemma {:induction false} RecordStores<U(!new), R(!new), X>(st: ReviewState<U, R, X>, k: Kept<U, R, X>)
    ensures var next := Record(st, k);
      var uid := IdOf(next.users, k.user);
      && uid in next.latest.entries && k.restaurant in next.latest.entries[uid].entries
      && k.timestamp <= next.latest.entries[uid].entries[k.restaurant].0
  {
  }

  /**
   * A value stored after recording a review was stored before, or it is the
   * review itself, replacing nothing at least as late.
   */
  lemma {:induction false} RecordChanges<U(!new), R(!new), X>(st: ReviewState<U, R, X>, k: Kept<U, R, X>)
    requires LatestValid(st.latest)
    ensures var next := Record(st, k);
      forall uid, rid, v :: Stored(next.latest, uid, rid, v) ==>
        || Stored(st.latest, uid, rid, v)
        || (&& uid == IdOf(next.users, k.user) && rid == k.restaurant && v == (k.timestamp, k.rating)
            && forall v' :: Stored(st.latest, uid, rid, v') ==> v'.0 < k.timestamp)
  {
  }

  /** Every kept review's pair has a stored review, and none is later than it. */
  lemma {:induction false} LatestCovers<U(!new), R(!new), X>(ks: seq<Kept<U, R, X>>)
    ensures var st := RecordAll(ks);
      forall j :: 0 <= j < |ks| ==>
        var uid := IdOf(st.users, ks[j].user);
        && uid in st.latest.entries && ks[j].restaurant in st.latest.entries[uid].entries
        && ks[j].timestamp <= st.latest.entries[uid].entries[ks[j].restaurant].0
  {
    if ks != [] {
      var init := ks[..|ks| - 1];
      var k := ks[|ks| - 1];
      assert ks == init + [k];
      var prev := RecordAll(init);
      var st := RecordAll(ks);
      LatestCovers(init);
      RecordAllSnoc(init, k);
      assert st == Record(prev, k);
      RecordAllUsers(init);
      RecordAllUsers(ks);
      UserIdsStable(init, k);
      RecordKeeps(prev, k);
      RecordStores(prev, k);
      CoveredSnoc(init, k, prev, st);
    }
  }

  /** The review's pair has a stored review no earlier than it. */
  ghost predicate Covered<U(!new), R(!new), X>(k: Kept<U, R, X>, st: ReviewState<U, R, X>) {
    var uid := IdOf(st.users, k.user);
    && uid in st.latest.entries && k.restaurant in st.latest.entries[uid].entries
    && k.timestamp <= st.latest.entries[uid].entries[k.restaurant].0
  }

  /** Recording one more review that keeps the earlier ids and stored times keeps every earlier review covered. */
  lemma {:induction false} CoveredSnoc<U(!new), R(!new), X>(init: seq<Kept<U, R, X>>, k: Kept<U, R, X>,
                                                            prev: ReviewState<U, R, X>, st: ReviewState<U, R, X>)
    requires forall j :: 0 <= j < |init| ==> Covered(init[j], prev)
    requires forall j :: 0 <= j < |init| ==> IdOf(st.users, init[j].user) == IdOf(prev.users, init[j].user)
    requires forall uid, rid :: uid in prev.latest.entries && rid in prev.latest.entries[uid].entries ==>
      && uid in st.latest.entries && rid in st.latest.entries[uid].entries
      && prev.latest.entries[uid].entries[rid].0 <= st.latest.entries[uid].entries[rid].0
    requires Covered(k, st)
    ensures forall j :: 0 <= j < |init + [k]| ==> Covered((init + [k])[j], st)
  {
    forall j | 0 <= j < |init + [k]| ensures Covered((init + [k])[j], st) {
      if j < |init| {
        assert (init + [k])[j] == init[j];
        assert Covered(init[j], prev);
      }
    }
  }

  /** A witness stays a witness when a review is appended and the earlier users keep their ids. */
  lemma {:induction false} FirstLatestKept<U(!new), R, X>(init: seq<Kept<U, R, X>>, k: Kept<U, R, X>, before: Dict<U, nat>,
                                       after: Dict<U, nat>, j: int, uid: nat, rid: R, v: (int, X))
    requires FirstLatest(init, before, j, uid, rid, v)
    requires forall i :: 0 <= i < |init| ==> IdOf(after, init[i].user) == IdOf(before, init[i].user)
    ensures FirstLatest(init + [k], after, j, uid, rid, v)
  {
    var ks := init + [k];
    forall i | 0 <= i < |init| ensures ks[i] == init[i] { }
  }

  /** The appended review is a witness when every earlier review of its pair is strictly earlier. */
  lemma {:induction false} FirstLatestNew<U(!new), R, X>(init: seq<Kept<U, R, X>>, k: Kept<U, R, X>, before: Dict<U, nat>,
                                      after: Dict<U, nat>, uid: nat, rid: R)
    requires IdOf(after, k.user) == uid && k.restaurant == rid
    requires forall i :: 0 <= i < |init| ==> IdOf(after, init[i].user) == IdOf(before, init[i].user)
    requires forall i :: 0 <= i < |init| && SamePair(init, before, i, uid, rid) ==> init[i].timestamp < k.timestamp
    ensures FirstLatest(init + [k], after, |init|, uid, rid, (k.timestamp, k.rating))
  {
    var ks := init + [k];
    forall i | 0 <= i < |init| ensures ks[i] == init[i] { }
  }

  /**
   * Every stored review is the first review of its (user, restaurant) pair
   * carrying the latest timestamp of that pair.
   */
  lemma {:induction false} LatestIsFirstLatest<U(!new), R(!new), X>(ks: seq<Kept<U, R, X>>)
    ensures var st := RecordAll(ks);
      forall uid, rid, v :: Stored(st.latest, uid, rid, v) ==> exists j :: FirstLatest(ks, st.users, j, uid, rid, v)
  {
    if ks != [] {
      var init := ks[..|ks| - 1];
      var k := ks[|ks| - 1];
      assert ks == init + [k];
      var prev := RecordAll(init);
      var st := RecordAll(ks);
      LatestIsFirstLatest(init);
      LatestCovers(init);
      RecordAllSnoc(init, k);
      assert st == Record(prev, k);
      RecordAllUsers(init);
      RecordAllUsers(ks);
      UserIdsStable(init, k);
      RecordChanges(prev, k);
      forall u, rid, v | Stored(st.latest, u, rid, v) ensures exists j :: FirstLatest(ks, st.users, j, u, rid, v) {
        if Stored(prev.latest, u, rid, v) {
          var j :| FirstLatest(init, prev.users, j, u, rid, v);
          FirstLatestKept(init, k, prev.users, st.users, j, u, rid, v);
        } else {
          forall i | 0 <= i < |init| && SamePair(init, prev.users, i, u, rid)
            ensures init[i].timestamp < k.timestamp
          {
            assert Stored(prev.latest, u, rid, prev.latest.entries[u].entries[rid]);
          }
          FirstLatestNew(init, k, prev.users, st.users, u, rid);
        }
      }
    }
  }

  /** One output row: `[user, item, rating, timestamp]`. */
  datatype Row<I, X> = Row(user: nat, item: I, rating: X, timestamp: int)

  /** The rows of one user's first `m` restaurants, in insertion order. */
  function InnerRows<R(==,!new), X>(uid: nat, inner: Dict<R, (int, X)>, m: nat): (rows: seq<Row<R, X>>)
    requires inner.Valid() && m <= |inner.keys|
    ensures |rows| == m
  {
    if m == 0 then []
    else
      var rid := inner.keys[m - 1];
      InnerRows(uid, inner, m - 1) + [Row(uid, rid, inner.entries[rid].1, inner.entries[rid].0)]
  }

  /** The rows of the first `n` users, in insertion order (the two nested `for` loops). */
  function Rows<R(==,!new), X>(latest: Latest<R, X>, n: nat): seq<Row<R, X>>
    requires LatestValid(latest) && n <= |latest.keys|
  {
    if n == 0 then []
    else
      var uid := latest.keys[n - 1];
      Rows(latest, n - 1) + InnerRows(uid, latest.entries[uid], |latest.entries[uid].keys|)
  }

  /** Each row with its restaurant replaced by the restaurant's feature id. */
  function Filtered<X>(rows: seq<Row<Value, X>>, restaurantIds: Dict<Value, nat>): (r: seq<Row<nat, X>>)
    ensures |r| == |rows|
    ensures forall i :: 0 <= i < |rows| ==>
      r[i] == Row(rows[i].user, IdOf(restaurantIds, rows[i].item), rows[i].rating, rows[i].timestamp)
  {
    seq(|rows|, i requires 0 <= i < |rows| =>
      Row(rows[i].user, IdOf(restaurantIds, rows[i].item), rows[i].rating, rows[i].timestamp))
  }

  /** Row `i` of a user is that user's `i`-th restaurant with its stored review. */
  lemma {:induction false} InnerRowsAt<R(!new), X>(uid: nat, inner: Dict<R, (int, X)>, m: nat)
    requires inner.Valid() && m <= |inner.keys|
    ensures forall i :: 0 <= i < m ==>
      InnerRows(uid, inner, m)[i] == Row(uid, inner.keys[i], inner.entries[inner.keys[i]].1, inner.entries[inner.keys[i]].0)
  {
    if m > 0 {
      InnerRowsAt(uid, inner, m - 1);
    }
  }

  lemma {:induction false} InnerRowsContents<R(!new), X>(uid: nat, inner: Dict<R, (int, X)>)
    requires inner.Valid()
    ensures forall row :: row in InnerRows(uid, inner, |inner.keys|) ==>
      row.user == uid && row.item in inner.entries && inner.entries[row.item] == (row.timestamp, row.rating)
    ensures forall rid :: rid in inner.entries ==>
      Row(uid, rid, inner.entries[rid].1, inner.entries[rid].0) in InnerRows(uid, inner, |inner.keys|)
  {
    var rows := InnerRows(uid, inner, |inner.keys|);
    InnerRowsAt(uid, inner, |inner.keys|);
    forall rid | rid in inner.entries
      ensures Row(uid, rid, inner.entries[rid].1, inner.entries[rid].0) in rows
    {
      var i :| 0 <= i < |inner.keys| && inner.keys[i] == rid;
      assert rows[i] == Row(uid, rid, inner.entries[rid].1, inner.entries[rid].0);
    }
  }

  lemma {:induction false} RowsContents<R(!new), X>(latest: Latest<R, X>, n: nat)
    requires LatestValid(latest) && n <= |latest.keys|
    ensures forall row :: row in Rows(latest, n) ==>
      row.user in latest.keys[..n] && Stored(latest, row.user, row.item, (row.timestamp, row.rating))
    ensures forall uid, rid, v :: uid in latest.keys[..n] && Stored(latest, uid, rid, v) ==>
      Row(uid, rid, v.1, v.0) in Rows(latest, n)
  {
    if n > 0 {
      var uid := latest.keys[n - 1];
      var inner := latest.entries[uid];
      RowsContents(latest, n - 1);
      InnerRowsContents(uid, inner);
      assert latest.keys[..n] == latest.keys[..n - 1] + [uid];
    }
  }

  /** The rows of the first `n` users belong to those users. */
  lemma {:induction false} RowsUsers<R(!new), X>(latest: Latest<R, X>, n: nat)
    requires LatestValid(latest) && n <= |latest.keys|
    ensures forall j :: 0 <= j < |Rows(latest, n)| ==> Rows(latest, n)[j].user in latest.keys[..n]
  {
    if n > 0 {
      var uid := latest.keys[n - 1];
      var inner := latest.entries[uid];
      var prev := Rows(latest, n - 1);
      var rows := Rows(latest, n);
      RowsUsers(latest, n - 1);
      InnerRowsAt(uid, inner, |inner.keys|);
      assert latest.keys[..n] == latest.keys[..n - 1] + [uid];
      forall j | 0 <= j < |rows| ensures rows[j].user in latest.keys[..n] {
        if j < |prev| {
          assert rows[j] == prev[j];
        }
      }
    }
  }

  /** No (user, item) pair appears in two rows. */
  lemma {:induction false} RowsPairsDistinct<R(!new), X>(latest: Latest<R, X>, n: nat)
    requires LatestValid(latest) && n <= |latest.keys|
    ensures forall a, b :: 0 <= a < b < |Rows(latest, n)| ==>
      Rows(latest, n)[a].user != Rows(latest, n)[b].user || Rows(latest, n)[a].item != Rows(latest, n)[b].item
  {
    if n > 0 {
      var uid := latest.keys[n - 1];
      var inner := latest.entries[uid];
      var prev := Rows(latest, n - 1);
      var mine := InnerRows(uid, inner, |inner.keys|);
      var rows := Rows(latest, n);
      assert rows == prev + mine;
      RowsPairsDistinct(latest, n - 1);
      RowsUsers(latest, n - 1);
      InnerRowsAt(uid, inner, |inner.keys|);
      DistinctLastNew(latest.keys, n);
      forall a, b | 0 <= a < b < |mine| ensures mine[a].item != mine[b].item {
        assert Distinct(inner.keys);
      }
      PairsDistinctConcat(prev, mine, uid);
    }
  }

  /** Rows with distinct pairs, followed by one other user's rows with distinct items, keep their pairs distinct. */
  lemma {:induction false} PairsDistinctConcat<R, X>(prev: seq<Row<R, X>>, mine: seq<Row<R, X>>, uid: nat)
    requires forall a, b :: 0 <= a < b < |prev| ==> prev[a].user != prev[b].user || prev[a].item != prev[b].item
    requires forall a, b :: 0 <= a < b < |mine| ==> mine[a].item != mine[b].item
    requires forall j :: 0 <= j < |mine| ==> mine[j].user == uid
    requires forall j :: 0 <= j < |prev| ==> prev[j].user != uid
    ensures var rows := prev + mine;
      forall a, b :: 0 <= a < b < |rows| ==> rows[a].user != rows[b].user || rows[a].item != rows[b].item
  {
    var rows := prev + mine;
    forall a, b | 0 <= a < b < |rows|
      ensures rows[a].user != rows[b].user || rows[a].item != rows[b].item
    {
      if b >= |prev| {
        assert rows[b] == mine[b - |prev|];
        if a >= |prev| {
          assert rows[a] == mine[a - |prev|];
        }
      }
    }
  }

  /**
   * What `load_reviews_and_users` returns: the user ids, the kept reviews
   * with feature ids and with business ids. A missing file (`None`) reads
   * as no lines.
   */
  function LoadReviewsAndUsersSpec(lines: Option<seq<Result<Value>>>, restaurantIds: Dict<Value, nat>,
                                   toTimestamp: Value -> Result<int>)
    : Result<(Dict<Value, nat>, seq<Row<nat, Value>>, seq<Row<Value, Value>>)>
  {
    var st :- if lines.None? then Ok(RecordAll([])) else RecordedReviews(lines.value, restaurantIds, toTimestamp);
    var rows := Rows(st.latest, |st.latest.keys|);
    Ok((st.users, Filtered(rows, restaurantIds), rows))
  }

  /** The loop body for one kept review, as the source writes it. */
  method RecordReview<U(==,!new), R(==,!new), X>(users: Dict<U, nat>, latest: Latest<R, X>, k: Kept<U, R, X>)
    returns (users': Dict<U, nat>, latest': Latest<R, X>)
    ensures ReviewState(users', latest') == Record(ReviewState(users, latest), k)
  {
    users', latest' := users, latest;
    var uid: nat;
    if k.user in users'.entries {
      uid := users'.entries[k.user];
    } else {
      uid := |users'.keys| + 1;
      users' := users'.Put(k.user, uid);
    }
    if uid !in latest'.entries {
      latest' := latest'.Put(uid, EmptyDict());
    }
    var inner := latest'.entries[uid];
    if k.restaurant !in inner.entries {
      latest' := latest'.Put(uid, inner.Put(k.restaurant, (k.timestamp, k.rating)));
    } else if k.timestamp > inner.entries[k.restaurant].0 {
      latest' := latest'.Put(uid, inner.Put(k.restaurant, (k.timestamp, k.rating)));
    }
  }

  method FlattenUser(latest: Latest<Value, Value>, uid: nat, restaurantIds: Dict<Value, nat>,
                     filtered: seq<Row<nat, Value>>, original: seq<Row<Value, Value>>)
    returns (filtered': seq<Row<nat, Value>>, original': seq<Row<Value, Value>>)
    requires LatestValid(latest) && uid in latest.entries
    ensures original' == original + InnerRows(uid, latest.entries[uid], |latest.entries[uid].keys|)
    ensures filtered' == filtered + Filtered(InnerRows(uid, latest.entries[uid], |latest.entries[uid].keys|), restaurantIds)
  {
    var inner := latest.entries[uid];
    filtered', original' := filtered, original;
    var j := 0;
    while j < |inner.keys|
      invariant 0 <= j <= |inner.keys|
      invariant original' == original + InnerRows(uid, inner, j)
      invariant filtered' == filtered + Filtered(InnerRows(uid, inner, j), restaurantIds)
    {
      var restaurant := inner.keys[j];
      var timestampRating := inner.entries[restaurant];
      var row := Row(uid, restaurant, timestampRating.1, timestampRating.0);
      assert Filtered(InnerRows(uid, inner, j + 1), restaurantIds)
          == Filtered(InnerRows(uid, inner, j), restaurantIds) + Filtered([row], restaurantIds);
      filtered' := filtered' + [Row(uid, IdOf(restaurantIds, restaurant), timestampRating.1, timestampRating.0)];
      original' := original' + [row];
      j := j + 1;
    }
  }

  lemma {:induction false} FilteredAppend<X>(a: seq<Row<Value, X>>, b: seq<Row<Value, X>>, restaurantIds: Dict<Value, nat>)
    ensures Filtered(a + b, restaurantIds) == Filtered(a, restaurantIds) + Filtered(b, restaurantIds)
  {
  }

  method FlattenRows(latest: Latest<Value, Value>, restaurantIds: Dict<Value, nat>)
    returns (filtered: seq<Row<nat, Value>>, original: seq<Row<Value, Value>>)
    requires LatestValid(latest)
    ensures original == Rows(latest, |latest.keys|)
    ensures filtered == Filtered(original, restaurantIds)
  {
    filtered, original := [], [];
    var i := 0;
    while i < |latest.keys|
      invariant 0 <= i <= |latest.keys|
      invariant original == Rows(latest, i)
      invariant filtered == Filtered(original, restaurantIds)
    {
      var uid := latest.keys[i];
      ghost var inner := InnerRows(uid, latest.entries[uid], |latest.entries[uid].keys|);
      FilteredAppend(original, inner, restaurantIds);
      filtered, original := FlattenUser(latest, uid, restaurantIds, filtered, original);
      i := i + 1;
    }
  }

  /** The state after the reading loop over the lines of one file. */
  function RecordedReviews(lines: seq<Result<Value>>, restaurantIds: Dict<Value, nat>,
                           toTimestamp: Value -> Result<int>): Result<ReviewState<Value, Value, Value>>
  {
    var parsed :- AllOk(ParseReviews(lines, restaurantIds, toTimestamp));
    Ok(RecordAll(Somes(parsed)))
  }

  method ReadReviews(lines: seq<Result<Value>>, restaurantIds: Dict<Value, nat>, toTimestamp: Value -> Result<int>)
    returns (r: Result<ReviewState<Value, Value, Value>>)
    ensures r == RecordedReviews(lines, restaurantIds, toTimestamp)
  {
    var users: Dict<Value, nat> := EmptyDict();
    var latest: Latest<Value, Value> := EmptyDict();
    ghost var parsed: seq<Option<Kept<Value, Value, Value>>> := [];
    var i := 0;
    assert ParseReviews(lines, restaurantIds, toTimestamp)[..0] == [];
    while i < |lines|
      invariant ReadTo(lines, restaurantIds, toTimestamp, i, parsed, users, latest)
    {
      var failure;
      failure, parsed, users, latest := ReadLine(lines, restaurantIds, toTimestamp, i, parsed, users, latest);
      if failure.Some? {
        return Err(failure.value);
      }
      i := i + 1;
    }
    assert ParseReviews(lines, restaurantIds, toTimestamp)[..i] == ParseReviews(lines, restaurantIds, toTimestamp);
    r := Ok(ReviewState(users, latest));
  }

  /** The first `i` lines are parsed and the reviews kept among them recorded. */
  ghost predicate ReadTo(lines: seq<Result<Value>>, restaurantIds: Dict<Value, nat>, toTimestamp: Value -> Result<int>,
                         i: int, parsed: seq<Option<Kept<Value, Value, Value>>>,
                         users: Dict<Value, nat>, latest: Latest<Value, Value>) {
    && 0 <= i <= |lines|
    && AllOk(ParseReviews(lines, restaurantIds, toTimestamp)[..i]) == Ok(parsed)
    && ReviewState(users, latest) == RecordAll(Somes(parsed))
  }

  /** Line `i` of the reading loop: its review is recorded, or its failure is the failure of the whole read. */
  method ReadLine(lines: seq<Result<Value>>, restaurantIds: Dict<Value, nat>, toTimestamp: Value -> Result<int>,
                  i: nat, ghost parsed: seq<Option<Kept<Value, Value, Value>>>,
                  users: Dict<Value, nat>, latest: Latest<Value, Value>)
    returns (failure: Option<Error>, ghost parsed': seq<Option<Kept<Value, Value, Value>>>,
             users': Dict<Value, nat>, latest': Latest<Value, Value>)
    requires ReadTo(lines, restaurantIds, toTimestamp, i, parsed, users, latest) && i < |lines|
    ensures failure.Some? ==> AllOk(ParseReviews(lines, restaurantIds, toTimestamp)) == Err(failure.value)
    ensures failure.None? ==> ReadTo(lines, restaurantIds, toTimestamp, i + 1, parsed', users', latest')
  {
    ghost var rs := ParseReviews(lines, restaurantIds, toTimestamp);
    AllOkStep(rs, i);
    var review := ParseReview(lines[i], restaurantIds, toTimestamp);
    parsed', users', latest' := parsed, users, latest;
    if review.Err? {
      AllOkFailedPrefix(rs, i + 1);
      return Some(review.error), parsed', users', latest';
    }
    failure := None;
    ghost var before := Somes(parsed);
    ghost var after := Somes(parsed + [review.value]);
    SomesSnoc(parsed, review.value);
    if review.value.Some? {
      var k := review.value.value;
      assert after == before + [k];
      RecordAllSnoc(before, k);
      ghost var st := RecordAll(before);
      users', latest' := RecordReview(users, latest, k);
      assert ReviewState(users', latest') == Record(st, k) == RecordAll(after);
    } else {
      assert after == before;
    }
    parsed' := parsed + [review.value];
  }

  method LoadReviewsAndUsers(lines: Option<seq<Result<Value>>>, restaurantIds: Dict<Value, nat>,
                             toTimestamp: Value -> Result<int>)
    returns (r: Result<(Dict<Value, nat>, seq<Row<nat, Value>>, seq<Row<Value, Value>>)>)
    ensures r == LoadReviewsAndUsersSpec(lines, restaurantIds, toTimestamp)
  {
    var st: ReviewState<Value, Value, Value> := RecordAll([]);
    if lines.Some? {
      var read := ReadReviews(lines.value, restaurantIds, toTimestamp);
      if read.Err? {
        return Err(read.error);
      }
      st := read.value;
    }
    var filtered, original := FlattenRows(st.latest, restaurantIds);
    r := Ok((st.users, filtered, original));
  }

  lemma {:induction false} SomesMembers<T>(os: seq<Option<T>>)
    ensures forall x :: x in Somes(os) ==> Some(x) in os
  {
    if os != [] {
      var init := os[..|os| - 1];
      SomesMembers(init);
      assert forall o :: o in init ==> o in os;
    }
  }

  /** Every kept review names a restaurant that has a feature id. */
  lemma {:induction false} KeptAreKnown(lines: seq<Result<Value>>, restaurantIds: Dict<Value, nat>, toTimestamp: Value -> Result<int>,
                     parsed: seq<Option<Kept<Value, Value, Value>>>)
    requires AllOk(ParseReviews(lines, restaurantIds, toTimestamp)) == Ok(parsed)
    ensures forall k :: k in Somes(parsed) ==> k.restaurant in restaurantIds.entries
  {
    var rs := ParseReviews(lines, restaurantIds, toTimestamp);
    AllOkPerIndex(rs);
    SomesMembers(parsed);
    forall k | k in Somes(parsed)
      ensures k.restaurant in restaurantIds.entries
    {
      var i :| 0 <= i < |parsed| && parsed[i] == Some(k);
      assert rs[i] == Ok(Some(k));
    }
  }

  /** Kept review `k`'s pair has a row in `rows` that is no older than `k`. */
  ghost predicate HasRowFor<U(!new), R, X>(rows: seq<Row<R, X>>, users: Dict<U, nat>, k: Kept<U, R, X>) {
    exists row :: row in rows && row.user == IdOf(users, k.user) && row.item == k.restaurant && k.timestamp <= row.timestamp
  }

  /** Every row holds the first review of its pair with the latest timestamp. */
  lemma {:induction false} RowsAreFirstLatest<U(!new), R(!new), X>(ks: seq<Kept<U, R, X>>)
    ensures var st := RecordAll(ks);
      forall row :: row in Rows(st.latest, |st.latest.keys|) ==>
        exists j :: FirstLatest(ks, st.users, j, row.user, row.item, (row.timestamp, row.rating))
  {
    var st := RecordAll(ks);
    RowsContents(st.latest, |st.latest.keys|);
    LatestIsFirstLatest(ks);
    assert st == RecordAll(ks);
    assert forall uid, rid, v :: Stored(st.latest, uid, rid, v) ==> exists j :: FirstLatest(ks, st.users, j, uid, rid, v);
    forall row | row in Rows(st.latest, |st.latest.keys|)
      ensures exists j :: FirstLatest(ks, st.users, j, row.user, row.item, (row.timestamp, row.rating))
    {
      assert Stored(st.latest, row.user, row.item, (row.timestamp, row.rating));
    }
  }

  /** Every kept review's pair has a row, no older than the review. */
  lemma {:induction false} RowsCoverKept<U(!new), R(!new), X>(ks: seq<Kept<U, R, X>>)
    ensures var st := RecordAll(ks);
      forall j :: 0 <= j < |ks| ==> HasRowFor(Rows(st.latest, |st.latest.keys|), st.users, ks[j])
  {
    var st := RecordAll(ks);
    var rows := Rows(st.latest, |st.latest.keys|);
    RowsContents(st.latest, |st.latest.keys|);
    assert st.latest.keys[..|st.latest.keys|] == st.latest.keys;
    LatestCovers(ks);
    forall j | 0 <= j < |ks|
      ensures HasRowFor(rows, st.users, ks[j])
    {
      var uid := IdOf(st.users, ks[j].user);
      var v := st.latest.entries[uid].entries[ks[j].restaurant];
      assert Stored(st.latest, uid, ks[j].restaurant, v);
      assert Row(uid, ks[j].restaurant, v.1, v.0) in rows;
    }
  }

  lemma {:induction false} LoadReviewsAndUsersShape(lines: seq<Result<Value>>, restaurantIds: Dict<Value, nat>,
                                 toTimestamp: Value -> Result<int>, parsed: seq<Option<Kept<Value, Value, Value>>>)
    requires AllOk(ParseReviews(lines, restaurantIds, toTimestamp)) == Ok(parsed)
    ensures var st := RecordAll(Somes(parsed));
      var rows := Rows(st.latest, |st.latest.keys|);
      LoadReviewsAndUsersSpec(Some(lines), restaurantIds, toTimestamp) == Ok((st.users, Filtered(rows, restaurantIds), rows))
  {
  }

  /** Users are numbered from 1 in order of their first kept review. */
  lemma {:induction false} LoadReviewsAndUsersIds(lines: seq<Result<Value>>, restaurantIds: Dict<Value, nat>,
                               toTimestamp: Value -> Result<int>, parsed: seq<Option<Kept<Value, Value, Value>>>)
    requires AllOk(ParseReviews(lines, restaurantIds, toTimestamp)) == Ok(parsed)
    ensures var r := LoadReviewsAndUsersSpec(Some(lines), restaurantIds, toTimestamp);
      r.Ok? && r.value.0 == Intern(Users(Somes(parsed)))
  {
    LoadReviewsAndUsersShape(lines, restaurantIds, toTimestamp, parsed);
    RecordAllUsers(Somes(parsed));
  }

  /**
   * Each returned row holds a known restaurant and the first kept review of
   * its (user, restaurant) pair with the latest timestamp.
   */
  lemma {:induction false} LoadReviewsAndUsersRows(lines: seq<Result<Value>>, restaurantIds: Dict<Value, nat>,
                                toTimestamp: Value -> Result<int>, parsed: seq<Option<Kept<Value, Value, Value>>>)
    requires AllOk(ParseReviews(lines, restaurantIds, toTimestamp)) == Ok(parsed)
    ensures var ks := Somes(parsed);
      var r := LoadReviewsAndUsersSpec(Some(lines), restaurantIds, toTimestamp);
      && r.Ok?
      && forall row :: row in r.value.2 ==>
           && row.item in restaurantIds.entries
           && exists j :: FirstLatest(ks, r.value.0, j, row.user, row.item, (row.timestamp, row.rating))
  {
    var ks := Somes(parsed);
    var st := RecordAll(ks);
    var rows := Rows(st.latest, |st.latest.keys|);
    LoadReviewsAndUsersShape(lines, restaurantIds, toTimestamp, parsed);
    RowsAreFirstLatest(ks);
    KeptAreKnown(lines, restaurantIds, toTimestamp, parsed);
    forall row | row in rows
      ensures row.item in restaurantIds.entries
    {
      var j :| FirstLatest(ks, st.users, j, row.user, row.item, (row.timestamp, row.rating));
      assert ks[j] in ks;
    }
  }

  /** No kept review is lost: its pair is returned with a timestamp at least as late. */
  lemma {:induction false} LoadReviewsAndUsersCovers(lines: seq<Result<Value>>, restaurantIds: Dict<Value, nat>,
                                  toTimestamp: Value -> Result<int>, parsed: seq<Option<Kept<Value, Value, Value>>>)
    requires AllOk(ParseReviews(lines, restaurantIds, toTimestamp)) == Ok(parsed)
    ensures var ks := Somes(parsed);
      var r := LoadReviewsAndUsersSpec(Some(lines), restaurantIds, toTimestamp);
      && r.Ok?
      && forall j :: 0 <= j < |ks| ==> HasRowFor(r.value.2, r.value.0, ks[j])
  {
    var ks := Somes(parsed);
    var st := RecordAll(ks);
    var rows := Rows(st.latest, |st.latest.keys|);
    LoadReviewsAndUsersShape(lines, restaurantIds, toTimestamp, parsed);
    assert LoadReviewsAndUsersSpec(Some(lines), restaurantIds, toTimestamp).value.2 == rows;
    RowsCoverKept(ks);
  }

  /** The filtered rows are the original rows with each restaurant's feature id. */
  lemma {:induction false} LoadReviewsAndUsersFiltered(lines: seq<Result<Value>>, restaurantIds: Dict<Value, nat>,
                                    toTimestamp: Value -> Result<int>, parsed: seq<Option<Kept<Value, Value, Value>>>)
    requires AllOk(ParseReviews(lines, restaurantIds, toTimestamp)) == Ok(parsed)
    ensures var r := LoadReviewsAndUsersSpec(Some(lines), restaurantIds, toTimestamp);
      && r.Ok? && |r.value.1| == |r.value.2|
      && forall i :: 0 <= i < |r.value.2| ==>
           && r.value.2[i].item in restaurantIds.entries
           && r.value.1[i] == Row(r.value.2[i].user, restaurantIds.entries[r.value.2[i].item],
                                  r.value.2[i].rating, r.value.2[i].timestamp)
  {
    LoadReviewsAndUsersRows(lines, restaurantIds, toTimestamp, parsed);
  }

  /** Any line that fails to parse makes the whole call fail with the first such error. */
  lemma {:induction false} LoadReviewsAndUsersErrors(lines: seq<Result<Value>>, restaurantIds: Dict<Value, nat>,
                                  toTimestamp: Value -> Result<int>)
    ensures LoadReviewsAndUsersSpec(Some(lines), restaurantIds, toTimestamp).Err? <==>
      exists i :: 0 <= i < |lines| && ParseReview(lines[i], restaurantIds, toTimestamp).Err?
  {
    AllOkPerIndex(ParseReviews(lines, restaurantIds, toTimestamp));
  }
}
