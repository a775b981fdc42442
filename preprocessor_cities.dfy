/**
 * City maps (main/preprocessor.py, `map_restaurants_to_cities` and
 * `map_users_to_cities`): which city each feature id lies in, and which
 * cities each user has rated restaurants in.
 */
module CityMaps {
  import opened Wrappers
  import opened Collections
  import opened Json
  import opened IdAssignment
  import BusinessPreprocessor

  // ---------------------------------------------------------------------------
  // map_restaurants_to_cities
  // ---------------------------------------------------------------------------

  /**
   * One restaurant's `(feature id, city)`: its business id must be an
   * unhashable-free key of `restaurantIds` (`KeyError` otherwise), read
   * before the city.
   */
  function CityEntry(restaurant: Value, restaurantIds: Dict<Value, nat>): (r: Result<(nat, Value)>)
    ensures r.Ok? <==>
      && KeyOf(restaurant, RESTAURANT_ID).Ok?
      && KeyOf(restaurant, RESTAURANT_ID).value in restaurantIds.entries
      && BusinessPreprocessor.CITY in restaurant.fields.entries
    ensures r.Ok? ==>
      r.value == (restaurantIds.entries[restaurant.fields.entries[RESTAURANT_ID]],
                  restaurant.fields.entries[BusinessPreprocessor.CITY])
  {
    var rid :- KeyOf(restaurant, RESTAURANT_ID);
    if rid !in restaurantIds.entries then Err(KeyError)
    else
      var city :- Get(restaurant, BusinessPreprocessor.CITY);
      Ok((restaurantIds.entries[rid], city))
  }

  function CityEntries(restaurants: seq<Value>, restaurantIds: Dict<Value, nat>): (rs: seq<Result<(nat, Value)>>)
    ensures |rs| == |restaurants|
    ensures forall i :: 0 <= i < |restaurants| ==> rs[i] == CityEntry(restaurants[i], restaurantIds)
  {
    seq(|restaurants|, i requires 0 <= i < |restaurants| => CityEntry(restaurants[i], restaurantIds))
  }

  /** `feature_id_to_cities[feature_id] = city` for each restaurant in turn. */
  function MapRestaurantsToCitiesSpec(restaurants: seq<Value>, restaurantIds: Dict<Value, nat>): Result<Dict<nat, Value>> {
    var pairs :- AllOk(CityEntries(restaurants, restaurantIds));
    Ok(Overwrite(pairs))
  }

  method MapRestaurantsToCities(restaurants: seq<Value>, restaurantIds: Dict<Value, nat>)
    returns (r: Result<Dict<nat, Value>>)
    ensures r == MapRestaurantsToCitiesSpec(restaurants, restaurantIds)
  {
    ghost var rs := CityEntries(restaurants, restaurantIds);
    ghost var pairs: seq<(nat, Value)> := [];
    var featureIdToCities: Dict<nat, Value> := EmptyDict();
    var i := 0;
    assert rs[..0] == [];
    while i < |restaurants|
      invariant 0 <= i <= |restaurants|
      invariant AllOk(rs[..i]) == Ok(pairs)
      invariant featureIdToCities == Overwrite(pairs)
    {
      AllOkStep(rs, i);
      var entry := CityEntry(restaurants[i], restaurantIds);
      if entry.Err? {
        AllOkFailedPrefix(rs, i + 1);
        return Err(entry.error);
      }
      OverwriteSnocStep(pairs, entry.value);
      featureIdToCities := featureIdToCities.Put(entry.value.0, entry.value.1);
      pairs := pairs + [entry.value];
      i := i + 1;
    }
    assert rs[..i] == rs;
    r := Ok(featureIdToCities);
  }

  /**
   * The call fails exactly when some restaurant fails, and otherwise maps
   * each feature id to the city of the last restaurant carrying it.
   */
  lemma {:induction false} MapRestaurantsToCitiesMeaning(restaurants: seq<Value>, restaurantIds: Dict<Value, nat>)
    ensures var r := MapRestaurantsToCitiesSpec(restaurants, restaurantIds);
      && (r.Ok? <==> forall i :: 0 <= i < |restaurants| ==> CityEntry(restaurants[i], restaurantIds).Ok?)
      && (r.Ok? ==> forall i :: 0 <= i < |restaurants| ==>
            var fid := CityEntry(restaurants[i], restaurantIds).value.0;
            (forall j :: i < j < |restaurants| ==> CityEntry(restaurants[j], restaurantIds).value.0 != fid) ==>
              fid in r.value.entries && r.value.entries[fid] == CityEntry(restaurants[i], restaurantIds).value.1)
  {
    var rs := CityEntries(restaurants, restaurantIds);
    AllOkPerIndex(rs);
    if AllOk(rs).Ok? {
      var pairs := AllOk(rs).value;
      forall i | 0 <= i < |restaurants| && (forall j :: i < j < |restaurants| ==> pairs[j].0 != pairs[i].0)
        ensures pairs[i].0 in Overwrite(pairs).entries && Overwrite(pairs).entries[pairs[i].0] == pairs[i].1
      {
        OverwriteLastWriter(pairs, i);
      }
    }
  }

  // ---------------------------------------------------------------------------
  // map_users_to_cities
  // ---------------------------------------------------------------------------

  /**
   * `s = d.setdefault(k, set()); s.add(v)` for each pair in turn: the keys in
   * order of first appearance, each with the set of its values.
   */
  function CollectSets<K(==,!new), V(!new)>(ps: seq<(K, V)>): (d: Dict<K, set<V>>)
    ensures d.Valid()
    ensures d.keys == Unique(Firsts(ps))
  {
    if ps == [] then EmptyDict()
    else
      var init := ps[..|ps| - 1];
      var last := ps[|ps| - 1];
      assert ps == init + [last];
      FirstsSnoc(init, last);
      UniqueSnoc(Firsts(init), last.0);
      var prev := CollectSets(init);
      prev.Put(last.0, (if last.0 in prev.entries then prev.entries[last.0] else {}) + {last.1})
  }

  /** Each key's set holds exactly the values paired with it. */
  lemma {:induction false} CollectSetsMembers<K(!new), V(!new)>(ps: seq<(K, V)>)
    ensures forall k, v :: k in CollectSets(ps).entries ==> (v in CollectSets(ps).entries[k] <==> v in ValuesFor(ps, k))
  {
    if ps != [] {
      var init := ps[..|ps| - 1];
      var last := ps[|ps| - 1];
      assert ps == init + [last];
      CollectSetsMembers(init);
      CollectSetsSnoc(init, last);
      forall k, v | k in CollectSets(ps).entries
        ensures v in CollectSets(ps).entries[k] <==> v in ValuesFor(ps, k)
      {
        ValuesForSnoc(init, last, k);
      }
    }
  }

  lemma {:induction false} CollectSetsSnoc<K(!new), V(!new)>(ps: seq<(K, V)>, p: (K, V))
    ensures var prev := CollectSets(ps);
      CollectSets(ps + [p]) == prev.Put(p.0, (if p.0 in prev.entries then prev.entries[p.0] else {}) + {p.1})
  {
    assert (ps + [p])[..|ps|] == ps;
  }

  /** One review's `(user, city)`: `KeyError` for an item without a city, `TypeError` for an unhashable city. */
  function UserCity<X>(review: Row<nat, X>, featureIdToCities: Dict<nat, Value>): (r: Result<(nat, Value)>)
    ensures r.Ok? <==> review.item in featureIdToCities.entries && Hashable(featureIdToCities.entries[review.item])
    ensures r.Ok? ==> r.value == (review.user, featureIdToCities.entries[review.item])
  {
    if review.item !in featureIdToCities.entries then Err(KeyError)
    else
      var city := featureIdToCities.entries[review.item];
      if Hashable(city) then Ok((review.user, city)) else Err(TypeError)
  }

  function UserCities<X>(reviews: seq<Row<nat, X>>, featureIdToCities: Dict<nat, Value>): (rs: seq<Result<(nat, Value)>>)
    ensures |rs| == |reviews|
    ensures forall i :: 0 <= i < |reviews| ==> rs[i] == UserCity(reviews[i], featureIdToCities)
  {
    seq(|reviews|, i requires 0 <= i < |reviews| => UserCity(reviews[i], featureIdToCities))
  }

  function MapUsersToCitiesSpec<X>(reviews: seq<Row<nat, X>>, featureIdToCities: Dict<nat, Value>)
    : Result<Dict<nat, set<Value>>>
  {
    var pairs :- AllOk(UserCities(reviews, featureIdToCities));
    Ok(CollectSets(pairs))
  }

  /** `if user not in d: d[user] = set()`, then `d[user].add(city)`. */
  method AddCity(userToCities: Dict<nat, set<Value>>, user: nat, city: Value) returns (d: Dict<nat, set<Value>>)
    ensures d == userToCities.Put(user, (if user in userToCities.entries then userToCities.entries[user] else {}) + {city})
  {
    d := userToCities;
    if user !in d.entries {
      d := d.Put(user, {});
    }
    d := d.Put(user, d.entries[user] + {city});
  }

  method MapUsersToCities<X>(reviews: seq<Row<nat, X>>, featureIdToCities: Dict<nat, Value>)
    returns (r: Result<Dict<nat, set<Value>>>)
    ensures r == MapUsersToCitiesSpec(reviews, featureIdToCities)
  {
    ghost var rs := UserCities(reviews, featureIdToCities);
    ghost var pairs: seq<(nat, Value)> := [];
    var userToCities: Dict<nat, set<Value>> := EmptyDict();
    var i := 0;
    assert rs[..0] == [];
    while i < |reviews|
      invariant 0 <= i <= |reviews|
      invariant AllOk(rs[..i]) == Ok(pairs)
      invariant userToCities == CollectSets(pairs)
    {
      AllOkStep(rs, i);
      var entry := UserCity(reviews[i], featureIdToCities);
      if entry.Err? {
        AllOkFailedPrefix(rs, i + 1);
        return Err(entry.error);
      }
      CollectSetsSnoc(pairs, entry.value);
      userToCities := AddCity(userToCities, entry.value.0, entry.value.1);
      pairs := pairs + [entry.value];
      i := i + 1;
    }
    assert rs[..i] == rs;
    r := Ok(userToCities);
  }

  /**
   * The call fails exactly when some review's item has no city or an
   * unhashable one; otherwise its users are the reviewers in order of first
   * review, and a user's set holds exactly the cities of the items they
   * reviewed.
   */
  lemma {:induction false} MapUsersToCitiesMeaning<X>(reviews: seq<Row<nat, X>>, featureIdToCities: Dict<nat, Value>)
    ensures var r := MapUsersToCitiesSpec(reviews, featureIdToCities);
      && (r.Ok? <==> forall i :: 0 <= i < |reviews| ==> UserCity(reviews[i], featureIdToCities).Ok?)
      && (r.Ok? ==>
            && (forall u :: u in r.value.entries <==> exists i :: 0 <= i < |reviews| && reviews[i].user == u)
            && (forall u, city :: u in r.value.entries && city in r.value.entries[u] <==>
                  exists i :: 0 <= i < |reviews| && reviews[i].user == u
                    && featureIdToCities.entries[reviews[i].item] == city))
  {
    var rs := UserCities(reviews, featureIdToCities);
    AllOkPerIndex(rs);
    if AllOk(rs).Ok? {
      var pairs := AllOk(rs).value;
      var d := CollectSets(pairs);
      CollectSetsMembers(pairs);
      forall u
        ensures u in d.entries <==> exists i :: 0 <= i < |reviews| && reviews[i].user == u
      {
        if u in d.entries {
          var i :| 0 <= i < |pairs| && Firsts(pairs)[i] == u;
          assert reviews[i].user == u;
        } else {
          forall i | 0 <= i < |reviews| ensures reviews[i].user != u {
            assert Firsts(pairs)[i] == pairs[i].0;
          }
        }
      }
      forall u, city
        ensures u in d.entries && city in d.entries[u] <==>
          exists i :: 0 <= i < |reviews| && reviews[i].user == u && featureIdToCities.entries[reviews[i].item] == city
      {
        ValuesForMembers(pairs, u, city);
        if exists i :: 0 <= i < |reviews| && reviews[i].user == u && featureIdToCities.entries[reviews[i].item] == city {
          var i :| 0 <= i < |reviews| && reviews[i].user == u && featureIdToCities.entries[reviews[i].item] == city;
          assert pairs[i] == (u, city);
          assert Firsts(pairs)[i] == u;
        }
      }
    }
  }
}
