/**
 * Candidate generation (main/model/model_utils.py): the user crossed with
 * every distinct item of the reviews table, optionally without the pairs the
 * table already contains.
 */
module ModelUtils {
  import opened Collections
  import opened Types

  datatype UserItem = UserItem(user: int, item: int)

  /** `itertools.product([user_id], items)` */
  function AllPairs(user: int, items: seq<int>): (r: seq<UserItem>)
    ensures |r| == |items|
    ensures forall i :: 0 <= i < |r| ==> r[i] == UserItem(user, items[i])
  {
    seq(|items|, i requires 0 <= i < |items| => UserItem(user, items[i]))
  }

  /** The pairs whose (user, item) is not the key of any row of `data`. */
  function RemoveSeen(pairs: seq<UserItem>, data: seq<Review>): (r: seq<UserItem>)
    ensures forall p :: p in r <==> p in pairs && !Rated(data, p.user, p.item)
  {
    if pairs == [] then []
    else
      (if Rated(data, pairs[0].user, pairs[0].item) then [] else [pairs[0]])
      + RemoveSeen(pairs[1..], data)
  }

  /** `init_user_item(user_id, data, removeSeen)` */
  function InitUserItem(user: int, data: seq<Review>, removeSeen: bool): (r: seq<UserItem>)
    ensures forall p :: p in r ==> p.user == user && p.item in Items(data)
    ensures removeSeen ==>
      forall p :: p in r <==> p.user == user && p.item in Items(data) && !Rated(data, user, p.item)
  {
    var all := AllPairs(user, Unique(Items(data)));
    assert forall p :: p in all <==> p.user == user && p.item in Items(data) by {
      forall p: UserItem | p.user == user && p.item in Items(data) ensures p in all {
        var i :| 0 <= i < |Unique(Items(data))| && Unique(Items(data))[i] == p.item;
        assert all[i] == p;
      }
    }
    if removeSeen then RemoveSeen(all, data) else all
  }

  /** The items of the candidates, in candidate order. */
  function CandidateItems(pairs: seq<UserItem>): (r: seq<int>)
    ensures |r| == |pairs| && forall i :: 0 <= i < |r| ==> r[i] == pairs[i].item
  {
    seq(|pairs|, i requires 0 <= i < |pairs| => pairs[i].item)
  }

  /**
   * Without removal there is one candidate per distinct item of the table:
   * each item once, every item present, in order of first appearance.
   */
  lemma {:induction false} CandidatesCoverDistinctItems(user: int, data: seq<Review>)
    ensures var items := CandidateItems(InitUserItem(user, data, false));
      && Distinct(items)
      && (forall it :: it in items <==> it in Items(data))
      && (forall i, j :: 0 <= i < j < |items| ==>
            FirstIndex(Items(data), items[i]) < FirstIndex(Items(data), items[j]))
  {
    var items := CandidateItems(InitUserItem(user, data, false));
    assert items == Unique(Items(data));
    UniqueFirstSeenOrder(Items(data));
  }

  lemma {:induction false} RemoveSeenIsSubsequence(pairs: seq<UserItem>, data: seq<Review>)
    ensures IsSubsequence(RemoveSeen(pairs, data), pairs)
  {
    if pairs != [] {
      var rest := RemoveSeen(pairs[1..], data);
      RemoveSeenIsSubsequence(pairs[1..], data);
      if Rated(data, pairs[0].user, pairs[0].item) {
        assert RemoveSeen(pairs, data) == rest;
      } else {
        var a := RemoveSeen(pairs, data);
        assert a == [pairs[0]] + rest && a[1..] == rest;
      }
    }
  }

  /** Removing seen pairs only deletes candidates; the survivors keep their order. */
  lemma {:induction false} UnseenCandidatesAreSubsequence(user: int, data: seq<Review>)
    ensures IsSubsequence(InitUserItem(user, data, true), InitUserItem(user, data, false))
  {
    RemoveSeenIsSubsequence(InitUserItem(user, data, false), data);
  }

  /** The unseen candidates are empty exactly when the user has rated every item of the table. */
  lemma {:induction false} FullyRatedUserHasNoCandidates(user: int, data: seq<Review>)
    ensures InitUserItem(user, data, true) == [] <==>
      forall r :: r in data ==> Rated(data, user, r.item)
  {
    var c := InitUserItem(user, data, true);
    if c != [] {
      assert c[0] in c;
    } else {
      forall r | r in data ensures Rated(data, user, r.item) {
        var i :| 0 <= i < |data| && data[i] == r;
        assert Items(data)[i] == r.item;
        assert UserItem(user, r.item) !in c;
      }
    }
  }
}
