/** What a filter leaves of a list. */
module Selections {
  /** The elements at these places of the list, in their order. */
  ghost predicate Picks<T>(kept: seq<T>, list: seq<T>, places: seq<int>) {
    && |kept| == |places|
    && (forall p :: 0 <= p < |places| ==> 0 <= places[p] < |list| && kept[p] == list[places[p]])
    && (forall p, q :: 0 <= p < q < |places| ==> places[p] < places[q])
  }

  /** All places, and no others, whose elements pass the test. */
  ghost predicate Passing<T>(list: seq<T>, places: seq<int>, keep: T -> bool) {
    forall i {:trigger i in places} :: 0 <= i < |list| ==> (i in places <==> keep(list[i]))
  }

  /** The elements that pass the test, as often as they are there and in their order. */
  ghost predicate Selected<T>(kept: seq<T>, list: seq<T>, keep: T -> bool) {
    exists places :: Picks(kept, list, places) && Passing(list, places, keep)
  }

  lemma {:induction false} NoneSelected<T>(keep: T -> bool)
    ensures Selected([], [], keep)
  {
    assert Picks<T>([], [], []) && Passing([], [], keep);
  }

  lemma {:induction false} PickNext<T>(kept: seq<T>, list: seq<T>, places: seq<int>, x: T, take: bool)
    requires Picks(kept, list, places)
    ensures Picks(if take then kept + [x] else kept, list + [x], if take then places + [|list|] else places)
    ensures |list| !in places
  {
  }

  lemma {:induction false} PassingNext<T>(list: seq<T>, places: seq<int>, x: T, keep: T -> bool)
    requires Passing(list, places, keep) && |list| !in places
    ensures Passing(list + [x], if keep(x) then places + [|list|] else places, keep)
  {
    var n, longer := |list|, if keep(x) then places + [|list|] else places;
    forall i | 0 <= i < |list + [x]| ensures i in longer <==> keep((list + [x])[i]) {
      assert i in longer <==> i in places || (i == n && keep(x)) by { Extended(places, n, i); }
      assert i < n ==> (list + [x])[i] == list[i];
    }
  }

  lemma {:induction false} Extended(places: seq<int>, n: int, i: int)
    ensures i in places + [n] <==> i in places || i == n
  {
  }

  lemma {:induction false} SelectNext<T>(kept: seq<T>, list: seq<T>, x: T, keep: T -> bool)
    requires Selected(kept, list, keep)
    ensures Selected(if keep(x) then kept + [x] else kept, list + [x], keep)
  {
    var places :| Picks(kept, list, places) && Passing(list, places, keep);
    PickNext(kept, list, places, x, keep(x));
    PassingNext(list, places, x, keep);
    hide Picks, Passing;
  }

  /** The same, by the members. */
  lemma {:induction false} SelectedMembers<T>(kept: seq<T>, list: seq<T>, keep: T -> bool)
    requires Selected(kept, list, keep)
    ensures forall x :: x in kept <==> x in list && keep(x)
  {
    var places :| Picks(kept, list, places) && Passing(list, places, keep);
    forall x | x in kept ensures x in list && keep(x) {
      var k :| 0 <= k < |kept| && kept[k] == x;
      assert places[k] in places;
    }
    forall x | x in list && keep(x) ensures x in kept {
      var i :| 0 <= i < |list| && list[i] == x;
      assert i in places;
    }
  }
}
