/** The order of the search results list (components/SearchResults.tsx):
    the previously selected place is moved to the top by a stable sort whose
    comparator ranks entries with the selected id before all others. */
module SearchResults {
  import opened Common
  import opened Seqs
  import opened Places

  /** The comparator's rank: 0 for an entry with the selected id, 1 otherwise. */
  function Rank(selectedId: string, p: Place): nat
  {
    if p.id == selectedId then 0 else 1
  }

  /** Ordered by rank: no entry is preceded by one the comparator puts after it. */
  predicate RankSorted(selectedId: string, s: seq<Place>)
  {
    forall i, j :: 0 <= i < j < |s| ==> Rank(selectedId, s[i]) <= Rank(selectedId, s[j])
  }

  /** `sortedResults`: unchanged without a previous selection; otherwise the
      entries with the selected id first and then the others, each group in
      its original order, which is what the stable sort with that comparator
      produces. */
  function SortedResults(results: seq<Place>, selected: Option<Place>): (r: seq<Place>)
    ensures selected.None? ==> r == results
    ensures |r| == |results| && multiset(r) == multiset(results)
    ensures selected.Some? ==> RankSorted(selected.value.id, r)
    ensures selected.Some? ==>
      Filter(r, HasId(selected.value.id)) == Filter(results, HasId(selected.value.id))
      && Filter(r, PlaceNotId(selected.value.id)) == Filter(results, PlaceNotId(selected.value.id))
    ensures selected.Some? && (exists i :: 0 <= i < |results| && results[i].id == selected.value.id) ==>
      r[0].id == selected.value.id
  {
    match selected
    case None => results
    case Some(sel) =>
      var first := Filter(results, HasId(sel.id));
      var rest := Filter(results, PlaceNotId(sel.id));
      PartitionIsPermutation(results, sel.id);
      FilterKeepsAll(first, HasId(sel.id));
      FilterKeepsAll(rest, PlaceNotId(sel.id));
      FilterDropsAll(first, PlaceNotId(sel.id));
      FilterDropsAll(rest, HasId(sel.id));
      FilterAppend(first, rest, HasId(sel.id));
      FilterAppend(first, rest, PlaceNotId(sel.id));
      SelectedSurvives(results, sel.id);
      SelectedThenOthers(first, rest, sel.id);
      first + rest
  }

  /** Selected entries followed by unselected ones are ordered by rank. */
  lemma SelectedThenOthers(first: seq<Place>, rest: seq<Place>, id: string)
    requires forall i :: 0 <= i < |first| ==> HasId(id)(first[i])
    requires forall i :: 0 <= i < |rest| ==> PlaceNotId(id)(rest[i])
    ensures RankSorted(id, first + rest)
  {
    var r := first + rest;
    forall i, j | 0 <= i < j < |r| ensures Rank(id, r[i]) <= Rank(id, r[j]) {
      if j < |first| {
        assert r[i] == first[i] && r[j] == first[j];
      } else if i >= |first| {
        assert r[i] == rest[i - |first|] && r[j] == rest[j - |first|];
      } else {
        assert r[i] == first[i];
      }
    }
  }

  /** An entry with the selected id is kept by the selection filter. */
  lemma SelectedSurvives(results: seq<Place>, id: string)
    ensures (exists i :: 0 <= i < |results| && results[i].id == id) ==> Filter(results, HasId(id)) != []
  {
    if exists i :: 0 <= i < |results| && results[i].id == id {
      var i :| 0 <= i < |results| && results[i].id == id;
      FilterMembers(results, HasId(id));
      assert results[i] in Filter(results, HasId(id));
    }
  }

  /** Splitting by the selected id loses and adds nothing. */
  lemma {:induction false} PartitionIsPermutation(s: seq<Place>, id: string)
    ensures multiset(Filter(s, HasId(id)) + Filter(s, PlaceNotId(id))) == multiset(s)
    ensures |Filter(s, HasId(id)) + Filter(s, PlaceNotId(id))| == |s|
  {
    if s != [] {
      PartitionIsPermutation(s[1..], id);
      assert s == [s[0]] + s[1..];
    }
  }

  /** The stable sort is the only order with these properties: any ordering by
      rank that keeps both groups in their original order is the sorted
      results. */
  lemma StableOrderUnique(results: seq<Place>, selected: Place, r: seq<Place>)
    requires RankSorted(selected.id, r)
    requires Filter(r, HasId(selected.id)) == Filter(results, HasId(selected.id))
    requires Filter(r, PlaceNotId(selected.id)) == Filter(results, PlaceNotId(selected.id))
    ensures r == SortedResults(results, Some(selected))
  {
    var id := selected.id;
    var sorted := SortedResults(results, Some(selected));
    RankSortedIsItsGroups(r, id);
    RankSortedIsItsGroups(sorted, id);
  }

  /** A rank-ordered list is its selected entries followed by the others. */
  lemma RankSortedIsItsGroups(r: seq<Place>, id: string)
    requires RankSorted(id, r)
    ensures r == Filter(r, HasId(id)) + Filter(r, PlaceNotId(id))
  {
    var k := SplitPoint(r, id);
    var front, back := Filter(r, HasId(id)), Filter(r, PlaceNotId(id));
    assert front == r[..k] && back == r[k..] by {
      SplitPointSpec(r, id);
      FiltersOfSplit(r, id, k);
    }
    assert r == r[..k] + r[k..];
  }

  /** When the entries with the id are exactly the first `k`, the two
      filters are the prefix and the suffix at `k`. */
  lemma FiltersOfSplit(r: seq<Place>, id: string, k: nat)
    requires k <= |r|
    requires forall i :: 0 <= i < k ==> r[i].id == id
    requires forall i :: k <= i < |r| ==> r[i].id != id
    ensures Filter(r, HasId(id)) == r[..k]
    ensures Filter(r, PlaceNotId(id)) == r[k..]
  {
    FilterKeepsPrefix(r, HasId(id), k);
    FilterKeepsSuffix(r, PlaceNotId(id), k);
  }

  /** In a rank-ordered list the selected entries form a prefix. */
  lemma SplitPointSpec(r: seq<Place>, id: string)
    requires RankSorted(id, r)
    ensures var k := SplitPoint(r, id);
      k <= |r| && (forall i :: 0 <= i < k ==> r[i].id == id) && (forall i :: k <= i < |r| ==> r[i].id != id)
  {
    var k := SplitPoint(r, id);
    forall i | k <= i < |r| ensures r[i].id != id {
      assert Rank(id, r[k]) == 1;
    }
  }

  /** The first position holding an entry without the selected id. */
  function SplitPoint(r: seq<Place>, id: string): (k: nat)
    ensures k <= |r| && forall i :: 0 <= i < k ==> r[i].id == id
    ensures k < |r| ==> r[k].id != id
  {
    if r == [] || r[0].id != id then 0 else SplitPoint(r[1..], id) + 1
  }
}
