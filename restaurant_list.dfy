/** The list screen's view model: the loaded restaurants and filters, the
    filter ids the user has selected, and the restaurants that match. */
module RestaurantList {

  import opened Wrappers
  import opened Text
  import opened Models

  // ---------------------------------------------------------------------
  // Matching a selection
  // ---------------------------------------------------------------------

  /** `selectedFilterIds.isSubset(of: restaurant.filterIds)`. */
  predicate CarriesAll(restaurant: Restaurant, selected: set<string>)
    ensures selected == {} ==> CarriesAll(restaurant, selected)
    ensures |restaurant.filterIds| == 0 ==> (CarriesAll(restaurant, selected) <==> selected == {})
  {
    forall id :: id in selected ==> id in restaurant.filterIds
  }

  /** `restaurants.filter { selected.isSubset(of: $0.filterIds) }`. */
  function KeepCarrying(restaurants: seq<Restaurant>, selected: set<string>): (r: seq<Restaurant>)
    ensures forall x :: x in r <==> x in restaurants && CarriesAll(x, selected)
    ensures |r| <= |restaurants|
  {
    if |restaurants| == 0 then []
    else
      assert restaurants == [restaurants[0]] + restaurants[1..];
      (if CarriesAll(restaurants[0], selected) then [restaurants[0]] else [])
        + KeepCarrying(restaurants[1..], selected)
  }

  /** `filteredRestaurants`: every restaurant when nothing is selected,
      otherwise those that carry every selected id (AND, not OR). */
  function FilterBySelection(restaurants: seq<Restaurant>, selected: set<string>): (r: seq<Restaurant>)
    ensures selected == {} ==> r == restaurants
    ensures forall x :: x in r <==> x in restaurants && CarriesAll(x, selected)
  {
    if selected == {} then restaurants else KeepCarrying(restaurants, selected)
  }

  lemma KeepCarryingCons(x: Restaurant, rest: seq<Restaurant>, selected: set<string>)
    ensures KeepCarrying([x] + rest, selected)
      == (if CarriesAll(x, selected) then [x] else []) + KeepCarrying(rest, selected)
  {
    assert ([x] + rest)[1..] == rest;
  }

  /** The empty-selection guard is a shortcut only: filtering by no ids at
      all would keep every restaurant anyway. */
  lemma {:induction false} KeepCarryingNothing(restaurants: seq<Restaurant>)
    ensures KeepCarrying(restaurants, {}) == restaurants
  {
    if |restaurants| > 0 {
      KeepCarryingNothing(restaurants[1..]);
      assert restaurants == [restaurants[0]] + restaurants[1..];
    }
  }

  lemma {:induction false} KeepCarryingAppend(a: seq<Restaurant>, b: seq<Restaurant>, selected: set<string>)
    ensures KeepCarrying(a + b, selected) == KeepCarrying(a, selected) + KeepCarrying(b, selected)
  {
    if |a| > 0 {
      assert (a + b)[1..] == a[1..] + b;
      KeepCarryingAppend(a[1..], b, selected);
    } else {
      assert a + b == b;
    }
  }

  /** Filtering keeps the listed order: the matches of a concatenation are
      the matches of each part, in turn. */
  lemma FilterBySelectionAppend(a: seq<Restaurant>, b: seq<Restaurant>, selected: set<string>)
    ensures FilterBySelection(a + b, selected) == FilterBySelection(a, selected) + FilterBySelection(b, selected)
  {
    KeepCarryingAppend(a, b, selected);
  }

  lemma {:induction false} KeepCarryingUnion(restaurants: seq<Restaurant>, s1: set<string>, s2: set<string>)
    ensures KeepCarrying(restaurants, s1 + s2) == KeepCarrying(KeepCarrying(restaurants, s1), s2)
  {
    if |restaurants| > 0 {
      var x, rest := restaurants[0], restaurants[1..];
      KeepCarryingUnion(rest, s1, s2);
      assert CarriesAll(x, s1 + s2) <==> CarriesAll(x, s1) && CarriesAll(x, s2);
      if CarriesAll(x, s1) {
        var kept := KeepCarrying(restaurants, s1);
        assert kept == [x] + KeepCarrying(rest, s1);
        assert kept[1..] == KeepCarrying(rest, s1);
      } else {
        assert !CarriesAll(x, s1 + s2);
        assert KeepCarrying(restaurants, s1) == [] + KeepCarrying(rest, s1) == KeepCarrying(rest, s1);
      }
    }
  }

  /** Selecting the ids of `s1` and `s2` together filters exactly as
      filtering by `s1` and then filtering what is left by `s2`. */
  lemma SelectionComposes(restaurants: seq<Restaurant>, s1: set<string>, s2: set<string>)
    ensures FilterBySelection(restaurants, s1 + s2) == FilterBySelection(FilterBySelection(restaurants, s1), s2)
  {
    if s1 == {} {
      assert s1 + s2 == s2;
    } else if s2 == {} {
      assert s1 + s2 == s1;
    } else {
      KeepCarryingUnion(restaurants, s1, s2);
    }
  }

  /** Selecting more filters never shows more restaurants. */
  lemma SelectingMoreNarrows(restaurants: seq<Restaurant>, s1: set<string>, s2: set<string>)
    requires s1 <= s2
    ensures |FilterBySelection(restaurants, s2)| <= |FilterBySelection(restaurants, s1)|
  {
    assert s2 == s1 + s2;
    SelectionComposes(restaurants, s1, s2);
    var narrowed := FilterBySelection(restaurants, s1);
    if s2 != {} {
      assert |KeepCarrying(narrowed, s2)| <= |narrowed|;
    }
  }

  // ---------------------------------------------------------------------
  // Selecting and deselecting
  // ---------------------------------------------------------------------

  /** The selection after `toggleFilter(id)`: removed if it was there,
      inserted if not. */
  function Toggled(selection: set<string>, id: string): (s: set<string>)
    ensures id in s <==> id !in selection
    ensures forall other :: other != id ==> (other in s <==> other in selection)
  {
    if id in selection then selection - {id} else selection + {id}
  }

  /** Toggling the same id twice gives back the selection. */
  lemma ToggleTwice(selection: set<string>, id: string)
    ensures Toggled(Toggled(selection, id), id) == selection
  {
    if id in selection {
      assert selection - {id} + {id} == selection;
    }
  }

  // ---------------------------------------------------------------------
  // Sorting the filters
  // ---------------------------------------------------------------------

  /** No filter's name is smaller than a later one's: the order
      `sorted(by: { $0.name > $1.name })` produces. */
  predicate SortedByNameDescending(filters: seq<Filter>)
  {
    forall i, j :: 0 <= i < j < |filters| ==> !LexLess(filters[i].name, filters[j].name)
  }

  lemma NotLessTransitive(a: string, b: string, c: string)
    requires !LexLess(a, b) && !LexLess(b, c)
    ensures !LexLess(a, c)
  {
    LexLessTotal(a, b);
    LexLessTotal(b, c);
    if a != b && b != c {
      LexLessTransitive(c, b, a);
      LexLessAsymmetric(c, a);
    }
  }

  lemma SortedCons(f: Filter, rest: seq<Filter>)
    requires SortedByNameDescending(rest)
    requires forall g :: g in rest ==> !LexLess(f.name, g.name)
    ensures SortedByNameDescending([f] + rest)
  {
    var s := [f] + rest;
    forall i, j | 0 <= i < j < |s| ensures !LexLess(s[i].name, s[j].name) {
      assert s[j] == rest[j - 1];
      if i > 0 {
        assert s[i] == rest[i - 1];
      }
    }
  }

  lemma InsertInFront(f: Filter, sorted: seq<Filter>)
    requires SortedByNameDescending(sorted)
    requires |sorted| > 0 && !LexLess(f.name, sorted[0].name)
    ensures SortedByNameDescending([f] + sorted)
  {
    forall g | g in sorted ensures !LexLess(f.name, g.name) {
      var k :| 0 <= k < |sorted| && sorted[k] == g;
      if k > 0 {
        NotLessTransitive(f.name, sorted[0].name, g.name);
      }
    }
    SortedCons(f, sorted);
  }

  lemma InsertBehind(f: Filter, sorted: seq<Filter>, rest: seq<Filter>)
    requires SortedByNameDescending(sorted)
    requires |sorted| > 0 && LexLess(f.name, sorted[0].name)
    requires SortedByNameDescending(rest)
    requires multiset(rest) == multiset(sorted[1..]) + multiset{f}
    ensures SortedByNameDescending([sorted[0]] + rest)
    ensures multiset([sorted[0]] + rest) == multiset(sorted) + multiset{f}
  {
    var head := sorted[0];
    forall g | g in rest ensures !LexLess(head.name, g.name) {
      assert g in multiset(rest);
      if g == f {
        LexLessAsymmetric(f.name, head.name);
      } else {
        assert g in sorted[1..];
        var k :| 0 <= k < |sorted[1..]| && sorted[1..][k] == g;
        assert sorted[k + 1] == g;
      }
    }
    SortedCons(head, rest);
    assert sorted == [head] + sorted[1..];
  }

  /** Inserts one filter into a descending list, before the first name it
      is not smaller than. */
  function InsertByName(f: Filter, sorted: seq<Filter>): (r: seq<Filter>)
    requires SortedByNameDescending(sorted)
    ensures SortedByNameDescending(r)
    ensures multiset(r) == multiset(sorted) + multiset{f}
  {
    if |sorted| == 0 then [f]
    else if !LexLess(f.name, sorted[0].name) then
      InsertInFront(f, sorted);
      [f] + sorted
    else
      var rest := InsertByName(f, sorted[1..]);
      InsertBehind(f, sorted, rest);
      [sorted[0]] + rest
  }

  /** `filters.sorted(by: { $0.name > $1.name })`: the same filters, with
      names in descending order. */
  function SortByNameDescending(filters: seq<Filter>): (r: seq<Filter>)
    ensures SortedByNameDescending(r)
    ensures multiset(r) == multiset(filters)
    ensures |r| == |filters|
  {
    if |filters| == 0 then []
    else
      assert filters == [filters[0]] + filters[1..];
      InsertByName(filters[0], SortByNameDescending(filters[1..]))
  }

  predicate StringsDescending(names: seq<string>)
  {
    forall i, j :: 0 <= i < j < |names| ==> !LexLess(names[i], names[j])
  }

  /** Two descending lists of the same strings are the same list. */
  lemma {:induction false} DescendingUnique(a: seq<string>, b: seq<string>)
    requires StringsDescending(a) && StringsDescending(b)
    requires multiset(a) == multiset(b)
    ensures a == b
  {
    assert |a| == |multiset(a)| == |multiset(b)| == |b|;
    if |a| > 0 {
      SameLargest(a, b);
      SameRest(a, b);
      DescendingTail(a);
      DescendingTail(b);
      DescendingUnique(a[1..], b[1..]);
      assert a == [a[0]] + a[1..] && b == [b[0]] + b[1..];
    }
  }

  lemma SameLargest(a: seq<string>, b: seq<string>)
    requires StringsDescending(a) && StringsDescending(b)
    requires multiset(a) == multiset(b) && |a| > 0 && |b| > 0
    ensures a[0] == b[0]
  {
    assert a[0] in multiset(b) && b[0] in multiset(a);
    var i :| 0 <= i < |b| && b[i] == a[0];
    var j :| 0 <= j < |a| && a[j] == b[0];
    if i > 0 {
      assert !LexLess(b[0], b[i]);
    }
    if j > 0 {
      assert !LexLess(a[0], a[j]);
    }
    LexLessTotal(a[0], b[0]);
  }

  lemma SameRest(a: seq<string>, b: seq<string>)
    requires multiset(a) == multiset(b) && |a| > 0 && |b| > 0 && a[0] == b[0]
    ensures multiset(a[1..]) == multiset(b[1..])
  {
    assert a == [a[0]] + a[1..] && b == [b[0]] + b[1..];
    assert multiset(a[1..]) == multiset(a) - multiset{a[0]};
    assert multiset(b[1..]) == multiset(b) - multiset{a[0]};
  }

  lemma DescendingTail(a: seq<string>)
    requires StringsDescending(a) && |a| > 0
    ensures StringsDescending(a[1..])
  {
    forall i, j | 0 <= i < j < |a[1..]| ensures !LexLess(a[1..][i], a[1..][j]) {
      assert a[1..][i] == a[i + 1] && a[1..][j] == a[j + 1];
    }
  }

  /** The sort may place filters with equal names in any order, but the
      sequence of names it shows is fixed: it equals the names of any other
      descending arrangement of the same filters. */
  lemma SortedNamesDetermined(filters: seq<Filter>, other: seq<Filter>)
    requires SortedByNameDescending(other)
    requires multiset(other) == multiset(filters)
    ensures Names(SortByNameDescending(filters)) == Names(other)
  {
    SameSortedNames(SortByNameDescending(filters), other);
  }

  /** Two descending arrangements of the same filters show the same names
      in the same order. */
  lemma SameSortedNames(a: seq<Filter>, b: seq<Filter>)
    requires SortedByNameDescending(a) && SortedByNameDescending(b)
    requires multiset(a) == multiset(b)
    ensures Names(a) == Names(b)
  {
    NamesMultiset(a, b);
    DescendingUnique(Names(a), Names(b));
  }

  // ---------------------------------------------------------------------
  // Loading
  // ---------------------------------------------------------------------

  /** `Set(restaurants.flatMap { $0.filterIds })`: every filter id that
      some restaurant carries. */
  function AllFilterIds(restaurants: seq<Restaurant>): (ids: set<string>)
    ensures forall id :: id in ids <==> exists k :: 0 <= k < |restaurants| && id in restaurants[k].filterIds
  {
    if |restaurants| == 0 then {}
    else
      var rest := AllFilterIds(restaurants[1..]);
      assert forall k :: 1 <= k < |restaurants| ==> restaurants[k] == restaurants[1..][k - 1];
      (set id | id in restaurants[0].filterIds) + rest
  }

  const LoadErrorPrefix := "Failed to load data: "

  class RestaurantViewModel {
    var restaurants: seq<Restaurant>
    var filters: seq<Filter>
    var selectedFilterIds: set<string>
    var isLoading: bool
    var errorMessage: Option<string>

    /** The filter chips are always in descending name order. */
    predicate Valid()
      reads this
    {
      SortedByNameDescending(filters)
    }

    /** Nothing loaded or selected yet, and loading. */
    constructor ()
      ensures Valid()
      ensures restaurants == [] && filters == [] && selectedFilterIds == {}
      ensures isLoading && errorMessage == None
    {
      restaurants := [];
      filters := [];
      selectedFilterIds := {};
      isLoading := true;
      errorMessage := None;
    }

    /** `filteredRestaurants`. */
    function FilteredRestaurants(): (r: seq<Restaurant>)
      reads this
      ensures selectedFilterIds == {} ==> r == restaurants
      ensures forall x :: x in r <==> x in restaurants && CarriesAll(x, selectedFilterIds)
    {
      FilterBySelection(restaurants, selectedFilterIds)
    }

    /** `isFilterSelected(_:)`. */
    predicate IsFilterSelected(filterId: string)
      reads this
      ensures selectedFilterIds == {} ==> !IsFilterSelected(filterId)
    {
      filterId in selectedFilterIds
    }

    /** `toggleFilter(_:)`: flips whether `filterId` is selected and leaves
        every other id, and everything else, as it was. */
    method ToggleFilter(filterId: string)
      modifies this
      ensures selectedFilterIds == Toggled(old(selectedFilterIds), filterId)
      ensures IsFilterSelected(filterId) == !old(IsFilterSelected(filterId))
      ensures restaurants == old(restaurants) && filters == old(filters)
      ensures isLoading == old(isLoading) && errorMessage == old(errorMessage)
    {
      if filterId in selectedFilterIds {
        selectedFilterIds := selectedFilterIds - {filterId};
      } else {
        selectedFilterIds := selectedFilterIds + {filterId};
      }
    }

    /** `clearFilters()`: the selection becomes empty, so every restaurant
        shows again. */
    method ClearFilters()
      modifies this
      ensures selectedFilterIds == {}
      ensures FilteredRestaurants() == restaurants
      ensures restaurants == old(restaurants) && filters == old(filters)
      ensures isLoading == old(isLoading) && errorMessage == old(errorMessage)
    {
      selectedFilterIds := {};
    }

    /** `loadData()`. The restaurant fetch's outcome is `fetchRestaurants`;
        the filter fetcher is `fetchFilters`, asked for every filter id the
        fetched restaurants carry. The restaurants are stored before the
        filters are fetched, so a failed filter fetch keeps the new
        restaurants and the old filters. Either failure sets the message
        "Failed to load data: " followed by the error's description.
        Loading ends in every case and the selection is untouched. */
    method LoadData(fetchRestaurants: Result<seq<Restaurant>>, fetchFilters: set<string> -> Result<seq<Filter>>)
      requires Valid()
      modifies this
      ensures Valid()
      ensures !isLoading
      ensures selectedFilterIds == old(selectedFilterIds)
      ensures fetchRestaurants.Failure? ==>
        restaurants == old(restaurants) && filters == old(filters) &&
        errorMessage == Some(LoadErrorPrefix + fetchRestaurants.error)
      ensures fetchRestaurants.Success? ==>
        var response := fetchFilters(AllFilterIds(fetchRestaurants.value));
        restaurants == fetchRestaurants.value &&
        (response.Success? ==>
          filters == SortByNameDescending(response.value) &&
          multiset(filters) == multiset(response.value) &&
          errorMessage == None) &&
        (response.Failure? ==>
          filters == old(filters) && errorMessage == Some(LoadErrorPrefix + response.error))
    {
      isLoading := true;
      errorMessage := None;
      match fetchRestaurants {
        case Failure(e) =>
          errorMessage := Some(LoadErrorPrefix + e);
        case Success(fetched) =>
          restaurants := fetched;
          var allFilterIds := AllFilterIds(fetched);
          match fetchFilters(allFilterIds) {
            case Failure(e) =>
              errorMessage := Some(LoadErrorPrefix + e);
            case Success(fetchedFilters) =>
              filters := SortByNameDescending(fetchedFilters);
          }
      }
      isLoading := false;
    }
  }
}
