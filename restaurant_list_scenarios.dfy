/** The list view model's unit tests, replayed on the model with the shared
    fixtures and the mock fetcher. */
module RestaurantListScenarios {

  import opened Wrappers
  import opened Text
  import opened Models
  import opened TestData
  import opened RestaurantList

  /** `MockNetworkService.fetchFilters(ids:)` when it does not throw: the
      configured filters whose id was asked for, in configured order. */
  function MockFilters(available: seq<Filter>, ids: set<string>): (r: seq<Filter>)
    ensures forall f :: f in r <==> f in available && f.id in ids
    ensures (forall f :: f in available ==> f.id in ids) ==> r == available
  {
    if |available| == 0 then []
    else
      assert available == [available[0]] + available[1..];
      (if available[0].id in ids then [available[0]] else []) + MockFilters(available[1..], ids)
  }

  const FixtureFilterIds: set<string> := {"filter-1", "filter-2", "filter-3"}

  /** The fixture restaurants carry exactly the three fixture filter ids. */
  lemma FixtureFilterIdsRequested()
    ensures AllFilterIds(AllRestaurants) == FixtureFilterIds
  {
    var ids := AllFilterIds(AllRestaurants);
    assert "filter-1" in AllRestaurants[0].filterIds;
    assert "filter-2" in AllRestaurants[0].filterIds;
    assert "filter-3" in AllRestaurants[0].filterIds;
    forall id | id in ids ensures id in FixtureFilterIds {
      var k :| 0 <= k < |AllRestaurants| && id in AllRestaurants[k].filterIds;
    }
  }

  lemma UnfoldFixtures(s: set<string>)
    requires s != {}
    ensures FilterBySelection(AllRestaurants, s)
      == (if CarriesAll(RestaurantWithAllFilters, s) then [RestaurantWithAllFilters] else [])
       + (if CarriesAll(RestaurantWithTwoFilters, s) then [RestaurantWithTwoFilters] else [])
       + (if CarriesAll(RestaurantWithOneFilter, s) then [RestaurantWithOneFilter] else [])
  {
    KeepCarryingCons(RestaurantWithOneFilter, [], s);
    KeepCarryingCons(RestaurantWithTwoFilters, [RestaurantWithOneFilter], s);
    KeepCarryingCons(RestaurantWithAllFilters, [RestaurantWithTwoFilters, RestaurantWithOneFilter], s);
    assert AllRestaurants == [RestaurantWithAllFilters] + [RestaurantWithTwoFilters, RestaurantWithOneFilter];
    assert [RestaurantWithTwoFilters, RestaurantWithOneFilter] == [RestaurantWithTwoFilters] + [RestaurantWithOneFilter];
    assert [RestaurantWithOneFilter] == [RestaurantWithOneFilter] + [];
  }

  /** Selecting filter-1 keeps all three fixture restaurants. */
  lemma OneFilterMatches()
    ensures FilterBySelection(AllRestaurants, {"filter-1"}) == AllRestaurants
  {
    var s: set<string> := {"filter-1"};
    assert CarriesAll(RestaurantWithAllFilters, s);
    assert CarriesAll(RestaurantWithTwoFilters, s);
    assert CarriesAll(RestaurantWithOneFilter, s);
    UnfoldFixtures(s);
  }

  /** Selecting filter-1 and filter-2 keeps rest-1 and rest-2 only. */
  lemma TwoFiltersMatch()
    ensures FilterBySelection(AllRestaurants, {"filter-1", "filter-2"})
      == [RestaurantWithAllFilters, RestaurantWithTwoFilters]
  {
    var s: set<string> := {"filter-1", "filter-2"};
    assert CarriesAll(RestaurantWithAllFilters, s);
    assert CarriesAll(RestaurantWithTwoFilters, s);
    assert !CarriesAll(RestaurantWithOneFilter, s) by {
      assert "filter-2" !in RestaurantWithOneFilter.filterIds;
    }
    UnfoldFixtures(s);
  }

  /** Selecting all three filters keeps rest-1 only. */
  lemma ThreeFiltersMatch()
    ensures FilterBySelection(AllRestaurants, FixtureFilterIds) == [RestaurantWithAllFilters]
  {
    var s := FixtureFilterIds;
    assert CarriesAll(RestaurantWithAllFilters, s);
    assert !CarriesAll(RestaurantWithTwoFilters, s) by {
      assert "filter-3" !in RestaurantWithTwoFilters.filterIds;
    }
    assert !CarriesAll(RestaurantWithOneFilter, s) by {
      assert "filter-2" !in RestaurantWithOneFilter.filterIds;
    }
    UnfoldFixtures(s);
  }

  /** A fresh view model after a successful load of the fixtures. */
  method LoadedViewModel() returns (vm: RestaurantViewModel)
    ensures fresh(vm) && vm.Valid()
    ensures vm.restaurants == AllRestaurants && vm.selectedFilterIds == {}
    ensures multiset(vm.filters) == multiset(AllFilters)
    ensures !vm.isLoading && vm.errorMessage == None
  {
    vm := new RestaurantViewModel();
    FixtureFilterIdsRequested();
    vm.LoadData(Success(AllRestaurants), ids => Success(MockFilters(AllFilters, ids)));
  }

  /** A successful load stores three restaurants and three filters, stops
      loading and sets no error. */
  method LoadSuccessScenario() returns (restaurantCount: nat, filterCount: nat, loading: bool, error: Option<string>)
    ensures restaurantCount == 3 && filterCount == 3
    ensures !loading && error == None
  {
    var vm := LoadedViewModel();
    restaurantCount, filterCount := |vm.restaurants|, |vm.filters|;
    assert |multiset(vm.filters)| == |multiset(AllFilters)|;
    loading, error := vm.isLoading, vm.errorMessage;
  }

  /** A failed restaurant fetch on a fresh view model leaves no
      restaurants, stops loading and reports the error's description. */
  method LoadFailureScenario(description: string) returns (restaurants: seq<Restaurant>, loading: bool, error: Option<string>)
    ensures restaurants == [] && !loading
    ensures error == Some("Failed to load data: " + description)
  {
    var vm := new RestaurantViewModel();
    vm.LoadData(Failure(description), ids => Success(MockFilters(AllFilters, ids)));
    restaurants, loading, error := vm.restaurants, vm.isLoading, vm.errorMessage;
  }

  const Zebra := Filter("filter-3", "Zebra", "https://example.com")
  const Apple := Filter("filter-1", "Apple", "https://example.com")
  const Banana := Filter("filter-2", "Banana", "https://example.com")

  lemma ExpectedOrder()
    ensures SortedByNameDescending([Zebra, Banana, Apple])
  {
    var expected := [Zebra, Banana, Apple];
    assert !LexLess("Zebra", "Banana") by { assert "Zebra"[0] > "Banana"[0]; }
    assert !LexLess("Zebra", "Apple") by { assert "Zebra"[0] > "Apple"[0]; }
    assert !LexLess("Banana", "Apple") by { assert "Banana"[0] > "Apple"[0]; }
    forall i, j | 0 <= i < j < 3 ensures !LexLess(expected[i].name, expected[j].name) {
    }
  }

  /** Any descending arrangement of Zebra, Apple and Banana shows the
      names Zebra, Banana, Apple. */
  lemma SortExample(filters: seq<Filter>)
    requires SortedByNameDescending(filters)
    requires multiset(filters) == multiset([Zebra, Apple, Banana])
    ensures Names(filters) == ["Zebra", "Banana", "Apple"]
  {
    var expected := [Zebra, Banana, Apple];
    ExpectedOrder();
    Reordered(Zebra, Apple, Banana);
    SameSortedNames(filters, expected);
    ExpectedNames(expected);
  }

  lemma Reordered(x: Filter, y: Filter, z: Filter)
    ensures multiset([x, z, y]) == multiset([x, y, z])
  {
    assert multiset([x, z, y]) == multiset{x, z, y};
    assert multiset([x, y, z]) == multiset{x, y, z};
  }

  lemma ExpectedNames(expected: seq<Filter>)
    requires expected == [Zebra, Banana, Apple]
    ensures Names(expected) == ["Zebra", "Banana", "Apple"]
  {
  }

  /** Filters fetched as Zebra, Apple, Banana are shown as Zebra, Banana,
      Apple. */
  method SortScenario() returns (names: seq<string>)
    ensures names == ["Zebra", "Banana", "Apple"]
  {
    var unsorted := [Zebra, Apple, Banana];
    var vm := new RestaurantViewModel();
    FixtureFilterIdsRequested();
    assert MockFilters(unsorted, FixtureFilterIds) == unsorted;
    vm.LoadData(Success(AllRestaurants), ids => Success(MockFilters(unsorted, ids)));
    SortExample(vm.filters);
    names := Names(vm.filters);
  }

  /** Toggling an unselected id selects it; the selection has one id. */
  method ToggleAddsScenario() returns (selected: bool, count: nat)
    ensures selected && count == 1
  {
    var vm := new RestaurantViewModel();
    vm.ToggleFilter("filter-1");
    selected, count := vm.IsFilterSelected("filter-1"), |vm.selectedFilterIds|;
  }

  /** Toggling the same id again deselects it; the selection is empty. */
  method ToggleRemovesScenario() returns (selected: bool, selection: set<string>)
    ensures !selected && selection == {}
  {
    var vm := new RestaurantViewModel();
    vm.ToggleFilter("filter-1");
    vm.ToggleFilter("filter-1");
    ToggleTwice({}, "filter-1");
    selected, selection := vm.IsFilterSelected("filter-1"), vm.selectedFilterIds;
  }

  /** Clearing after selecting three ids empties the selection. */
  method ClearScenario() returns (selection: set<string>)
    ensures selection == {}
  {
    var vm := new RestaurantViewModel();
    vm.ToggleFilter("filter-1");
    vm.ToggleFilter("filter-2");
    vm.ToggleFilter("filter-3");
    vm.ClearFilters();
    selection := vm.selectedFilterIds;
  }

  /** With nothing selected, all three restaurants show. */
  method NoSelectionScenario() returns (count: nat)
    ensures count == 3
  {
    var vm := LoadedViewModel();
    count := |vm.FilteredRestaurants()|;
  }

  /** Selecting filter-1, which every restaurant carries, shows all three. */
  method OneFilterScenario() returns (count: nat)
    ensures count == 3
  {
    var vm := LoadedViewModel();
    vm.ToggleFilter("filter-1");
    assert vm.selectedFilterIds == {"filter-1"};
    OneFilterMatches();
    count := |vm.FilteredRestaurants()|;
  }

  /** Selecting filter-1 and filter-2 shows rest-1 and rest-2, not rest-3. */
  method TwoFiltersScenario() returns (filtered: seq<Restaurant>)
    ensures |filtered| == 2
    ensures filtered[0].id == "rest-1" && filtered[1].id == "rest-2"
    ensures forall r :: r in filtered ==> r.id != "rest-3"
  {
    var vm := LoadedViewModel();
    vm.ToggleFilter("filter-1");
    vm.ToggleFilter("filter-2");
    assert vm.selectedFilterIds == {"filter-1", "filter-2"};
    TwoFiltersMatch();
    filtered := vm.FilteredRestaurants();
  }

  /** Selecting all three filters shows rest-1 alone. */
  method ThreeFiltersScenario() returns (filtered: seq<Restaurant>)
    ensures |filtered| == 1 && filtered[0].id == "rest-1"
  {
    var vm := LoadedViewModel();
    vm.ToggleFilter("filter-1");
    vm.ToggleFilter("filter-2");
    vm.ToggleFilter("filter-3");
    assert vm.selectedFilterIds == FixtureFilterIds;
    ThreeFiltersMatch();
    filtered := vm.FilteredRestaurants();
  }
}
