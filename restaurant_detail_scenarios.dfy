/** The detail view model's unit tests, replayed on the model with the shared
    fixtures and the mock status fetcher. */
module RestaurantDetailScenarios {

  import opened Wrappers
  import opened Models
  import opened TestData
  import opened RestaurantDetail

  const TestRestaurantId := "test-restaurant-123"

  /** `MockNetworkService.fetchRestaurantStatus(id:)`: the configured error
      when told to throw, otherwise the configured status, or a server error
      when none is configured. The id asked for does not change the answer. */
  function MockStatus(shouldThrow: bool, error: string, statusToReturn: Option<RestaurantStatus>): (fetch: string -> Result<RestaurantStatus>)
    ensures forall id :: fetch(id).Success? <==> !shouldThrow && statusToReturn.Some?
    ensures forall id :: fetch(id).Success? ==> fetch(id).value == statusToReturn.value
  {
    id =>
      if shouldThrow then Failure(error)
      else if statusToReturn.None? then Failure("bad server response")
      else Success(statusToReturn.value)
  }

  /** A fresh view model is loading, with no status and no error. */
  method InitialStateScenario() returns (isOpen: Option<bool>, loading: bool, error: Option<string>)
    ensures isOpen == None && loading && error == None
  {
    var vm := new RestaurantDetailViewModel(TestRestaurantId);
    isOpen, loading, error := vm.isOpen, vm.isLoading, vm.errorMessage;
  }

  /** An open status makes `isOpen` true, with no error. */
  method OpenScenario() returns (isOpen: Option<bool>, loading: bool, error: Option<string>)
    ensures isOpen == Some(true) && !loading && error == None
  {
    var vm := new RestaurantDetailViewModel(TestRestaurantId);
    vm.LoadRestaurantStatus(MockStatus(false, "", Some(StatusOpen)));
    isOpen, loading, error := vm.isOpen, vm.isLoading, vm.errorMessage;
  }

  /** The status is asked for the id the screen was opened with: a
      fetcher that answers only for that id is answered. */
  method RequestedIdScenario() returns (isOpen: Option<bool>, error: Option<string>)
    ensures isOpen == Some(true) && error == None
  {
    var vm := new RestaurantDetailViewModel(TestRestaurantId);
    vm.LoadRestaurantStatus(id => if id == TestRestaurantId then Success(StatusOpen) else Failure("not found"));
    isOpen, error := vm.isOpen, vm.errorMessage;
  }

  /** A closed status makes `isOpen` false, with no error. */
  method ClosedScenario() returns (isOpen: Option<bool>, loading: bool, error: Option<string>)
    ensures isOpen == Some(false) && !loading && error == None
  {
    var vm := new RestaurantDetailViewModel(TestRestaurantId);
    vm.LoadRestaurantStatus(MockStatus(false, "", Some(StatusClosed)));
    isOpen, loading, error := vm.isOpen, vm.isLoading, vm.errorMessage;
  }

  /** Any fetch error leaves no status and the fixed message. */
  method FailureScenario(description: string) returns (isOpen: Option<bool>, loading: bool, error: Option<string>)
    ensures isOpen == None && !loading
    ensures error == Some("Unable to load restaurant status")
  {
    var vm := new RestaurantDetailViewModel(TestRestaurantId);
    vm.LoadRestaurantStatus(MockStatus(true, description, None));
    isOpen, loading, error := vm.isOpen, vm.isLoading, vm.errorMessage;
  }

  /** Loading before the fetch, not loading after it. */
  method LoadingStateScenario() returns (before: bool, after: bool)
    ensures before && !after
  {
    var vm := new RestaurantDetailViewModel(TestRestaurantId);
    before := vm.isLoading;
    vm.LoadRestaurantStatus(MockStatus(false, "", Some(StatusOpen)));
    after := vm.isLoading;
  }

  /** A successful retry after a failure clears the error and sets the
      status. */
  method RetryScenario() returns (firstError: Option<string>, error: Option<string>, isOpen: Option<bool>)
    ensures firstError.Some?
    ensures error == None && isOpen == Some(true)
  {
    var vm := new RestaurantDetailViewModel(TestRestaurantId);
    vm.LoadRestaurantStatus(MockStatus(true, "bad server response", None));
    firstError := vm.errorMessage;
    vm.LoadRestaurantStatus(MockStatus(false, "", Some(StatusOpen)));
    error, isOpen := vm.errorMessage, vm.isOpen;
  }
}
