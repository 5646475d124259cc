/** The detail screen's view model: whether the restaurant is open, as the
    status endpoint reports it for the restaurant the screen was opened on. */
module RestaurantDetail {

  import opened Wrappers
  import opened Models

  const StatusErrorMessage := "Unable to load restaurant status"

  class RestaurantDetailViewModel {
    var isOpen: Option<bool>
    var isLoading: bool
    var errorMessage: Option<string>
    const restaurantId: string

    /** No status yet, loading, no error. */
    constructor (restaurantId: string)
      ensures this.restaurantId == restaurantId
      ensures isOpen == None && isLoading && errorMessage == None
    {
      this.restaurantId := restaurantId;
      isOpen := None;
      isLoading := true;
      errorMessage := None;
    }

    /** `loadRestaurantStatus()`. The status fetcher is `fetchStatus`, asked
        for this screen's restaurant id. On success `isOpen` is the reported
        flag, whatever restaurant id the status itself names, and any earlier
        error is cleared; on failure `isOpen` is reset and the fixed message
        is set, whatever the error was. Loading ends in both cases. */
    method LoadRestaurantStatus(fetchStatus: string -> Result<RestaurantStatus>)
      modifies this
      ensures !isLoading
      ensures var response := fetchStatus(restaurantId);
        (response.Success? ==> isOpen == Some(response.value.isCurrentlyOpen) && errorMessage == None) &&
        (response.Failure? ==> isOpen == None && errorMessage == Some(StatusErrorMessage))
    {
      isLoading := true;
      errorMessage := None;
      match fetchStatus(restaurantId) {
        case Success(status) =>
          isOpen := Some(status.isCurrentlyOpen);
        case Failure(_) =>
          errorMessage := Some(StatusErrorMessage);
          isOpen := None;
      }
      isLoading := false;
    }
  }
}
