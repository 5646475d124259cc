/** The fixtures the unit tests share: three filters, three restaurants
    carrying three, two and one of them, and an open and a closed status. */
module TestData {

  import opened Models

  const FilterTopRated := Filter("filter-1", "Top Rated", "https://example.com/top-rated.png")
  const FilterFastDelivery := Filter("filter-2", "Fast Delivery", "https://example.com/fast-delivery.png")
  const FilterEatIn := Filter("filter-3", "Eat-In", "https://example.com/eat-in.png")
  const AllFilters := [FilterTopRated, FilterFastDelivery, FilterEatIn]

  const RestaurantWithAllFilters :=
    Restaurant("rest-1", "Great Food Place", "https://example.com/restaurant1.png", 30,
               ["filter-1", "filter-2", "filter-3"])
  const RestaurantWithTwoFilters :=
    Restaurant("rest-2", "Pizza Palace", "https://example.com/restaurant2.png", 25,
               ["filter-1", "filter-2"])
  const RestaurantWithOneFilter :=
    Restaurant("rest-3", "Burger Bar", "https://example.com/restaurant3.png", 20,
               ["filter-1"])
  const AllRestaurants := [RestaurantWithAllFilters, RestaurantWithTwoFilters, RestaurantWithOneFilter]

  const StatusOpen := RestaurantStatus(true, "rest-1")
  const StatusClosed := RestaurantStatus(false, "rest-1")
}
