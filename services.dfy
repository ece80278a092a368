/**
 * The cross-navigation hand-off: a one-slot holder for a restaurant that a
 * caller stores for the form to pick up when it is opened for editing.
 */
module Services {
  import opened Wrappers
  import opened Api

  class RestaurantDataService {
    /** The record being handed over, or null. */
    var restaurantData: Option<Restaurant>

    /** A new service holds nothing. */
    constructor ()
      ensures restaurantData == None
    {
      restaurantData := None;
    }

    /** Stores `restaurant`, replacing whatever was there. */
    method SetRestaurantData(restaurant: Restaurant)
      modifies this
      ensures restaurantData == Some(restaurant)
    {
      restaurantData := Some(restaurant);
    }

    /** Reads the slot without changing it. */
    method GetRestaurantData() returns (r: Option<Restaurant>)
      ensures r == restaurantData
    {
      r := restaurantData;
    }

    /** Empties the slot, whatever it held. */
    method ClearRestaurantData()
      modifies this
      ensures restaurantData == None
    {
      restaurantData := None;
    }
  }

  /** A service nobody has written to hands over nothing. */
  method NewServiceIsEmpty() returns (got: Option<Restaurant>)
    ensures got == None
  {
    var service := new RestaurantDataService();
    got := service.GetRestaurantData();
  }

  /** Of two sets, the later one is what a get returns. */
  method LastSetWins(first: Restaurant, second: Restaurant) returns (got: Option<Restaurant>)
    ensures got == Some(second)
  {
    var service := new RestaurantDataService();
    service.SetRestaurantData(first);
    service.SetRestaurantData(second);
    got := service.GetRestaurantData();
  }

  /** A clear empties the slot whatever was set before. */
  method ClearForgets(restaurant: Restaurant) returns (got: Option<Restaurant>)
    ensures got == None
  {
    var service := new RestaurantDataService();
    service.SetRestaurantData(restaurant);
    service.ClearRestaurantData();
    got := service.GetRestaurantData();
  }

  /** Two gets in a row agree: reading does not consume the record. */
  method RepeatedGetsAgree(service: RestaurantDataService) returns (first: Option<Restaurant>, second: Option<Restaurant>)
    ensures first == second == service.restaurantData
  {
    first := service.GetRestaurantData();
    second := service.GetRestaurantData();
  }
}
