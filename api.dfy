/**
 * The data-access module: the record shapes, the by-id lookup over a fetched
 * list, and the write operations, whose bodies are currently commented out.
 * The HTTP fetch is not modelled: what it produced is a parameter.
 */
module Api {
  import opened Wrappers

  /** A restaurant as the backend returns it. */
  datatype Restaurant = Restaurant(
    id: int,
    name: string,
    email: string,
    mobile: string,
    city: string,
    state: string,
    country: string,
    address: string,
    description: string,
    createdAt: string,
    updatedAt: string)

  /** The input of a create or update: no id and no timestamps, description optional. */
  datatype CreateRestaurantData = CreateRestaurantData(
    name: string,
    email: string,
    mobile: string,
    city: string,
    state: string,
    country: string,
    address: string,
    description: Option<string>)

  /** What fetching and decoding the full list produced. `FetchFailed` covers a
      network error, a body that is not JSON and a body that is not a list. */
  datatype Fetch = Fetched(restaurants: seq<Restaurant>) | FetchFailed

  /** How an awaited promise settled. */
  datatype Settlement = Resolved | Rejected

  datatype Result<T> = Ok(value: T) | Err(message: string)

  const RetrieveFailed := "Failed to retrieve restaurant from database"

  /** `restaurants.find(r => r.id === id) || null`: the first record with that id. */
  function FindById(restaurants: seq<Restaurant>, id: int): (r: Option<Restaurant>)
    ensures r.Some? ==> r.value in restaurants && r.value.id == id
    ensures r.None? <==> forall i :: 0 <= i < |restaurants| ==> restaurants[i].id != id
  {
    if restaurants == [] then None
    else if restaurants[0].id == id then Some(restaurants[0])
    else FindById(restaurants[1..], id)
  }

  /** When several records share the id, the one earliest in list order is returned. */
  lemma {:induction false} FindByIdIsFirstMatch(restaurants: seq<Restaurant>, id: int, k: nat)
    requires k < |restaurants| && restaurants[k].id == id
    requires forall j :: 0 <= j < k ==> restaurants[j].id != id
    ensures FindById(restaurants, id) == Some(restaurants[k])
  {
    if k > 0 {
      FindByIdIsFirstMatch(restaurants[1..], id, k - 1);
    }
  }

  /** getRestaurantById: a lookup in the fetched list; any failure while fetching
      becomes the one fixed error message. Not finding the id is not an error. */
  function GetRestaurantById(fetch: Fetch, id: int): (r: Result<Option<Restaurant>>)
    ensures r.Err? <==> fetch.FetchFailed?
    ensures r.Err? ==> r.message == RetrieveFailed
    ensures r.Ok? && r.value.Some? ==> r.value.value in fetch.restaurants && r.value.value.id == id
    ensures r.Ok? ==> (r.value.None? <==> forall i :: 0 <= i < |fetch.restaurants| ==> fetch.restaurants[i].id != id)
  {
    match fetch
    case FetchFailed => Err(RetrieveFailed)
    case Fetched(restaurants) => Ok(FindById(restaurants, id))
  }

  /** A write as the module has it now: the effect on the backend's list and how
      the returned promise settles. */
  datatype Write = Write(backend: seq<Restaurant>, settled: Settlement)

  /** insertRestaurant: the body is commented out, so nothing is sent and the
      promise resolves (to undefined). */
  function InsertRestaurant(backend: seq<Restaurant>, data: CreateRestaurantData): (w: Write)
    ensures w.settled == Resolved
    ensures w.backend == backend
    ensures forall id :: GetRestaurantById(Fetched(w.backend), id) == GetRestaurantById(Fetched(backend), id)
  {
    Write(backend, Resolved)
  }

  /** updateRestaurant: commented out like insertRestaurant. */
  function UpdateRestaurant(backend: seq<Restaurant>, id: int, data: CreateRestaurantData): (w: Write)
    ensures w.settled == Resolved
    ensures w.backend == backend
    ensures forall i :: GetRestaurantById(Fetched(w.backend), i) == GetRestaurantById(Fetched(backend), i)
  {
    Write(backend, Resolved)
  }

  /** deleteRestaurant: commented out; the list is unchanged, so a record
      with that id stays listed. */
  function DeleteRestaurant(backend: seq<Restaurant>, id: int): (w: Write)
    ensures w.settled == Resolved
    ensures w.backend == backend
    ensures forall r :: r in backend && r.id == id ==> r in w.backend
  {
    Write(backend, Resolved)
  }

  /** clearAllRestaurants: commented out; the list keeps every record, so
      every lookup still finds what it found before. */
  function ClearAllRestaurants(backend: seq<Restaurant>): (w: Write)
    ensures w.settled == Resolved
    ensures w.backend == backend
    ensures forall i :: GetRestaurantById(Fetched(w.backend), i) == GetRestaurantById(Fetched(backend), i)
  {
    Write(backend, Resolved)
  }
}
