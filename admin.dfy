/** The admin panel: the role gate, and the price-edit state that drives `updateHotel` and
    `updateCar` on the store. */
module Admin {
  import opened Wrappers
  import opened Entities
  import opened MockService

  const AuthRoute := "/auth"

  /** What the panel does on render: send a visitor away, or show the tables. */
  datatype View = Redirect(path: string) | Panel

  /** Only a signed-in administrator sees the panel; everybody else goes to the sign-in page. */
  function Gate(user: Option<User>): (v: View)
    ensures v.Panel? <==> user.Some? && user.value.role == AdminRole
    ensures v.Redirect? ==> v.path == AuthRoute
  {
    if user.Some? && user.value.role == AdminRole then Panel else Redirect(AuthRoute)
  }

  /** `{ ...hotel, pricePerNight: price }`. */
  function PricedHotel(h: Hotel, price: int): (r: Hotel)
    ensures r.pricePerNight == price
    ensures r.(pricePerNight := h.pricePerNight) == h
  {
    h.(pricePerNight := price)
  }

  /** `{ ...car, pricePerDay: price }`. */
  function PricedCar(c: Car, price: int): (r: Car)
    ensures r.pricePerDay == price
    ensures r.(pricePerDay := c.pricePerDay) == c
  {
    c.(pricePerDay := price)
  }

  /** After saving a new price for a listed hotel, reading the hotels back shows that price under
      its id, the list keeps its length, and no other field of the hotel has changed. */
  lemma {:induction false} SavedHotelPriceShows(s: Slots, h: Hotel, price: int)
    requires exists k :: 0 <= k < |HotelsOf(s)| && HotelsOf(s)[k].id == h.id
    ensures var after := HotelsOf(UpdateHotelStep(s, PricedHotel(h, price)));
      var i := HotelIndex(after, h.id);
      && |after| == |HotelsOf(s)|
      && i == HotelIndex(HotelsOf(s), h.id)
      && after[i.value].pricePerNight == price
      && after[i.value].(pricePerNight := h.pricePerNight) == h
  {
    UpdateHotelRoundTrip(s, PricedHotel(h, price));
  }

  /** After saving a new price for a listed car, reading the cars back shows that price under
      its id, the list keeps its length, and no other field of the car has changed. */
  lemma {:induction false} SavedCarPriceShows(s: Slots, c: Car, price: int)
    requires exists k :: 0 <= k < |CarsOf(s)| && CarsOf(s)[k].id == c.id
    ensures var after := CarsOf(UpdateCarStep(s, PricedCar(c, price)));
      var i := CarIndex(after, c.id);
      && |after| == |CarsOf(s)|
      && i == CarIndex(CarsOf(s), c.id)
      && after[i.value].pricePerDay == price
      && after[i.value].(pricePerDay := c.pricePerDay) == c
  {
    UpdateCarRoundTrip(s, PricedCar(c, price));
  }

  /** The panel's component state over the shared store. */
  class AdminPanel {
    const store: Store
    var hotels: seq<Hotel>
    var cars: seq<Car>
    var editingId: Option<string>
    var editPrice: int

    /** A fresh panel: empty tables, nothing being edited, edit price 0. */
    constructor (store: Store)
      ensures this.store == store
      ensures hotels == [] && cars == [] && editingId == None && editPrice == 0
    {
      this.store := store;
      hotels, cars, editingId, editPrice := [], [], None, 0;
    }

    /** `loadData`: both tables are read again from the store. */
    method LoadData()
      modifies this
      ensures hotels == store.GetHotels() && cars == store.GetCars()
      ensures editingId == old(editingId) && editPrice == old(editPrice)
    {
      hotels := store.GetHotels();
      cars := store.GetCars();
    }

    /** The mount effect: the gate on the current session, and the tables loaded only for an admin. */
    method Mount() returns (v: View)
      modifies this
      ensures v == Gate(store.GetCurrentUser())
      ensures v.Panel? ==> hotels == store.GetHotels() && cars == store.GetCars()
      ensures v.Redirect? ==> hotels == old(hotels) && cars == old(cars)
      ensures editingId == old(editingId) && editPrice == old(editPrice)
    {
      v := Gate(store.GetCurrentUser());
      if v.Panel? {
        LoadData();
      }
    }

    /** `startEdit`: the row being edited and the price it starts from. */
    method StartEdit(id: string, currentPrice: int)
      modifies this
      ensures editingId == Some(id) && editPrice == currentPrice
      ensures hotels == old(hotels) && cars == old(cars)
    {
      editingId := Some(id);
      editPrice := currentPrice;
    }

    /** The price input's change handler. */
    method SetEditPrice(price: int)
      modifies this
      ensures editPrice == price
      ensures editingId == old(editingId) && hotels == old(hotels) && cars == old(cars)
    {
      editPrice := price;
    }

    /** The Cancel button: no row is being edited any more. */
    method CancelEdit()
      modifies this
      ensures editingId == None
      ensures editPrice == old(editPrice) && hotels == old(hotels) && cars == old(cars)
    {
      editingId := None;
    }

    /** `saveEditHotel`: the store receives the hotel with only its nightly price replaced by the
        edit price; then editing ends and the tables are reloaded. */
    method SaveEditHotel(hotel: Hotel)
      modifies this, store
      ensures store.State() == UpdateHotelStep(old(store.State()), PricedHotel(hotel, old(editPrice)))
      ensures editingId == None && editPrice == old(editPrice)
      ensures hotels == store.GetHotels() && cars == store.GetCars()
    {
      store.UpdateHotel(PricedHotel(hotel, editPrice));
      editingId := None;
      LoadData();
    }

    /** `saveEditCar`: the store receives the car with only its daily price replaced by the edit
        price; then editing ends and the tables are reloaded. */
    method SaveEditCar(car: Car)
      modifies this, store
      ensures store.State() == UpdateCarStep(old(store.State()), PricedCar(car, old(editPrice)))
      ensures editingId == None && editPrice == old(editPrice)
      ensures hotels == store.GetHotels() && cars == store.GetCars()
    {
      store.UpdateCar(PricedCar(car, editPrice));
      editingId := None;
      LoadData();
    }
  }
}
