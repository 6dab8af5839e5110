/** The hotel page: the location filter, its options and the "Book now" guards. */
module Hotels {
  import opened Wrappers
  import opened Entities
  import opened Booking
  import Seqs
  import Catalogue
  import Payment

  const DateAlert := "Please select a check-in date."

  /** The field the location drop-down looks at. */
  function LocationOf(x: Hotel): string { x.location }

  /** The guest counts the booking form offers; the form starts at one guest. */
  const GuestChoices: seq<int> := [1, 2, 3, 4, 5]

  /** The location filter effect: `All` shows every hotel; any other location keeps, in order,
      exactly the hotels there, each as often as in the list. */
  function FilterHotels(hotels: seq<Hotel>, locationFilter: string): (r: seq<Hotel>)
    ensures locationFilter == Catalogue.All ==> r == hotels
    ensures locationFilter != Catalogue.All ==>
      forall h :: h in r <==> h in hotels && h.location == locationFilter
    ensures locationFilter != Catalogue.All ==>
      forall h :: multiset(r)[h] == if h.location == locationFilter then multiset(hotels)[h] else 0
    ensures Seqs.IsSubsequence(r, hotels)
  {
    Catalogue.FilterBy(hotels, LocationOf, locationFilter)
  }

  /** `uniqueLocations`: every hotel's location, each once, in first-appearance order. */
  function UniqueLocations(hotels: seq<Hotel>): (r: seq<string>)
    ensures Seqs.Distinct(r)
    ensures forall h :: h in hotels ==> h.location in r
    ensures forall l :: l in r ==> exists h :: h in hotels && h.location == l
    ensures Seqs.FirstOccurrenceOrder(r, Catalogue.Keys(hotels, LocationOf))
  {
    Catalogue.Options(hotels, LocationOf)
  }

  /** `handleBook`: nothing without a selected hotel; an alert without a check-in date;
      otherwise the payment state for the hotel, the date, the guests and one night's price. */
  function HandleBook(selected: Option<Hotel>, guests: int, checkInDate: string): (n: Navigation)
    ensures n.ToPayment? <==> selected.Some? && checkInDate != ""
    ensures selected.None? ==> n == Stay(None)
    ensures selected.Some? && checkInDate == "" ==> n == Stay(Some(DateAlert))
    ensures n.ToPayment? ==>
      n.state == PaymentState("hotel", Some(HotelItem(selected.value)), HotelDetails(checkInDate, guests),
                              selected.value.pricePerNight)
  {
    match selected
    case None => Stay(None)
    case Some(hotel) =>
      if checkInDate == "" then Stay(Some(DateAlert))
      else ToPayment(PaymentState("hotel", Some(HotelItem(hotel)), HotelDetails(checkInDate, guests), hotel.pricePerNight))
  }

  /** The booking total is one night's price whatever the number of guests, and a dated
      booking opens the payment form exactly when that price is not zero. */
  lemma GuestsDoNotChangeTotal(hotel: Hotel, g1: int, g2: int, date: string)
    requires date != ""
    ensures HandleBook(Some(hotel), g1, date).state.total == HandleBook(Some(hotel), g2, date).state.total
    ensures Payment.PaymentScreen(Some(HandleBook(Some(hotel), g1, date).state)) == Payment.PaymentForm
      <==> hotel.pricePerNight != 0
  {
  }
}
