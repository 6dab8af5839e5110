/** The vehicle rental page: the type filter, its options and the "Confirm rental" guards. */
module Transport {
  import opened Wrappers
  import opened Entities
  import opened Booking
  import Seqs
  import Catalogue
  import Payment

  const DateAlert := "Please select a pickup date."

  /** The field the type drop-down looks at. */
  function CarTypeOf(x: Car): string { x.carType }

  /** The day counts the rental form offers; the form starts at one day. */
  const RentalDayChoices: seq<int> := [1, 2, 3, 4, 5, 7, 10, 14]

  /** The type filter effect: `All` shows every car; any other type keeps, in order, exactly
      the cars of that type, each as often as in the list. */
  function FilterCars(cars: seq<Car>, typeFilter: string): (r: seq<Car>)
    ensures typeFilter == Catalogue.All ==> r == cars
    ensures typeFilter != Catalogue.All ==> forall c :: c in r <==> c in cars && c.carType == typeFilter
    ensures typeFilter != Catalogue.All ==>
      forall c :: multiset(r)[c] == if c.carType == typeFilter then multiset(cars)[c] else 0
    ensures Seqs.IsSubsequence(r, cars)
  {
    Catalogue.FilterBy(cars, CarTypeOf, typeFilter)
  }

  /** `uniqueTypes`: every car's type, each once, in first-appearance order. */
  function UniqueTypes(cars: seq<Car>): (r: seq<string>)
    ensures Seqs.Distinct(r)
    ensures forall c :: c in cars ==> c.carType in r
    ensures forall t :: t in r ==> exists c :: c in cars && c.carType == t
    ensures Seqs.FirstOccurrenceOrder(r, Catalogue.Keys(cars, CarTypeOf))
  {
    Catalogue.Options(cars, CarTypeOf)
  }

  /** `handleRent`: nothing without a selected car; an alert without a pickup date; otherwise
      the payment state for the car, the date, the day count and price per day times days. */
  function HandleRent(selected: Option<Car>, rentalDays: int, pickupDate: string): (n: Navigation)
    ensures n.ToPayment? <==> selected.Some? && pickupDate != ""
    ensures selected.None? ==> n == Stay(None)
    ensures selected.Some? && pickupDate == "" ==> n == Stay(Some(DateAlert))
    ensures n.ToPayment? ==>
      n.state == PaymentState("car", Some(CarItem(selected.value)), CarDetails(pickupDate, rentalDays),
                              selected.value.pricePerDay * rentalDays)
  {
    match selected
    case None => Stay(None)
    case Some(car) =>
      if pickupDate == "" then Stay(Some(DateAlert))
      else ToPayment(PaymentState("car", Some(CarItem(car)), CarDetails(pickupDate, rentalDays), car.pricePerDay * rentalDays))
  }

  /** A dated rental of a priced car for any offered day count opens the payment form, and the
      total grows with the day count; a car priced at zero is turned away as an expired session. */
  lemma {:induction false} RentReachesPayment(car: Car, d1: int, d2: int, date: string)
    requires date != "" && d1 in RentalDayChoices && d2 in RentalDayChoices && d1 < d2
    ensures car.pricePerDay > 0 ==>
      && Payment.PaymentScreen(Some(HandleRent(Some(car), d1, date).state)) == Payment.PaymentForm
      && HandleRent(Some(car), d1, date).state.total < HandleRent(Some(car), d2, date).state.total
    ensures car.pricePerDay == 0 ==>
      Payment.PaymentScreen(Some(HandleRent(Some(car), d1, date).state)) == Payment.SessionExpired
  {
    if car.pricePerDay > 0 {
      PositiveProducts(car.pricePerDay, d1, d2);
    }
  }

  lemma PositiveProducts(p: int, a: int, b: int)
    requires p > 0 && 1 <= a < b
    ensures 0 < p * a < p * b
  {
  }
}
