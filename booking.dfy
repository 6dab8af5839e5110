/** The navigation state the catalogue pages hand to the payment page
    (`navigate('/payment', { state: { type, item, details, total } })`). */
module Booking {
  import opened Wrappers
  import opened Entities

  /** The booked thing: a trip to a spot, a hotel stay or a car rental. */
  datatype Item = TripItem(spot: Spot) | HotelItem(hotel: Hotel) | CarItem(car: Car)

  /** The per-kind booking details shown on the payment page. */
  datatype Details =
    | TripDetails(pkgName: Option<string>, days: Option<int>, guests: int, date: string)
    | CarDetails(date: string, rentalDays: int)
    | HotelDetails(date: string, guests: int)

  datatype PaymentState = PaymentState(kind: string, item: Option<Item>, details: Details, total: int)

  /** What a booking button does: stay on the page (optionally after an `alert`), or go to payment. */
  datatype Navigation = Stay(alert: Option<string>) | ToPayment(state: PaymentState)
}
