/** The trip checkout page: reading the spot id from the query string, the package table,
    the regional base price, the total and the date guard before payment. */
module Checkout {
  import opened Wrappers
  import opened Entities
  import opened Booking
  import Seqs
  import Text
  import Explore
  import Payment

  /** A tour package. The multiplier is kept in tenths (1 = 10, 1.6 = 16, 3.0 = 30), so every
      total is an exact integer. */
  datatype Package = Package(id: string, name: string, days: int, tenths: int)

  /** The fixed package table, in display order. */
  const Packages: seq<Package> := [
    Package("p1", "Short & Sweet", 3, 10),
    Package("p2", "Standard Explorer", 5, 16),
    Package("p3", "Ultimate Adventure", 10, 30)]

  /** The page's initial selections. */
  const DefaultGuests := 2
  const DefaultPackageId := "p2"

  const DateAlert := "Please select a start date for your trip."

  /** `packages.find(p => p.id === id)`. */
  function FindPackage(id: string): (r: Option<Package>)
    ensures r.Some? <==> id in {"p1", "p2", "p3"}
    ensures r.Some? ==> r.value in Packages && r.value.id == id
  {
    match Seqs.FirstIndex(Packages, (p: Package) => p.id == id)
    case None => None
    case Some(i) => Some(Packages[i])
  }

  /** `getBasePrice`: the price of one guest on the one-multiplier package, by region. */
  function BasePrice(region: string): (p: int)
    ensures 10000 <= p <= 25000 && p % 1000 == 0
    ensures region == "Gilgit-Baltistan" ==> p == 25000
    ensures region == "Northern Areas" ==> p == 22000
    ensures region == "Balochistan" ==> p == 18000
    ensures region == "Punjab" ==> p == 12000
    ensures region == "Sindh" ==> p == 15000
    ensures region !in {"Gilgit-Baltistan", "Northern Areas", "Balochistan", "Punjab", "Sindh"} ==> p == 10000
  {
    match region
    case "Gilgit-Baltistan" => 25000
    case "Northern Areas" => 22000
    case "Balochistan" => 18000
    case "Punjab" => 12000
    case "Sindh" => 15000
    case _ => 10000
  }

  /** `calculateTotal`: zero without a spot or with an unknown package, otherwise
      base price times multiplier times guests. */
  function CalculateTotal(spot: Option<Spot>, pkgId: string, guests: int): (t: int)
    ensures spot.None? || FindPackage(pkgId).None? ==> t == 0
    ensures spot.Some? && FindPackage(pkgId).Some? ==>
      t * 10 == BasePrice(spot.value.region) * FindPackage(pkgId).value.tenths * guests
  {
    if spot.None? then 0
    else
      match FindPackage(pkgId)
      case None => 0
      case Some(pkg) =>
        var base := BasePrice(spot.value.region);
        var tenthOfBase := base / 10;
        assert tenthOfBase * 10 == base;
        tenthOfBase * pkg.tenths * guests
  }

  /** The one-multiplier package costs the base price per guest. */
  lemma ShortPackageIsBase(spot: Spot, guests: int)
    ensures CalculateTotal(Some(spot), "p1", guests) == BasePrice(spot.region) * guests
  {
    assert FindPackage("p1").value.tenths == 10;
  }

  /** With the page's defaults (package p2, two guests) the total is 3.2 times the base price. */
  lemma DefaultTotal(spot: Spot)
    ensures CalculateTotal(Some(spot), DefaultPackageId, DefaultGuests) * 10 == BasePrice(spot.region) * 32
  {
    assert FindPackage(DefaultPackageId).value.tenths == 16;
  }

  /** With a spot and a known package, the total is positive from one guest on
      and grows strictly with every further guest. */
  lemma {:induction false} TotalIncreasing(spot: Spot, pkgId: string, g1: int, g2: int)
    requires FindPackage(pkgId).Some?
    requires 1 <= g1 < g2
    ensures 0 < CalculateTotal(Some(spot), pkgId, g1) < CalculateTotal(Some(spot), pkgId, g2)
  {
    var k := BasePrice(spot.region) * FindPackage(pkgId).value.tenths;
    assert FindPackage(pkgId).value.tenths >= 10;
    assert k > 0;
    var t1 := CalculateTotal(Some(spot), pkgId, g1);
    var t2 := CalculateTotal(Some(spot), pkgId, g2);
    assert t1 * 10 == k * g1;
    assert t2 * 10 == k * g2;
    MulStrict(k, g1, g2);
  }

  lemma MulStrict(k: int, a: int, b: int)
    requires k > 0 && 1 <= a < b
    ensures 0 < k * a < k * b
  {
  }

  /** `handleProceedToPayment`: without a date, an alert and no navigation; otherwise the
      payment state with the spot, the package's name and days, the guests, the date and the total. */
  function ProceedToPayment(spot: Option<Spot>, pkgId: string, guests: int, date: string): (n: Navigation)
    ensures n.Stay? <==> date == ""
    ensures n.Stay? ==> n.alert == Some(DateAlert)
    ensures n.ToPayment? ==>
      && n.state.kind == "trip"
      && n.state.total == CalculateTotal(spot, pkgId, guests)
      && (n.state.item.Some? <==> spot.Some?)
      && (spot.Some? ==> n.state.item == Some(TripItem(spot.value)))
      && n.state.details == TripDetails(
           if FindPackage(pkgId).Some? then Some(FindPackage(pkgId).value.name) else None,
           if FindPackage(pkgId).Some? then Some(FindPackage(pkgId).value.days) else None,
           guests, date)
  {
    if date == "" then Stay(Some(DateAlert))
    else
      var pkg := FindPackage(pkgId);
      ToPayment(PaymentState(
        "trip",
        if spot.Some? then Some(TripItem(spot.value)) else None,
        TripDetails(
          if pkg.Some? then Some(pkg.value.name) else None,
          if pkg.Some? then Some(pkg.value.days) else None,
          guests, date),
        CalculateTotal(spot, pkgId, guests)))
  }

  /** A dated checkout of a found spot with a known package and at least one guest opens the
      payment form; one with an unknown package arrives with a zero total and is turned away. */
  lemma {:induction false} CheckoutReachesPayment(spot: Spot, pkgId: string, guests: int, date: string)
    requires date != ""
    ensures ProceedToPayment(Some(spot), pkgId, guests, date).ToPayment?
    ensures FindPackage(pkgId).Some? && guests >= 1 ==>
      Payment.PaymentScreen(Some(ProceedToPayment(Some(spot), pkgId, guests, date).state)) == Payment.PaymentForm
    ensures FindPackage(pkgId).None? ==>
      Payment.PaymentScreen(Some(ProceedToPayment(Some(spot), pkgId, guests, date).state)) == Payment.SessionExpired
  {
    if FindPackage(pkgId).Some? && guests >= 1 {
      if guests == 1 {
        TotalIncreasing(spot, pkgId, 1, 2);
      } else {
        TotalIncreasing(spot, pkgId, 1, guests);
      }
    }
  }

  // The query string

  /** A spot id that the query-string parser returns unchanged: no separator, no
      percent escape, no plus sign and no fragment mark. */
  predicate SafeId(id: string) {
    forall c :: c in id ==> c !in {'&', '%', '+', '#'}
  }

  /** `location.search` of a route without a fragment: the text from the first `?` on,
      or empty when there is none. */
  function SearchOf(url: string): (s: string)
    ensures s == [] <==> '?' !in url
    ensures s != [] ==> s[0] == '?' && url == Text.BeforeFirst(url, '?') + s
  {
    if '?' !in url then Text.BeforeFirstAbsent(url, '?'); "" else
    var path := Text.BeforeFirst(url, '?');
    assert url == path + url[|path|..];
    url[|path|..]
  }

  /** The name of a `name=value` pair: the text before its first `=`. */
  function PairName(pair: string): (n: string)
    ensures n <= pair && '=' !in n
  {
    Text.BeforeFirst(pair, '=')
  }

  /** The value of a pair: the text after its first `=`, or empty when it has none. */
  function PairValue(pair: string): (v: string)
    ensures '=' in pair ==> pair == PairName(pair) + "=" + v
    ensures '=' !in pair ==> v == ""
  {
    var n := PairName(pair);
    if |n| < |pair| then
      assert pair == n + "=" + pair[|n| + 1..];
      pair[|n| + 1..]
    else
      assert n == pair;
      ""
  }

  /** A pair that the query parser sees under the name `key`; empty pieces are skipped. */
  predicate Named(pair: string, key: string) {
    pair != "" && PairName(pair) == key
  }

  /** `get(key)` on an `&`-separated query: the value of the first pair named `key`, and
      none exactly when no pair has that name. Percent-decoding is not modelled. */
  function QueryGet(q: string, key: string): (r: Option<string>)
    ensures var pairs := Text.Split(q, '&');
      && (r.None? <==> forall i :: 0 <= i < |pairs| ==> !Named(pairs[i], key))
      && (r.Some? ==> exists i ::
            && 0 <= i < |pairs| && Named(pairs[i], key) && r.value == PairValue(pairs[i])
            && forall j :: 0 <= j < i ==> !Named(pairs[j], key))
    ensures r.Some? ==> '&' !in r.value
    decreases |q|
  {
    var part := Text.BeforeFirst(q, '&');
    if Named(part, key) then
      assert Text.Split(q, '&')[0] == part;
      Some(PairValue(part))
    else if |part| == |q| then None
    else
      var rest := q[|part| + 1..];
      var r := QueryGet(rest, key);
      assert Text.Split(q, '&') == [part] + Text.Split(rest, '&');
      if r.Some? then FirstNamedAfter(part, Text.Split(rest, '&'), key, r.value); r
      else r
  }

  /** The first pair named `key` of a tail stays the first one below a pair with another name. */
  lemma FirstNamedAfter(part: string, tail: seq<string>, key: string, v: string)
    requires !Named(part, key)
    requires exists i ::
      && 0 <= i < |tail| && Named(tail[i], key) && v == PairValue(tail[i])
      && forall j :: 0 <= j < i ==> !Named(tail[j], key)
    ensures var pairs := [part] + tail;
      exists i :: 0 <= i < |pairs| && Named(pairs[i], key) && v == PairValue(pairs[i])
        && forall j :: 0 <= j < i ==> !Named(pairs[j], key)
  {
    var i :| 0 <= i < |tail| && Named(tail[i], key) && v == PairValue(tail[i])
      && forall j :: 0 <= j < i ==> !Named(tail[j], key);
    var pairs := [part] + tail;
    assert pairs[i + 1] == tail[i];
    forall j | 0 <= j < i + 1 ensures !Named(pairs[j], key) {
      if j > 0 {
        assert pairs[j] == tail[j - 1];
      }
    }
  }

  /** A first pair that is not named `key` is skipped; one that is gives its value,
      whatever follows. */
  lemma QueryGetCons(pair: string, rest: string, key: string)
    requires '&' !in pair
    ensures QueryGet(pair + "&" + rest, key) ==
      if Named(pair, key) then Some(PairValue(pair)) else QueryGet(rest, key)
  {
    var q := pair + "&" + rest;
    Text.BeforeFirstPrefix(pair, rest, '&');
    assert q[|pair| + 1..] == rest;
  }

  /** `new URLSearchParams(search).get(key)`: a leading `?` is skipped. */
  function SearchParam(search: string, key: string): (r: Option<string>)
    ensures r.Some? ==> '&' !in r.value
  {
    QueryGet(if search != [] && search[0] == '?' then search[1..] else search, key)
  }

  /** The load effect: no `spotId` (or an empty one) gives no spot; otherwise the first spot
      with that id, if any. */
  function LoadSpot(search: string, spots: seq<Spot>): (r: Option<Spot>)
    ensures r.Some? ==> r.value in spots && SearchParam(search, Explore.SpotIdKey) == Some(r.value.id)
    ensures r.Some? ==> exists i ::
      && 0 <= i < |spots| && spots[i] == r.value
      && forall j :: 0 <= j < i ==> spots[j].id != r.value.id
    ensures r.None? <==>
      (match SearchParam(search, Explore.SpotIdKey)
       case None => true
       case Some(id) => id == "" || forall s :: s in spots ==> s.id != id)
  {
    match SearchParam(search, Explore.SpotIdKey)
    case None => None
    case Some(id) =>
      if id == "" then None
      else
        match Seqs.FirstIndex(spots, (s: Spot) => s.id == id)
        case None => None
        case Some(i) => Some(spots[i])
  }

  /** The query value of a single `key=value` pair is the value. */
  lemma QueryGetSingle(key: string, value: string)
    requires '&' !in value && '&' !in key && '=' !in key
    ensures QueryGet(key + "=" + value, key) == Some(value)
  {
    var q := key + "=" + value;
    assert '&' !in q;
    Text.BeforeFirstAbsent(q, '&');
    Text.BeforeFirstPrefix(key, value, '=');
    assert q == key + ['='] + value;
    assert q[|key| + 1..] == value;
  }

  /** The search part of a "Plan trip" link. */
  lemma {:induction false} SearchOfPlanTrip(id: string)
    ensures SearchOf(Explore.PlanTripUrl(id)) == "?" + Explore.SpotIdKey + "=" + id
  {
    var tail := Explore.SpotIdKey + "=" + id;
    PlanTripShape(id);
    assert '?' !in Explore.CheckoutPath;
    SearchOfPath(Explore.CheckoutPath, tail);
    Seqs.ConcatAssoc("?", Explore.SpotIdKey, "=");
    Seqs.ConcatAssoc("?" + Explore.SpotIdKey, "=", id);
    Seqs.ConcatAssoc("?", Explore.SpotIdKey + "=", id);
  }

  /** A "Plan trip" link is the checkout path, a `?` and the `spotId=` pair. */
  lemma PlanTripShape(id: string)
    ensures Explore.PlanTripUrl(id) == Explore.CheckoutPath + ['?'] + (Explore.SpotIdKey + "=" + id)
  {
    var path, key := Explore.CheckoutPath, Explore.SpotIdKey;
    var pq := path + "?";
    assert Explore.PlanTripUrl(id) == ((pq + key) + "=") + id;
    Seqs.ConcatAssoc(pq + key, "=", id);
    Seqs.ConcatAssoc(pq, key, "=" + id);
    Seqs.ConcatAssoc(key, "=", id);
    assert "?" == ['?'];
  }

  /** The search part of a path without `?`, a `?` and a query is the `?` and the query. */
  lemma SearchOfPath(path: string, query: string)
    requires '?' !in path
    ensures SearchOf(path + ['?'] + query) == ['?'] + query
  {
    Text.BeforeFirstPrefix(path, query, '?');
    var url := path + ['?'] + query;
    assert url[|path|..] == ['?'] + query;
  }

  /** The `spotId` parameter of a search string that holds only that parameter. */
  lemma {:induction false} SpotIdParam(id: string)
    requires '&' !in id
    ensures SearchParam("?" + Explore.SpotIdKey + "=" + id, Explore.SpotIdKey) == Some(id)
  {
    assert ("?" + Explore.SpotIdKey + "=" + id)[1..] == Explore.SpotIdKey + "=" + id;
    QueryGetSingle(Explore.SpotIdKey, id);
  }

  /** The "Plan trip" link of the explore page brings the checkout page back to the same
      spot id, and from there to a spot with that id (the first one) when the list has one. */
  lemma {:induction false} PlanTripRoundTrip(id: string, spots: seq<Spot>)
    requires SafeId(id)
    ensures SearchParam(SearchOf(Explore.PlanTripUrl(id)), Explore.SpotIdKey) == Some(id)
    ensures id != "" && (exists s :: s in spots && s.id == id) ==>
      LoadSpot(SearchOf(Explore.PlanTripUrl(id)), spots).Some?
      && LoadSpot(SearchOf(Explore.PlanTripUrl(id)), spots).value.id == id
  {
    SearchOfPlanTrip(id);
    assert '&' !in id;
    SpotIdParam(id);
  }
}
