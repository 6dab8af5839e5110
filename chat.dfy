/** `askAIChat`: canned replies chosen by keyword, in a fixed priority order. */
module Chat {
  import opened Wrappers
  import opened Entities
  import Text

  /** Which answer the dispatcher gives. */
  datatype Reply = PriceInfo | SeasonInfo | FoodInfo | SpotInfo(spot: Spot) | Fallback

  const PriceText: string := "Prices vary by season. Hotels range from PKR 5,000 to 45,000. Car rentals start at PKR 4,000/day. Check the 'Hotels' or 'Transport' tab for current rates."
  const SeasonText: string := "For Northern Areas, May to September is best. For Sindh/Punjab, October to March is ideal."
  const FoodText: string := "Don't miss Chapli Kabab in Peshawar, Biryani in Karachi, and Yak meat in Hunza!"
  const FallbackText: string := "I recommend exploring the 'Explore' tab for specific spots. Pakistan has amazing mountains, deserts, and beaches!"

  predicate AsksPrice(q: string) { Text.Contains(q, "price") || Text.Contains(q, "cost") }
  predicate AsksSeason(q: string) { Text.Contains(q, "weather") || Text.Contains(q, "best time") }
  predicate AsksFood(q: string) { Text.Contains(q, "food") }

  /** The query (already lowercased) names this spot. */
  predicate Names(q: string, s: Spot) { Text.Contains(q, Text.Lower(s.name)) }

  /** `allSpots.find(s => lowerQ.includes(s.name.toLowerCase()))`, as a position. */
  function FindNamedSpot(spots: seq<Spot>, q: string): (r: Option<nat>)
    ensures r.None? <==> forall k :: 0 <= k < |spots| ==> !Names(q, spots[k])
    ensures r.Some? ==> r.value < |spots| && Names(q, spots[r.value])
    ensures r.Some? ==> forall k :: 0 <= k < r.value ==> !Names(q, spots[k])
    decreases |spots|
  {
    if spots == [] then None
    else if Names(q, spots[0]) then Some(0)
    else match FindNamedSpot(spots[1..], q)
      case None => None
      case Some(i) => Some(i + 1)
  }

  /** The trigger checks, first applicable wins: price or cost; weather or best time; food;
      the first spot whose lowercased name occurs in the query; otherwise the fallback. */
  function Classify(query: string, spots: seq<Spot>): (r: Reply)
    ensures var q := Text.Lower(query);
      && (r.PriceInfo? <==> AsksPrice(q))
      && (r.SeasonInfo? <==> !AsksPrice(q) && AsksSeason(q))
      && (r.FoodInfo? <==> !AsksPrice(q) && !AsksSeason(q) && AsksFood(q))
      && (r.SpotInfo? ==>
            (!AsksPrice(q) && !AsksSeason(q) && !AsksFood(q) &&
             exists k :: 0 <= k < |spots| && spots[k] == r.spot && Names(q, spots[k]) &&
               forall j :: 0 <= j < k ==> !Names(q, spots[j])))
      && (r.Fallback? <==>
            (!AsksPrice(q) && !AsksSeason(q) && !AsksFood(q) &&
             forall k :: 0 <= k < |spots| ==> !Names(q, spots[k])))
  {
    var q := Text.Lower(query);
    if AsksPrice(q) then PriceInfo
    else if AsksSeason(q) then SeasonInfo
    else if AsksFood(q) then FoodInfo
    else match FindNamedSpot(spots, q)
      case Some(k) => SpotInfo(spots[k])
      case None => Fallback
  }

  /** The text of each reply; a spot reply quotes its name, tags and description. */
  function ReplyText(r: Reply): (t: string)
    ensures r.SpotInfo? ==> r.spot.name + " is a great choice! It's known for " <= t
    ensures r.SpotInfo? ==> |r.spot.description| <= |t| && t[|t| - |r.spot.description|..] == r.spot.description
    ensures !r.SpotInfo? ==> t in {PriceText, SeasonText, FoodText, FallbackText}
  {
    match r
    case PriceInfo => PriceText
    case SeasonInfo => SeasonText
    case FoodInfo => FoodText
    case SpotInfo(s) => s.name + " is a great choice! It's known for " + Text.Join(s.tags, ", ") + ". " + s.description
    case Fallback => FallbackText
  }

  /** `askAIChat(query)` over the stored spots: one canned text per topic, in priority order,
      then the template for the first named spot, then the fallback. */
  function AskAIChat(query: string, spots: seq<Spot>): (answer: string)
    ensures var q := Text.Lower(query);
      && (AsksPrice(q) ==> answer == PriceText)
      && (!AsksPrice(q) && AsksSeason(q) ==> answer == SeasonText)
      && (!AsksPrice(q) && !AsksSeason(q) && AsksFood(q) ==> answer == FoodText)
      && (!AsksPrice(q) && !AsksSeason(q) && !AsksFood(q) ==>
            match FindNamedSpot(spots, q)
            case Some(k) => answer == spots[k].name + " is a great choice! It's known for " +
              Text.Join(spots[k].tags, ", ") + ". " + spots[k].description
            case None => answer == FallbackText)
  {
    ReplyText(Classify(query, spots))
  }

  /** Topic words win over spot names: a query about the price of a named spot gets the price reply. */
  lemma TopicBeatsSpotName(query: string, spots: seq<Spot>)
    requires Text.Contains(Text.Lower(query), "cost")
    ensures AskAIChat(query, spots) == PriceText
  {
  }

  /** Case does not matter: a query and its lowercased form get the same reply. */
  lemma CaseInsensitive(query: string, spots: seq<Spot>)
    ensures Classify(Text.Lower(query), spots) == Classify(query, spots)
  {
    Text.LowerIdempotent(query);
  }
}
