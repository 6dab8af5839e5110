/** The explore page: the search and region filters over the spot list, the region options
    and the "Plan trip" link to the checkout page. */
module Explore {
  import opened Entities
  import Seqs
  import Text
  import Catalogue

  /** The field the region drop-down looks at. */
  function RegionOf(x: Spot): string { x.region }

  /** The region option that disables the region filter. */
  const AllRegions := Catalogue.All

  /** The lowercased search occurs in the lowercased name or in some lowercased tag. */
  predicate MatchesSearch(s: Spot, lowerSearch: string) {
    Text.Contains(Text.Lower(s.name), lowerSearch)
      || exists t :: t in s.tags && Text.Contains(Text.Lower(t), lowerSearch)
  }

  /** The search step: an empty search keeps everything; otherwise the matching spots. */
  function SearchFilter(spots: seq<Spot>, search: string): (r: seq<Spot>)
    ensures search == "" ==> r == spots
    ensures search != "" ==> forall s :: s in r <==> s in spots && MatchesSearch(s, Text.Lower(search))
    ensures search != "" ==> forall s ::
      multiset(r)[s] == if MatchesSearch(s, Text.Lower(search)) then multiset(spots)[s] else 0
    ensures Seqs.IsSubsequence(r, spots)
  {
    if search == "" then
      Seqs.SubsequenceRefl(spots);
      spots
    else
      var lowerSearch := Text.Lower(search);
      Seqs.Filter(spots, (s: Spot) => MatchesSearch(s, lowerSearch))
  }

  /** The region step: `All` keeps everything; otherwise the spots of that region. */
  function RegionFilter(spots: seq<Spot>, region: string): (r: seq<Spot>)
    ensures region == AllRegions ==> r == spots
    ensures region != AllRegions ==> forall s :: s in r <==> s in spots && s.region == region
    ensures region != AllRegions ==> forall s ::
      multiset(r)[s] == if s.region == region then multiset(spots)[s] else 0
    ensures Seqs.IsSubsequence(r, spots)
  {
    Catalogue.FilterBy(spots, RegionOf, region)
  }

  /** The filter effect: the search step, then the region step. */
  function FilterSpots(spots: seq<Spot>, search: string, region: string): (r: seq<Spot>)
    ensures search == "" && region == AllRegions ==> r == spots
    ensures forall s :: s in r <==>
      (s in spots
       && (search == "" || MatchesSearch(s, Text.Lower(search)))
       && (region == AllRegions || s.region == region))
    // each kept spot as often as in the input
    ensures forall s ::
      multiset(r)[s] == (if (search == "" || MatchesSearch(s, Text.Lower(search))) && (region == AllRegions || s.region == region)
       then multiset(spots)[s] else 0)
  {
    RegionFilter(SearchFilter(spots, search), region)
  }

  /** The filtered list keeps the input's order: it is a subsequence of it. */
  lemma {:induction false} FilterSpotsOrdered(spots: seq<Spot>, search: string, region: string)
    ensures Seqs.IsSubsequence(FilterSpots(spots, search, region), spots)
  {
    var mid := SearchFilter(spots, search);
    Seqs.SubsequenceTrans(RegionFilter(mid, region), mid, spots);
  }

  /** `regions`: the regions of the spots, each once, in first-appearance order. */
  function Regions(spots: seq<Spot>): (r: seq<string>)
    ensures Seqs.Distinct(r)
    ensures forall s :: s in spots ==> s.region in r
    ensures forall x :: x in r ==> exists s :: s in spots && s.region == x
    ensures Seqs.FirstOccurrenceOrder(r, Catalogue.Keys(spots, RegionOf))
  {
    Catalogue.Options(spots, RegionOf)
  }

  /** The checkout route and the name of its query parameter. */
  const CheckoutPath := "/checkout"
  const SpotIdKey := "spotId"

  /** The checkout route with the spot-id query parameter, before the id. */
  const PlanTripPrefix := CheckoutPath + "?" + SpotIdKey + "="

  /** The "Plan trip" navigation target: the prefix, then the id as written. */
  function PlanTripUrl(id: string): (u: string)
    ensures PlanTripPrefix <= u && u[|PlanTripPrefix|..] == id
  {
    PlanTripPrefix + id
  }
}
