/** The home page: the first nine spots are featured, and a spot without an image gets one
    from a fixed table keyed by name fragments, or a placeholder. */
module Home {
  import opened Wrappers
  import opened Entities
  import Seqs
  import Text

  /** The image table, in its declaration order (which is the order `Object.keys` returns). */
  const SpotImages: seq<(string, string)> := [
    ("Hunza", "https://upload.wikimedia.org/wikipedia/commons/9/9d/Hunza_Valley.jpg"),
    ("FaisalMosque", "https://upload.wikimedia.org/wikipedia/commons/6/6b/Faisal_Mosque.jpg"),
    ("MohenjoDaro", "https://upload.wikimedia.org/wikipedia/commons/2/2c/Mohenjo-daro_Excavation.jpg"),
    ("AstolaIsland", "https://upload.wikimedia.org/wikipedia/commons/1/12/Astola_Island.jpg"),
    ("Skardu", "https://upload.wikimedia.org/wikipedia/commons/7/7e/Skardu_Valley.jpg"),
    ("Gwadar", "https://upload.wikimedia.org/wikipedia/commons/1/1e/Gwadar_Beach.jpg"),
    ("LahoreFort", "https://upload.wikimedia.org/wikipedia/commons/7/7e/Fort_in_Lahore.jpg"),
    ("SwatValley", "https://upload.wikimedia.org/wikipedia/commons/e/e6/Swat_Valley.jpg"),
    ("K2", "https://upload.wikimedia.org/wikipedia/commons/b/bf/K2_Mountain_Pakistan.jpg")]

  const Placeholder := "https://via.placeholder.com/400x300?text=No+Image"

  /** How many spots the home page features. */
  const FeaturedCount := 9

  /** The table key `k` occurs in the name, both lowercased. */
  predicate KeyMatches(name: string, k: (string, string)) {
    Text.Contains(Text.Lower(name), Text.Lower(k.0))
  }

  /** `Object.keys(spotImages).find(...)`: the position of the first key occurring in the name. */
  function ImageKey(name: string): (r: Option<nat>)
    ensures r.None? <==> forall i :: 0 <= i < |SpotImages| ==> !KeyMatches(name, SpotImages[i])
    ensures r.Some? ==> r.value < |SpotImages| && KeyMatches(name, SpotImages[r.value])
    ensures r.Some? ==> forall i :: 0 <= i < r.value ==> !KeyMatches(name, SpotImages[i])
  {
    Seqs.FirstIndex(SpotImages, (k: (string, string)) => KeyMatches(name, k))
  }

  /** The image a spot is shown with: its own when it has one, otherwise the table's image for
      the first matching key, otherwise the placeholder. Every other field is kept. */
  function WithImage(s: Spot): (r: Spot)
    ensures r == s.(imageUrl := r.imageUrl)
    ensures s.imageUrl != "" ==> r == s
    ensures s.imageUrl == "" && ImageKey(s.name).None? ==> r.imageUrl == Placeholder
    ensures s.imageUrl == "" && ImageKey(s.name).Some? ==> r.imageUrl == SpotImages[ImageKey(s.name).value].1
    ensures r.imageUrl != ""
  {
    if s.imageUrl != "" then s
    else
      match ImageKey(s.name)
      case None => s.(imageUrl := Placeholder)
      case Some(i) => s.(imageUrl := SpotImages[i].1)
  }

  /** The featured list: the first nine spots (or all, when fewer), in order, each with its image. */
  function Featured(spots: seq<Spot>): (r: seq<Spot>)
    ensures |r| == if |spots| < FeaturedCount then |spots| else FeaturedCount
    ensures forall i :: 0 <= i < |r| ==> r[i] == WithImage(spots[i])
  {
    var first := Seqs.Take(spots, FeaturedCount);
    seq(|first|, i requires 0 <= i < |first| => WithImage(first[i]))
  }

  /** Every featured spot has an image, and apart from its image it is the spot at the same
      position of the full list. */
  lemma {:induction false} FeaturedShape(spots: seq<Spot>)
    ensures forall i :: 0 <= i < |Featured(spots)| ==>
      Featured(spots)[i].imageUrl != "" && Featured(spots)[i] == spots[i].(imageUrl := Featured(spots)[i].imageUrl)
  {
    var r := Featured(spots);
    forall i | 0 <= i < |r|
      ensures r[i].imageUrl != "" && r[i] == spots[i].(imageUrl := r[i].imageUrl)
    {
      assert r[i] == WithImage(spots[i]);
    }
  }

  /** A spot without an image whose lowercased name mentions "hunza" gets the Hunza picture,
      the table's first entry. */
  lemma HunzaFirst(s: Spot)
    requires s.imageUrl == "" && Text.Contains(Text.Lower(s.name), "hunza")
    ensures WithImage(s).imageUrl == SpotImages[0].1
  {
    assert Text.Lower(SpotImages[0].0) == "hunza";
    assert KeyMatches(s.name, SpotImages[0]);
  }
}
