/** The deterministic part of `getAIRecommendations`: region filter, keyword score, sort by score
    (highest first) and the first five. The random addend of each candidate is a parameter with
    `0 <= noise < 2`. */
module Recommender {
  import opened Wrappers
  import opened Entities
  import Seqs
  import Text

  /** The request fields the ranking reads (`duration` and `budget` are not used by it). */
  datatype Request = Request(interests: seq<string>, region: Option<string>)

  /** A candidate with its integer keyword score and its final (noisy) score. */
  datatype Scored = Scored(spot: Spot, base: int, score: real)

  /** Weight of one interest for one spot: 5 when the lowercased interest is one of the tags,
      plus 2 when it occurs in the lowercased description. */
  function InterestWeight(spot: Spot, interest: string): (w: int)
    ensures w in {0, 2, 5, 7}
    ensures w >= 5 <==> Text.Lower(interest) in spot.tags
    ensures w % 5 == 2 <==> Text.Contains(Text.Lower(spot.description), Text.Lower(interest))
  {
    (if Text.Lower(interest) in spot.tags then 5 else 0) +
    (if Text.Contains(Text.Lower(spot.description), Text.Lower(interest)) then 2 else 0)
  }

  /** The `forEach` accumulation over the requested interests. */
  function BaseScore(spot: Spot, interests: seq<string>): (r: int)
    ensures 0 <= r <= 7 * |interests|
    decreases |interests|
  {
    if interests == [] then 0
    else InterestWeight(spot, interests[0]) + BaseScore(spot, interests[1..])
  }

  /** How many interests satisfy `p` (interests listed twice count twice). */
  function CountHits(interests: seq<string>, p: string -> bool): nat
    decreases |interests|
  {
    if interests == [] then 0
    else (if p(interests[0]) then 1 else 0) + CountHits(interests[1..], p)
  }

  /** The score is 5 per interest found among the tags plus 2 per interest found in the description. */
  lemma {:induction false} BaseScoreCounts(spot: Spot, interests: seq<string>)
    ensures BaseScore(spot, interests) ==
      5 * CountHits(interests, i => Text.Lower(i) in spot.tags) +
      2 * CountHits(interests, i => Text.Contains(Text.Lower(spot.description), Text.Lower(i)))
    decreases |interests|
  {
    if interests != [] {
      BaseScoreCounts(spot, interests[1..]);
    }
  }

  /** The score is zero exactly when no interest matches, and otherwise at least 2. */
  lemma {:induction false} BaseScoreZero(spot: Spot, interests: seq<string>)
    ensures BaseScore(spot, interests) >= 0
    ensures BaseScore(spot, interests) == 0 <==>
      forall k :: 0 <= k < |interests| ==> InterestWeight(spot, interests[k]) == 0
    ensures BaseScore(spot, interests) != 0 ==> BaseScore(spot, interests) >= 2
    decreases |interests|
  {
    if interests != [] {
      BaseScoreZero(spot, interests[1..]);
      assert forall k :: 1 <= k < |interests| ==> interests[k] == interests[1..][k - 1];
    }
  }

  /** `req.region ? allSpots.filter(s => s.region === req.region) : allSpots`; an empty region is falsy. */
  function Candidates(all: seq<Spot>, region: Option<string>): (r: seq<Spot>)
    ensures region.None? || region.value == "" ==> r == all
    ensures region.Some? && region.value != "" ==>
      && (forall s :: s in r <==> s in all && s.region == region.value)
      && (forall s :: multiset(r)[s] == if s.region == region.value then multiset(all)[s] else 0)
      && Seqs.IsSubsequence(r, all)
  {
    if region.Some? && region.value != "" then
      Seqs.Filter(all, (s: Spot) => s.region == region.value)
    else all
  }

  /** The `map` step: each candidate with its score plus its own noise draw. */
  function ScoreAll(cands: seq<Spot>, interests: seq<string>, noise: seq<real>): (r: seq<Scored>)
    requires |noise| == |cands|
    ensures |r| == |cands|
    ensures forall i :: 0 <= i < |r| ==>
      r[i].spot == cands[i] && r[i].base == BaseScore(cands[i], interests) &&
      r[i].score == r[i].base as real + noise[i]
  {
    seq(|cands|, i requires 0 <= i < |cands| =>
      Scored(cands[i], BaseScore(cands[i], interests), BaseScore(cands[i], interests) as real + noise[i]))
  }

  /** Highest score first. */
  ghost predicate SortedByScore(s: seq<Scored>) {
    forall i, j :: 0 <= i < j < |s| ==> s[i].score >= s[j].score
  }

  /** Inserts `x` after every entry scoring at least as much, so equal scores keep their order. */
  function Insert(x: Scored, s: seq<Scored>): (r: seq<Scored>)
    requires SortedByScore(s)
    ensures SortedByScore(r)
    ensures multiset(r) == multiset(s) + multiset{x}
    decreases |s|
  {
    if s == [] then [x]
    else if s[0].score >= x.score then
      var rest := Insert(x, s[1..]);
      HeadBound(x, s, rest);
      InsertSorted(s[0], rest);
      assert s == [s[0]] + s[1..];
      [s[0]] + rest
    else
      InsertSorted(x, s);
      [x] + s
  }

  /** The head of a sorted sequence bounds everything inserted behind it. */
  lemma HeadBound(x: Scored, s: seq<Scored>, rest: seq<Scored>)
    requires SortedByScore(s) && s != [] && s[0].score >= x.score
    requires multiset(rest) == multiset(s[1..]) + multiset{x}
    ensures forall y :: y in rest ==> y.score <= s[0].score
  {
    forall y | y in rest ensures y.score <= s[0].score {
      assert y in multiset(rest);
      if y != x {
        assert y in multiset(s[1..]);
        var k :| 0 <= k < |s[1..]| && s[1..][k] == y;
        assert s[k + 1] == y;
      }
    }
  }

  /** Putting an entry in front of a sorted sequence of entries scoring no more keeps it sorted. */
  lemma InsertSorted(h: Scored, s: seq<Scored>)
    requires SortedByScore(s)
    requires forall y :: y in s ==> y.score <= h.score
    ensures SortedByScore([h] + s)
  {
    var r := [h] + s;
    forall i, j | 0 <= i < j < |r| ensures r[i].score >= r[j].score {
      assert r[j] == s[j - 1];
      if i > 0 {
        assert r[i] == s[i - 1];
      }
    }
  }

  /** `sort((a, b) => b.score - a.score)`: a stable insertion sort by decreasing score. */
  function SortByScore(s: seq<Scored>): (r: seq<Scored>)
    ensures SortedByScore(r)
    ensures multiset(r) == multiset(s)
    ensures |r| == |s|
    decreases |s|
  {
    if s == [] then []
    else
      assert s == s[..|s| - 1] + [s[|s| - 1]];
      var r := Insert(s[|s| - 1], SortByScore(s[..|s| - 1]));
      assert |r| == |multiset(r)|;
      r
  }

  /** The noise added to each entry is below the smallest step between integer scores. */
  ghost predicate NoiseBounded(s: seq<Scored>) {
    forall i :: 0 <= i < |s| ==> s[i].base as real <= s[i].score < s[i].base as real + 2.0
  }

  /** `getAIRecommendations(req)`: the five best-scoring candidates, highest first. */
  function Recommend(all: seq<Spot>, req: Request, noise: seq<real>): (r: seq<Scored>)
    requires |noise| == |Candidates(all, req.region)|
    ensures |r| == if |Candidates(all, req.region)| < 5 then |Candidates(all, req.region)| else 5
    ensures forall i :: 0 <= i < |r| ==> r[i].spot in Candidates(all, req.region)
    ensures SortedByScore(r)
    ensures multiset(r) <= multiset(ScoreAll(Candidates(all, req.region), req.interests, noise))
    // nothing left out scores above anything returned
    ensures forall x, i ::
      (x in multiset(ScoreAll(Candidates(all, req.region), req.interests, noise)) - multiset(r) && 0 <= i < |r|) ==>
        x.score <= r[i].score
  {
    var cands := Candidates(all, req.region);
    TopFive(cands, req.interests, noise);
    Seqs.Take(SortByScore(ScoreAll(cands, req.interests, noise)), 5)
  }

  /** The facts behind `Recommend`, for one candidate list. */
  lemma TopFive(cands: seq<Spot>, interests: seq<string>, noise: seq<real>)
    requires |noise| == |cands|
    ensures var scored := ScoreAll(cands, interests, noise);
      var r := Seqs.Take(SortByScore(scored), 5);
      && |r| == (if |cands| < 5 then |cands| else 5)
      && (forall i :: 0 <= i < |r| ==> r[i].spot in cands)
      && SortedByScore(r)
      && multiset(r) <= multiset(scored)
      && forall x, i :: (x in multiset(scored) - multiset(r) && 0 <= i < |r|) ==> x.score <= r[i].score
  {
    var scored := ScoreAll(cands, interests, noise);
    var sorted := SortByScore(scored);
    TopOfSorted(sorted, 5);
    TopFromCandidates(sorted, scored, cands, interests, noise);
  }

  /** A prefix of the sorted entries is sorted and draws its spots from the candidates. */
  lemma TopFromCandidates(sorted: seq<Scored>, scored: seq<Scored>, cands: seq<Spot>, interests: seq<string>, noise: seq<real>)
    requires |noise| == |cands| && scored == ScoreAll(cands, interests, noise)
    requires multiset(sorted) == multiset(scored) && SortedByScore(sorted)
    ensures var r := Seqs.Take(sorted, 5);
      (forall i :: 0 <= i < |r| ==> r[i].spot in cands) && SortedByScore(r)
  {
    SortedFromCandidates(sorted, scored, cands, interests, noise);
    var r := Seqs.Take(sorted, 5);
    assert forall i :: 0 <= i < |r| ==> r[i] == sorted[i];
  }

  /** Sorting keeps every entry's spot among the candidates. */
  lemma SortedFromCandidates(sorted: seq<Scored>, scored: seq<Scored>, cands: seq<Spot>, interests: seq<string>, noise: seq<real>)
    requires |noise| == |cands| && scored == ScoreAll(cands, interests, noise)
    requires multiset(sorted) == multiset(scored)
    ensures forall i :: 0 <= i < |sorted| ==> sorted[i].spot in cands
  {
    forall i | 0 <= i < |sorted| ensures sorted[i].spot in cands {
      assert sorted[i] in multiset(scored);
      var k :| 0 <= k < |scored| && scored[k] == sorted[i];
    }
  }

  /** The first `n` entries of a sorted sequence dominate the rest. */
  lemma TopOfSorted(s: seq<Scored>, n: nat)
    requires SortedByScore(s)
    ensures multiset(Seqs.Take(s, n)) <= multiset(s)
    ensures forall x, i ::
      (x in multiset(s) - multiset(Seqs.Take(s, n)) && 0 <= i < |Seqs.Take(s, n)|) ==> x.score <= Seqs.Take(s, n)[i].score
  {
    var t := Seqs.Take(s, n);
    var rest := s[|t|..];
    assert s == t + rest;
    assert multiset(s) - multiset(t) == multiset(rest);
    forall x: Scored, i | x in multiset(rest) && 0 <= i < |t|
      ensures x.score <= t[i].score
    {
      TailBelowHead(s, |t|, x, i);
    }
  }

  /** In a sorted sequence, any entry of the tail from `m` on scores at most any entry before `m`. */
  lemma TailBelowHead(s: seq<Scored>, m: nat, x: Scored, i: nat)
    requires SortedByScore(s) && m <= |s| && i < m
    requires x in multiset(s[m..])
    ensures x.score <= s[i].score
  {
    var rest := s[m..];
    var j :| 0 <= j < |rest| && rest[j] == x;
    assert rest[j] == s[m + j];
  }

  /** With every noise draw in [0, 2), each recommendation's score is its integer score plus less than 2. */
  lemma RecommendNoise(all: seq<Spot>, req: Request, noise: seq<real>)
    requires |noise| == |Candidates(all, req.region)|
    requires forall i :: 0 <= i < |noise| ==> 0.0 <= noise[i] < 2.0
    ensures NoiseBounded(Recommend(all, req, noise))
  {
    var scored := ScoreAll(Candidates(all, req.region), req.interests, noise);
    assert NoiseBounded(scored);
    NoiseBoundedSub(Recommend(all, req, noise), scored);
  }

  /** Entries drawn from a noise-bounded sequence are noise-bounded. */
  lemma NoiseBoundedSub(a: seq<Scored>, b: seq<Scored>)
    requires NoiseBounded(b) && multiset(a) <= multiset(b)
    ensures NoiseBounded(a)
  {
    forall i | 0 <= i < |a|
      ensures a[i].base as real <= a[i].score < a[i].base as real + 2.0
    {
      assert a[i] in multiset(b);
      var j :| 0 <= j < |b| && b[j] == a[i];
    }
  }

  /** A spot matching no interest never takes the place of one that matches: if a matching
      candidate is left out, every recommendation matches some interest. */
  lemma {:induction false} ZeroMatchNeverOutranks(all: seq<Spot>, req: Request, noise: seq<real>, x: Scored)
    requires |noise| == |Candidates(all, req.region)|
    requires forall i :: 0 <= i < |noise| ==> 0.0 <= noise[i] < 2.0
    requires x in multiset(ScoreAll(Candidates(all, req.region), req.interests, noise)) - multiset(Recommend(all, req, noise))
    requires x.base > 0
    ensures forall i :: 0 <= i < |Recommend(all, req, noise)| ==> Recommend(all, req, noise)[i].base > 0
  {
    var scored := ScoreAll(Candidates(all, req.region), req.interests, noise);
    var r := Recommend(all, req, noise);
    RecommendNoise(all, req, noise);
    assert x in multiset(scored);
    var j :| 0 <= j < |scored| && scored[j] == x;
    BaseScoreZero(x.spot, req.interests);
    assert x.score >= 2.0;
    forall i | 0 <= i < |r| ensures r[i].base > 0 {
      assert x.score <= r[i].score;
    }
  }

  /** Within the recommendations, every matching spot comes before every zero-match spot. */
  lemma {:induction false} MatchingFirst(all: seq<Spot>, req: Request, noise: seq<real>, i: nat, j: nat)
    requires |noise| == |Candidates(all, req.region)|
    requires forall k :: 0 <= k < |noise| ==> 0.0 <= noise[k] < 2.0
    requires i < j < |Recommend(all, req, noise)|
    requires Recommend(all, req, noise)[i].base == 0
    ensures Recommend(all, req, noise)[j].base == 0
  {
    var r := Recommend(all, req, noise);
    var scored := ScoreAll(Candidates(all, req.region), req.interests, noise);
    RecommendNoise(all, req, noise);
    assert r[j] in multiset(scored);
    var k :| 0 <= k < |scored| && scored[k] == r[j];
    BaseScoreZero(r[j].spot, req.interests);
  }
}
