/** Folding per-seed search results into one weighted ranking. */
module Aggregation {
  import opened Prelude
  import opened Ann
  import opened Sorting
  import Text

  datatype Aggregated = Aggregated(trackId: TrackId, score: real, seedHits: nat)

  /** One queried seed: what its search returned and how much it weighs. */
  datatype Seed = Seed(hits: seq<QueryResult>, weight: real)

  function Seeds(perSeed: seq<seq<QueryResult>>, weights: seq<real>): seq<Seed> {
    seq(|perSeed|, i requires 0 <= i < |perSeed| => Seed(perSeed[i], if i < |weights| then weights[i] else 1.0))
  }

  // ----- The sums -----

  function Amount(hits: seq<QueryResult>, id: TrackId, w: real): real {
    if hits == [] then 0.0
    else
      var h := hits[|hits| - 1];
      Amount(hits[..|hits| - 1], id, w) + if h.trackId == id then h.similarity * w else 0.0
  }

  function Count(hits: seq<QueryResult>, id: TrackId): nat {
    if hits == [] then 0
    else Count(hits[..|hits| - 1], id) + if hits[|hits| - 1].trackId == id then 1 else 0
  }

  /** What one seed adds to a track; a seed without positive weight adds nothing. */
  function SeedScore(s: Seed, id: TrackId): real { if s.weight > 0.0 then Amount(s.hits, id, s.weight) else 0.0 }

  function SeedHits(s: Seed, id: TrackId): nat { if s.weight > 0.0 then Count(s.hits, id) else 0 }

  function Score(seeds: seq<Seed>, id: TrackId): real {
    if seeds == [] then 0.0 else Score(seeds[..|seeds| - 1], id) + SeedScore(seeds[|seeds| - 1], id)
  }

  function Hits(seeds: seq<Seed>, id: TrackId): nat {
    if seeds == [] then 0 else Hits(seeds[..|seeds| - 1], id) + SeedHits(seeds[|seeds| - 1], id)
  }

  type Tally = map<TrackId, (real, nat)>

  /** Exactly the hit, non-excluded tracks, each with its weighted sum and its hit count. */
  ghost predicate IsTally(t: Tally, seeds: seq<Seed>, exclude: set<TrackId>) {
    forall id {:trigger id in t} ::
      && (id in t <==> id !in exclude && Hits(seeds, id) > 0)
      && (id in t ==> t[id] == (Score(seeds, id), Hits(seeds, id)))
  }

  lemma {:induction false} ScoreRemove(seeds: seq<Seed>, i: nat, id: TrackId)
    requires i < |seeds|
    ensures Score(seeds, id) == Score(RemoveAt(seeds, i), id) + SeedScore(seeds[i], id)
    ensures Hits(seeds, id) == Hits(RemoveAt(seeds, i), id) + SeedHits(seeds[i], id)
    decreases |seeds|
  {
    var n := |seeds| - 1;
    var rest := RemoveAt(seeds, i);
    if i == n {
      assert rest == seeds[..n];
    } else {
      ScoreRemove(seeds[..n], i, id);
      assert rest[..n - 1] == RemoveAt(seeds[..n], i);
      assert rest[n - 1] == seeds[n];
    }
  }

  /** Sums do not depend on the order of the seeds. */
  lemma {:induction false} ScorePermuted(a: seq<Seed>, b: seq<Seed>, id: TrackId)
    requires multiset(a) == multiset(b)
    ensures Score(a, id) == Score(b, id) && Hits(a, id) == Hits(b, id)
    decreases |a|
  {
    if a == [] {
      assert |multiset(b)| == 0;
    } else {
      var i := PeelPermuted(a, b);
      ScoreRemove(b, i, id);
      ScorePermuted(a[..|a| - 1], RemoveAt(b, i), id);
    }
  }

  function Positive(seeds: seq<Seed>): seq<Seed> {
    if seeds == [] then []
    else Positive(seeds[..|seeds| - 1]) + if seeds[|seeds| - 1].weight > 0.0 then [seeds[|seeds| - 1]] else []
  }

  /** Seeds of zero or negative weight can be deleted. */
  lemma {:induction false} ScorePositive(seeds: seq<Seed>, id: TrackId)
    ensures Score(Positive(seeds), id) == Score(seeds, id) && Hits(Positive(seeds), id) == Hits(seeds, id)
  {
    if seeds != [] {
      var init, last := Positive(seeds[..|seeds| - 1]), seeds[|seeds| - 1];
      ScorePositive(seeds[..|seeds| - 1], id);
      if last.weight > 0.0 {
        assert Positive(seeds) == init + [last];
        assert (init + [last])[..|init|] == init;
      } else {
        assert Positive(seeds) == init;
      }
    }
  }

  // ----- The ranking -----

  /** Score descending, then hits descending, then id ascending. */
  predicate Before(a: Aggregated, b: Aggregated) {
    || a.score > b.score
    || (a.score == b.score && a.seedHits > b.seedHits)
    || (a.score == b.score && a.seedHits == b.seedHits && Text.Below(a.trackId, b.trackId))
  }

  lemma BeforeOrders()
    ensures Ordering(Before)
  {
    forall x, y | Before(x, y)
      ensures !Before(y, x)
    {
      if Before(y, x) {
        Text.BelowTransitive(x.trackId, y.trackId, x.trackId);
        Text.BelowIrreflexive(x.trackId);
      }
    }
    forall x, y, z | !Before(y, x) && !Before(z, y)
      ensures !Before(z, x)
    {
      Text.BelowTotal(x.trackId, y.trackId);
      Text.BelowTotal(y.trackId, z.trackId);
      if Text.Below(x.trackId, y.trackId) && Text.Below(y.trackId, z.trackId) {
        Text.BelowTransitive(x.trackId, y.trackId, z.trackId);
      }
      if Text.Below(z.trackId, x.trackId) && Text.Below(x.trackId, z.trackId) {
        Text.BelowTransitive(x.trackId, z.trackId, x.trackId);
      }
      Text.BelowIrreflexive(x.trackId);
    }
  }

  /** `r` lists the tally, each entry strictly before the next. */
  ghost predicate IsRanking(r: seq<Aggregated>, t: Tally) {
    && (forall i, j :: 0 <= i < j < |r| ==> Before(r[i], r[j]))
    && (forall a :: a in r <==> a.trackId in t && t[a.trackId] == (a.score, a.seedHits))
  }

  lemma {:induction false} StrictUnique(a: seq<Aggregated>, b: seq<Aggregated>)
    requires forall i, j :: 0 <= i < j < |a| ==> Before(a[i], a[j])
    requires forall i, j :: 0 <= i < j < |b| ==> Before(b[i], b[j])
    requires forall x :: x in a <==> x in b
    ensures a == b
  {
    BeforeOrders();
    assert b != [] ==> b[0] in a;
    if a != [] {
      assert a[0] in b;
      assert b[0] in a;
      assert a[0] == b[0];
      forall x
        ensures x in a[1..] <==> x in b[1..]
      {
        assert x in a[1..] ==> x in a && x != a[0];
        assert x in b[1..] ==> x in b && x != b[0];
        assert a == [a[0]] + a[1..] && b == [b[0]] + b[1..];
      }
      StrictUnique(a[1..], b[1..]);
      assert a == [a[0]] + a[1..] && b == [b[0]] + b[1..];
    }
  }

  /** The answer to an aggregation: the first `topN` of the full ranking. */
  ghost predicate IsTop(r: seq<Aggregated>, seeds: seq<Seed>, exclude: set<TrackId>, topN: nat) {
    exists t, full :: IsTally(t, seeds, exclude) && IsRanking(full, t) && r == Take(full, topN)
  }

  lemma SameSums(r: seq<Aggregated>, s: seq<Aggregated>, a: seq<Seed>, b: seq<Seed>, exclude: set<TrackId>, topN: nat)
    requires IsTop(r, a, exclude, topN) && IsTop(s, b, exclude, topN)
    requires forall id :: Score(a, id) == Score(b, id) && Hits(a, id) == Hits(b, id)
    ensures r == s
  {
    var t, full :| IsTally(t, a, exclude) && IsRanking(full, t) && r == Take(full, topN);
    var u, other :| IsTally(u, b, exclude) && IsRanking(other, u) && s == Take(other, topN);
    assert forall id :: id in t <==> id in u;
    assert t == u;
    StrictUnique(full, other);
  }

  /** The answer depends neither on map iteration order nor on the order of the seeds, weights
      moving with them. */
  lemma OrderIrrelevant(r: seq<Aggregated>, s: seq<Aggregated>, a: seq<Seed>, b: seq<Seed>, exclude: set<TrackId>, topN: nat)
    requires IsTop(r, a, exclude, topN) && IsTop(s, b, exclude, topN) && multiset(a) == multiset(b)
    ensures r == s
  {
    forall id
      ensures Score(a, id) == Score(b, id) && Hits(a, id) == Hits(b, id)
    {
      ScorePermuted(a, b, id);
    }
    SameSums(r, s, a, b, exclude, topN);
  }

  /** Deleting the seeds of zero or negative weight changes nothing. */
  lemma NonPositiveIrrelevant(r: seq<Aggregated>, s: seq<Aggregated>, a: seq<Seed>, exclude: set<TrackId>, topN: nat)
    requires IsTop(r, a, exclude, topN) && IsTop(s, Positive(a), exclude, topN)
    ensures r == s
  {
    forall id
      ensures Score(a, id) == Score(Positive(a), id) && Hits(a, id) == Hits(Positive(a), id)
    {
      ScorePositive(a, id);
    }
    SameSums(r, s, a, Positive(a), exclude, topN);
  }

  // ----- What the answer means -----

  lemma {:induction false} AmountConcat(a: seq<QueryResult>, b: seq<QueryResult>, id: TrackId, w: real)
    ensures Amount(a + b, id, w) == Amount(a, id, w) + Amount(b, id, w) && Count(a + b, id) == Count(a, id) + Count(b, id)
  {
    if b == [] {
      assert a + b == a;
    } else {
      AmountConcat(a, b[..|b| - 1], id, w);
      assert (a + b)[..|a + b| - 1] == a + b[..|b| - 1];
    }
  }

  /** Scores and hits add up over seeds. */
  lemma {:induction false} ScoreConcat(a: seq<Seed>, b: seq<Seed>, id: TrackId)
    ensures Score(a + b, id) == Score(a, id) + Score(b, id) && Hits(a + b, id) == Hits(a, id) + Hits(b, id)
  {
    if b == [] {
      assert a + b == a;
    } else {
      ScoreConcat(a, b[..|b| - 1], id);
      assert (a + b)[..|a + b| - 1] == a + b[..|b| - 1];
    }
  }

  /** And over the hits of one seed. */
  lemma SeedConcat(a: seq<QueryResult>, b: seq<QueryResult>, w: real, id: TrackId)
    ensures Score([Seed(a + b, w)], id) == Score([Seed(a, w)], id) + Score([Seed(b, w)], id)
    ensures Hits([Seed(a + b, w)], id) == Hits([Seed(a, w)], id) + Hits([Seed(b, w)], id)
  {
    AmountConcat(a, b, id, w);
    SeedAlone(Seed(a + b, w), id);
    SeedAlone(Seed(a, w), id);
    SeedAlone(Seed(b, w), id);
  }

  lemma SeedAlone(s: Seed, id: TrackId)
    ensures Score([s], id) == SeedScore(s, id) && Hits([s], id) == SeedHits(s, id)
  {
    assert [s][..0] == [];
  }

  /** One hit of a seed of positive weight counts once and scores its similarity times the weight,
      for its own track. With the sums above this settles every score. */
  lemma OneHit(hit: QueryResult, w: real, id: TrackId)
    ensures Score([Seed([hit], w)], id) == if w > 0.0 && hit.trackId == id then hit.similarity * w else 0.0
    ensures Hits([Seed([hit], w)], id) == if w > 0.0 && hit.trackId == id then 1 else 0
  {
    SeedAlone(Seed([hit], w), id);
    assert [hit][..0] == [];
    assert Amount([hit], id, w) == Amount([], id, w) + if hit.trackId == id then hit.similarity * w else 0.0;
    assert Count([hit], id) == Count([], id) + if hit.trackId == id then 1 else 0;
  }

  /** A weight that is missing counts as one. */
  lemma SeedsWeights(perSeed: seq<seq<QueryResult>>, weights: seq<real>, i: nat)
    requires i < |perSeed|
    ensures |Seeds(perSeed, weights)| == |perSeed|
    ensures Seeds(perSeed, weights)[i] == Seed(perSeed[i], if i < |weights| then weights[i] else 1.0)
  {
  }

  /** The entries carry the sums, of hit tracks that are not excluded, `topN` of them at most. */
  lemma TopEntries(r: seq<Aggregated>, seeds: seq<Seed>, exclude: set<TrackId>, topN: nat)
    requires IsTop(r, seeds, exclude, topN)
    ensures |r| <= topN
    ensures forall a :: a in r ==>
              && a.score == Score(seeds, a.trackId) && a.seedHits == Hits(seeds, a.trackId)
              && a.trackId !in exclude && a.seedHits > 0
  {
    var t: Tally, full :| IsTally(t, seeds, exclude) && IsRanking(full, t) && r == Take(full, topN);
    TakenEntries(t, full, r, seeds, exclude);
    assert forall a :: a in r ==> a in full && a.trackId in t;
  }

  /** Sums never rise along the answer; among equal sums the hits never rise, and among equal hits
      the ids do. */
  lemma TopDescends(r: seq<Aggregated>, seeds: seq<Seed>, exclude: set<TrackId>, topN: nat, i: nat, j: nat)
    requires IsTop(r, seeds, exclude, topN) && i < j < |r|
    ensures var x, y := r[i].trackId, r[j].trackId;
            && Score(seeds, x) >= Score(seeds, y)
            && (Score(seeds, x) == Score(seeds, y) ==> Hits(seeds, x) >= Hits(seeds, y))
            && (Score(seeds, x) == Score(seeds, y) && Hits(seeds, x) == Hits(seeds, y) ==> Text.Below(x, y))
  {
    var t, full :| IsTally(t, seeds, exclude) && IsRanking(full, t) && r == Take(full, topN);
    TakenEntries(t, full, r, seeds, exclude);
    assert Before(full[i], full[j]) && full[i] == r[i] && full[j] == r[j];
    assert r[i] in r && r[j] in r;
  }

  lemma TakenEntries(t: Tally, full: seq<Aggregated>, r: seq<Aggregated>, seeds: seq<Seed>, exclude: set<TrackId>)
    requires IsTally(t, seeds, exclude) && IsRanking(full, t) && r <= full
    ensures forall a :: a in r ==> a.score == Score(seeds, a.trackId) && a.seedHits == Hits(seeds, a.trackId)
  {
    forall a | a in r
      ensures a.score == Score(seeds, a.trackId) && a.seedHits == Hits(seeds, a.trackId)
    {
      assert a in full && a.trackId in t;
    }
  }

  /** What a full answer leaves out scores no better than its last entry. */
  lemma LeftOutScoresLess(r: seq<Aggregated>, seeds: seq<Seed>, exclude: set<TrackId>, topN: nat, id: TrackId)
    requires IsTop(r, seeds, exclude, topN) && id !in exclude && Hits(seeds, id) > 0
    requires forall a :: a in r ==> a.trackId != id
    ensures |r| == topN && (topN > 0 ==> Score(seeds, id) <= Score(seeds, r[topN - 1].trackId))
  {
    var t: Tally, full :| IsTally(t, seeds, exclude) && IsRanking(full, t) && r == Take(full, topN);
    TakenEntries(t, full, r, seeds, exclude);
    var a := Aggregated(id, t[id].0, t[id].1);
    assert forall i :: 0 <= i < |r| ==> r[i] in r && r[i] == full[i];
    assert a in full;
    var k :| 0 <= k < |full| && full[k] == a;
    if topN > 0 {
      assert Before(full[topN - 1], full[k]) && full[topN - 1] == r[topN - 1] && r[topN - 1] in r;
    }
  }

  // ----- The aggregator -----

  /** The nested loops over seeds and hits. */
  method TallyHits(perSeed: seq<seq<QueryResult>>, weights: seq<real>, exclude: set<TrackId>) returns (scores: Tally)
    ensures IsTally(scores, Seeds(perSeed, weights), exclude)
  {
    scores := map[];
    ghost var seeds := Seeds(perSeed, weights);
    for i := 0 to |perSeed|
      invariant IsTally(scores, seeds[..i], exclude)
    {
      assert seeds[..i + 1][..i] == seeds[..i];
      var raw := if i < |weights| then weights[i] else 1.0;
      var w := if raw > 0.0 then raw else 0.0;
      if w == 0.0 {
        continue;
      }
      scores := AddSeed(scores, perSeed[i], w, exclude, seeds[..i]);
    }
    assert seeds[..|perSeed|] == seeds;
  }

  lemma OneMoreHit(hits: seq<QueryResult>, j: nat, id: TrackId, w: real)
    requires j < |hits|
    ensures Count(hits[..j + 1], id) == Count(hits[..j], id) + if hits[j].trackId == id then 1 else 0
    ensures Amount(hits[..j + 1], id, w) == Amount(hits[..j], id, w) + if hits[j].trackId == id then hits[j].similarity * w else 0.0
  {
    assert hits[..j + 1][..j] == hits[..j];
  }

  /** `t` is right about `id` once the hits seen so far of one more seed of weight `w` are counted. */
  ghost predicate RightAbout(t: Tally, seeds: seq<Seed>, hits: seq<QueryResult>, w: real, exclude: set<TrackId>, id: TrackId) {
    && (id in t <==> id !in exclude && Hits(seeds, id) + Count(hits, id) > 0)
    && (id in t ==> t[id].0 == Score(seeds, id) + Amount(hits, id, w) && t[id].1 == Hits(seeds, id) + Count(hits, id))
  }

  /** One hit counted. */
  function Bumped(t: Tally, hit: QueryResult, w: real): Tally {
    var entry := if hit.trackId in t then t[hit.trackId] else (0.0, 0);
    t[hit.trackId := (entry.0 + hit.similarity * w, entry.1 + 1)]
  }

  lemma AddHit(t: Tally, seeds: seq<Seed>, hits: seq<QueryResult>, j: nat, w: real, exclude: set<TrackId>, id: TrackId)
    requires j < |hits| && RightAbout(t, seeds, hits[..j], w, exclude, id)
    ensures var u := if hits[j].trackId in exclude then t else Bumped(t, hits[j], w);
            RightAbout(u, seeds, hits[..j + 1], w, exclude, id)
  {
    OneMoreHit(hits, j, id, w);
    SilentBefore(seeds, hits[..j], id, w);
  }

  method AddSeed(before: Tally, hits: seq<QueryResult>, w: real, exclude: set<TrackId>, ghost seeds: seq<Seed>)
      returns (scores: Tally)
    requires w > 0.0 && IsTally(before, seeds, exclude)
    ensures IsTally(scores, seeds + [Seed(hits, w)], exclude)
  {
    scores := before;
    for j := 0 to |hits|
      invariant forall id :: RightAbout(scores, seeds, hits[..j], w, exclude, id)
    {
      ghost var next := if hits[j].trackId in exclude then scores else Bumped(scores, hits[j], w);
      ghost var seen := hits[..j + 1];
      forall id
        ensures RightAbout(next, seeds, seen, w, exclude, id)
      {
        AddHit(scores, seeds, hits, j, w, exclude, id);
      }
      if hits[j].trackId in exclude {
        continue;
      }
      scores := Bumped(scores, hits[j], w);
    }
    assert hits[..|hits|] == hits;
    forall id {:trigger id in scores}
      ensures id in scores ==> scores[id] == (scores[id].0, scores[id].1)
      ensures RightAbout(scores, seeds, hits, w, exclude, id)
    {
    }
    assert (seeds + [Seed(hits, w)])[..|seeds|] == seeds;
  }

  /** A track without hits has no score yet. */
  lemma SilentBefore(seeds: seq<Seed>, hits: seq<QueryResult>, id: TrackId, w: real)
    ensures Hits(seeds, id) + Count(hits, id) == 0 ==> Score(seeds, id) + Amount(hits, id, w) == 0.0
  {
    NoHitsNoScore(seeds, id);
    NoCountNoAmount(hits, id, w);
  }

  lemma {:induction false} NoCountNoAmount(hits: seq<QueryResult>, id: TrackId, w: real)
    ensures Count(hits, id) == 0 ==> Amount(hits, id, w) == 0.0
  {
    if hits != [] {
      NoCountNoAmount(hits[..|hits| - 1], id, w);
    }
  }

  lemma {:induction false} NoHitsNoScore(seeds: seq<Seed>, id: TrackId)
    ensures Hits(seeds, id) == 0 ==> Score(seeds, id) == 0.0
  {
    if seeds != [] {
      var s := seeds[|seeds| - 1];
      NoHitsNoScore(seeds[..|seeds| - 1], id);
      NoCountNoAmount(s.hits, id, s.weight);
    }
  }

  /** The map's entries in whatever order it yields them. */
  method Collect(scores: Tally) returns (r: seq<Aggregated>)
    ensures forall i, j :: 0 <= i < j < |r| ==> r[i].trackId != r[j].trackId
    ensures forall a :: a in r <==> a.trackId in scores && scores[a.trackId] == (a.score, a.seedHits)
  {
    r := [];
    var left := scores.Keys;
    while left != {}
      invariant left <= scores.Keys
      invariant forall i :: 0 <= i < |r| ==> r[i].trackId !in left
      invariant forall i, j :: 0 <= i < j < |r| ==> r[i].trackId != r[j].trackId
      invariant forall a :: a in r <==> a.trackId in scores.Keys - left && scores[a.trackId] == (a.score, a.seedHits)
      decreases |left|
    {
      var id :| id in left;
      r := r + [Aggregated(id, scores[id].0, scores[id].1)];
      left := left - {id};
    }
  }

  /** Sorting distinct entries lists them strictly. */
  lemma SortRanks(r: seq<Aggregated>, t: Tally)
    requires forall i, j :: 0 <= i < j < |r| ==> r[i].trackId != r[j].trackId
    requires forall a :: a in r <==> a.trackId in t && t[a.trackId] == (a.score, a.seedHits)
    ensures IsRanking(SortBy(r, Before), t)
  {
    var s := SortBy(r, Before);
    BeforeOrders();
    SortSorts(r, Before);
    SortPermutes(r, Before);
    forall a
      ensures a in r <==> a in s
    {
      SameMembers(r, s, a);
    }
    forall i, j | 0 <= i < j < |s|
      ensures Before(s[i], s[j])
    {
      if s[i] == s[j] {
        TwiceInPermutation(r, s, i, j);
      }
      assert s[i] in r && s[j] in r;
      Text.BelowTotal(s[i].trackId, s[j].trackId);
    }
  }

  lemma TwiceInPermutation(r: seq<Aggregated>, s: seq<Aggregated>, i: nat, j: nat)
    requires multiset(r) == multiset(s) && i < j < |s| && s[i] == s[j]
    ensures exists a, b :: 0 <= a < b < |r| && r[a] == r[b]
  {
    var x := s[i];
    RemoveAtMultiset(s, j);
    assert RemoveAt(s, j)[i] == x;
    assert multiset(s)[x] >= 2;
    OccursTwice(r, x);
  }

  lemma OccursTwice(r: seq<Aggregated>, x: Aggregated)
    requires multiset(r)[x] >= 2
    ensures exists a, b :: 0 <= a < b < |r| && r[a] == r[b]
  {
    assert x in multiset(r);
    var a :| 0 <= a < |r| && r[a] == x;
    RemoveAtMultiset(r, a);
    assert x in multiset(RemoveAt(r, a));
    var b :| 0 <= b < |RemoveAt(r, a)| && RemoveAt(r, a)[b] == x;
    var c := if b < a then b else b + 1;
    assert r[c] == x;
    assert 0 <= Min(a, c) < Max(a, c) < |r| && r[Min(a, c)] == r[Max(a, c)];
  }

  method AggregateSeedResultsWeighted(perSeed: seq<seq<QueryResult>>, weights: seq<real>, exclude: set<TrackId>, topN: nat)
      returns (r: seq<Aggregated>)
    ensures IsTop(r, Seeds(perSeed, weights), exclude, topN)
  {
    var scores := TallyHits(perSeed, weights, exclude);
    var all := Collect(scores);
    var ranked := SortBy(all, Before);
    SortRanks(all, scores);
    return Take(ranked, topN);
  }

  method AggregateSeedResults(perSeed: seq<seq<QueryResult>>, exclude: set<TrackId>, topN: nat) returns (r: seq<Aggregated>)
    ensures IsTop(r, seq(|perSeed|, i requires 0 <= i < |perSeed| => Seed(perSeed[i], 1.0)), exclude, topN)
  {
    r := AggregateSeedResultsWeighted(perSeed, [], exclude, topN);
    assert Seeds(perSeed, []) == seq(|perSeed|, i requires 0 <= i < |perSeed| => Seed(perSeed[i], 1.0));
  }
}
