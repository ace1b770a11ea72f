/** The maximal-marginal-relevance re-ranker: a greedy pick with running caches. */
module Mmr {
  import opened Prelude
  import Ann

  type Vector = Ann.Vector
  type Counts = map<string, nat>

  datatype Candidate = Candidate(simToSeed: real, vector: Option<Vector>, artist: Option<string>, bonus: real)

  /** The knobs; `sim` is the similarity of two stored vectors. */
  datatype Params = Params(lambda: real, mu: real, queued: Counts, sim: (Vector, Vector) -> real)

  function MaxReal(a: real, b: real): real { if b > a then b else a }

  /** Out-of-range knobs are pulled back. */
  function Clamped(p: Params): Params {
    p.(lambda := if p.lambda < 0.0 then 0.0 else if p.lambda > 1.0 then 1.0 else p.lambda, mu := MaxReal(p.mu, 0.0))
  }

  function Count(counts: Counts, artist: string): nat { if artist in counts then counts[artist] else 0 }

  function Relevance(c: Candidate): real { c.simToSeed + c.bonus }

  function ArtistPenalty(c: Candidate, tally: nat, p: Params): real {
    if p.mu == 0.0 || c.artist.None? then 0.0 else p.mu * tally as real
  }

  /** A candidate's score, given how close it is to the admitted ones and how often its artist was
      admitted; the first slot has no novelty term. */
  function Score(c: Candidate, crowding: real, tally: nat, first: bool, p: Params): real {
    if first then Relevance(c) - ArtistPenalty(c, tally, p)
    else p.lambda * Relevance(c) - (1.0 - p.lambda) * crowding - ArtistPenalty(c, tally, p)
  }

  // ----- What the caches stand for -----

  function Closeness(a: Candidate, b: Candidate, p: Params): real {
    if a.vector.Some? && b.vector.Some? then p.sim(a.vector.value, b.vector.value) else 0.0
  }

  /** The largest similarity of candidate `i` to an admitted one, and no less than zero. */
  ghost function Crowding(cands: seq<Candidate>, admitted: seq<nat>, i: nat, p: Params): real
    requires InRange(admitted, |cands|) && i < |cands|
  {
    if admitted == [] then 0.0
    else
      var n := |admitted| - 1;
      MaxReal(Crowding(cands, admitted[..n], i, p), Closeness(cands[admitted[n]], cands[i], p))
  }

  /** How many of the admitted are by `artist`. */
  ghost function ByArtist(cands: seq<Candidate>, admitted: seq<nat>, artist: string): nat
    requires InRange(admitted, |cands|)
  {
    if admitted == [] then 0
    else
      var n := |admitted| - 1;
      ByArtist(cands, admitted[..n], artist) + if cands[admitted[n]].artist == Some(artist) then 1 else 0
  }

  ghost function Tally(cands: seq<Candidate>, admitted: seq<nat>, i: nat, p: Params): nat
    requires InRange(admitted, |cands|) && i < |cands|
  {
    match cands[i].artist
    case None => 0
    case Some(a) => Count(p.queued, a) + ByArtist(cands, admitted, a)
  }

  /** The score by definition, from scratch. */
  ghost function FullScore(cands: seq<Candidate>, admitted: seq<nat>, i: nat, p: Params): real
    requires InRange(admitted, |cands|) && i < |cands|
  {
    Score(cands[i], Crowding(cands, admitted, i, p), Tally(cands, admitted, i, p), admitted == [], p)
  }

  /** `i` is the pick: no remaining candidate scores higher, and none before it as high. */
  ghost predicate IsPick(cands: seq<Candidate>, admitted: seq<nat>, i: nat, p: Params)
    requires InRange(admitted, |cands|)
  {
    && i < |cands| && i !in admitted
    && forall j: nat :: j < |cands| && j !in admitted ==>
         var mine, other := FullScore(cands, admitted, i, p), FullScore(cands, admitted, j, p);
         other <= mine && (j < i ==> other < mine)
  }

  /** Every position holds the pick given those before it. */
  ghost predicate IsGreedy(order: seq<nat>, cands: seq<Candidate>, p: Params) {
    InRange(order, |cands|) && forall k :: 0 <= k < |order| ==> IsPick(cands, order[..k], order[k], p)
  }

  /** Crowding is the maximum it is named after, floored at zero. */
  lemma {:induction false} CrowdingIsMax(cands: seq<Candidate>, admitted: seq<nat>, i: nat, p: Params)
    requires InRange(admitted, |cands|) && i < |cands|
    ensures var c := Crowding(cands, admitted, i, p);
            && c >= 0.0
            && (forall k :: 0 <= k < |admitted| ==> Closeness(cands[admitted[k]], cands[i], p) <= c)
            && (c == 0.0 || exists k :: 0 <= k < |admitted| && Closeness(cands[admitted[k]], cands[i], p) == c)
  {
    if admitted != [] {
      var n := |admitted| - 1;
      CrowdingIsMax(cands, admitted[..n], i, p);
      var c, before := Crowding(cands, admitted, i, p), Crowding(cands, admitted[..n], i, p);
      if c == before && c != 0.0 {
        var k :| 0 <= k < n && Closeness(cands[admitted[..n][k]], cands[i], p) == c;
        assert Closeness(cands[admitted[k]], cands[i], p) == c;
      }
    }
  }

  // ----- The documented formula -----

  /** The largest closeness to an admitted candidate, as documented. */
  ghost function Largest(cands: seq<Candidate>, admitted: seq<nat>, i: nat, p: Params): real
    requires InRange(admitted, |cands|) && i < |cands| && admitted != []
  {
    var n := |admitted| - 1;
    var last := Closeness(cands[admitted[n]], cands[i], p);
    if n == 0 then last else MaxReal(Largest(cands, admitted[..n], i, p), last)
  }

  lemma {:induction false} LargestIsMax(cands: seq<Candidate>, admitted: seq<nat>, i: nat, p: Params)
    requires InRange(admitted, |cands|) && i < |cands| && admitted != []
    ensures var m := Largest(cands, admitted, i, p);
            && (forall k :: 0 <= k < |admitted| ==> Closeness(cands[admitted[k]], cands[i], p) <= m)
            && (exists k :: 0 <= k < |admitted| && Closeness(cands[admitted[k]], cands[i], p) == m)
            && Crowding(cands, admitted, i, p) == MaxReal(m, 0.0)
  {
    var n := |admitted| - 1;
    var m := Largest(cands, admitted, i, p);
    if n == 0 {
      assert admitted[..n] == [];
      assert Closeness(cands[admitted[0]], cands[i], p) == m;
    } else {
      LargestIsMax(cands, admitted[..n], i, p);
      var k :| 0 <= k < n && Closeness(cands[admitted[..n][k]], cands[i], p) == Largest(cands, admitted[..n], i, p);
      assert Closeness(cands[admitted[if m == Largest(cands, admitted[..n], i, p) then k else n]], cands[i], p) == m;
    }
  }

  /** The code's novelty term is the documented one exactly when some closeness is not negative. */
  lemma FloorUnseenIff(cands: seq<Candidate>, admitted: seq<nat>, i: nat, p: Params)
    requires InRange(admitted, |cands|) && i < |cands| && admitted != []
    ensures Crowding(cands, admitted, i, p) == Largest(cands, admitted, i, p) <==>
            exists k :: 0 <= k < |admitted| && Closeness(cands[admitted[k]], cands[i], p) >= 0.0
  {
    LargestIsMax(cands, admitted, i, p);
    var m := Largest(cands, admitted, i, p);
    var k :| 0 <= k < |admitted| && Closeness(cands[admitted[k]], cands[i], p) == m;
    assert m >= 0.0 ==> Closeness(cands[admitted[k]], cands[i], p) >= 0.0;
  }

  /** The score as documented, which has no floor. */
  ghost function DocumentedScore(cands: seq<Candidate>, admitted: seq<nat>, i: nat, p: Params): real
    requires InRange(admitted, |cands|) && i < |cands|
  {
    Score(cands[i], if admitted == [] then 0.0 else Largest(cands, admitted, i, p), Tally(cands, admitted, i, p), admitted == [], p)
  }

  ghost predicate IsDocumentedPick(cands: seq<Candidate>, admitted: seq<nat>, i: nat, p: Params)
    requires InRange(admitted, |cands|)
  {
    && i < |cands| && i !in admitted
    && forall j: nat :: j < |cands| && j !in admitted ==>
         var mine, other := DocumentedScore(cands, admitted, i, p), DocumentedScore(cands, admitted, j, p);
         other <= mine && (j < i ==> other < mine)
  }

  ghost predicate IsDocumented(order: seq<nat>, cands: seq<Candidate>, p: Params) {
    InRange(order, |cands|) && forall k :: 0 <= k < |order| ==> IsDocumentedPick(cands, order[..k], order[k], p)
  }

  /** Every remaining candidate is close to some admitted one, at every slot but the first. */
  ghost predicate NoneAverse(order: seq<nat>, cands: seq<Candidate>, p: Params)
    requires InRange(order, |cands|)
  {
    forall k, j: nat :: 1 <= k < |order| && j < |cands| && j !in order[..k] ==>
      exists m :: 0 <= m < k && Closeness(cands[order[m]], cands[j], p) >= 0.0
  }

  lemma SameScore(order: seq<nat>, cands: seq<Candidate>, p: Params, k: nat, j: nat)
    requires InRange(order, |cands|) && NoneAverse(order, cands, p) && k < |order| && j < |cands| && j !in order[..k]
    ensures FullScore(cands, order[..k], j, p) == DocumentedScore(cands, order[..k], j, p)
  {
    if k > 0 {
      var m :| 0 <= m < k && Closeness(cands[order[m]], cands[j], p) >= 0.0;
      assert order[..k][m] == order[m];
      FloorUnseenIff(cands, order[..k], j, p);
    }
  }

  lemma SamePickAt(order: seq<nat>, cands: seq<Candidate>, p: Params, k: nat)
    requires InRange(order, |cands|) && NoneAverse(order, cands, p) && k < |order|
    ensures IsPick(cands, order[..k], order[k], p) <==> IsDocumentedPick(cands, order[..k], order[k], p)
  {
    forall j: nat | j < |cands| && j !in order[..k]
      ensures FullScore(cands, order[..k], j, p) == DocumentedScore(cands, order[..k], j, p)
    {
      SameScore(order, cands, p, k, j);
    }
  }

  /** Where the floor never strikes, the order is the documented one. */
  lemma DocumentedUnlessAverse(order: seq<nat>, cands: seq<Candidate>, p: Params)
    requires InRange(order, |cands|) && NoneAverse(order, cands, p)
    ensures IsGreedy(order, cands, p) <==> IsDocumented(order, cands, p)
  {
    forall k | 0 <= k < |order|
      ensures IsPick(cands, order[..k], order[k], p) <==> IsDocumentedPick(cands, order[..k], order[k], p)
    {
      SamePickAt(order, cands, p, k);
    }
  }

  // ----- What the knobs and the candidates' traits do -----

  /** Knobs in range stay; others go to the nearer end. */
  lemma ClampedRange(p: Params)
    ensures var q := Clamped(p);
            && 0.0 <= q.lambda <= 1.0 && q.mu >= 0.0 && q.queued == p.queued && q.sim == p.sim
            && (p.lambda < 0.0 ==> q.lambda == 0.0) && (p.lambda > 1.0 ==> q.lambda == 1.0)
            && (0.0 <= p.lambda <= 1.0 ==> q.lambda == p.lambda)
            && (p.mu < 0.0 ==> q.mu == 0.0) && (p.mu >= 0.0 ==> q.mu == p.mu)
  {
  }

  /** How often a candidate's artist is represented, in the queue and among the admitted; none counts
      as never. */
  ghost function Represented(cands: seq<Candidate>, admitted: seq<nat>, c: Candidate, p: Params): nat
    requires InRange(admitted, |cands|)
  {
    match c.artist
    case None => 0
    case Some(a) => (if a in p.queued then p.queued[a] else 0) + ByArtist(cands, admitted, a)
  }

  /** Relevance, weighed relevance, weighed crowding and penalty of a candidate balanced. */
  function Balance(relevance: real, weighed: real, crowded: real, penalty: real, first: bool): real {
    if first then relevance - penalty else weighed - crowded - penalty
  }

  function Product(a: real, b: real): real { a * b }

  function Penalty(represented: nat, p: Params): real { Product(p.mu, represented as real) }

  lemma ScoreBalances(c: Candidate, crowding: real, tally: nat, first: bool, p: Params)
    requires c.artist.None? ==> tally == 0
    ensures var relevance := c.simToSeed + c.bonus;
            Score(c, crowding, tally, first, p)
            == Balance(relevance, Product(p.lambda, relevance), Product(1.0 - p.lambda, crowding), Penalty(tally, p), first)
  {
    if tally == 0 {
      assert p.mu * tally as real == 0.0;
    }
  }

  /** The code's and the documented score in terms of the candidate itself. */
  lemma Formula(cands: seq<Candidate>, admitted: seq<nat>, i: nat, p: Params)
    requires InRange(admitted, |cands|) && i < |cands|
    ensures var first, relevance := admitted == [], cands[i].simToSeed + cands[i].bonus;
            var penalty := Penalty(Represented(cands, admitted, cands[i], p), p);
            var largest := if first then 0.0 else Largest(cands, admitted, i, p);
            && FullScore(cands, admitted, i, p)
               == Balance(relevance, Product(p.lambda, relevance), Product(1.0 - p.lambda, Crowding(cands, admitted, i, p)), penalty, first)
            && DocumentedScore(cands, admitted, i, p)
               == Balance(relevance, Product(p.lambda, relevance), Product(1.0 - p.lambda, largest), penalty, first)
  {
    var first, tally := admitted == [], Tally(cands, admitted, i, p);
    assert Represented(cands, admitted, cands[i], p) == tally;
    ScoreBalances(cands[i], Crowding(cands, admitted, i, p), tally, first, p);
    ScoreBalances(cands[i], if first then 0.0 else Largest(cands, admitted, i, p), tally, first, p);
  }

  /** `x` is at least as relevant as `y` and no closer to any admitted candidate. */
  ghost predicate NoWorse(cands: seq<Candidate>, admitted: seq<nat>, x: nat, y: nat, p: Params)
    requires InRange(admitted, |cands|) && x < |cands| && y < |cands|
  {
    && cands[x].simToSeed + cands[x].bonus >= cands[y].simToSeed + cands[y].bonus
    && forall k :: 0 <= k < |admitted| ==>
         Closeness(cands[admitted[k]], cands[x], p) <= Closeness(cands[admitted[k]], cands[y], p)
  }

  lemma {:induction false} LessCrowded(cands: seq<Candidate>, admitted: seq<nat>, x: nat, y: nat, p: Params)
    requires InRange(admitted, |cands|) && x < |cands| && y < |cands|
    requires forall k :: 0 <= k < |admitted| ==>
               Closeness(cands[admitted[k]], cands[x], p) <= Closeness(cands[admitted[k]], cands[y], p)
    ensures Crowding(cands, admitted, x, p) <= Crowding(cands, admitted, y, p)
  {
    if admitted != [] {
      var n := |admitted| - 1;
      assert forall k :: 0 <= k < n ==> admitted[..n][k] == admitted[k];
      LessCrowded(cands, admitted[..n], x, y, p);
    }
  }

  lemma Times(a: real, b: real, c: real)
    requires a >= 0.0 && b >= c
    ensures Product(a, b) >= Product(a, c)
    ensures a > 0.0 && b > c ==> Product(a, b) > Product(a, c)
  {
  }

  /** What is no worse and whose artist is no more represented scores no less; it scores more if its
      artist is less represented and that costs, or if it is more relevant and that pays. */
  lemma BetterScores(cands: seq<Candidate>, admitted: seq<nat>, x: nat, y: nat, p: Params)
    requires InRange(admitted, |cands|) && x < |cands| && y < |cands| && NoWorse(cands, admitted, x, y, p)
    requires 0.0 <= p.lambda <= 1.0 && p.mu >= 0.0
    requires Represented(cands, admitted, cands[x], p) <= Represented(cands, admitted, cands[y], p)
    ensures FullScore(cands, admitted, x, p) >= FullScore(cands, admitted, y, p)
    ensures p.mu > 0.0 && Represented(cands, admitted, cands[x], p) < Represented(cands, admitted, cands[y], p) ==>
              FullScore(cands, admitted, x, p) > FullScore(cands, admitted, y, p)
    ensures (admitted == [] || p.lambda > 0.0)
            && cands[x].simToSeed + cands[x].bonus > cands[y].simToSeed + cands[y].bonus ==>
              FullScore(cands, admitted, x, p) > FullScore(cands, admitted, y, p)
  {
    Formula(cands, admitted, x, p);
    Formula(cands, admitted, y, p);
    LessCrowded(cands, admitted, x, y, p);
    Times(p.lambda, cands[x].simToSeed + cands[x].bonus, cands[y].simToSeed + cands[y].bonus);
    Times(1.0 - p.lambda, Crowding(cands, admitted, y, p), Crowding(cands, admitted, x, p));
    Times(p.mu, Represented(cands, admitted, cands[y], p) as real, Represented(cands, admitted, cands[x], p) as real);
  }

  /** While a candidate remains that is no worse and whose artist is less represented, a greedy order
      does not admit `y`. */
  lemma FreshArtistFirst(order: seq<nat>, cands: seq<Candidate>, p: Params, k: nat, x: nat, y: nat)
    requires IsGreedy(order, cands, p) && 0.0 <= p.lambda <= 1.0 && p.mu > 0.0 && k < |order|
    requires x < |cands| && x !in order[..k] && y < |cands| && NoWorse(cands, order[..k], x, y, p)
    requires Represented(cands, order[..k], cands[x], p) < Represented(cands, order[..k], cands[y], p)
    ensures order[k] != y
  {
    BetterScores(cands, order[..k], x, y, p);
    assert IsPick(cands, order[..k], order[k], p);
  }

  /** Nor while one remains that differs in a larger bonus only, as long as relevance counts: at the
      first slot, or with a positive `lambda`; and else while that one came first. */
  lemma BonusFirst(order: seq<nat>, cands: seq<Candidate>, p: Params, k: nat, x: nat, y: nat)
    requires IsGreedy(order, cands, p) && 0.0 <= p.lambda <= 1.0 && p.mu >= 0.0 && k < |order|
    requires x < |cands| && x !in order[..k] && y < |cands|
    requires cands[x] == cands[y].(bonus := cands[x].bonus) && cands[x].bonus > cands[y].bonus
    requires k == 0 || p.lambda > 0.0 || x < y
    ensures order[k] != y
  {
    BetterScores(cands, order[..k], x, y, p);
    assert IsPick(cands, order[..k], order[k], p);
  }

  // ----- A pool on which the floor shows -----

  /** The cosine of unit vectors in the plane. */
  function PlaneCosine(a: Vector, b: Vector): real {
    if |a| == 2 && |b| == 2 then a[0] * b[0] + a[1] * b[1] else 0.0
  }

  const AT_SEED := Candidate(1.0, Some([1.0, 0.0]), None, 0.0)
  const ACROSS := Candidate(0.5, Some([0.0, 1.0]), None, 0.0)
  const OPPOSITE := Candidate(0.4, Some([-1.0, 0.0]), None, 0.0)
  const POOL := [AT_SEED, ACROSS, OPPOSITE]
  const EVEN := Params(0.5, 0.0, map[], PlaneCosine)

  lemma PoolScores()
    ensures FullScore(POOL, [], 0, EVEN) == DocumentedScore(POOL, [], 0, EVEN) == 1.0
    ensures FullScore(POOL, [], 1, EVEN) == DocumentedScore(POOL, [], 1, EVEN) == 0.5
    ensures FullScore(POOL, [], 2, EVEN) == DocumentedScore(POOL, [], 2, EVEN) == 0.4
    ensures FullScore(POOL, [0], 1, EVEN) == DocumentedScore(POOL, [0], 1, EVEN) == 0.25
    ensures FullScore(POOL, [0], 2, EVEN) == 0.2 && DocumentedScore(POOL, [0], 2, EVEN) == 0.7
  {
    assert [0][..0] == [];
    assert Closeness(AT_SEED, ACROSS, EVEN) == 0.0 && Closeness(AT_SEED, OPPOSITE, EVEN) == -1.0;
  }

  /** The formula would admit the opposite of what is there next; the code admits the other one. */
  lemma FloorChangesOrder()
    ensures IsGreedy([0, 1], POOL, EVEN) && IsDocumented([0, 2], POOL, EVEN) && !IsDocumented([0, 1], POOL, EVEN)
  {
    PoolScores();
    assert [0, 1][..0] == [] && [0, 1][..1] == [0] && [0, 2][..0] == [] && [0, 2][..1] == [0];
    assert IsPick(POOL, [], 0, EVEN) && IsDocumentedPick(POOL, [], 0, EVEN);
    assert IsPick(POOL, [0], 1, EVEN) && IsDocumentedPick(POOL, [0], 2, EVEN);
    assert !IsDocumentedPick(POOL, [0], 1, EVEN);
    assert [0, 1][1] == 1 && [0, 2][1] == 2;
  }

  // ----- The result is determined -----

  /** Two greedy orders agree as far as both go: fewer slots give a prefix of more slots. */
  lemma {:induction false} GreedyUnique(a: seq<nat>, b: seq<nat>, cands: seq<Candidate>, p: Params)
    requires IsGreedy(a, cands, p) && IsGreedy(b, cands, p) && |a| <= |b|
    ensures a == b[..|a|]
    decreases |a|
  {
    if a != [] {
      var n := |a| - 1;
      GreedyPrefix(a, cands, p, n);
      GreedyUnique(a[..n], b, cands, p);
      SamePick(cands, a[..n], a[n], b[n], p);
      assert a == a[..n] + [a[n]] && b[..n + 1] == b[..n] + [b[n]];
    }
  }

  lemma SamePick(cands: seq<Candidate>, admitted: seq<nat>, i: nat, j: nat, p: Params)
    requires InRange(admitted, |cands|) && IsPick(cands, admitted, i, p) && IsPick(cands, admitted, j, p)
    ensures i == j
  {
  }

  lemma GreedyPrefix(order: seq<nat>, cands: seq<Candidate>, p: Params, n: nat)
    requires IsGreedy(order, cands, p) && n <= |order|
    ensures IsGreedy(order[..n], cands, p)
  {
    forall k | 0 <= k < n
      ensures IsPick(cands, order[..n][..k], order[..n][k], p)
    {
      assert order[..n][..k] == order[..k];
    }
  }

  lemma GreedyDistinct(order: seq<nat>, cands: seq<Candidate>, p: Params)
    requires IsGreedy(order, cands, p)
    ensures Distinct(order)
  {
    forall i, j | 0 <= i < j < |order|
      ensures order[i] != order[j]
    {
      assert IsPick(cands, order[..j], order[j], p);
      assert order[..j][i] == order[i];
    }
  }

  /** With `lambda` one and no artist penalty, candidates that come by falling relevance are
      admitted in the order they came. */
  lemma {:induction false} PureRelevance(order: seq<nat>, cands: seq<Candidate>, p: Params)
    requires IsGreedy(order, cands, p) && p.lambda == 1.0 && p.mu == 0.0
    requires forall i, j :: 0 <= i < j < |cands| ==> Relevance(cands[i]) >= Relevance(cands[j])
    ensures |order| <= |cands| && forall k :: 0 <= k < |order| ==> order[k] == k
    decreases |order|
  {
    if order != [] {
      var n := |order| - 1;
      var before := order[..n];
      GreedyPrefix(order, cands, p, n);
      PureRelevance(before, cands, p);
      assert IsPick(cands, before, order[n], p);
      forall k: nat | k < n
        ensures k in before && order[k] == k
      {
        assert before[k] == k;
      }
      assert n <= order[n];
      PlainScore(cands, before, n, p);
      PlainScore(cands, before, order[n], p);
      assert n !in before;
    }
  }

  lemma PlainScore(cands: seq<Candidate>, admitted: seq<nat>, i: nat, p: Params)
    requires InRange(admitted, |cands|) && i < |cands| && p.lambda == 1.0 && p.mu == 0.0
    ensures FullScore(cands, admitted, i, p) == Relevance(cands[i])
  {
  }

  // ----- The loop -----

  /** The candidates not admitted yet, in input order. */
  ghost predicate Remain(remaining: seq<nat>, selected: seq<nat>, n: nat) {
    && (forall i, j :: 0 <= i < j < |remaining| ==> remaining[i] < remaining[j])
    && (forall x: nat :: x in remaining <==> x < n && x !in selected)
  }

  /** For every remaining candidate the caches give the score by definition. */
  ghost predicate Cached(
      maxSim: seq<real>, counts: Counts, cands: seq<Candidate>, remaining: seq<nat>, selected: seq<nat>, p: Params)
    requires InRange(selected, |cands|)
  {
    && |maxSim| == |cands|
    && (forall x: nat :: x in remaining && x < |cands| ==> maxSim[x] == Crowding(cands, selected, x, p))
    && (forall a :: Count(counts, a) == Count(p.queued, a) + ByArtist(cands, selected, a))
  }

  function LiveScore(c: Candidate, crowding: real, counts: Counts, first: bool, p: Params): real {
    Score(c, crowding, match c.artist case None => 0 case Some(a) => Count(counts, a), first, p)
  }

  /** Position `best` is the first of the highest live score. */
  ghost predicate IsArgMax(
      best: nat, cands: seq<Candidate>, remaining: seq<nat>, maxSim: seq<real>, counts: Counts, first: bool, p: Params)
    requires |maxSim| == |cands| && InRange(remaining, |cands|)
  {
    best < |remaining| &&
    forall j :: 0 <= j < |remaining| ==>
      var x, y := remaining[best], remaining[j];
      var mine, other := LiveScore(cands[x], maxSim[x], counts, first, p), LiveScore(cands[y], maxSim[y], counts, first, p);
      other <= mine && (j < best ==> other < mine)
  }

  method ArgMax(cands: seq<Candidate>, remaining: seq<nat>, maxSim: array<real>, counts: Counts, first: bool, p: Params)
      returns (best: nat)
    requires remaining != [] && maxSim.Length == |cands| && InRange(remaining, |cands|)
    ensures IsArgMax(best, cands, remaining, maxSim[..], counts, first, p)
  {
    best := 0;
    var bestScore := LiveScore(cands[remaining[0]], maxSim[remaining[0]], counts, first, p);
    for i := 1 to |remaining|
      invariant best < i && bestScore == LiveScore(cands[remaining[best]], maxSim[remaining[best]], counts, first, p)
      invariant forall j :: 0 <= j < i ==>
        var s := LiveScore(cands[remaining[j]], maxSim[remaining[j]], counts, first, p);
        s <= bestScore && (j < best ==> s < bestScore)
    {
      var s := LiveScore(cands[remaining[i]], maxSim[remaining[i]], counts, first, p);
      if s > bestScore {
        bestScore := s;
        best := i;
      }
    }
  }

  /** The cached maximum still to be beaten, for everyone still in play. */
  method RaiseMaxSim(cands: seq<Candidate>, picked: nat, remaining: seq<nat>, maxSim: array<real>, p: Params)
    requires picked < |cands| && maxSim.Length == |cands| && InRange(remaining, |cands|) && Distinct(remaining)
    requires forall j :: 0 <= j < |remaining| ==> maxSim[remaining[j]] >= 0.0
    modifies maxSim
    ensures forall j :: 0 <= j < |remaining| ==>
              maxSim[remaining[j]] == MaxReal(old(maxSim[remaining[j]]), Closeness(cands[picked], cands[remaining[j]], p))
  {
    if cands[picked].vector.None? {
      return;
    }
    for i := 0 to |remaining|
      invariant forall j :: i <= j < |remaining| ==> maxSim[remaining[j]] == old(maxSim[remaining[j]])
      invariant forall j :: 0 <= j < i ==>
        maxSim[remaining[j]] == MaxReal(old(maxSim[remaining[j]]), Closeness(cands[picked], cands[remaining[j]], p))
    {
      var r := remaining[i];
      if cands[r].vector.Some? {
        var s := p.sim(cands[picked].vector.value, cands[r].vector.value);
        if s > maxSim[r] {
          maxSim[r] := s;
        }
      }
    }
  }

  /** Greedy selection: the running caches pick what the definition picks. */
  method MmrRerank(cands: seq<Candidate>, raw: Params, topN: nat) returns (selected: seq<nat>)
    ensures |selected| == Min(topN, |cands|)
    ensures IsGreedy(selected, cands, Clamped(raw))
  {
    selected := [];
    if topN == 0 || |cands| == 0 {
      return;
    }
    var p, n := Clamped(raw), |cands|;
    var want := Min(topN, n);
    var remaining: seq<nat> := seq(n, i => i);
    var maxSim := new real[n](_ => 0.0);
    var counts: Counts := p.queued;
    forall x: nat | x < n
      ensures x in remaining
    {
      assert remaining[x] == x;
    }
    while |selected| < want && |remaining| > 0
      invariant IsGreedy(selected, cands, p) && |selected| <= want && |selected| + |remaining| == n
      invariant Remain(remaining, selected, n)
      invariant Cached(maxSim[..], counts, cands, remaining, selected, p)
      decreases want - |selected|
    {
      RemainFacts(remaining, selected, n);
      var pos := ArgMax(cands, remaining, maxSim, counts, |selected| == 0, p);
      PickIsBest(maxSim[..], counts, cands, remaining, selected, pos, p);
      var picked := remaining[pos];
      ghost var was, sims := remaining, maxSim[..];
      RemainStep(remaining, selected, pos, n);
      remaining := RemoveAt(remaining, pos);
      RemainFacts(remaining, selected + [picked], n);
      CacheFloor(sims, counts, cands, was, remaining, selected, p);
      RaiseMaxSim(cands, picked, remaining, maxSim, p);
      ghost var before := counts;
      if cands[picked].artist.Some? {
        var a := cands[picked].artist.value;
        counts := counts[a := Count(counts, a) + 1];
      }
      CachedStep(sims, before, maxSim[..], counts, cands, was, remaining, selected, picked, p);
      GreedySnoc(selected, cands, p, picked);
      selected := selected + [picked];
    }
  }

  lemma RemainFacts(remaining: seq<nat>, selected: seq<nat>, n: nat)
    requires Remain(remaining, selected, n)
    ensures InRange(remaining, n) && Distinct(remaining)
  {
    assert forall k :: 0 <= k < |remaining| ==> remaining[k] in remaining;
  }

  lemma RemainStep(remaining: seq<nat>, selected: seq<nat>, pos: nat, n: nat)
    requires Remain(remaining, selected, n) && pos < |remaining|
    ensures Remain(RemoveAt(remaining, pos), selected + [remaining[pos]], n)
    ensures forall x :: x in RemoveAt(remaining, pos) ==> x in remaining
  {
    RemainFacts(remaining, selected, n);
    forall x: nat
      ensures x in RemoveAt(remaining, pos) <==> x in remaining && x != remaining[pos]
    {
      InRest(remaining, pos, x);
    }
  }

  lemma InRest(s: seq<nat>, pos: nat, x: nat)
    requires Distinct(s) && pos < |s|
    ensures x in RemoveAt(s, pos) <==> x in s && x != s[pos]
  {
    assert s == s[..pos] + [s[pos]] + s[pos + 1..];
  }

  lemma GreedySnoc(order: seq<nat>, cands: seq<Candidate>, p: Params, i: nat)
    requires IsGreedy(order, cands, p) && IsPick(cands, order, i, p)
    ensures IsGreedy(order + [i], cands, p)
  {
    var more := order + [i];
    assert more[..|order|] == order;
    forall k | 0 <= k < |more|
      ensures IsPick(cands, more[..k], more[k], p)
    {
      assert k < |order| ==> more[..k] == order[..k];
    }
  }

  lemma PickIsBest(
      maxSim: seq<real>, counts: Counts, cands: seq<Candidate>, remaining: seq<nat>, selected: seq<nat>, pos: nat, p: Params)
    requires InRange(selected, |cands|) && InRange(remaining, |cands|) && Remain(remaining, selected, |cands|)
    requires Cached(maxSim, counts, cands, remaining, selected, p)
    requires IsArgMax(pos, cands, remaining, maxSim, counts, selected == [], p)
    ensures IsPick(cands, selected, remaining[pos], p)
  {
    var i := remaining[pos];
    CachedScore(maxSim, counts, cands, remaining, selected, pos, p);
    forall j: nat | j < |cands| && j !in selected
      ensures var mine, other := FullScore(cands, selected, i, p), FullScore(cands, selected, j, p);
              other <= mine && (j < i ==> other < mine)
    {
      assert j in remaining;
      var q :| 0 <= q < |remaining| && remaining[q] == j;
      CachedScore(maxSim, counts, cands, remaining, selected, q, p);
      assert j < i ==> q < pos;
    }
    assert i in remaining;
  }

  lemma CachedScore(
      maxSim: seq<real>, counts: Counts, cands: seq<Candidate>, remaining: seq<nat>, selected: seq<nat>, q: nat, p: Params)
    requires InRange(selected, |cands|) && InRange(remaining, |cands|) && q < |remaining|
    requires Cached(maxSim, counts, cands, remaining, selected, p)
    ensures var x := remaining[q];
            LiveScore(cands[x], maxSim[x], counts, selected == [], p) == FullScore(cands, selected, x, p)
  {
    assert remaining[q] in remaining;
  }

  lemma CacheFloor(
      maxSim: seq<real>, counts: Counts, cands: seq<Candidate>, was: seq<nat>, remaining: seq<nat>, selected: seq<nat>, p: Params)
    requires InRange(selected, |cands|) && InRange(remaining, |cands|) && Cached(maxSim, counts, cands, was, selected, p)
    requires forall x :: x in remaining ==> x in was
    ensures forall j :: 0 <= j < |remaining| ==> maxSim[remaining[j]] >= 0.0
  {
    forall j | 0 <= j < |remaining|
      ensures maxSim[remaining[j]] >= 0.0
    {
      assert remaining[j] in remaining;
      CrowdingIsMax(cands, selected, remaining[j], p);
    }
  }

  /** Admitting one more keeps the caches exact. */
  lemma CachedStep(
      sims: seq<real>, before: Counts, maxSim: seq<real>, counts: Counts, cands: seq<Candidate>,
      was: seq<nat>, remaining: seq<nat>, selected: seq<nat>, picked: nat, p: Params)
    requires InRange(selected, |cands|) && InRange(remaining, |cands|) && picked < |cands| == |maxSim|
    requires Cached(sims, before, cands, was, selected, p) && forall x :: x in remaining ==> x in was
    requires forall j :: 0 <= j < |remaining| ==>
               maxSim[remaining[j]] == MaxReal(sims[remaining[j]], Closeness(cands[picked], cands[remaining[j]], p))
    requires forall a :: Count(counts, a) == Count(before, a) + if cands[picked].artist == Some(a) then 1 else 0
    ensures Cached(maxSim, counts, cands, remaining, selected + [picked], p)
  {
    var more := selected + [picked];
    assert more[..|selected|] == selected;
    forall x: nat | x in remaining && x < |cands|
      ensures maxSim[x] == Crowding(cands, more, x, p)
    {
      var j :| 0 <= j < |remaining| && remaining[j] == x;
    }
  }
}
