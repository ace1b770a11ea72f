/** The multi-seed recommendation request: exclusions, re-ranking stages and the filtered walk. */
module Recommendation {
  import opened Prelude
  import opened Ann
  import opened Sorting
  import opened Aggregation
  import Mmr

  const MAX_N := 100
  const MAX_SEEDS := 200
  const MAX_EXCLUDE := 1000
  const MAX_QUEUE := 400
  const DEFAULT_TOP_N := 20
  const FILTER_BUFFER_FACTOR := 4
  const MMR_POOL_BUFFER_FACTOR := 2

  // ----- The walk -----

  datatype FilterDecision = Accept | RejectArtistCap | RejectDedup

  /** The queue filter: what is already queued, and any stateful acceptance rule. */
  datatype QueueFilter<!F> = QueueFilter(excluded: set<TrackId>, state: F, tryAccept: (F, TrackId) -> (FilterDecision, F))

  datatype FilterStats = FilterStats(droppedArtist: nat, droppedDedup: nat, admittedSims: seq<real>, droppedSims: seq<real>)
  {
    function TotalDropped(): nat { droppedArtist + droppedDedup }

    function Recorded(d: FilterDecision, sim: real): FilterStats {
      match d
      case Accept => this.(admittedSims := admittedSims + [sim])
      case RejectArtistCap => this.(droppedArtist := droppedArtist + 1, droppedSims := droppedSims + [sim])
      case RejectDedup => this.(droppedDedup := droppedDedup + 1, droppedSims := droppedSims + [sim])
    }
  }

  const NO_STATS := FilterStats(0, 0, [], [])

  datatype Walk<!F> = Walk(out: seq<Aggregated>, stats: FilterStats, state: F)

  /** The walk over all of `cands`, with no stop. */
  function Visited<F>(cands: seq<Aggregated>, f: QueueFilter<F>): Walk<F> {
    if cands == [] then Walk([], NO_STATS, f.state)
    else
      var w, c := Visited(cands[..|cands| - 1], f), cands[|cands| - 1];
      if c.trackId in f.excluded then w
      else
        var (d, state) := f.tryAccept(w.state, c.trackId);
        Walk(if d == Accept then w.out + [c] else w.out, w.stats.Recorded(d, c.score), state)
  }

  /** The walk stops after `n` candidates: as soon as the slate is full, or at the end. */
  ghost predicate StopsAt<F>(cands: seq<Aggregated>, f: QueueFilter<F>, topN: nat, n: nat) {
    && n <= |cands|
    && (n == |cands| || |Visited(cands[..n], f).out| == topN)
    && |Visited(cands[..n], f).out| <= topN
    && forall m :: 0 <= m < n ==> |Visited(cands[..m], f).out| < topN
  }

  /** A slate and its statistics are those of the walk up to its stop. */
  ghost predicate IsWalk<F>(out: seq<Aggregated>, stats: FilterStats, cands: seq<Aggregated>, f: QueueFilter<F>, topN: nat) {
    exists n: nat :: StopsAt(cands, f, topN, n) && Visited(cands[..n], f).out == out && Visited(cands[..n], f).stats == stats
  }

  method WalkHardCap<F>(cands: seq<Aggregated>, f: QueueFilter<F>, topN: nat) returns (out: seq<Aggregated>, stats: FilterStats)
    ensures IsWalk(out, stats, cands, f, topN)
  {
    out, stats := [], NO_STATS;
    var state := f.state;
    for i := 0 to |cands|
      invariant Visited(cands[..i], f) == Walk(out, stats, state)
      invariant |out| <= topN
      invariant forall m :: 0 <= m < i ==> |Visited(cands[..m], f).out| < topN
    {
      if |out| >= topN {
        assert StopsAt(cands, f, topN, i);
        return;
      }
      var c := cands[i];
      assert cands[..i + 1][..i] == cands[..i];
      if c.trackId in f.excluded {
        continue;
      }
      var (d, next) := f.tryAccept(state, c.trackId);
      state := next;
      stats := stats.Recorded(d, c.score);
      if d == Accept {
        out := out + [c];
      }
    }
    assert StopsAt(cands, f, topN, |cands|);
  }

  /** No diversity gate: the first `topN` candidates that are not queued. */
  method WalkOff(cands: seq<Aggregated>, excluded: set<TrackId>, topN: nat) returns (out: seq<Aggregated>, stats: FilterStats)
    ensures out == Take(Eligible(cands, excluded), topN)
    ensures stats == FilterStats(0, 0, Sims(out), [])
  {
    out, stats := [], NO_STATS;
    for i := 0 to |cands|
      invariant out == Eligible(cands[..i], excluded) && |out| <= topN
      invariant stats == FilterStats(0, 0, Sims(out), [])
    {
      if |out| >= topN {
        EligiblePrefix(cands, i, excluded);
        return;
      }
      assert cands[..i + 1][..i] == cands[..i];
      var c := cands[i];
      if c.trackId in excluded {
        continue;
      }
      assert (out + [c])[..|out|] == out;
      stats := stats.Recorded(Accept, c.score);
      out := out + [c];
    }
    assert cands[..|cands|] == cands;
  }

  /** The candidates that are not queued. */
  function Eligible(cands: seq<Aggregated>, excluded: set<TrackId>): seq<Aggregated> {
    if cands == [] then []
    else
      var c := cands[|cands| - 1];
      Eligible(cands[..|cands| - 1], excluded) + if c.trackId in excluded then [] else [c]
  }

  function Sims(s: seq<Aggregated>): seq<real> {
    if s == [] then [] else Sims(s[..|s| - 1]) + [s[|s| - 1].score]
  }

  lemma {:induction false} EligiblePrefix(cands: seq<Aggregated>, n: nat, excluded: set<TrackId>)
    requires n <= |cands|
    ensures Eligible(cands[..n], excluded) <= Eligible(cands, excluded)
    decreases |cands|
  {
    if n < |cands| {
      assert cands[..|cands| - 1][..n] == cands[..n];
      EligiblePrefix(cands[..|cands| - 1], n, excluded);
    } else {
      assert cands[..n] == cands;
    }
  }

  /** The books balance, and admission only leaves candidates out, never reorders them. */
  lemma {:induction false} WalkAccounting<F>(cands: seq<Aggregated>, f: QueueFilter<F>)
    ensures var w := Visited(cands, f);
            && |w.out| + w.stats.TotalDropped() == |Eligible(cands, f.excluded)|
            && w.stats.admittedSims == Sims(w.out)
            && |w.stats.droppedSims| == w.stats.TotalDropped()
            && Subsequence(w.out, Eligible(cands, f.excluded))
  {
    if cands != [] {
      var init, c := cands[..|cands| - 1], cands[|cands| - 1];
      WalkAccounting(init, f);
      var w, e := Visited(init, f), Eligible(init, f.excluded);
      if c.trackId in f.excluded {
        assert Eligible(cands, f.excluded) == e;
      } else {
        assert Eligible(cands, f.excluded) == e + [c];
        SnocFacts(w.out, e, c);
      }
    }
  }

  lemma SnocFacts(out: seq<Aggregated>, pool: seq<Aggregated>, c: Aggregated)
    requires Subsequence(out, pool)
    ensures Subsequence(out, pool + [c]) && Subsequence(out + [c], pool + [c])
    ensures Sims(out + [c]) == Sims(out) + [c.score]
  {
    SubsequenceSkips(out, pool, [c]);
    SubsequenceExtends(out, pool, [c]);
    assert (out + [c])[..|out|] == out;
  }

  /** What the acceptance rule answers along a list of eligible candidates, and its state after them. */
  function Asked<F>(pool: seq<Aggregated>, f: QueueFilter<F>): (seq<FilterDecision>, F) {
    if pool == [] then ([], f.state)
    else
      var n := |pool| - 1;
      var (ds, state) := Asked(pool[..n], f);
      var (d, next) := f.tryAccept(state, pool[n].trackId);
      (ds + [d], next)
  }

  function Times(ds: seq<FilterDecision>, d: FilterDecision): nat {
    if ds == [] then 0 else Times(ds[..|ds| - 1], d) + if ds[|ds| - 1] == d then 1 else 0
  }

  /** The candidates that were answered with `Accept`. */
  function AcceptedOf(pool: seq<Aggregated>, ds: seq<FilterDecision>): seq<Aggregated>
    requires |pool| == |ds|
  {
    if pool == [] then []
    else
      var n := |pool| - 1;
      AcceptedOf(pool[..n], ds[..n]) + if ds[n].Accept? then [pool[n]] else []
  }

  /** The candidates that were turned away. */
  function RejectedOf(pool: seq<Aggregated>, ds: seq<FilterDecision>): seq<Aggregated>
    requires |pool| == |ds|
  {
    if pool == [] then []
    else
      var n := |pool| - 1;
      RejectedOf(pool[..n], ds[..n]) + if ds[n].Accept? then [] else [pool[n]]
  }

  lemma {:induction false} AskedLength<F>(pool: seq<Aggregated>, f: QueueFilter<F>)
    ensures |Asked(pool, f).0| == |pool|
  {
    if pool != [] {
      AskedLength(pool[..|pool| - 1], f);
    }
  }

  lemma AskedSnoc<F>(pool: seq<Aggregated>, c: Aggregated, f: QueueFilter<F>)
    ensures var (ds, state) := Asked(pool, f);
            var (d, next) := f.tryAccept(state, c.trackId);
            |ds| == |pool| && Asked(pool + [c], f) == (ds + [d], next)
  {
    AskedLength(pool, f);
    assert (pool + [c])[..|pool|] == pool;
  }

  lemma SimsSnoc(s: seq<Aggregated>, c: Aggregated)
    ensures Sims(s + [c]) == Sims(s) + [c.score]
  {
    assert (s + [c])[..|s|] == s;
  }

  /** Slate and statistics that these answers to these eligible candidates make: the accepted ones are
      admitted, each kind of rejection counts under its own name, and the scores of both kinds are
      noted. */
  ghost predicate Notes(out: seq<Aggregated>, stats: FilterStats, pool: seq<Aggregated>, ds: seq<FilterDecision>)
    requires |pool| == |ds|
  {
    && out == AcceptedOf(pool, ds)
    && stats.droppedArtist == Times(ds, RejectArtistCap) && stats.droppedDedup == Times(ds, RejectDedup)
    && stats.admittedSims == Sims(AcceptedOf(pool, ds)) && stats.droppedSims == Sims(RejectedOf(pool, ds))
  }

  lemma AnswerSnoc(pool: seq<Aggregated>, ds: seq<FilterDecision>, c: Aggregated, d: FilterDecision)
    requires |pool| == |ds|
    ensures var accepted, rejected := AcceptedOf(pool, ds), RejectedOf(pool, ds);
            && AcceptedOf(pool + [c], ds + [d]) == (if d.Accept? then accepted + [c] else accepted)
            && RejectedOf(pool + [c], ds + [d]) == (if d.Accept? then rejected else rejected + [c])
    ensures Times(ds + [d], RejectArtistCap) == Times(ds, RejectArtistCap) + if d.RejectArtistCap? then 1 else 0
    ensures Times(ds + [d], RejectDedup) == Times(ds, RejectDedup) + if d.RejectDedup? then 1 else 0
  {
    assert (pool + [c])[..|pool|] == pool && (ds + [d])[..|ds|] == ds;
  }

  lemma NotesSnoc(out: seq<Aggregated>, stats: FilterStats, pool: seq<Aggregated>, ds: seq<FilterDecision>, c: Aggregated, d: FilterDecision)
    requires |pool| == |ds| && Notes(out, stats, pool, ds)
    ensures Notes(if d == Accept then out + [c] else out, stats.Recorded(d, c.score), pool + [c], ds + [d])
  {
    AnswerSnoc(pool, ds, c, d);
    if d.Accept? {
      SimsSnoc(AcceptedOf(pool, ds), c);
    } else {
      SimsSnoc(RejectedOf(pool, ds), c);
    }
  }

  /** A walk over these eligible candidates asked the rule about them in order, and noted its answers. */
  ghost predicate Tallied<F>(w: Walk<F>, pool: seq<Aggregated>, f: QueueFilter<F>) {
    var (ds, state) := Asked(pool, f);
    w.state == state && |ds| == |pool| && Notes(w.out, w.stats, pool, ds)
  }

  lemma TallySnoc<F>(w: Walk<F>, pool: seq<Aggregated>, c: Aggregated, f: QueueFilter<F>)
    requires Tallied(w, pool, f)
    ensures var (d, next) := f.tryAccept(w.state, c.trackId);
            Tallied(Walk(if d == Accept then w.out + [c] else w.out, w.stats.Recorded(d, c.score), next), pool + [c], f)
  {
    AskedSnoc(pool, c, f);
    NotesSnoc(w.out, w.stats, pool, Asked(pool, f).0, c, f.tryAccept(w.state, c.trackId).0);
  }

  lemma {:induction false} WalkTallies<F>(cands: seq<Aggregated>, f: QueueFilter<F>)
    ensures Tallied(Visited(cands, f), Eligible(cands, f.excluded), f)
  {
    if cands != [] {
      var init, c := cands[..|cands| - 1], cands[|cands| - 1];
      WalkTallies(init, f);
      var pool := Eligible(init, f.excluded);
      if c.trackId in f.excluded {
        assert Eligible(cands, f.excluded) == pool;
      } else {
        TallySnoc(Visited(init, f), pool, c, f);
        assert Eligible(cands, f.excluded) == pool + [c];
      }
    }
  }

  /** So the blame is on the rejection that struck more often among the candidates walked, artist
      caps on a tie. */
  lemma BlameIsRight<F>(out: seq<Aggregated>, stats: FilterStats, cands: seq<Aggregated>, f: QueueFilter<F>, topN: nat)
      returns (n: nat)
    requires IsWalk(out, stats, cands, f, topN)
    ensures StopsAt(cands, f, topN, n)
    ensures var ds, verdict := Asked(Eligible(cands[..n], f.excluded), f).0, ClassifyShortfall(|out|, topN, stats);
            && (verdict == FilterStarvedArtist <==>
                  |out| < topN && Times(ds, RejectArtistCap) >= Times(ds, RejectDedup) && Times(ds, RejectArtistCap) > 0)
            && (verdict == FilterStarvedDedup <==> |out| < topN && Times(ds, RejectDedup) > Times(ds, RejectArtistCap))
  {
    n :| StopsAt(cands, f, topN, n) && Visited(cands[..n], f).out == out && Visited(cands[..n], f).stats == stats;
    WalkTallies(cands[..n], f);
    VerdictTruthful(out, stats, cands, f, topN);
  }

  datatype ShortfallReason = NoShortfall | PoolExhausted | FilterStarvedArtist | FilterStarvedDedup

  function ClassifyShortfall(results: nat, requestedN: nat, stats: FilterStats): ShortfallReason {
    if results >= requestedN then NoShortfall
    else if stats.TotalDropped() == 0 then PoolExhausted
    else if stats.droppedArtist >= stats.droppedDedup then FilterStarvedArtist
    else FilterStarvedDedup
  }

  /** The verdict tells the truth about the slate: the pool ran dry exactly when the slate is
      short and is every candidate that was not queued; it was starved exactly when it is short
      and some such candidate was turned away. */
  lemma VerdictTruthful<F>(out: seq<Aggregated>, stats: FilterStats, cands: seq<Aggregated>, f: QueueFilter<F>, topN: nat)
    requires IsWalk(out, stats, cands, f, topN)
    ensures var verdict, pool := ClassifyShortfall(|out|, topN, stats), Eligible(cands, f.excluded);
            && (verdict == NoShortfall <==> |out| == topN)
            && (verdict == PoolExhausted <==> |out| < topN && out == pool)
            && (verdict == FilterStarvedArtist <==> |out| < topN && stats.droppedArtist >= stats.droppedDedup && stats.droppedArtist > 0)
            && (verdict == FilterStarvedDedup <==> |out| < topN && stats.droppedDedup > stats.droppedArtist)
            && (verdict.FilterStarvedArtist? || verdict.FilterStarvedDedup? <==> |out| < topN && |out| < |pool|)
    ensures Subsequence(out, Eligible(cands, f.excluded))
  {
    var seen := WalkFacts(out, stats, cands, f, topN);
    SubsequenceLength(out, seen);
    SubsequencePrefix(out, seen, Eligible(cands, f.excluded));
  }

  /** What a walk that saw the first `n` candidates establishes about the eligible ones among them. */
  lemma WalkSaw<F>(cands: seq<Aggregated>, f: QueueFilter<F>, topN: nat, n: nat)
    requires StopsAt(cands, f, topN, n)
    ensures var seen, w := Eligible(cands[..n], f.excluded), Visited(cands[..n], f);
            && |w.out| <= topN && seen <= Eligible(cands, f.excluded)
            && (|w.out| < topN ==> seen == Eligible(cands, f.excluded))
            && Subsequence(w.out, seen) && |w.out| + w.stats.TotalDropped() == |seen|
  {
    WalkAccounting(cands[..n], f);
    EligiblePrefix(cands, n, f.excluded);
    if n == |cands| {
      assert cands[..n] == cands;
    }
  }

  lemma WalkFacts<F>(out: seq<Aggregated>, stats: FilterStats, cands: seq<Aggregated>, f: QueueFilter<F>, topN: nat)
      returns (seen: seq<Aggregated>)
    requires IsWalk(out, stats, cands, f, topN)
    ensures |out| <= topN && seen <= Eligible(cands, f.excluded)
    ensures |out| < topN ==> seen == Eligible(cands, f.excluded)
    ensures Subsequence(out, seen) && |out| + stats.TotalDropped() == |seen|
  {
    var n: nat :| StopsAt(cands, f, topN, n) && Visited(cands[..n], f).out == out && Visited(cands[..n], f).stats == stats;
    WalkSaw(cands, f, topN, n);
    seen := Eligible(cands[..n], f.excluded);
  }

  // ----- Stages that only reorder -----

  ghost function Names(s: seq<Aggregated>): seq<TrackId> {
    seq(|s|, i requires 0 <= i < |s| => s[i].trackId)
  }

  /** The track ids of a list, with multiplicity. */
  ghost function Ids(s: seq<Aggregated>): multiset<TrackId> { multiset(Names(s)) }

  lemma IdsRemove(s: seq<Aggregated>, i: nat)
    requires i < |s|
    ensures Ids(s) == Ids(RemoveAt(s, i)) + multiset{s[i].trackId}
  {
    assert Names(RemoveAt(s, i)) == RemoveAt(Names(s), i);
    RemoveAtMultiset(Names(s), i);
  }

  lemma IdsSnoc(s: seq<Aggregated>)
    requires s != []
    ensures Ids(s) == Ids(s[..|s| - 1]) + multiset{s[|s| - 1].trackId}
  {
    assert RemoveAt(s, |s| - 1) == s[..|s| - 1];
    IdsRemove(s, |s| - 1);
  }

  lemma {:induction false} IdsPermuted(a: seq<Aggregated>, b: seq<Aggregated>)
    requires multiset(a) == multiset(b)
    ensures Ids(a) == Ids(b)
    decreases |a|
  {
    if a == [] {
      assert |multiset(b)| == 0;
    } else {
      var i := PeelPermuted(a, b);
      IdsRemove(b, i);
      IdsSnoc(a);
      IdsPermuted(a[..|a| - 1], RemoveAt(b, i));
    }
  }

  lemma IdsPointwise(a: seq<Aggregated>, b: seq<Aggregated>)
    requires |a| == |b| && forall i :: 0 <= i < |a| ==> a[i].trackId == b[i].trackId
    ensures Ids(a) == Ids(b)
  {
    assert Names(a) == Names(b);
  }

  lemma {:induction false} IdsSubsequence(a: seq<Aggregated>, b: seq<Aggregated>)
    requires Subsequence(a, b)
    ensures Ids(a) <= Ids(b)
    decreases |b|
  {
    if a != [] {
      IdsSnoc(b);
      if Subsequence(a, b[..|b| - 1]) {
        IdsSubsequence(a, b[..|b| - 1]);
      } else {
        IdsSnoc(a);
        IdsSubsequence(a[..|a| - 1], b[..|b| - 1]);
      }
    }
  }

  lemma {:induction false} EligibleSubsequence(cands: seq<Aggregated>, excluded: set<TrackId>)
    ensures Subsequence(Eligible(cands, excluded), cands)
  {
    if cands != [] {
      var init, c := cands[..|cands| - 1], cands[|cands| - 1];
      EligibleSubsequence(init, excluded);
      var e := Eligible(init, excluded);
      if c.trackId in excluded {
        assert e + [] == e;
      } else {
        assert (e + [c])[..|e|] == e;
      }
    }
  }

  lemma IdsMember(s: seq<Aggregated>, i: nat)
    requires i < |s|
    ensures s[i].trackId in Ids(s)
  {
    assert Names(s)[i] == s[i].trackId;
  }

  lemma MemberOfIds(s: seq<Aggregated>, x: TrackId)
    requires x in Ids(s)
    ensures exists i :: 0 <= i < |s| && s[i].trackId == x
  {
    assert x in Names(s);
  }

  lemma {:induction false} DistinctOnce(s: seq<Aggregated>, x: TrackId)
    requires forall i, j :: 0 <= i < j < |s| ==> s[i].trackId != s[j].trackId
    ensures Ids(s)[x] <= 1
  {
    if s != [] {
      var n := |s| - 1;
      IdsSnoc(s);
      DistinctOnce(s[..n], x);
      if x in Ids(s[..n]) {
        MemberOfIds(s[..n], x);
      }
    }
  }

  lemma OnceDistinct(s: seq<Aggregated>, i: nat, j: nat)
    requires i < j < |s| && s[i].trackId == s[j].trackId
    ensures Ids(s)[s[i].trackId] >= 2
  {
    IdsRemove(s, j);
    IdsMember(RemoveAt(s, j), i);
  }

  function Lowered(s: seq<Aggregated>, p: seq<real>): seq<Aggregated> {
    seq(|s|, i requires 0 <= i < |s| => if i < |p| then s[i].(score := s[i].score - p[i]) else s[i])
  }

  function Rescored(s: seq<Aggregated>, p: seq<real>): seq<Aggregated> {
    seq(|s|, i requires 0 <= i < |s| => if i < |p| then s[i].(score := p[i]) else s[i])
  }

  /** The anchor leash: scores lowered by whatever penalties it found, then re-ranked. */
  function Leashed(s: seq<Aggregated>, penalties: Option<seq<real>>): seq<Aggregated> {
    if penalties.None? || s == [] then s else SortBy(Lowered(s, penalties.value), Before)
  }

  /** Exploration: scores replaced by whatever the noise made of them, then re-ranked. */
  function Explored(s: seq<Aggregated>, scores: Option<seq<real>>): seq<Aggregated> {
    if scores.None? || |s| < 2 then s else SortBy(Rescored(s, scores.value), Before)
  }

  function Blended(a: Aggregated, bonuses: map<TrackId, real>): real {
    a.score + if a.trackId in bonuses then bonuses[a.trackId] else 0.0
  }

  function Preferred(bonuses: map<TrackId, real>): (Aggregated, Aggregated) -> bool {
    (a, b) => Blended(a, bonuses) > Blended(b, bonuses)
  }

  /** Preference: a stable re-rank by score plus bonus; without any bonus the order stands. */
  function Presorted(s: seq<Aggregated>, bonuses: map<TrackId, real>): seq<Aggregated> {
    if bonuses == map[] then s else SortBy(s, Preferred(bonuses))
  }

  lemma SortKeepsIds(s: seq<Aggregated>, before: (Aggregated, Aggregated) -> bool)
    ensures Ids(SortBy(s, before)) == Ids(s)
  {
    SortPermutes(s, before);
    IdsPermuted(SortBy(s, before), s);
  }

  /** Whatever the leash, the noise and the bonuses are, the stages carry the same tracks. */
  lemma StagesKeepIds(s: seq<Aggregated>, penalties: Option<seq<real>>, scores: Option<seq<real>>, bonuses: map<TrackId, real>)
    ensures var explored := Explored(Leashed(s, penalties), scores);
            Ids(explored) == Ids(s) && |explored| == |s| && Ids(Presorted(explored, bonuses)) == Ids(s)
  {
    var leashed := Leashed(s, penalties);
    var explored := Explored(leashed, scores);
    LeashKeepsIds(s, penalties);
    ExplorationKeepsIds(leashed, scores);
    if bonuses != map[] {
      SortKeepsIds(explored, Preferred(bonuses));
    }
    assert |Ids(s)| == |s| && |Ids(explored)| == |explored|;
  }

  lemma LeashKeepsIds(s: seq<Aggregated>, penalties: Option<seq<real>>)
    ensures Ids(Leashed(s, penalties)) == Ids(s)
  {
    if penalties.Some? && s != [] {
      IdsPointwise(Lowered(s, penalties.value), s);
      SortKeepsIds(Lowered(s, penalties.value), Before);
    }
  }

  lemma ExplorationKeepsIds(s: seq<Aggregated>, scores: Option<seq<real>>)
    ensures Ids(Explored(s, scores)) == Ids(s)
  {
    if scores.Some? && |s| >= 2 {
      IdsPointwise(Rescored(s, scores.value), s);
      SortKeepsIds(Rescored(s, scores.value), Before);
    }
  }

  /** The bonus of a track, none if it has no entry. */
  function BonusOf(bonuses: map<TrackId, real>, id: TrackId): real { if id in bonuses then bonuses[id] else 0.0 }

  /** The hard-cap walk meets candidates best score plus bonus first. */
  lemma PresortOrders(s: seq<Aggregated>, bonuses: map<TrackId, real>)
    ensures bonuses == map[] ==> Presorted(s, bonuses) == s
    ensures bonuses != map[] ==>
              forall i, j :: 0 <= i < j < |Presorted(s, bonuses)| ==>
                var a, b := Presorted(s, bonuses)[i], Presorted(s, bonuses)[j];
                a.score + BonusOf(bonuses, a.trackId) >= b.score + BonusOf(bonuses, b.trackId)
    ensures multiset(Presorted(s, bonuses)) == multiset(s)
  {
    if bonuses != map[] {
      SortSorts(s, Preferred(bonuses));
      SortPermutes(s, Preferred(bonuses));
    }
  }

  /** The entries of `s` under new scores. */
  ghost function Under(s: seq<Aggregated>, scores: seq<real>): seq<Aggregated>
    requires |scores| == |s|
  {
    seq(|s|, i requires 0 <= i < |s| => Aggregated(s[i].trackId, scores[i], s[i].seedHits))
  }

  /** `t` has the entries of `s` under these scores, best first. */
  ghost predicate Reranks(t: seq<Aggregated>, s: seq<Aggregated>, scores: seq<real>)
    requires |scores| == |s|
  {
    && multiset(t) == multiset(Under(s, scores))
    && forall i, j :: 0 <= i < j < |t| ==> t[i].score >= t[j].score
  }

  lemma SortReranks(s: seq<Aggregated>, scores: seq<real>)
    requires |s| == |scores|
    ensures Reranks(SortBy(Under(s, scores), Before), s, scores)
  {
    BeforeOrders();
    SortSorts(Under(s, scores), Before);
    SortPermutes(Under(s, scores), Before);
  }

  /** Penalties are taken off the scores, entry by entry, and the best remaining score comes first. */
  lemma LeashLowers(s: seq<Aggregated>, p: seq<real>, lowered: seq<real>)
    requires |lowered| == |s| && forall i :: 0 <= i < |s| ==> lowered[i] == s[i].score - if i < |p| then p[i] else 0.0
    ensures Reranks(Leashed(s, Some(p)), s, lowered)
    ensures Leashed(s, None) == s
  {
    if s != [] {
      assert Lowered(s, p) == Under(s, lowered);
      SortReranks(s, lowered);
    } else {
      assert Under(s, lowered) == s;
    }
  }

  /** The explored scores take the place of the old ones, and the best comes first; a lone candidate
      stays as it is. */
  lemma ExplorationRescores(s: seq<Aggregated>, p: seq<real>, scores: seq<real>)
    requires |scores| == |s| && forall i :: 0 <= i < |s| ==> scores[i] == if i < |p| then p[i] else s[i].score
    ensures |s| >= 2 ==> Reranks(Explored(s, Some(p)), s, scores)
    ensures |s| < 2 ==> Explored(s, Some(p)) == s
    ensures Explored(s, None) == s
  {
    if |s| >= 2 {
      assert Rescored(s, p) == Under(s, scores);
      SortReranks(s, scores);
    }
  }

  method ApplyAnchorLeash(a: array<Aggregated>, penalties: Option<seq<real>>)
    modifies a
    ensures a[..] == Leashed(old(a[..]), penalties)
  {
    if penalties.None? || a.Length == 0 {
      return;
    }
    var p := penalties.value;
    ghost var was := a[..];
    for i := 0 to Min(a.Length, |p|)
      invariant forall k :: 0 <= k < a.Length ==> a[k] == if k < i then was[k].(score := was[k].score - p[k]) else was[k]
    {
      a[i] := a[i].(score := a[i].score - p[i]);
    }
    assert a[..] == Lowered(was, p);
    SortInPlace(a);
  }

  method ApplyExploration(a: array<Aggregated>, scores: Option<seq<real>>)
    modifies a
    ensures a[..] == Explored(old(a[..]), scores)
  {
    if scores.None? || a.Length < 2 {
      return;
    }
    var p := scores.value;
    ghost var was := a[..];
    for i := 0 to Min(a.Length, |p|)
      invariant forall k :: 0 <= k < a.Length ==> a[k] == if k < i then was[k].(score := p[k]) else was[k]
    {
      a[i] := a[i].(score := p[i]);
    }
    assert a[..] == Rescored(was, p);
    SortInPlace(a);
  }

  method SortInPlace(a: array<Aggregated>)
    modifies a
    ensures a[..] == SortBy(old(a[..]), Before)
  {
    var sorted := SortBy(a[..], Before);
    SortPermutes(a[..], Before);
    assert |sorted| == |multiset(sorted)| == |multiset(a[..])| == a.Length;
    forall i | 0 <= i < a.Length {
      a[i] := sorted[i];
    }
    assert a[..] == sorted;
  }

  // ----- The re-ranked walk -----

  /** What the re-ranker is fed besides the pool: its knobs, the vectors the index holds, the
      artists the metadata knows. */
  datatype MmrInputs = MmrInputs(params: Mmr.Params, vectors: map<TrackId, Vector>, artists: map<TrackId, string>)

  function MmrCandidates(pool: seq<Aggregated>, m: MmrInputs, bonuses: map<TrackId, real>): seq<Mmr.Candidate> {
    seq(|pool|, i requires 0 <= i < |pool| =>
      var id := pool[i].trackId;
      Mmr.Candidate(pool[i].score,
                    if id in m.vectors then Some(m.vectors[id]) else None,
                    if id in m.artists then Some(m.artists[id]) else None,
                    if id in bonuses then bonuses[id] else 0.0))
  }

  /** The greedy order over the eligible pool, twice as long as the slate wants. */
  ghost predicate IsMmrOrder(order: seq<nat>, pool: seq<Aggregated>, m: MmrInputs, bonuses: map<TrackId, real>, topN: nat) {
    && |order| == Min(topN * MMR_POOL_BUFFER_FACTOR, |pool|)
    && Mmr.IsGreedy(order, MmrCandidates(pool, m, bonuses), Mmr.Clamped(m.params))
    && InRange(order, |pool|)
  }

  /** The slate is the walk over the pool in that order. */
  ghost predicate IsMmrWalk<F>(
      out: seq<Aggregated>, stats: FilterStats, cands: seq<Aggregated>, f: QueueFilter<F>,
      m: MmrInputs, bonuses: map<TrackId, real>, topN: nat)
  {
    var pool := Eligible(cands, f.excluded);
    exists order :: IsMmrOrder(order, pool, m, bonuses, topN) && IsWalk(out, stats, Picked(pool, order), f, topN)
  }

  method WalkMmr<F>(
      cands: seq<Aggregated>, f: QueueFilter<F>, m: MmrInputs, bonuses: map<TrackId, real>, topN: nat)
      returns (out: seq<Aggregated>, stats: FilterStats)
    ensures IsMmrWalk(out, stats, cands, f, m, bonuses, topN)
  {
    var surviving := Eligible(cands, f.excluded);
    var want := topN * MMR_POOL_BUFFER_FACTOR;
    var order := Mmr.MmrRerank(MmrCandidates(surviving, m, bonuses), m.params, want);
    assert IsMmrOrder(order, surviving, m, bonuses, topN);
    // No surviving candidate is queued, so the walk's own check for that never strikes.
    out, stats := WalkHardCap(Picked(surviving, order), f, topN);
  }

  /** Eligible are exactly the candidates that are not queued. */
  lemma {:induction false} EligibleMembers(cands: seq<Aggregated>, excluded: set<TrackId>)
    ensures forall a :: a in Eligible(cands, excluded) <==> a in cands && a.trackId !in excluded
  {
    if cands != [] {
      EligibleMembers(cands[..|cands| - 1], excluded);
      assert cands == cands[..|cands| - 1] + [cands[|cands| - 1]];
    }
  }

  lemma {:induction false} AllEligible(s: seq<Aggregated>, excluded: set<TrackId>)
    requires forall a :: a in s ==> a.trackId !in excluded
    ensures Eligible(s, excluded) == s
  {
    if s != [] {
      AllEligible(s[..|s| - 1], excluded);
      assert s == s[..|s| - 1] + [s[|s| - 1]];
    }
  }

  lemma PickedIds(pool: seq<Aggregated>, order: seq<nat>)
    requires InRange(order, |pool|) && Distinct(order)
    ensures Ids(Picked(pool, order)) <= Ids(pool)
  {
    assert Names(Picked(pool, order)) == Picked(Names(pool), order);
    PickedSubset(Names(pool), order);
  }

  lemma PickedEligible(pool: seq<Aggregated>, order: seq<nat>, excluded: set<TrackId>)
    requires InRange(order, |pool|) && forall a :: a in pool ==> a.trackId !in excluded
    ensures Eligible(Picked(pool, order), excluded) == Picked(pool, order)
  {
    var picked := Picked(pool, order);
    forall a | a in picked
      ensures a.trackId !in excluded
    {
      var k :| 0 <= k < |picked| && picked[k] == a;
      assert pool[order[k]] in pool;
    }
    AllEligible(picked, excluded);
  }

  /** Re-ranking picks eligible candidates, each at most once, and all of them if there is room. */
  lemma OrderFacts(order: seq<nat>, cands: seq<Aggregated>, excluded: set<TrackId>, m: MmrInputs, bonuses: map<TrackId, real>, topN: nat)
    requires IsMmrOrder(order, Eligible(cands, excluded), m, bonuses, topN)
    ensures var pool := Eligible(cands, excluded);
            var picked := Picked(pool, order);
            && Eligible(picked, excluded) == picked && Ids(picked) <= Ids(pool)
            && (|picked| == |pool| ==> multiset(picked) == multiset(pool))
  {
    var pool := Eligible(cands, excluded);
    Mmr.GreedyDistinct(order, MmrCandidates(pool, m, bonuses), Mmr.Clamped(m.params));
    EligibleMembers(cands, excluded);
    PickedEligible(pool, order, excluded);
    PickedIds(pool, order);
    if |order| == |pool| {
      PickedPermutes(pool, order);
    }
  }

  /** Of two eligible tracks alike in score, vector and artist, the re-ranker places the one with the
      larger bonus first, as long as relevance counts. */
  lemma PreferenceLeads(order: seq<nat>, pool: seq<Aggregated>, m: MmrInputs, bonuses: map<TrackId, real>, topN: nat, k: nat, x: nat)
    requires IsMmrOrder(order, pool, m, bonuses, topN) && k < |order| && x < |pool| && m.params.lambda > 0.0
    requires var a, b := pool[x], pool[order[k]];
             && a.score == b.score && BonusOf(bonuses, a.trackId) > BonusOf(bonuses, b.trackId)
             && (if a.trackId in m.vectors then b.trackId in m.vectors && m.vectors[a.trackId] == m.vectors[b.trackId]
                 else b.trackId !in m.vectors)
             && (if a.trackId in m.artists then b.trackId in m.artists && m.artists[a.trackId] == m.artists[b.trackId]
                 else b.trackId !in m.artists)
    ensures x in order[..k]
  {
    if x !in order[..k] {
      Mmr.ClampedRange(m.params);
      Mmr.BonusFirst(order, MmrCandidates(pool, m, bonuses), Mmr.Clamped(m.params), k, x, order[k]);
    }
  }

  /** The verdict on a re-ranked slate is as truthful: the pool ran dry exactly when the slate is
      short and holds every eligible candidate, although the walk sees only part of the pool. */
  lemma MmrVerdictTruthful<F>(
      out: seq<Aggregated>, stats: FilterStats, cands: seq<Aggregated>, f: QueueFilter<F>,
      m: MmrInputs, bonuses: map<TrackId, real>, topN: nat)
    requires IsMmrWalk(out, stats, cands, f, m, bonuses, topN)
    ensures var verdict, pool := ClassifyShortfall(|out|, topN, stats), Eligible(cands, f.excluded);
            && (verdict == NoShortfall <==> |out| == topN)
            && (verdict == PoolExhausted <==> |out| < topN && |out| == |pool|)
            && (verdict == PoolExhausted ==> multiset(out) == multiset(pool))
            && (verdict.FilterStarvedArtist? || verdict.FilterStarvedDedup? <==> |out| < topN && |out| < |pool|)
  {
    var pool := Eligible(cands, f.excluded);
    var order :| IsMmrOrder(order, pool, m, bonuses, topN) && IsWalk(out, stats, Picked(pool, order), f, topN);
    OrderFacts(order, cands, f.excluded, m, bonuses, topN);
    VerdictTruthful(out, stats, Picked(pool, order), f, topN);
    SubsequenceLength(out, Picked(pool, order));
  }

  lemma MmrKeeps<F>(
      out: seq<Aggregated>, stats: FilterStats, cands: seq<Aggregated>, f: QueueFilter<F>,
      m: MmrInputs, bonuses: map<TrackId, real>, topN: nat)
    requires IsMmrWalk(out, stats, cands, f, m, bonuses, topN)
    ensures |out| <= topN && Ids(out) <= Ids(cands)
  {
    var pool := Eligible(cands, f.excluded);
    var order :| IsMmrOrder(order, pool, m, bonuses, topN) && IsWalk(out, stats, Picked(pool, order), f, topN);
    OrderFacts(order, cands, f.excluded, m, bonuses, topN);
    HardCapKeeps(out, stats, Picked(pool, order), f, topN);
    EligibleSubsequence(cands, f.excluded);
    IdsSubsequence(pool, cands);
  }

  // ----- The request -----

  datatype DiversityMode = HardCap | Mmr | Off

  datatype QueueContext = QueueContext(queueTrackIds: seq<TrackId>, nowPlaying: Option<TrackId>, mode: DiversityMode)

  datatype Request = Request(
    seeds: seq<TrackId>,
    seedWeights: Option<seq<real>>,
    excludeTrackIds: seq<TrackId>,
    anchorTrackIds: seq<TrackId>,
    queue: Option<QueueContext>,
    topN: Option<nat>)

  /** What the stores know to keep away from this user. */
  datatype Suppressed = Suppressed(downvoted: set<TrackId>, disliked: set<TrackId>, recent: set<TrackId>)

  /** Queued, and not the track playing now. */
  predicate Queued(qc: QueueContext, id: TrackId) { id in qc.queueTrackIds && qc.nowPlaying != Some(id) }

  ghost predicate Excluded(req: Request, sup: Suppressed, id: TrackId) {
    || id in req.seeds
    || id in req.excludeTrackIds
    || (req.queue.Some? && Queued(req.queue.value, id))
    || id in sup.downvoted || id in sup.disliked || id in sup.recent
  }

  function QueuedIds(qc: QueueContext): set<TrackId> { set id | id in qc.queueTrackIds && Queued(qc, id) }

  function ExclusionSet(req: Request, sup: Suppressed): (r: set<TrackId>)
    ensures forall id :: id in r <==> Excluded(req, sup, id)
  {
    (set id | id in req.seeds) + (set id | id in req.excludeTrackIds)
    + (match req.queue case None => {} case Some(qc) => QueuedIds(qc))
    + sup.downvoted + sup.disliked + sup.recent
  }

  function Clamp(n: nat, lo: nat, hi: nat): nat { if n < lo then lo else if n > hi then hi else n }

  function RequestedN(req: Request): nat {
    Clamp(match req.topN case None => DEFAULT_TOP_N case Some(n) => n, 1, MAX_N)
  }

  predicate BadRequest(req: Request) {
    || req.seeds == []
    || |req.seeds| > MAX_SEEDS
    || (req.seedWeights.Some? && |req.seedWeights.value| != |req.seeds|)
    || |req.excludeTrackIds| > MAX_EXCLUDE
    || |req.anchorTrackIds| > MAX_SEEDS
    || (req.queue.Some? && |req.queue.value.queueTrackIds| > MAX_QUEUE)
  }

  /** The limits in numbers: a slate of twenty unless asked for, one to a hundred; with a queue four
      candidates a place, a hundred at most. */
  lemma SlateSizes(req: Request)
    ensures RequestedN(req) == match req.topN case None => 20 case Some(n) => if n == 0 then 1 else if n > 100 then 100 else n
    ensures InternalTopN(req) == if req.queue.None? then RequestedN(req) else if RequestedN(req) > 25 then 100 else 4 * RequestedN(req)
    ensures !BadRequest(req) <==>
            && 1 <= |req.seeds| <= 200 && |req.excludeTrackIds| <= 1000 && |req.anchorTrackIds| <= 200
            && (req.seedWeights.None? || |req.seedWeights.value| == |req.seeds|)
            && (req.queue.None? || |req.queue.value.queueTrackIds| <= 400)
  {
  }

  /** The track that plays now may be recommended although it is queued; every other queued one may not. */
  lemma PlayingMayReturn(req: Request, sup: Suppressed, id: TrackId)
    requires req.queue.Some? && id in req.queue.value.queueTrackIds
    requires id !in req.seeds && id !in req.excludeTrackIds
    requires id !in sup.downvoted && id !in sup.disliked && id !in sup.recent
    ensures id !in ExclusionSet(req, sup) <==> req.queue.value.nowPlaying == Some(id)
    ensures id !in QueuedIds(req.queue.value) <==> req.queue.value.nowPlaying == Some(id)
  {
  }

  /** A list of distinct tracks, none excluded, each one hit by a seed of positive weight. */
  ghost predicate Admissible(s: seq<Aggregated>, req: Request, sup: Suppressed, seeds: seq<Seed>) {
    && (forall i, j :: 0 <= i < j < |s| ==> s[i].trackId != s[j].trackId)
    && (forall a :: a in s ==> !Excluded(req, sup, a.trackId) && Hits(seeds, a.trackId) > 0)
  }

  /** Aggregation yields distinct, non-excluded tracks. */
  lemma TopAdmissible(r: seq<Aggregated>, req: Request, sup: Suppressed, seeds: seq<Seed>, topN: nat)
    requires IsTop(r, seeds, ExclusionSet(req, sup), topN)
    ensures |r| <= topN && Admissible(r, req, sup, seeds)
  {
    var t, full :| IsTally(t, seeds, ExclusionSet(req, sup)) && IsRanking(full, t) && r == Take(full, topN);
    BeforeOrders();
    forall i, j | 0 <= i < j < |r|
      ensures r[i].trackId != r[j].trackId
    {
      assert full[i] in full && full[j] in full && Before(full[i], full[j]);
    }
    assert forall a :: a in r ==> a in full;
  }

  /** What a later list shares with an admissible one keeps it admissible. */
  lemma StaysAdmissible(s: seq<Aggregated>, t: seq<Aggregated>, req: Request, sup: Suppressed, seeds: seq<Seed>)
    requires Admissible(s, req, sup, seeds) && Ids(t) <= Ids(s)
    ensures Admissible(t, req, sup, seeds)
  {
    forall i, j | 0 <= i < j < |t|
      ensures t[i].trackId != t[j].trackId
    {
      DistinctOnce(s, t[i].trackId);
      if t[i].trackId == t[j].trackId {
        OnceDistinct(t, i, j);
      }
    }
    forall a | a in t
      ensures !Excluded(req, sup, a.trackId) && Hits(seeds, a.trackId) > 0
    {
      var i :| 0 <= i < |t| && t[i] == a;
      IdsMember(t, i);
      MemberOfIds(s, a.trackId);
      var k :| 0 <= k < |s| && s[k].trackId == a.trackId;
      assert s[k] in s;
    }
  }

  /** With a queue, aggregation over-asks so that the walk has spare candidates. */
  function InternalTopN(req: Request): nat {
    if req.queue.Some? then Min(RequestedN(req) * FILTER_BUFFER_FACTOR, MAX_N) else RequestedN(req)
  }

  /** The top of the aggregate ranking, leashed and explored. */
  ghost predicate AreCandidates(
      cands: seq<Aggregated>, req: Request, sup: Suppressed, seeds: seq<Seed>,
      penalties: Option<seq<real>>, noisy: Option<seq<real>>)
  {
    exists top :: IsTop(top, seeds, ExclusionSet(req, sup), InternalTopN(req)) && cands == Explored(Leashed(top, penalties), noisy)
  }

  /** Exploration has the last word: with a score for each candidate, those are the scores. */
  lemma ExploredLast(
      cands: seq<Aggregated>, req: Request, sup: Suppressed, seeds: seq<Seed>, penalties: Option<seq<real>>, scores: seq<real>)
    requires AreCandidates(cands, req, sup, seeds, penalties, Some(scores)) && |scores| == |cands| >= 2
    ensures forall a :: a in cands ==> a.score in scores
    ensures forall i, j :: 0 <= i < j < |cands| ==> cands[i].score >= cands[j].score
  {
    var top :| IsTop(top, seeds, ExclusionSet(req, sup), InternalTopN(req)) && cands == Explored(Leashed(top, penalties), Some(scores));
    ExploredScores(Leashed(top, penalties), scores);
  }

  lemma ExploredScores(s: seq<Aggregated>, scores: seq<real>)
    requires |scores| == |Explored(s, Some(scores))| >= 2
    ensures var t := Explored(s, Some(scores));
            && (forall a :: a in t ==> a.score in scores)
            && (forall i, j :: 0 <= i < j < |t| ==> t[i].score >= t[j].score)
  {
    ExplorationKeepsIds(s, Some(scores));
    assert |Ids(s)| == |s|;
    ExplorationRescores(s, scores, scores);
    var t := Explored(s, Some(scores));
    forall a | a in t
      ensures a.score in scores
    {
      assert a in multiset(t);
      assert a in Under(s, scores);
      var i :| 0 <= i < |s| && Under(s, scores)[i] == a;
    }
  }

  /** The slate that the request's mode selects from its candidates. */
  ghost predicate IsSlate<F>(
      out: seq<Aggregated>, stats: FilterStats, req: Request, cands: seq<Aggregated>, m: MmrInputs,
      bonuses: map<TrackId, real>, state: F, tryAccept: (F, TrackId) -> (FilterDecision, F))
  {
    match req.queue
    case None => out == cands
    case Some(qc) =>
      var f := QueueFilter(QueuedIds(qc), state, tryAccept);
      match qc.mode
      case HardCap => IsWalk(out, stats, Presorted(cands, bonuses), f, RequestedN(req))
      case Mmr => IsMmrWalk(out, stats, cands, f, m, bonuses, RequestedN(req))
      case Off => out == Take(Eligible(cands, QueuedIds(qc)), RequestedN(req)) && stats.TotalDropped() == 0
  }

  /** Aggregation, leash and exploration: the candidate list that diversity selects from. */
  method RankCandidates(
      req: Request, sup: Suppressed, perSeed: seq<seq<QueryResult>>, weights: seq<real>,
      penalties: Option<seq<real>>, noisy: Option<seq<real>>)
      returns (cands: seq<Aggregated>)
    ensures AreCandidates(cands, req, sup, Seeds(perSeed, weights), penalties, noisy)
    ensures |cands| <= InternalTopN(req) && Admissible(cands, req, sup, Seeds(perSeed, weights))
  {
    var top := AggregateSeedResultsWeighted(perSeed, weights, ExclusionSet(req, sup), InternalTopN(req));
    TopAdmissible(top, req, sup, Seeds(perSeed, weights), InternalTopN(req));
    var aggregated := new Aggregated[|top|](i requires 0 <= i < |top| => top[i]);
    assert aggregated[..] == top;
    ApplyAnchorLeash(aggregated, penalties);
    ApplyExploration(aggregated, noisy);
    cands := aggregated[..];
    StagesKeepIds(top, penalties, noisy, map[]);
    StaysAdmissible(top, cands, req, sup, Seeds(perSeed, weights));
  }

  /** The diversity step when the request carries a queue. */
  method ApplyQueueFilter<F>(
      qc: QueueContext, cands: seq<Aggregated>, topN: nat, m: MmrInputs, bonuses: map<TrackId, real>,
      state: F, tryAccept: (F, TrackId) -> (FilterDecision, F))
      returns (out: seq<Aggregated>, stats: FilterStats)
    ensures qc.mode.HardCap? ==>
              IsWalk(out, stats, Presorted(cands, bonuses), QueueFilter(QueuedIds(qc), state, tryAccept), topN)
    ensures qc.mode.Mmr? ==>
              IsMmrWalk(out, stats, cands, QueueFilter(QueuedIds(qc), state, tryAccept), m, bonuses, topN)
    ensures qc.mode.Off? ==> out == Take(Eligible(cands, QueuedIds(qc)), topN) && stats.TotalDropped() == 0
    ensures |out| <= topN && Ids(out) <= Ids(cands)
  {
    if qc.mode.HardCap? {
      var f := QueueFilter(QueuedIds(qc), state, tryAccept);
      var sorted := Presorted(cands, bonuses);
      out, stats := WalkHardCap(sorted, f, topN);
      HardCapKeeps(out, stats, sorted, f, topN);
      if bonuses != map[] {
        SortKeepsIds(cands, Preferred(bonuses));
      }
    } else if qc.mode.Mmr? {
      var f := QueueFilter(QueuedIds(qc), state, tryAccept);
      out, stats := WalkMmr(cands, f, m, bonuses, topN);
      MmrKeeps(out, stats, cands, f, m, bonuses, topN);
    } else {
      out, stats := WalkOff(cands, QueuedIds(qc), topN);
      OffKeeps(cands, QueuedIds(qc), topN);
    }
  }

  /** `POST /v1/recommend/from-seeds` from the per-seed search results on. `penalties`, `noisy`
      and `bonuses` are whatever leash, exploration and preference come up with, and the filter's
      acceptance rule is arbitrary. */
  method FromSeeds<F>(
      req: Request, sup: Suppressed, perSeed: seq<seq<QueryResult>>, weights: seq<real>,
      penalties: Option<seq<real>>, noisy: Option<seq<real>>, m: MmrInputs, bonuses: map<TrackId, real>,
      state: F, tryAccept: (F, TrackId) -> (FilterDecision, F))
      returns (r: Option<seq<Aggregated>>, stats: FilterStats)
    ensures r.None? <==> BadRequest(req)
    ensures r.Some? ==> |r.value| <= RequestedN(req) && Admissible(r.value, req, sup, Seeds(perSeed, weights))
    ensures r.Some? ==> exists cands :: AreCandidates(cands, req, sup, Seeds(perSeed, weights), penalties, noisy)
                                   && IsSlate(r.value, stats, req, cands, m, bonuses, state, tryAccept)
  {
    stats := NO_STATS;
    if |req.seeds| == 0 || |req.seeds| > MAX_SEEDS {
      return None, stats;
    }
    if req.seedWeights.Some? && |req.seedWeights.value| != |req.seeds| {
      return None, stats;
    }
    if |req.excludeTrackIds| > MAX_EXCLUDE || |req.anchorTrackIds| > MAX_SEEDS {
      return None, stats;
    }
    if req.queue.Some? && |req.queue.value.queueTrackIds| > MAX_QUEUE {
      return None, stats;
    }
    var cands := RankCandidates(req, sup, perSeed, weights, penalties, noisy);
    if req.queue.None? {
      return Some(cands), stats;
    }
    var out;
    out, stats := ApplyQueueFilter(req.queue.value, cands, RequestedN(req), m, bonuses, state, tryAccept);
    StaysAdmissible(cands, out, req, sup, Seeds(perSeed, weights));
    return Some(out), stats;
  }

  lemma HardCapKeeps<F>(out: seq<Aggregated>, stats: FilterStats, cands: seq<Aggregated>, f: QueueFilter<F>, topN: nat)
    requires IsWalk(out, stats, cands, f, topN)
    ensures |out| <= topN && Ids(out) <= Ids(cands)
  {
    var seen := WalkFacts(out, stats, cands, f, topN);
    SubsequencePrefix(out, seen, Eligible(cands, f.excluded));
    IdsSubsequence(out, Eligible(cands, f.excluded));
    EligibleSubsequence(cands, f.excluded);
    IdsSubsequence(Eligible(cands, f.excluded), cands);
  }

  lemma OffKeeps(cands: seq<Aggregated>, excluded: set<TrackId>, topN: nat)
    ensures Ids(Take(Eligible(cands, excluded), topN)) <= Ids(cands)
  {
    var pool := Eligible(cands, excluded);
    EligibleSubsequence(cands, excluded);
    IdsSubsequence(pool, cands);
    var out := Take(pool, topN);
    SubsequenceReflexive(out);
    SubsequencePrefix(out, out, pool);
    IdsSubsequence(out, pool);
  }
}
