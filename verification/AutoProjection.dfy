/** The projection debouncer: recompute once enough embeddings landed and the count went quiet. */
module AutoProjection {
  import opened Prelude

  const MIN_NEW_EMBEDDINGS := 10
  const QUIET_INTERVAL_MS := 90_000

  datatype LoopState = LoopState(lastReduced: nat, lastSeen: nat, lastChangeAt: int)

  datatype Action = Reduce | UpdateBaseline | Wait

  /** One pass of the loop: the count read (none if the query failed), the clock at the decision
      and at the store, and whether a recompute would succeed in full. */
  datatype Tick = Tick(count: Option<nat>, now: int, storedAt: int, succeeds: bool)

  function DecideAction(st: LoopState, current: nat, quiet: nat, minNew: nat, now: int): Action {
    if current != st.lastSeen then UpdateBaseline
    else if Max(0, current - st.lastReduced) < minNew then Wait
    else if Since(now, st.lastChangeAt) < quiet then Wait
    else Reduce
  }

  function Decision(st: LoopState, t: Tick): Action {
    if t.count.None? then Wait
    else DecideAction(st, t.count.value, QUIET_INTERVAL_MS, MIN_NEW_EMBEDDINGS, t.now)
  }

  function Step(st: LoopState, t: Tick): LoopState {
    match Decision(st, t)
    case Wait => st
    case UpdateBaseline => st.(lastSeen := t.count.value, lastChangeAt := t.storedAt)
    case Reduce => if t.succeeds then st.(lastReduced := t.count.value) else st
  }

  function Run(st: LoopState, ticks: seq<Tick>): LoopState {
    if ticks == [] then st else Step(Run(st, ticks[..|ticks| - 1]), ticks[|ticks| - 1])
  }

  predicate Fires(st: LoopState, t: Tick) { Decision(st, t) == Reduce && t.succeeds }

  /** How many recomputes succeed along the run. */
  function Reduces(st: LoopState, ticks: seq<Tick>): nat {
    if ticks == [] then 0
    else
      var init := ticks[..|ticks| - 1];
      Reduces(st, init) + if Fires(Run(st, init), ticks[|ticks| - 1]) then 1 else 0
  }

  /** The loop itself, over the ticks it lives to see. */
  method RunLoop(baseline: nat, bootAt: int, ticks: seq<Tick>) returns (st: LoopState, reduces: nat)
    ensures st == Run(LoopState(baseline, 0, bootAt), ticks)
    ensures reduces == Reduces(LoopState(baseline, 0, bootAt), ticks)
  {
    st, reduces := LoopState(baseline, 0, bootAt), 0;
    for i := 0 to |ticks|
      invariant st == Run(LoopState(baseline, 0, bootAt), ticks[..i])
      invariant reduces == Reduces(LoopState(baseline, 0, bootAt), ticks[..i])
    {
      assert ticks[..i + 1][..i] == ticks[..i];
      var t := ticks[i];
      if t.count.None? {
        continue;
      }
      var current := t.count.value;
      match DecideAction(st, current, QUIET_INTERVAL_MS, MIN_NEW_EMBEDDINGS, t.now)
      case Reduce =>
        if t.succeeds {
          st := st.(lastReduced := current);
          reduces := reduces + 1;
        }
      case UpdateBaseline =>
        st := st.(lastSeen := current, lastChangeAt := t.storedAt);
      case Wait =>
    }
    assert ticks[..|ticks|] == ticks;
  }

  // ----- When it fires, told from the ticks alone -----

  /** The last count read, `seen` before any. */
  function LastCount(seen: nat, ticks: seq<Tick>): nat {
    if ticks == [] then seen
    else if ticks[|ticks| - 1].count.Some? then ticks[|ticks| - 1].count.value
    else LastCount(seen, ticks[..|ticks| - 1])
  }

  /** The last tick that read a count different from the one before it. */
  function LastChange(seen: nat, ticks: seq<Tick>): (r: Option<nat>)
    ensures r.Some? ==> r.value < |ticks| && ticks[r.value].count.Some?
  {
    if ticks == [] then None
    else
      var init, t := ticks[..|ticks| - 1], ticks[|ticks| - 1];
      if t.count.Some? && t.count.value != LastCount(seen, init) then Some(|init|) else LastChange(seen, init)
  }

  lemma {:induction false} StateTracksTicks(st: LoopState, ticks: seq<Tick>)
    ensures var end, change := Run(st, ticks), LastChange(st.lastSeen, ticks);
            && end.lastSeen == LastCount(st.lastSeen, ticks)
            && end.lastChangeAt == if change.Some? then ticks[change.value].storedAt else st.lastChangeAt
  {
    if ticks != [] {
      StateTracksTicks(st, ticks[..|ticks| - 1]);
    }
  }

  /** Since the last change every count read is the same. */
  lemma {:induction false} SteadySinceChange(seen: nat, ticks: seq<Tick>)
    ensures var from := match LastChange(seen, ticks) case None => 0 case Some(j) => j;
            forall m :: from <= m < |ticks| && ticks[m].count.Some? ==> ticks[m].count.value == LastCount(seen, ticks)
    ensures LastChange(seen, ticks).None? ==> LastCount(seen, ticks) == seen
  {
    if ticks != [] {
      var init := ticks[..|ticks| - 1];
      SteadySinceChange(seen, init);
      assert forall m :: 0 <= m < |init| ==> ticks[m] == init[m];
    }
  }

  /** A recompute is due at `t`: the count it reads has been steady since a change that lies at
      least the quiet interval back, and exceeds `projected` by the minimum. */
  ghost predicate Due(projected: nat, before: seq<Tick>, t: Tick) {
    var change := LastChange(0, before);
    && t.count.Some? && change.Some?
    && t.count.value >= projected + MIN_NEW_EMBEDDINGS
    && (forall m :: change.value <= m < |before| && before[m].count.Some? ==> before[m].count == t.count)
    && Since(t.now, before[change.value].storedAt) >= QUIET_INTERVAL_MS
  }

  /** The count that was last projected, `baseline` before any recompute. */
  ghost function Projected(baseline: nat, ticks: seq<Tick>): nat {
    if ticks == [] then baseline
    else
      var init, t := ticks[..|ticks| - 1], ticks[|ticks| - 1];
      if Due(Projected(baseline, init), init, t) && t.succeeds then t.count.value else Projected(baseline, init)
  }

  lemma DueIff(baseline: nat, bootAt: int, before: seq<Tick>, t: Tick)
    ensures var st := Run(LoopState(baseline, 0, bootAt), before);
            Decision(st, t) == Reduce <==> Due(st.lastReduced, before, t)
  {
    StateTracksTicks(LoopState(baseline, 0, bootAt), before);
    SteadySinceChange(0, before);
  }

  lemma {:induction false} TracksProjected(baseline: nat, bootAt: int, ticks: seq<Tick>)
    ensures Run(LoopState(baseline, 0, bootAt), ticks).lastReduced == Projected(baseline, ticks)
  {
    if ticks != [] {
      var init, t := ticks[..|ticks| - 1], ticks[|ticks| - 1];
      TracksProjected(baseline, bootAt, init);
      DueIff(baseline, bootAt, init, t);
    }
  }

  /** The loop fires at a tick exactly when the ticks before it make a recompute due. */
  lemma FiresIff(baseline: nat, bootAt: int, before: seq<Tick>, t: Tick)
    ensures Decision(Run(LoopState(baseline, 0, bootAt), before), t) == Reduce <==> Due(Projected(baseline, before), before, t)
  {
    TracksProjected(baseline, bootAt, before);
    DueIff(baseline, bootAt, before, t);
  }

  // ----- How often it fires -----

  /** Each success needs `MIN_NEW_EMBEDDINGS` fresh rows, so successes are bounded by growth. */
  lemma {:induction false} SuccessesCostGrowth(st: LoopState, ticks: seq<Tick>, most: nat)
    requires forall i :: 0 <= i < |ticks| && ticks[i].count.Some? ==> ticks[i].count.value <= most
    ensures st.lastReduced + Reduces(st, ticks) * MIN_NEW_EMBEDDINGS <= Run(st, ticks).lastReduced
    ensures Run(st, ticks).lastReduced <= Max(st.lastReduced, most)
  {
    if ticks != [] {
      var init := ticks[..|ticks| - 1];
      assert forall i :: 0 <= i < |init| ==> init[i] == ticks[i];
      SuccessesCostGrowth(st, init, most);
    }
  }

  ghost predicate NeverFalls(ticks: seq<Tick>) {
    forall i, j :: 0 <= i < j < |ticks| && ticks[i].count.Some? && ticks[j].count.Some? ==>
                     ticks[i].count.value <= ticks[j].count.value
  }

  lemma {:induction false} LastIsMost(seen: nat, ticks: seq<Tick>)
    requires NeverFalls(ticks)
    ensures forall i :: 0 <= i < |ticks| && ticks[i].count.Some? ==> ticks[i].count.value <= LastCount(seen, ticks)
  {
    if ticks != [] {
      var init := ticks[..|ticks| - 1];
      assert forall i :: 0 <= i < |init| ==> init[i] == ticks[i];
      LastIsMost(seen, init);
    }
  }

  /** With counts that never fall, at most (last count - baseline) / minimum recomputes succeed. */
  lemma ReducesBound(st: LoopState, ticks: seq<Tick>)
    requires NeverFalls(ticks)
    ensures Reduces(st, ticks) <= Max(0, LastCount(st.lastSeen, ticks) - st.lastReduced) / MIN_NEW_EMBEDDINGS
  {
    LastIsMost(st.lastSeen, ticks);
    SuccessesCostGrowth(st, ticks, LastCount(st.lastSeen, ticks));
  }

  ghost predicate Steady(ticks: seq<Tick>, c: nat) {
    forall i :: 0 <= i < |ticks| ==> (ticks[i].count.Some? ==> ticks[i].count.value == c) && ticks[i].succeeds
  }

  ghost predicate QuietReached(st: LoopState, ticks: seq<Tick>) {
    exists i :: 0 <= i < |ticks| && Ripe(st, ticks[i])
  }

  predicate Ripe(st: LoopState, t: Tick) {
    t.count.Some? && Since(t.now, st.lastChangeAt) >= QUIET_INTERVAL_MS
  }

  /** Once the count stays at `c` with enough new rows and recomputes succeed, exactly one more
      happens as soon as the quiet interval has passed, and never another. */
  lemma {:induction false} ExactlyOneMore(st: LoopState, ticks: seq<Tick>, c: nat)
    requires Steady(ticks, c) && st.lastSeen == c && c >= st.lastReduced + MIN_NEW_EMBEDDINGS
    ensures Reduces(st, ticks) == if QuietReached(st, ticks) then 1 else 0
    ensures Run(st, ticks) == if QuietReached(st, ticks) then st.(lastReduced := c) else st
  {
    if ticks != [] {
      var init, t := ticks[..|ticks| - 1], ticks[|ticks| - 1];
      assert forall i :: 0 <= i < |init| ==> init[i] == ticks[i];
      ExactlyOneMore(st, init, c);
      if QuietReached(st, init) {
        var i :| 0 <= i < |init| && Ripe(st, init[i]);
        assert Ripe(st, ticks[i]);
      } else if Ripe(st, t) {
        assert Ripe(st, ticks[|ticks| - 1]);
      } else {
        assert !QuietReached(st, ticks);
      }
    }
  }

  lemma {:induction false} RunCons(st: LoopState, ticks: seq<Tick>)
    requires ticks != []
    ensures Run(st, ticks) == Run(Step(st, ticks[0]), ticks[1..])
    ensures Reduces(st, ticks) == Reduces(Step(st, ticks[0]), ticks[1..]) + if Fires(st, ticks[0]) then 1 else 0
    decreases |ticks|
  {
    var n := |ticks| - 1;
    if n > 0 {
      RunCons(st, ticks[..n]);
      assert ticks[..n][1..] == ticks[1..][..n - 1];
    } else {
      assert ticks[..0] == [] && ticks[1..] == [];
    }
  }

  /** The same from the moment the count settles: the tick that first reads the new count only
      restarts the quiet timer, and after it exactly one recompute happens. */
  lemma SettlesOnce(st: LoopState, ticks: seq<Tick>, c: nat)
    requires Steady(ticks, c) && ticks != [] && ticks[0].count == Some(c)
    requires st.lastSeen != c && c >= st.lastReduced + MIN_NEW_EMBEDDINGS
    ensures var settled := st.(lastSeen := c, lastChangeAt := ticks[0].storedAt);
            && Reduces(st, ticks) == (if QuietReached(settled, ticks[1..]) then 1 else 0)
            && Run(st, ticks).lastReduced == (if QuietReached(settled, ticks[1..]) then c else st.lastReduced)
  {
    RunCons(st, ticks);
    var settled := st.(lastSeen := c, lastChangeAt := ticks[0].storedAt);
    assert forall i :: 0 <= i < |ticks[1..]| ==> ticks[1..][i] == ticks[i + 1];
    ExactlyOneMore(settled, ticks[1..], c);
  }
}
