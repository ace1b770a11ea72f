/** The fixed-window request limiter for the public endpoints, with its memory sweep. */
module RateLimit {
  import opened Prelude

  const MAX_TRACKED_SOURCES := 10_000

  type Source = (string, int)  // endpoint, peer address

  datatype Window = Window(count: nat, started: int)
  datatype Verdict = Accepted | RetryAfter(ms: nat)
  datatype Call = Call(source: Source, now: int, max: nat, window: nat)
  type Windows = map<Source, Window>

  /** The entry a call counts against: a missing or elapsed one starts over now. */
  function Rolled(m: Windows, c: Call): Window {
    if c.source !in m || Since(c.now, m[c.source].started) >= c.window then Window(0, c.now) else m[c.source]
  }

  function Swept(m: Windows, c: Call): Windows {
    if |m| >= MAX_TRACKED_SOURCES && c.source !in m
    then map k | k in m && Since(c.now, m[k].started) < c.window :: m[k]
    else m
  }

  function Decide(m: Windows, c: Call): Verdict {
    var w := Rolled(m, c);
    if w.count >= c.max then RetryAfter(Max(0, c.window - Since(c.now, w.started))) else Accepted
  }

  function Counted(m: Windows, c: Call): Windows {
    var w := Rolled(m, c);
    m[c.source := if w.count >= c.max then w else Window(w.count + 1, w.started)]
  }

  /** The map after a trace, for the real limiter or for one that never drops an entry. */
  function After(sweeping: bool, calls: seq<Call>): Windows {
    if calls == [] then map[]
    else
      var m, c := After(sweeping, calls[..|calls| - 1]), calls[|calls| - 1];
      Counted(if sweeping then Swept(m, c) else m, c)
  }

  /** What call `i` of the trace is told. */
  function VerdictAt(sweeping: bool, calls: seq<Call>, i: nat): Verdict
    requires i < |calls|
  {
    var m, c := After(sweeping, calls[..i]), calls[i];
    Decide(if sweeping then Swept(m, c) else m, c)
  }

  class RateLimiter {
    var windows: Windows

    constructor ()
      ensures windows == map[]
    {
      windows := map[];
    }

    method Check(source: Source, max: nat, window: nat, now: int) returns (v: Verdict)
      modifies this
      ensures var c := Call(source, now, max, window);
              && v == Decide(Swept(old(windows), c), c)
              && windows == Counted(Swept(old(windows), c), c)
    {
      if |windows| >= MAX_TRACKED_SOURCES && source !in windows {
        windows := map k | k in windows && Since(now, windows[k].started) < window :: windows[k];
      }
      if source !in windows {
        windows := windows[source := Window(0, now)];
      }
      var w := windows[source];
      if Since(now, w.started) >= window {
        w := Window(0, now);
        windows := windows[source := w];
      }
      if w.count >= max {
        return RetryAfter(Max(0, window - Since(now, w.started)));
      }
      windows := windows[source := Window(w.count + 1, w.started)];
      return Accepted;
    }
  }

  // ----- The sweep cannot be observed -----

  /** The clock never runs backwards and no call uses a longer window than an earlier one. */
  ghost predicate Regular(calls: seq<Call>) {
    forall i, j :: 0 <= i < j < |calls| ==> calls[i].now <= calls[j].now && calls[j].window <= calls[i].window
  }

  /** Entries agree, except those swept, which have expired. */
  ghost predicate Agree(real_: Windows, full: Windows, now: int, window: nat) {
    && real_.Keys <= full.Keys
    && forall k :: k in full ==>
        if k in real_ then real_[k] == full[k] else Since(now, full[k].started) >= window
  }

  lemma StepAgrees(real_: Windows, full: Windows, now: int, window: nat, c: Call)
    requires Agree(real_, full, now, window) && now <= c.now && c.window <= window
    ensures Decide(Swept(real_, c), c) == Decide(full, c)
    ensures Agree(Counted(Swept(real_, c), c), Counted(full, c), c.now, c.window)
  {
  }

  lemma {:induction false} RunsAgree(calls: seq<Call>)
    requires Regular(calls) && calls != []
    ensures var c := calls[|calls| - 1];
            Agree(After(true, calls), After(false, calls), c.now, c.window)
  {
    var init, c := calls[..|calls| - 1], calls[|calls| - 1];
    if init == [] {
      StepAgrees(map[], map[], c.now, c.window, c);
    } else {
      RunsAgree(init);
      var last := init[|init| - 1];
      StepAgrees(After(true, init), After(false, init), last.now, last.window, c);
    }
  }

  /** Every decision and every retry hint is the one a limiter without the sweep would give. */
  lemma SweepUnobservable(calls: seq<Call>, i: nat)
    requires Regular(calls) && i < |calls|
    ensures VerdictAt(true, calls, i) == VerdictAt(false, calls, i)
  {
    var before, c := calls[..i], calls[i];
    if before == [] {
      StepAgrees(map[], map[], c.now, c.window, c);
    } else {
      RunsAgree(before);
      var last := before[i - 1];
      StepAgrees(After(true, before), After(false, before), last.now, last.window, c);
    }
  }

  /** Every call of the trace has one of these window lengths. */
  ghost predicate Uses(calls: seq<Call>, lengths: iset<nat>) {
    forall i :: 0 <= i < |calls| ==> calls[i].window in lengths
  }

  /** One request each from `n` sources at time zero. */
  function Crowd(n: nat, window: nat): seq<Call> {
    if n == 0 then [] else Crowd(n - 1, window) + [Call(("", n - 1), 0, 1, window)]
  }

  ghost predicate Crowded(m: Windows, n: nat) {
    && |m| == n
    && (forall k: Source :: k in m <==> k.0 == "" && 0 <= k.1 < n)
    && (forall k :: k in m ==> m[k] == Window(1, 0))
  }

  lemma CrowdGrows(m: Windows, n: nat, window: nat)
    requires Crowded(m, n) && window > 0 && n < MAX_TRACKED_SOURCES
    ensures var c := Call(("", n), 0, 1, window);
            Swept(m, c) == m && Crowded(Counted(m, c), n + 1)
  {
    var c := Call(("", n), 0, 1, window);
    assert Counted(m, c) == m[c.source := Window(1, 0)];
  }

  /** The crowd fills the map; no sweep happens while there is room. */
  lemma {:induction false} CrowdFills(sweeping: bool, n: nat, window: nat)
    requires window > 0 && n <= MAX_TRACKED_SOURCES
    ensures |Crowd(n, window)| == n && Crowded(After(sweeping, Crowd(n, window)), n)
    ensures forall i :: 0 <= i < n ==> Crowd(n, window)[i].now == 0 && Crowd(n, window)[i].window == window
  {
    if n > 0 {
      CrowdFills(sweeping, n - 1, window);
      var before, c := Crowd(n - 1, window), Call(("", n - 1), 0, 1, window);
      CrowdGrows(After(sweeping, before), n - 1, window);
      assert (before + [c])[..n - 1] == before;
    }
  }

  /** A full map, a sweep under a short window, then a longer window: the sweep forgives a source
      that should have stayed blocked. */
  lemma SweepForgives(m: Windows, blocked: Source, fresh_: Source, short: nat, long: nat)
    requires |m| >= MAX_TRACKED_SOURCES && fresh_ !in m && blocked in m && m[blocked] == Window(1, 0) && short < long
    ensures var first, second := Call(fresh_, short, 1, short), Call(blocked, short, 1, long);
            var swept, full := Counted(Swept(m, first), first), Counted(m, first);
            Decide(Swept(swept, second), second) == Accepted && Decide(full, second).RetryAfter?
  {
    var first, second := Call(fresh_, short, 1, short), Call(blocked, short, 1, long);
    assert blocked !in Counted(Swept(m, first), first);
  }

  /** The verdict on the second of two calls after a trace. */
  lemma SecondVerdict(sweeping: bool, before: seq<Call>, c: Call, d: Call)
    ensures var m := After(sweeping, before);
            var n := Counted(if sweeping then Swept(m, c) else m, c);
            VerdictAt(sweeping, before + [c, d], |before| + 1) == Decide(if sweeping then Swept(n, d) else n, d)
  {
    assert (before + [c, d])[..|before| + 1] == before + [c];
    assert (before + [c])[..|before|] == before;
  }

  /** The crowd under the long window, one newcomer under the short one, then a member of the
      crowd again. */
  function Relapse(short: nat, long: nat): seq<Call> {
    var n := MAX_TRACKED_SOURCES;
    Crowd(n, long) + [Call(("", n), short, 1, short), Call(("", 0), short, 1, long)]
  }

  lemma RelapseRegular(short: nat, long: nat)
    requires short < long
    ensures var calls := Relapse(short, long);
            |calls| == MAX_TRACKED_SOURCES + 2 && Ordered(calls) && Uses(calls, iset{short, long})
  {
    CrowdFills(true, MAX_TRACKED_SOURCES, long);
  }

  /** The sweep lets the last call in, and without the sweep it is refused. */
  lemma GrowingWindowObservable(short: nat, long: nat)
    requires short < long
    ensures |Relapse(short, long)| == MAX_TRACKED_SOURCES + 2
    ensures VerdictAt(true, Relapse(short, long), MAX_TRACKED_SOURCES + 1) == Accepted
    ensures VerdictAt(false, Relapse(short, long), MAX_TRACKED_SOURCES + 1).RetryAfter?
  {
    var n := MAX_TRACKED_SOURCES;
    var crowd, first, second := Crowd(n, long), Call(("", n), short, 1, short), Call(("", 0), short, 1, long);
    CrowdFills(true, n, long);
    CrowdFills(false, n, long);
    SweepForgives(After(true, crowd), ("", 0), ("", n), short, long);
    SecondVerdict(true, crowd, first, second);
    SweepForgives(After(false, crowd), ("", 0), ("", n), short, long);
    SecondVerdict(false, crowd, first, second);
  }

  /** Whatever forward-clocked trace uses these window lengths, no verdict shows the sweep. */
  ghost predicate Invisible(lengths: iset<nat>) {
    forall calls, i :: Ordered(calls) && Uses(calls, lengths) && 0 <= i < |calls| ==>
      VerdictAt(true, calls, i) == VerdictAt(false, calls, i)
  }

  /** The sweep is invisible exactly when all calls share one window length. */
  lemma InvisibleIff(lengths: iset<nat>)
    ensures Invisible(lengths) <==> forall a, b :: a in lengths && b in lengths ==> a == b
  {
    if a, b :| a in lengths && b in lengths && a < b {
      RelapseRegular(a, b);
      GrowingWindowObservable(a, b);
    } else {
      forall calls, i | Ordered(calls) && Uses(calls, lengths) && 0 <= i < |calls|
        ensures VerdictAt(true, calls, i) == VerdictAt(false, calls, i)
      {
        SweepUnobservable(calls, i);
      }
    }
  }

  /** The retry hint is exact: a repeat of the call fails until that long has passed, and
      succeeds from then on. */
  lemma RetryHintExact(m: Windows, c: Call, later: int)
    requires c.max > 0 && c.now <= later && Decide(m, c).RetryAfter?
    requires c.source in m ==> m[c.source].started <= c.now
    ensures Decide(Counted(m, c), c.(now := later)) == Accepted <==> later >= c.now + Decide(m, c).ms
  {
    var w := Rolled(m, c);
    assert c.source in m && w == m[c.source];
    assert Counted(m, c)[c.source] == w;
  }

  // ----- Sources do not affect each other -----

  function Only(calls: seq<Call>, source: Source): seq<Call> {
    if calls == [] then []
    else
      var n := |calls| - 1;
      Only(calls[..n], source) + if calls[n].source == source then [calls[n]] else []
  }

  lemma {:induction false} OwnEntry(calls: seq<Call>, source: Source)
    ensures var all, mine := After(false, calls), After(false, Only(calls, source));
            (source in all <==> source in mine) && (source in all ==> all[source] == mine[source])
  {
    if calls != [] {
      var init, c := calls[..|calls| - 1], calls[|calls| - 1];
      OwnEntry(init, source);
      var mine := Only(init, source);
      if c.source == source {
        assert (mine + [c])[..|mine|] == mine;
        assert Only(calls, source) == mine + [c];
      } else {
        assert Only(calls, source) == mine;
      }
    }
  }

  /** A call is told what it would be told had its own source, at its own endpoint, been the only one
      to call before, sweeps notwithstanding. */
  lemma OthersDoNotMatter(calls: seq<Call>, c: Call)
    requires Regular(calls + [c])
    ensures VerdictAt(true, calls + [c], |calls|) == VerdictAt(false, Only(calls, c.source) + [c], |Only(calls, c.source)|)
  {
    var mine := Only(calls, c.source);
    SweepUnobservable(calls + [c], |calls|);
    OwnEntry(calls, c.source);
    assert (calls + [c])[..|calls|] == calls && (mine + [c])[..|mine|] == mine;
  }

  // ----- How much a source can get through -----

  predicate In(now: int, t: int, window: nat) { t <= now < t + window }

  /** Requests of `source` accepted at a time in `t .. t + window`. */
  function AcceptedIn(sweeping: bool, calls: seq<Call>, source: Source, t: int, window: nat): nat {
    if calls == [] then 0
    else
      var n := |calls| - 1;
      AcceptedIn(sweeping, calls[..n], source, t, window) +
      if calls[n].source == source && In(calls[n].now, t, window) && VerdictAt(sweeping, calls, n) == Accepted
      then 1 else 0
  }

  ghost predicate Ordered(calls: seq<Call>) {
    forall i, j :: 0 <= i < j < |calls| ==> calls[i].now <= calls[j].now
  }

  ghost predicate Fixed(calls: seq<Call>, source: Source, max: nat, window: nat) {
    forall i :: 0 <= i < |calls| && calls[i].source == source ==> calls[i].max == max && calls[i].window == window
  }

  /** `a` requests got through in the interval so far; how that relates to the current entry. */
  ghost predicate BoundInv(m: Windows, source: Source, a: nat, t: int, window: nat, max: nat, last: int) {
    if source !in m then a == 0
    else
      var w := m[source];
      && 1 <= w.count <= max && w.started <= last
      && (w.started + window <= t ==> a == 0)
      && (w.started < t ==> a <= w.count - 1)
      && (w.started == t ==> a <= w.count)
      && (t < w.started < t + window ==> a <= max - 1 + w.count)
      && a <= 2 * max - 1
      && (window == 0 ==> a == 0)
  }

  lemma BoundStep(m: Windows, c: Call, a: nat, t: int, last: int)
    requires c.max >= 1 && BoundInv(m, c.source, a, t, c.window, c.max, last) && last <= c.now
    ensures var more := if In(c.now, t, c.window) && Decide(m, c) == Accepted then 1 else 0;
            BoundInv(Counted(m, c), c.source, a + more, t, c.window, c.max, c.now)
  {
  }

  lemma {:induction false} BoundHolds(calls: seq<Call>, source: Source, t: int, window: nat, max: nat, last: int)
    requires max >= 1 && Ordered(calls) && Fixed(calls, source, max, window)
    requires forall i :: 0 <= i < |calls| ==> calls[i].now <= last
    ensures BoundInv(After(false, calls), source, AcceptedIn(false, calls, source, t, window), t, window, max, last)
  {
    if calls != [] {
      var n := |calls| - 1;
      var init, c := calls[..n], calls[n];
      assert forall i :: 0 <= i < n ==> init[i] == calls[i];
      BoundHolds(init, source, t, window, max, c.now);
      if c.source == source {
        BoundStep(After(false, init), c, AcceptedIn(false, init, source, t, window), t, c.now);
      }
    }
  }

  lemma {:induction false} SameAccepted(calls: seq<Call>, source: Source, t: int, window: nat)
    requires Regular(calls)
    ensures AcceptedIn(true, calls, source, t, window) == AcceptedIn(false, calls, source, t, window)
  {
    if calls != [] {
      SameAccepted(calls[..|calls| - 1], source, t, window);
      SweepUnobservable(calls, |calls| - 1);
    }
  }

  /** In any half-open interval of one window length a source gets fewer than twice `max`
      requests through, whatever else the trace holds and however often the map is swept. */
  lemma WindowBound(calls: seq<Call>, source: Source, t: int, window: nat, max: nat)
    requires Regular(calls) && Fixed(calls, source, max, window)
    ensures AcceptedIn(true, calls, source, t, window) <= Max(0, 2 * max - 1)
  {
    SameAccepted(calls, source, t, window);
    if max >= 1 {
      if calls != [] {
        BoundHolds(calls, source, t, window, max, calls[|calls| - 1].now);
      }
    } else {
      NothingAccepted(calls, source, t, window);
    }
  }

  lemma {:induction false} NothingAccepted(calls: seq<Call>, source: Source, t: int, window: nat)
    requires Fixed(calls, source, 0, window)
    ensures AcceptedIn(false, calls, source, t, window) == 0
  {
    if calls != [] {
      var init := calls[..|calls| - 1];
      assert forall i :: 0 <= i < |init| ==> init[i] == calls[i];
      NothingAccepted(init, source, t, window);
    }
  }

  // ----- The bound is attained -----

  function Burst(source: Source, now: int, max: nat, window: nat, n: nat): seq<Call> {
    seq(n, _ => Call(source, now, max, window))
  }

  lemma {:induction false} BurstCounts(before: seq<Call>, source: Source, now: int, max: nat, window: nat, n: nat, t: int)
    requires source in After(false, before)
    requires var w := After(false, before)[source];
             Since(now, w.started) < window && w.count + n <= max
    ensures var all, w := before + Burst(source, now, max, window, n), After(false, before)[source];
            && source in After(false, all) && After(false, all)[source] == Window(w.count + n, w.started)
            && AcceptedIn(false, all, source, t, window)
               == AcceptedIn(false, before, source, t, window) + if In(now, t, window) then n else 0
  {
    var all := before + Burst(source, now, max, window, n);
    if n == 0 {
      assert all == before;
    } else {
      BurstCounts(before, source, now, max, window, n - 1, t);
      assert all[..|all| - 1] == before + Burst(source, now, max, window, n - 1);
      assert all[|all| - 1] == Call(source, now, max, window);
    }
  }

  /** One early request, then a burst at the very end of its window. */
  function Opening(source: Source, max: nat, window: nat): seq<Call>
    requires max >= 1
  {
    [Call(source, 0, max, window)] + Burst(source, window - 1, max, window, max - 1)
  }

  lemma OpeningCounts(source: Source, max: nat, window: nat)
    requires max >= 1 && window >= 2
    ensures var calls := Opening(source, max, window);
            && source in After(false, calls) && After(false, calls)[source] == Window(max, 0)
            && AcceptedIn(false, calls, source, window - 1, window) == max - 1
  {
    var first := [Call(source, 0, max, window)];
    assert first[..0] == [];
    assert After(false, first) == map[source := Window(1, 0)];
    assert AcceptedIn(false, first, source, window - 1, window) == 0;
    BurstCounts(first, source, window - 1, max, window, max - 1, window - 1);
  }

  lemma TurnCounts(before: seq<Call>, source: Source, max: nat, window: nat)
    requires max >= 1 && window >= 2 && source in After(false, before) && After(false, before)[source] == Window(max, 0)
    ensures var all := before + [Call(source, window, max, window)];
            && source in After(false, all) && After(false, all)[source] == Window(1, window)
            && AcceptedIn(false, all, source, window - 1, window) == AcceptedIn(false, before, source, window - 1, window) + 1
  {
    var all := before + [Call(source, window, max, window)];
    assert all[..|all| - 1] == before;
  }

  /** The opening, followed by a burst at the start of the next window. */
  function TwoWindows(source: Source, max: nat, window: nat): seq<Call>
    requires max >= 1
  {
    Opening(source, max, window) + [Call(source, window, max, window)] + Burst(source, window, max, window, max - 1)
  }

  lemma TwoWindowsRegular(source: Source, max: nat, window: nat)
    requires max >= 1 && window >= 2
    ensures Regular(TwoWindows(source, max, window)) && Fixed(TwoWindows(source, max, window), source, max, window)
  {
    var calls := TwoWindows(source, max, window);
    assert forall i :: 0 <= i < |calls| ==>
      calls[i] == Call(source, if i == 0 then 0 else if i < max then window - 1 else window, max, window);
  }

  /** That run attains the bound. */
  lemma BoundIsTight(source: Source, max: nat, window: nat) returns (calls: seq<Call>)
    requires max >= 1 && window >= 2
    ensures Regular(calls) && Fixed(calls, source, max, window)
    ensures AcceptedIn(true, calls, source, window - 1, window) == 2 * max - 1
  {
    var opening := Opening(source, max, window);
    OpeningCounts(source, max, window);
    TurnCounts(opening, source, max, window);
    BurstCounts(opening + [Call(source, window, max, window)], source, window, max, window, max - 1, window - 1);
    calls := TwoWindows(source, max, window);
    TwoWindowsRegular(source, max, window);
    SameAccepted(calls, source, window - 1, window);
  }
}
