/** The failed-login limiter. */
module LoginLimit {
  import opened Prelude

  const MAX_FAILURES := 5
  const LOCKOUT_MS := 60_000

  type Ip = int
  datatype Attempt = Attempt(failures: nat, lockedUntil: Option<int>)
  type Attempts = map<Ip, Attempt>

  function Get(m: Attempts, ip: Ip): Attempt {
    if ip in m then m[ip] else Attempt(0, None)
  }

  /** Remaining lockout, if any. */
  function Blocked(m: Attempts, ip: Ip, now: int): Option<int> {
    var a := Get(m, ip);
    if a.lockedUntil.Some? && a.lockedUntil.value > now then Some(a.lockedUntil.value - now) else None
  }

  function Checked(m: Attempts, ip: Ip, now: int): Attempts {
    if ip in m && m[ip].lockedUntil.Some? && m[ip].lockedUntil.value <= now then m[ip := Attempt(0, None)] else m
  }

  function Failed(m: Attempts, ip: Ip, now: int): Attempts {
    var n := Get(m, ip).failures + 1;
    m[ip := Attempt(n, if n >= MAX_FAILURES then Some(now + LOCKOUT_MS) else Get(m, ip).lockedUntil)]
  }

  class LoginLimiter {
    var attempts: Attempts

    constructor ()
      ensures attempts == map[]
    {
      attempts := map[];
    }

    method Check(ip: Ip, now: int) returns (remaining: Option<int>)
      modifies this
      ensures remaining == Blocked(old(attempts), ip, now)
      ensures attempts == Checked(old(attempts), ip, now)
    {
      if ip in attempts && attempts[ip].lockedUntil.Some? {
        var until := attempts[ip].lockedUntil.value;
        if until > now {
          return Some(until - now);
        }
        attempts := attempts[ip := Attempt(0, None)];
      }
      return None;
    }

    method RecordFailure(ip: Ip, now: int)
      modifies this
      ensures attempts == Failed(old(attempts), ip, now)
    {
      if ip !in attempts {
        attempts := attempts[ip := Attempt(0, None)];
      }
      var a := attempts[ip];
      a := a.(failures := a.failures + 1);
      if a.failures >= MAX_FAILURES {
        a := a.(lockedUntil := Some(now + LOCKOUT_MS));
      }
      attempts := attempts[ip := a];
    }

    method RecordSuccess(ip: Ip)
      modifies this
      ensures attempts == old(attempts) - {ip}
    {
      attempts := attempts - {ip};
    }
  }

  /** A refused check names the exact time left: after it, and not before, the source is let in
      with a clean slate. */
  lemma RemainingExact(m: Attempts, ip: Ip, now: int, later: int)
    requires Blocked(m, ip, now).Some? && now <= later
    ensures Checked(m, ip, now) == m
    ensures Blocked(m, ip, later).None? <==> later >= now + Blocked(m, ip, now).value
    ensures Blocked(m, ip, later).None? ==> Get(Checked(m, ip, later), ip) == Attempt(0, None)
  {
    assert ip in m;
  }

  // ----- Logins as separate checks and records -----

  datatype Outcome = Failure | Success | Abandoned  // abandoned: the request ended before a record

  /** The two calls a login makes, some time apart; logins of one source are told apart by number. */
  datatype Event =
    | Checks(ip: Ip, login: nat, now: int)
    | Records(ip: Ip, login: nat, outcome: Outcome, now: int)

  /** The limiter, and which logins were let in and have not finished. */
  datatype World = World(attempts: Attempts, flying: map<Ip, set<nat>>)

  function Flying(w: World, ip: Ip): set<nat> {
    if ip in w.flying then w.flying[ip] else {}
  }

  function Step(w: World, e: Event): World {
    match e
    case Checks(ip, login, now) =>
      if login in Flying(w, ip) || Blocked(w.attempts, ip, now).Some? then w
      else World(Checked(w.attempts, ip, now), w.flying[ip := Flying(w, ip) + {login}])
    case Records(ip, login, outcome, now) =>
      if login !in Flying(w, ip) then w
      else
        var attempts := match outcome
          case Failure => Failed(w.attempts, ip, now)
          case Success => w.attempts - {ip}
          case Abandoned => w.attempts;
        World(attempts, w.flying[ip := Flying(w, ip) - {login}])
  }

  function After(events: seq<Event>): World {
    if events == [] then World(map[], map[]) else Step(After(events[..|events| - 1]), events[|events| - 1])
  }

  predicate RecordsFailure(w: World, e: Event, ip: Ip) {
    e.ip == ip && e.Records? && e.outcome.Failure? && e.login in Flying(w, ip)
  }

  /** Failures of `ip` recorded in the lockout-length interval from `t`. */
  function FailuresIn(events: seq<Event>, ip: Ip, t: int): nat {
    if events == [] then 0
    else
      var n := |events| - 1;
      FailuresIn(events[..n], ip, t) +
      if RecordsFailure(After(events[..n]), events[n], ip) && t <= events[n].now < t + LOCKOUT_MS then 1 else 0
  }

  /** The source's own events are in time order; other sources' may fall anywhere. */
  ghost predicate Forward(events: seq<Event>, ip: Ip) {
    forall i, j :: 0 <= i < j < |events| && events[i].ip == ip == events[j].ip ==> events[i].now <= events[j].now
  }

  ghost predicate NeverSucceeds(events: seq<Event>, ip: Ip) {
    forall i :: 0 <= i < |events| && events[i].ip == ip && events[i].Records? ==> !events[i].outcome.Success?
  }

  /** At every moment of the run at most `c` logins of the source are in flight. */
  predicate AtMost(events: seq<Event>, ip: Ip, c: nat) {
    && |Flying(After(events), ip)| <= c
    && (events != [] ==> AtMost(events[..|events| - 1], ip, c))
  }

  /** How a run grows by one event. */
  lemma Grows(events: seq<Event>, e: Event, ip: Ip, t: int, c: nat)
    ensures var all, w := events + [e], After(events);
            && After(all) == Step(w, e)
            && FailuresIn(all, ip, t)
               == FailuresIn(events, ip, t) + (if RecordsFailure(w, e, ip) && t <= e.now < t + LOCKOUT_MS then 1 else 0)
            && (AtMost(all, ip, c) <==> AtMost(events, ip, c) && |Flying(Step(w, e), ip)| <= c)
  {
    assert (events + [e])[..|events|] == events;
  }

  // ----- The most failures a source can record in a minute -----

  /** `n` failures fell into the interval so far, `fly` logins are in flight. */
  ghost predicate BoundInv(a: Attempt, n: nat, fly: nat, c: nat, t: int, now: int) {
    && n <= MAX_FAILURES + c - 1
    && (n > 0 ==> now >= t)
    && match a.lockedUntil
       case None => a.failures < MAX_FAILURES && (n <= a.failures || now >= t + LOCKOUT_MS)
       case Some(until) =>
         && (n > 0 ==> until >= t + LOCKOUT_MS)
         && a.failures >= MAX_FAILURES
         && (n + fly <= MAX_FAILURES + c - 1 || now >= t + LOCKOUT_MS)
  }

  lemma CheckKeeps(w: World, e: Event, n: nat, c: nat, t: int, now: int)
    requires e.Checks? && now <= e.now && |Flying(Step(w, e), e.ip)| <= c
    requires BoundInv(Get(w.attempts, e.ip), n, |Flying(w, e.ip)|, c, t, now)
    ensures BoundInv(Get(Step(w, e).attempts, e.ip), n, |Flying(Step(w, e), e.ip)|, c, t, e.now)
  {
  }

  lemma RecordKeeps(w: World, e: Event, n: nat, c: nat, t: int, now: int)
    requires e.Records? && !e.outcome.Success? && now <= e.now && |Flying(w, e.ip)| <= c
    requires BoundInv(Get(w.attempts, e.ip), n, |Flying(w, e.ip)|, c, t, now)
    ensures var more := if RecordsFailure(w, e, e.ip) && t <= e.now < t + LOCKOUT_MS then 1 else 0;
            BoundInv(Get(Step(w, e).attempts, e.ip), n + more, |Flying(Step(w, e), e.ip)|, c, t, e.now)
  {
    if e.login in Flying(w, e.ip) {
      assert |Flying(Step(w, e), e.ip)| == |Flying(w, e.ip)| - 1;
    }
  }

  lemma OwnStepKeeps(w: World, e: Event, n: nat, c: nat, t: int)
    requires |Flying(w, e.ip)| <= c && |Flying(Step(w, e), e.ip)| <= c
    requires e.Records? ==> !e.outcome.Success?
    requires BoundInv(Get(w.attempts, e.ip), n, |Flying(w, e.ip)|, c, t, e.now)
    ensures var more := if RecordsFailure(w, e, e.ip) && t <= e.now < t + LOCKOUT_MS then 1 else 0;
            BoundInv(Get(Step(w, e).attempts, e.ip), n + more, |Flying(Step(w, e), e.ip)|, c, t, e.now)
  {
    if e.Checks? {
      CheckKeeps(w, e, n, c, t, e.now);
    } else {
      RecordKeeps(w, e, n, c, t, e.now);
    }
  }

  lemma {:induction false} BoundHolds(events: seq<Event>, ip: Ip, t: int, c: nat, now: int)
    requires Forward(events, ip) && NeverSucceeds(events, ip) && AtMost(events, ip, c)
    requires forall i :: 0 <= i < |events| && events[i].ip == ip ==> events[i].now <= now
    ensures BoundInv(Get(After(events).attempts, ip), FailuresIn(events, ip, t), |Flying(After(events), ip)|, c, t, now)
  {
    if events != [] {
      var n := |events| - 1;
      var init, e := events[..n], events[n];
      assert forall i :: 0 <= i < n ==> init[i] == events[i];
      if e.ip != ip {
        BoundHolds(init, ip, t, c, now);
        StepAlike(After(init), After(init), e, ip);
      } else {
        BoundHolds(init, ip, t, c, e.now);
        OwnStepKeeps(After(init), e, FailuresIn(init, ip, t), c, t);
      }
    }
  }

  /** With at most `c` logins in flight, a source that never succeeds records at most
      `MAX_FAILURES + c - 1` failures in any interval of lockout length. */
  lemma LockoutBound(events: seq<Event>, ip: Ip, t: int, c: nat)
    requires Forward(events, ip) && NeverSucceeds(events, ip) && AtMost(events, ip, c)
    ensures FailuresIn(events, ip, t) <= MAX_FAILURES + c - 1
  {
    BoundHolds(events, ip, t, c, Latest(events));
  }

  function Latest(events: seq<Event>): (now: int)
    ensures forall i :: 0 <= i < |events| ==> events[i].now <= now
  {
    if events == [] then 0 else Max(Latest(events[..|events| - 1]), events[|events| - 1].now)
  }

  /** Without logins in flight nothing is recorded. */
  lemma {:induction false} NoneRecorded(events: seq<Event>, ip: Ip, t: int)
    requires AtMost(events, ip, 0)
    ensures FailuresIn(events, ip, t) == 0
  {
    if events != [] {
      var init := events[..|events| - 1];
      NoneRecorded(init, ip, t);
      assert Flying(After(init), ip) == {};
    }
  }

  // ----- The bound is attained -----

  function Upto(n: nat): (s: set<nat>)
    ensures |s| == n && forall i: nat :: i in s <==> i < n
  {
    if n == 0 then {} else Upto(n - 1) + {n - 1}
  }

  /** The source has `n` failures on record and `fly` logins in flight. */
  ghost predicate Has(w: World, ip: Ip, n: nat, fly: nat) {
    && Get(w.attempts, ip).failures == n
    && (n < MAX_FAILURES ==> Get(w.attempts, ip).lockedUntil == None)
    && Flying(w, ip) == Upto(fly)
  }

  /** A run at time zero that has recorded `n` failures and has `fly` logins in flight. */
  ghost predicate Stands(events: seq<Event>, ip: Ip, c: nat, n: nat, fly: nat) {
    && (forall i :: 0 <= i < |events| ==> events[i].ip == ip && events[i].now == 0)
    && NeverSucceeds(events, ip) && AtMost(events, ip, c) && FailuresIn(events, ip, 0) == n
    && Has(After(events), ip, n, fly)
  }

  lemma CheckFlies(w: World, ip: Ip, n: nat, fly: nat)
    requires Has(w, ip, n, fly) && n < MAX_FAILURES
    ensures Has(Step(w, Checks(ip, fly, 0)), ip, n, fly + 1)
  {
    assert Upto(fly) + {fly} == Upto(fly + 1);
  }

  lemma FailureLands(w: World, ip: Ip, n: nat, fly: nat)
    requires Has(w, ip, n, fly) && fly > 0
    ensures Has(Step(w, Records(ip, fly - 1, Failure, 0)), ip, n + 1, fly - 1)
  {
    assert Upto(fly) - {fly - 1} == Upto(fly - 1);
  }

  lemma OneMoreCheck(events: seq<Event>, ip: Ip, c: nat, n: nat, fly: nat) returns (all: seq<Event>)
    requires Stands(events, ip, c, n, fly) && n < MAX_FAILURES && fly < c
    ensures Stands(all, ip, c, n, fly + 1)
  {
    CheckFlies(After(events), ip, n, fly);
    Grows(events, Checks(ip, fly, 0), ip, 0, c);
    all := events + [Checks(ip, fly, 0)];
  }

  lemma OneMoreFailure(events: seq<Event>, ip: Ip, c: nat, n: nat, fly: nat) returns (all: seq<Event>)
    requires Stands(events, ip, c, n, fly) && 0 < fly <= c
    ensures Stands(all, ip, c, n + 1, fly - 1)
  {
    FailureLands(After(events), ip, n, fly);
    Grows(events, Records(ip, fly - 1, Failure, 0), ip, 0, c);
    all := events + [Records(ip, fly - 1, Failure, 0)];
  }

  /** Four logins one after the other, all of which fail. */
  lemma FourFailures(ip: Ip, c: nat) returns (events: seq<Event>)
    requires c >= 1
    ensures Stands(events, ip, c, MAX_FAILURES - 1, 0)
  {
    events := [];
    for i := 0 to MAX_FAILURES - 1
      invariant Stands(events, ip, c, i, 0)
    {
      events := OneMoreCheck(events, ip, c, i, 0);
      events := OneMoreFailure(events, ip, c, i, 1);
    }
  }

  /** `c` logins let in together, all of which fail. */
  lemma Wave(before: seq<Event>, ip: Ip, c: nat) returns (events: seq<Event>)
    requires Stands(before, ip, c, MAX_FAILURES - 1, 0)
    ensures Stands(events, ip, c, MAX_FAILURES - 1 + c, 0)
  {
    events := before;
    for i := 0 to c
      invariant Stands(events, ip, c, MAX_FAILURES - 1, i)
    {
      events := OneMoreCheck(events, ip, c, MAX_FAILURES - 1, i);
    }
    for i := 0 to c
      invariant Stands(events, ip, c, MAX_FAILURES - 1 + i, c - i)
    {
      events := OneMoreFailure(events, ip, c, MAX_FAILURES - 1 + i, c - i);
    }
  }

  lemma BoundAttained(ip: Ip, c: nat) returns (events: seq<Event>)
    requires c >= 1
    ensures Forward(events, ip) && NeverSucceeds(events, ip) && AtMost(events, ip, c)
    ensures FailuresIn(events, ip, 0) == MAX_FAILURES + c - 1
  {
    events := FourFailures(ip, c);
    events := Wave(events, ip, c);
  }

  /** No run with at most `c` logins in flight and no success exceeds `bound` failures in a minute. */
  ghost predicate Bounded(ip: Ip, c: nat, bound: nat) {
    forall events, t ::
      Forward(events, ip) && NeverSucceeds(events, ip) && AtMost(events, ip, c) ==> FailuresIn(events, ip, t) <= bound
  }

  /** The least bound, for every number of logins in flight. */
  lemma LeastBound(ip: Ip, c: nat, bound: nat)
    ensures Bounded(ip, c, bound) <==> c == 0 || bound >= MAX_FAILURES + c - 1
  {
    if c == 0 {
      forall events, t | AtMost(events, ip, c)
        ensures FailuresIn(events, ip, t) <= bound
      {
        NoneRecorded(events, ip, t);
      }
    } else {
      var events := BoundAttained(ip, c);
      forall events, t | Forward(events, ip) && NeverSucceeds(events, ip) && AtMost(events, ip, c)
        ensures FailuresIn(events, ip, t) <= MAX_FAILURES + c - 1
      {
        LockoutBound(events, ip, t, c);
      }
    }
  }

  /** Five failures a minute is what the limiter enforces exactly when logins do not overlap. */
  lemma FiveIffSerial(ip: Ip, c: nat)
    ensures Bounded(ip, c, 5) <==> c <= 1
  {
    LeastBound(ip, c, 5);
  }

  // ----- Success starts over -----

  /** A login that succeeds leaves its source as if it had never failed, whatever was held against it,
      and lets in the next login at once; one that is abandoned leaves it as it was. */
  lemma SuccessClears(w: World, ip: Ip, login: nat, now: int, later: int)
    requires login in Flying(w, ip)
    ensures var x := Step(w, Records(ip, login, Success, now));
            && Get(x.attempts, ip) == Attempt(0, None) && Blocked(x.attempts, ip, later) == None
            && Flying(x, ip) == Flying(w, ip) - {login}
    ensures var x := Step(w, Records(ip, login, Abandoned, now));
            x.attempts == w.attempts && Flying(x, ip) == Flying(w, ip) - {login}
  {
  }

  // ----- Sources do not affect each other -----

  function Only(events: seq<Event>, ip: Ip): seq<Event> {
    if events == [] then []
    else
      var n := |events| - 1;
      Only(events[..n], ip) + if events[n].ip == ip then [events[n]] else []
  }

  /** The two worlds look the same to `ip`. */
  predicate Alike(w: World, v: World, ip: Ip) {
    Get(w.attempts, ip) == Get(v.attempts, ip) && Flying(w, ip) == Flying(v, ip)
  }

  /** A call reads and writes its own source's entry only. */
  lemma StepAlike(w: World, v: World, e: Event, ip: Ip)
    requires Alike(w, v, ip)
    ensures Alike(Step(w, e), if e.ip == ip then Step(v, e) else v, ip)
  {
  }

  lemma OnlySnoc(init: seq<Event>, e: Event, ip: Ip)
    ensures After(init + [e]) == Step(After(init), e)
    ensures var mine := Only(init, ip);
            && Only(init + [e], ip) == (if e.ip == ip then mine + [e] else mine)
            && After(Only(init + [e], ip)) == if e.ip == ip then Step(After(mine), e) else After(mine)
  {
    var mine := Only(init, ip);
    assert (init + [e])[..|init|] == init && (mine + [e])[..|mine|] == mine && mine + [] == mine;
  }

  lemma {:induction false} OwnEventsOnly(events: seq<Event>, ip: Ip)
    ensures Alike(After(events), After(Only(events, ip)), ip)
  {
    if events != [] {
      var init, e := events[..|events| - 1], events[|events| - 1];
      assert events == init + [e];
      OwnEventsOnly(init, ip);
      OnlySnoc(init, e, ip);
      StepAlike(After(init), After(Only(init, ip)), e, ip);
    }
  }

  /** What other sources do never changes a source's state, hence never a decision about it. */
  lemma SourcesIndependent(events: seq<Event>, ip: Ip, now: int)
    ensures Alike(After(events), After(Only(events, ip)), ip)
    ensures Blocked(After(events).attempts, ip, now) == Blocked(After(Only(events, ip)).attempts, ip, now)
  {
    OwnEventsOnly(events, ip);
  }
}
