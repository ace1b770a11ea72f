/** Overlapping event requests: each stamps its events one by one and appends them in one commit
    later, and the commits may come in any order. */
module OverlapSafety {
  import opened Prelude
  import opened EventLog
  import opened ListenSession
  import opened EventIngest
  import opened RestartSafety

  /** The sessions in memory, the log, and what each open request has stamped so far. */
  datatype Traffic = Traffic(sessions: map<int, Current>, log: Log, pending: map<nat, Batch>)

  datatype Move =
    | Stamps(request: nat, userId: int, p: Payload)
    | Commits(request: nat)

  function Step(t: Traffic, m: Move): Traffic {
    match m
    case Stamps(q, userId, p) =>
      if q in t.pending && t.pending[q].userId != userId then t
      else
        var span := SpanOf(p);
        var next := Advance(Resume(t.sessions, t.log, userId, true), span.startMs, span.endMs, LISTEN_SESSION_GAP_MS);
        var events := if q in t.pending then t.pending[q].events else [];
        Traffic(t.sessions[userId := next], t.log,
                t.pending[q := Batch(userId, events + [KeyedEvent(EventOf(p, next.id), p.clientId)])])
    case Commits(q) =>
      if q !in t.pending then t
      else t.(log := Appended(t.log, t.pending[q].userId, t.pending[q].events), pending := t.pending - {q})
  }

  function Run(t: Traffic, moves: seq<Move>): Traffic {
    if moves == [] then t else Step(Run(t, moves[..|moves| - 1]), moves[|moves| - 1])
  }

  // ----- Honest traffic -----

  /** The one time that a user's client id stands for. */
  type Times = (int, string) -> int

  ghost predicate OnTime(userId: int, e: Event, clientId: Option<string>, at: Times) {
    clientId.Some? ==> e.occurredAt == at(userId, clientId.value)
  }

  ghost predicate HonestLog(log: Log, at: Times) {
    forall r :: r in log && r.clientId.Some? ==> SessionOf(r.event).Some? && OnTime(r.userId, r.event, r.clientId, at)
  }

  ghost predicate HonestMove(m: Move, at: Times) {
    m.Stamps? ==> Stampable(m.p.metadata) && (m.p.clientId.Some? ==> m.p.occurredAt == at(m.userId, m.p.clientId.value))
  }

  // ----- What holds at every moment -----

  /** A stamped event that is no later than the session in memory and, if as late, in that session. */
  ghost predicate Fits(userId: int, e: KeyedEvent, cur: Current, at: Times) {
    && SessionOf(e.event).Some? && OnTime(userId, e.event, e.clientId, at)
    && e.event.occurredAt <= cur.lastMs
    && (e.event.occurredAt == cur.lastMs ==> SessionOf(e.event) == Some(cur.id))
  }

  ghost predicate AllFit(b: Batch, cur: Current, at: Times) {
    forall i :: 0 <= i < |b.events| ==> Fits(b.userId, b.events[i], cur, at)
  }

  /** The batch carries an event as late as the session in memory. */
  ghost predicate Carries(b: Batch, cur: Current) {
    exists i :: 0 <= i < |b.events| && b.events[i].event.occurredAt == cur.lastMs
  }

  ghost predicate OnItsWay(t: Traffic, userId: int)
    requires userId in t.sessions
  {
    exists q :: q in t.pending && t.pending[q].userId == userId && Carries(t.pending[q], t.sessions[userId])
  }

  /** The log trails memory, pending events fit it, and whoever the log is behind for has a pending
      event that will bring it level. */
  ghost predicate Held(t: Traffic, at: Times) {
    && HonestLog(t.log, at)
    && (forall q :: q in t.pending ==>
          t.pending[q].userId in t.sessions && AllFit(t.pending[q], t.sessions[t.pending[q].userId], at))
    && (forall u :: u in t.sessions ==>
          && Trails(Recorded(t.log, u), Some(t.sessions[u]))
          && (Recorded(t.log, u) == Some(t.sessions[u]) || OnItsWay(t, u)))
  }

  // ----- Stamping -----

  /** Moving the session forward keeps what fits it; either it stands, or it is as late as the span. */
  lemma StillFits(b: Batch, cur: Current, span: Span, at: Times)
    requires AllFit(b, cur, at) && span.startMs <= span.endMs
    ensures AllFit(b, Advance(Some(cur), span.startMs, span.endMs, LISTEN_SESSION_GAP_MS), at)
  {
  }

  /** The session and the stamped event that a move produces. */
  function NextOf(t: Traffic, userId: int, p: Payload): Current {
    var span := SpanOf(p);
    Advance(Resume(t.sessions, t.log, userId, true), span.startMs, span.endMs, LISTEN_SESSION_GAP_MS)
  }

  function StampedOf(t: Traffic, userId: int, p: Payload): KeyedEvent {
    KeyedEvent(EventOf(p, NextOf(t, userId, p).id), p.clientId)
  }

  lemma NewFits(t: Traffic, userId: int, p: Payload, at: Times)
    requires Stampable(p.metadata) && (p.clientId.Some? ==> p.occurredAt == at(userId, p.clientId.value))
    ensures Fits(userId, StampedOf(t, userId, p), NextOf(t, userId, p), at)
    ensures var prev, next := Resume(t.sessions, t.log, userId, true), NextOf(t, userId, p);
            prev == Some(next) || next.lastMs == p.occurredAt
  {
    StampReadsBack(Event(p.eventType, p.trackId, p.occurredAt, p.metadata, p.sessionId), NextOf(t, userId, p).id);
  }

  lemma StampsFit(t: Traffic, q: nat, userId: int, p: Payload, at: Times, r: nat)
    requires Held(t, at) && HonestMove(Stamps(q, userId, p), at) && (q in t.pending ==> t.pending[q].userId == userId)
    requires r in Step(t, Stamps(q, userId, p)).pending
    ensures var x := Step(t, Stamps(q, userId, p));
            x.pending[r].userId in x.sessions && AllFit(x.pending[r], x.sessions[x.pending[r].userId], at)
  {
    NewFits(t, userId, p, at);
    if r in t.pending && t.pending[r].userId == userId {
      StillFits(t.pending[r], t.sessions[userId], SpanOf(p), at);
    }
  }

  /** A request that grows still carries what it carried. */
  lemma StillOnItsWay(t: Traffic, q: nat, userId: int, p: Payload, u: int)
    requires u in t.sessions && OnItsWay(t, u) && (q in t.pending ==> t.pending[q].userId == userId)
    requires u == userId ==> NextOf(t, userId, p) == t.sessions[u]
    ensures OnItsWay(Step(t, Stamps(q, userId, p)), u)
  {
    var x := Step(t, Stamps(q, userId, p));
    var r :| r in t.pending && t.pending[r].userId == u && Carries(t.pending[r], t.sessions[u]);
    var i :| 0 <= i < |t.pending[r].events| && t.pending[r].events[i].event.occurredAt == t.sessions[u].lastMs;
    assert r in x.pending && x.pending[r].userId == u && x.pending[r].events[i] == t.pending[r].events[i];
    assert Carries(x.pending[r], x.sessions[u]);
  }

  lemma StampsLevel(t: Traffic, q: nat, userId: int, p: Payload, at: Times, u: int)
    requires Held(t, at) && HonestMove(Stamps(q, userId, p), at) && (q in t.pending ==> t.pending[q].userId == userId)
    requires u in Step(t, Stamps(q, userId, p)).sessions
    ensures var x := Step(t, Stamps(q, userId, p));
            && Trails(Recorded(x.log, u), Some(x.sessions[u]))
            && (Recorded(x.log, u) == Some(x.sessions[u]) || OnItsWay(x, u))
  {
    var x := Step(t, Stamps(q, userId, p));
    NewFits(t, userId, p, at);
    if u == userId && x.sessions[u].lastMs == p.occurredAt {
      EventTrails(t.log, userId, Resume(t.sessions, t.log, userId, true), p);
      var events := x.pending[q].events;
      assert events[|events| - 1] == StampedOf(t, userId, p);
      assert Carries(x.pending[q], x.sessions[u]);
    } else if u in t.sessions && Recorded(t.log, u) != Some(t.sessions[u]) {
      StillOnItsWay(t, q, userId, p, u);
    }
  }

  lemma StampsHeld(t: Traffic, q: nat, userId: int, p: Payload, at: Times)
    requires Held(t, at) && HonestMove(Stamps(q, userId, p), at)
    ensures Held(Step(t, Stamps(q, userId, p)), at)
  {
    if q in t.pending ==> t.pending[q].userId == userId {
      var x := Step(t, Stamps(q, userId, p));
      forall r | r in x.pending
        ensures x.pending[r].userId in x.sessions && AllFit(x.pending[r], x.sessions[x.pending[r].userId], at)
      {
        StampsFit(t, q, userId, p, at, r);
      }
      forall u | u in x.sessions
        ensures Trails(Recorded(x.log, u), Some(x.sessions[u])) && (Recorded(x.log, u) == Some(x.sessions[u]) || OnItsWay(x, u))
      {
        StampsLevel(t, q, userId, p, at, u);
      }
    }
  }

  // ----- Committing -----

  lemma RecordedSnoc(log: Log, r: Row, userId: int)
    ensures Recorded(log + [r], userId)
            == var rec, id := Recorded(log, userId), SessionOf(r.event);
               if r.userId != userId || id.None? || (rec.Some? && rec.value.lastMs > r.event.occurredAt) then rec
               else Some(Current(id.value, r.event.occurredAt))
  {
    assert (log + [r])[..|log|] == log;
  }

  /** One event committed: the log still trails, and is level if it was or if the event is as late
      as memory, be it that the event lands or that it is on record already. */
  lemma OneCommits(log: Log, userId: int, e: KeyedEvent, cur: Current, at: Times)
    requires HonestLog(log, at) && Trails(Recorded(log, userId), Some(cur)) && Fits(userId, e, cur, at)
    ensures var after := if Lands(log, userId, e) then log + [Row(userId, e.event, e.clientId)] else log;
            && HonestLog(after, at) && Trails(Recorded(after, userId), Some(cur))
            && (Recorded(log, userId) == Some(cur) || e.event.occurredAt == cur.lastMs ==> Recorded(after, userId) == Some(cur))
  {
    if Lands(log, userId, e) {
      RecordedSnoc(log, Row(userId, e.event, e.clientId), userId);
    } else {
      var r :| r in log && r.userId == userId && r.clientId == Some(e.clientId.value);
      RecordedCovers(log, userId, r);
    }
  }

  lemma {:induction false} BatchCommits(log: Log, b: Batch, cur: Current, at: Times)
    requires HonestLog(log, at) && Trails(Recorded(log, b.userId), Some(cur)) && AllFit(b, cur, at)
    ensures var after := Appended(log, b.userId, b.events);
            && HonestLog(after, at) && Trails(Recorded(after, b.userId), Some(cur))
            && (Recorded(log, b.userId) == Some(cur) || Carries(b, cur) ==> Recorded(after, b.userId) == Some(cur))
    decreases |b.events|
  {
    if b.events != [] {
      var n := |b.events| - 1;
      var init := Batch(b.userId, b.events[..n]);
      assert AllFit(init, cur, at);
      BatchCommits(log, init, cur, at);
      OneCommits(Appended(log, b.userId, init.events), b.userId, b.events[n], cur, at);
      if Carries(b, cur) && b.events[n].event.occurredAt != cur.lastMs {
        var i :| 0 <= i < |b.events| && b.events[i].event.occurredAt == cur.lastMs;
        assert init.events[i] == b.events[i];
        assert Carries(init, cur);
      }
    }
  }

  lemma CommitsLevel(t: Traffic, q: nat, at: Times, u: int)
    requires Held(t, at) && q in t.pending && u in t.sessions
    ensures var x := Step(t, Commits(q));
            && Trails(Recorded(x.log, u), Some(x.sessions[u]))
            && (Recorded(x.log, u) == Some(x.sessions[u]) || OnItsWay(x, u))
  {
    var x, b := Step(t, Commits(q)), t.pending[q];
    if b.userId == u {
      BatchCommits(t.log, b, t.sessions[u], at);
    } else {
      OtherUsersKept(t.log, b.userId, b.events, u);
    }
    if Recorded(x.log, u) != Some(x.sessions[u]) {
      var r :| r in t.pending && t.pending[r].userId == u && Carries(t.pending[r], t.sessions[u]);
      assert r in x.pending && x.pending[r] == t.pending[r];
    }
  }

  lemma CommitsHeld(t: Traffic, q: nat, at: Times)
    requires Held(t, at)
    ensures Held(Step(t, Commits(q)), at)
  {
    if q in t.pending {
      var x, b := Step(t, Commits(q)), t.pending[q];
      BatchCommits(t.log, b, t.sessions[b.userId], at);
      forall u | u in x.sessions
        ensures Trails(Recorded(x.log, u), Some(x.sessions[u])) && (Recorded(x.log, u) == Some(x.sessions[u]) || OnItsWay(x, u))
      {
        CommitsLevel(t, q, at, u);
      }
    }
  }

  // ----- Whole runs -----

  ghost predicate HonestMoves(moves: seq<Move>, at: Times) {
    forall i :: 0 <= i < |moves| ==> HonestMove(moves[i], at)
  }

  lemma {:induction false} RunHeld(t: Traffic, moves: seq<Move>, at: Times)
    requires Held(t, at) && HonestMoves(moves, at)
    ensures Held(Run(t, moves), at)
  {
    if moves != [] {
      var init, m := moves[..|moves| - 1], moves[|moves| - 1];
      RunHeld(t, init, at);
      match m
      case Stamps(q, userId, p) => StampsHeld(Run(t, init), q, userId, p, at);
      case Commits(q) => CommitsHeld(Run(t, init), q, at);
    }
  }

  /** From a server at rest whose memory is what the log says, with honest clients: whenever a user
      has no request open, the user's newest row gives the session in memory, however requests
      overlapped and in whatever order they committed. */
  lemma CommitsCatchUp(t: Traffic, moves: seq<Move>, at: Times, userId: int)
    requires t.pending == map[] && HonestLog(t.log, at) && HonestMoves(moves, at)
    requires forall u :: u in t.sessions ==> Recorded(t.log, u) == Some(t.sessions[u])
    ensures var x := Run(t, moves);
            (forall q :: q in x.pending ==> x.pending[q].userId != userId) ==>
              Resume(x.sessions, x.log, userId, true) == Recorded(x.log, userId)
  {
    RunHeld(t, moves, at);
  }
}
