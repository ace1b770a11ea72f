/** Listening sessions under restarts, crashes and failed appends: when a loss of memory shows in
    the stamps, and when it does not. */
module RestartSafety {
  import opened Prelude
  import opened EventLog
  import opened ListenSession
  import opened EventIngest

  // ----- One event -----

  function StampedRow(userId: int, p: Payload, id: string): Row {
    Row(userId, EventOf(p, id), p.clientId)
  }

  /** One event from a synced state: memory and log stay in step exactly when the event is
      recorded with its stamp, or ended no later than what was already recorded. */
  lemma EventSyncIff(log: Log, userId: int, p: Payload)
    ensures var cur, span := Recorded(log, userId), SpanOf(p);
            var next := Advance(cur, span.startMs, span.endMs, LISTEN_SESSION_GAP_MS);
            var e := KeyedEvent(EventOf(p, next.id), p.clientId);
            Recorded(Appended(log, userId, [e]), userId) == Some(next) <==>
            (Lands(log, userId, e) && Stampable(p.metadata)) || (cur.Some? && span.endMs <= cur.value.lastMs)
  {
    var cur, span := Recorded(log, userId), SpanOf(p);
    AppendOne(log, userId, p, Advance(cur, span.startMs, span.endMs, LISTEN_SESSION_GAP_MS).id);
  }

  /** One event appended: the newest session on record is then its own, if it was recorded with
      its stamp and is not older than what was there, and else the one before. */
  lemma AppendOne(log: Log, userId: int, p: Payload, id: string)
    ensures var e, cur := KeyedEvent(EventOf(p, id), p.clientId), Recorded(log, userId);
            Recorded(Appended(log, userId, [e]), userId)
            == if Lands(log, userId, e) && Stampable(p.metadata) && (cur.None? || cur.value.lastMs <= p.occurredAt)
               then Some(Current(id, p.occurredAt)) else cur
  {
    var e := KeyedEvent(EventOf(p, id), p.clientId);
    assert [e][..0] == [];
    assert Appended(log, userId, []) == log;
    assert (log + [Row(userId, e.event, e.clientId)])[..|log|] == log;
    StampReadsBack(Event(p.eventType, p.trackId, p.occurredAt, p.metadata, p.sessionId), id);
  }

  /** The same told by what the user would see: a restart after the event can never change which
      session a later event is stamped with exactly under that condition. */
  lemma RestartVisibleIff(log: Log, userId: int, p: Payload, start: int)
    requires var cur := Recorded(log, userId); cur.Some? ==> Named(cur.value, start)
    ensures var cur, span := Recorded(log, userId), SpanOf(p);
            var next := Advance(cur, span.startMs, span.endMs, LISTEN_SESSION_GAP_MS);
            var e := KeyedEvent(EventOf(p, next.id), p.clientId);
            var resumed := Recorded(Appended(log, userId, [e]), userId);
            (forall later: Span :: Advance(Some(next), later.startMs, later.endMs, LISTEN_SESSION_GAP_MS).id
                                == Advance(resumed, later.startMs, later.endMs, LISTEN_SESSION_GAP_MS).id) <==>
            (Lands(log, userId, e) && Stampable(p.metadata)) || (cur.Some? && span.endMs <= cur.value.lastMs)
  {
    EventSyncIff(log, userId, p);
    var cur, span := Recorded(log, userId), SpanOf(p);
    var next := Advance(cur, span.startMs, span.endMs, LISTEN_SESSION_GAP_MS);
    var e := KeyedEvent(EventOf(p, next.id), p.clientId);
    var resumed := Recorded(Appended(log, userId, [e]), userId);
    if !(Lands(log, userId, e) && Stampable(p.metadata)) && (cur.None? || span.endMs > cur.value.lastMs) {
      AppendOne(log, userId, p, next.id);
      var at := span.endMs + LISTEN_SESSION_GAP_MS;
      var later := Span(at, at);
      assert Advance(Some(next), at, at, LISTEN_SESSION_GAP_MS).id == next.id;
      assert Advance(resumed, at, at, LISTEN_SESSION_GAP_MS).id == SessionId(at);
      if next.id == SessionId(at) {
        SessionIdInjective(at, if cur.Some? && next.id == cur.value.id then start else span.startMs);
      }
      assert Advance(Some(next), later.startMs, later.endMs, LISTEN_SESSION_GAP_MS).id
          != Advance(resumed, later.startMs, later.endMs, LISTEN_SESSION_GAP_MS).id;
    }
  }

  // ----- The log never runs ahead of memory -----

  /** What the log records of a session: the session itself, or something older. */
  predicate Trails(rec: Option<Current>, cur: Option<Current>) {
    rec.Some? ==> cur.Some? && (rec == cur || rec.value.lastMs < cur.value.lastMs)
  }

  /** Whether or not it is recorded, an event leaves the log trailing. */
  lemma EventTrails(log: Log, userId: int, cur: Option<Current>, p: Payload)
    requires Trails(Recorded(log, userId), cur)
    ensures var span := SpanOf(p);
            var next := Advance(cur, span.startMs, span.endMs, LISTEN_SESSION_GAP_MS);
            && Trails(Recorded(log, userId), Some(next))
            && Trails(Recorded(Appended(log, userId, [KeyedEvent(EventOf(p, next.id), p.clientId)]), userId), Some(next))
  {
    var span := SpanOf(p);
    AppendOne(log, userId, p, Advance(cur, span.startMs, span.endMs, LISTEN_SESSION_GAP_MS).id);
  }

  /** A stamped batch grows by its last event. */
  lemma BatchSnoc(log: Log, userId: int, prev: Option<Current>, ps: seq<Payload>)
    requires ps != []
    ensures var init, p := ps[..|ps| - 1], ps[|ps| - 1];
            var span, cur := SpanOf(p), Open(prev, Spans(init));
            var next := Advance(cur, span.startMs, span.endMs, LISTEN_SESSION_GAP_MS);
            var l := Appended(log, userId, StampAll(prev, init));
            && Open(prev, Spans(ps)) == Some(next)
            && Appended(log, userId, StampAll(prev, ps)) == Appended(l, userId, [KeyedEvent(EventOf(p, next.id), p.clientId)])
  {
    var n := |ps| - 1;
    var l := Appended(log, userId, StampAll(prev, ps[..n]));
    SpansSnoc(prev, ps, n);
    assert ps[..n + 1] == ps;
    var e := KeyedEvent(EventOf(ps[n], Open(prev, Spans(ps)).value.id), ps[n].clientId);
    assert [e][..0] == [] && Appended(l, userId, []) == l;
    assert (StampAll(prev, ps[..n]) + [e])[..|StampAll(prev, ps[..n])|] == StampAll(prev, ps[..n]);
  }

  lemma {:induction false} BatchTrails(log: Log, userId: int, prev: Option<Current>, ps: seq<Payload>)
    requires Trails(Recorded(log, userId), prev)
    ensures Trails(Recorded(log, userId), Open(prev, Spans(ps)))
    ensures Trails(Recorded(Appended(log, userId, StampAll(prev, ps)), userId), Open(prev, Spans(ps)))
  {
    if ps != [] {
      var init, p := ps[..|ps| - 1], ps[|ps| - 1];
      BatchTrails(log, userId, prev, init);
      BatchSnoc(log, userId, prev, ps);
      EventTrails(log, userId, Open(prev, Spans(init)), p);
      EventTrails(Appended(log, userId, StampAll(prev, init)), userId, Open(prev, Spans(init)), p);
    }
  }

  ghost predicate LogTrails(w: World) {
    forall u :: u in w.sessions ==> Trails(Recorded(w.log, u), Some(w.sessions[u]))
  }

  /** The resume lookup succeeds whenever it would have found something. */
  predicate LookupWorks(w: World, a: Action) {
    !a.Restart? ==> a.env.found || a.userId in w.sessions || Recorded(w.log, a.userId).None?
  }

  lemma {:induction false} OtherUsersKept(log: Log, userId: int, events: seq<KeyedEvent>, other: int)
    requires other != userId
    ensures Recorded(Appended(log, userId, events), other) == Recorded(log, other)
  {
    if events != [] {
      OtherUsersKept(log, userId, events[..|events| - 1], other);
    }
  }

  lemma StepTrails(w: World, a: Action)
    requires LogTrails(w) && LookupWorks(w, a)
    ensures LogTrails(Step(w, a))
  {
    if a.Submit? && Admitted(a.role, a.ps) {
      BatchTrails(w.log, a.userId, Resume(w.sessions, w.log, a.userId, a.env.found), a.ps);
      forall u | u in w.sessions && u != a.userId
        ensures Recorded(Step(w, a).log, u) == Recorded(w.log, u)
      {
        OtherUsersKept(w.log, a.userId, StampedBatch(w, a.userId, a.ps, a.env), u);
      }
    }
  }

  // ----- A loss of memory shows exactly when the log trails behind -----

  /** The newest stamped row of every user is as late as the last activity seen of them. */
  predicate Settled(w: World) {
    forall u :: u in w.sessions ==> Recorded(w.log, u).Some? && Recorded(w.log, u).value.lastMs == w.sessions[u].lastMs
  }

  /** From any state a run can be in, losing memory can change the session of some later event
      exactly when the user's newest stamped row is older than the last activity seen of them. */
  lemma LossVisibleIff(w: World, userId: int, start: int)
    requires LogTrails(w) && userId in w.sessions && Named(w.sessions[userId], start)
    ensures var cur, rec := w.sessions[userId], Recorded(w.log, userId);
            (forall later: Span :: Advance(Some(cur), later.startMs, later.endMs, LISTEN_SESSION_GAP_MS).id
                                == Advance(rec, later.startMs, later.endMs, LISTEN_SESSION_GAP_MS).id) <==>
            rec.Some? && rec.value.lastMs == cur.lastMs
  {
    var cur, rec := w.sessions[userId], Recorded(w.log, userId);
    if rec.None? || rec.value.lastMs != cur.lastMs {
      var at := cur.lastMs + LISTEN_SESSION_GAP_MS;
      var later := Span(at, at);
      if SessionId(at) == cur.id {
        SessionIdInjective(at, start);
      }
      assert Advance(Some(cur), later.startMs, later.endMs, LISTEN_SESSION_GAP_MS).id
          != Advance(rec, later.startMs, later.endMs, LISTEN_SESSION_GAP_MS).id;
    }
  }

  /** The action loses memory. */
  predicate Forgets(a: Action) { !a.Submit? }

  /** The state in which an action that loses memory meets its end. */
  function AtLoss(w: World, a: Action): World {
    if a.SubmitThenCrash? then Submitted(w, a.userId, a.role, a.ps, a.env) else w
  }

  /** Whenever memory is lost the log is up to date, and it can be read when it is needed. */
  predicate SettledRun(w: World, acts: seq<Action>)
    decreases |acts|
  {
    acts == [] ||
    (&& LookupWorks(w, acts[0])
     && (Forgets(acts[0]) ==> Settled(AtLoss(w, acts[0])))
     && SettledRun(Step(w, acts[0]), acts[1..]))
  }

  /** The same requests on a server that never goes down. */
  function Calm(acts: seq<Action>): seq<Action> {
    if acts == [] then []
    else
      var rest := Calm(acts[1..]);
      match acts[0]
      case Restart => rest
      case SubmitThenCrash(userId, role, ps, env) => [Submit(userId, role, ps, env)] + rest
      case Submit(userId, role, ps, env) => [acts[0]] + rest
  }

  /** Same log, and every user is in the same session; `v` remembers at least the users `w` does. */
  ghost predicate Alike(w: World, v: World) {
    && w.log == v.log && w.sessions.Keys <= v.sessions.Keys
    && forall u :: Resume(w.sessions, w.log, u, true) == Resume(v.sessions, v.log, u, true)
  }

  lemma LossKeepsAlike(w: World, v: World)
    requires Alike(w, v) && LogTrails(w) && Settled(w)
    ensures Alike(w.(sessions := map[]), v)
  {
    forall u
      ensures Recorded(w.log, u) == Resume(v.sessions, v.log, u, true)
    {
      assert Resume(w.sessions, w.log, u, true) == Resume(v.sessions, v.log, u, true);
    }
  }

  lemma SubmitKeepsAlike(w: World, v: World, a: Action)
    requires Alike(w, v) && a.Submit? && LookupWorks(w, a)
    ensures Alike(Step(w, a), Step(v, a))
  {
    if Admitted(a.role, a.ps) {
      var prev := Resume(w.sessions, w.log, a.userId, true);
      assert Resume(w.sessions, w.log, a.userId, a.env.found) == prev;
      assert Resume(v.sessions, v.log, a.userId, true) == prev;
      assert Resume(v.sessions, v.log, a.userId, a.env.found) == prev;
      forall u
        ensures Resume(Step(w, a).sessions, Step(w, a).log, u, true) == Resume(Step(v, a).sessions, Step(v, a).log, u, true)
      {
        assert Resume(w.sessions, w.log, u, true) == Resume(v.sessions, v.log, u, true);
        if u != a.userId {
          OtherUsersKept(w.log, a.userId, StampAll(prev, a.ps), u);
        }
      }
    }
  }

  /** Restarts and crashes are invisible to sessions: if the log is up to date whenever memory is
      lost, the log, stamps and all, is the one a server that never went down would have written,
      and both would stamp the next event of any user alike. */
  lemma {:induction false} RestartsInvisible(w: World, v: World, acts: seq<Action>)
    requires Alike(w, v) && LogTrails(w) && SettledRun(w, acts)
    ensures Alike(Run(w, acts), Run(v, Calm(acts)))
    decreases |acts|
  {
    if acts != [] {
      var a := acts[0];
      StepTrails(w, a);
      if a.Restart? {
        LossKeepsAlike(w, v);
        RestartsInvisible(Step(w, a), v, acts[1..]);
      } else {
        var b := Submit(a.userId, a.role, a.ps, a.env);
        StepTrails(w, b);
        SubmitKeepsAlike(w, v, b);
        if a.SubmitThenCrash? {
          LossKeepsAlike(Step(w, b), Step(v, b));
        }
        RestartsInvisible(Step(w, a), Step(v, b), acts[1..]);
        assert Calm(acts) == [b] + Calm(acts[1..]);
      }
    }
  }

  // ----- Honest clients keep the log up to date -----

  /** Every row with a client id can be traced to its session; older rows carry neither. */
  ghost predicate KeyedStamped(log: Log) {
    forall r :: r in log && r.clientId.Some? ==> SessionOf(r.event).Some?
  }

  ghost predicate SameClientId(a: Option<string>, b: Option<string>) { a.Some? && a == b }

  /** Clients send object metadata or none, and a resent id carries the time it had before. */
  ghost predicate Honest(log: Log, userId: int, ps: seq<Payload>) {
    && (forall i :: 0 <= i < |ps| ==> Stampable(ps[i].metadata))
    && (forall i, r :: 0 <= i < |ps| && r in log && r.userId == userId && SameClientId(r.clientId, ps[i].clientId) ==>
          r.event.occurredAt == ps[i].occurredAt)
    && (forall i, j :: 0 <= i < j < |ps| && SameClientId(ps[i].clientId, ps[j].clientId) ==>
          ps[i].occurredAt == ps[j].occurredAt)
  }

  lemma RecordedCovers(log: Log, userId: int, r: Row)
    requires r in log && r.userId == userId && SessionOf(r.event).Some?
    ensures Recorded(log, userId).Some? && r.event.occurredAt <= Recorded(log, userId).value.lastMs
  {
    NoneStamped(log, userId);
    var i := LastIsNewest(log, userId);
    var j :| 0 <= j < |log| && log[j] == r;
  }

  /** Rows after a batch: the old ones, and honest copies of the batch's events. */
  lemma {:induction false} RowsAfter(log: Log, userId: int, prev: Option<Current>, ps: seq<Payload>, r: Row)
    requires forall i :: 0 <= i < |ps| ==> Stampable(ps[i].metadata)
    requires r in Appended(log, userId, StampAll(prev, ps))
    ensures r in log ||
            (r.userId == userId && SessionOf(r.event).Some?
             && exists i :: 0 <= i < |ps| && r.clientId == ps[i].clientId && r.event.occurredAt == ps[i].occurredAt)
  {
    if ps != [] {
      var n := |ps| - 1;
      var events := StampAll(prev, ps);
      assert events[..n] == StampAll(prev, ps[..n]) by { StampAllLength(prev, ps[..n]); }
      StampAllLength(prev, ps);
      var id := Open(prev, Spans(ps)).value.id;
      if r in Appended(log, userId, StampAll(prev, ps[..n])) {
        RowsAfter(log, userId, prev, ps[..n], r);
      } else {
        assert r == StampedRow(userId, ps[n], id);
        StampReadsBack(Event(ps[n].eventType, ps[n].trackId, ps[n].occurredAt, ps[n].metadata, ps[n].sessionId), id);
      }
    }
  }

  lemma HonestPrefix(log: Log, userId: int, ps: seq<Payload>, n: nat)
    requires Honest(log, userId, ps) && n <= |ps|
    ensures Honest(log, userId, ps[..n])
  {
    assert forall i :: 0 <= i < n ==> ps[..n][i] == ps[i];
  }

  /** What a batch leaves: the log yields exactly the session that memory holds. */
  ghost predicate InStep(log: Log, userId: int, ps: seq<Payload>) {
    var prev := Recorded(log, userId);
    var after := Appended(log, userId, StampAll(prev, ps));
    Recorded(after, userId) == Open(prev, Spans(ps)) && KeyedStamped(after)
  }

  lemma InStepSnoc(log: Log, userId: int, init: seq<Payload>, p: Payload)
    requires KeyedStamped(log) && Honest(log, userId, init + [p]) && InStep(log, userId, init)
    ensures InStep(log, userId, init + [p])
  {
    var prev := Recorded(log, userId);
    assert (init + [p])[..|init|] == init && (init + [p])[|init|] == p;
    BatchSnoc(log, userId, prev, init + [p]);
    var l := Appended(log, userId, StampAll(prev, init));
    LastEventSyncs(log, userId, prev, init, p, l);
    OneStamped(l, userId, p, Open(prev, Spans(init + [p])).value.id);
  }

  /** After an honest batch the log yields exactly the session that memory holds. */
  lemma {:induction false} BatchSyncs(log: Log, userId: int, ps: seq<Payload>)
    requires KeyedStamped(log) && Honest(log, userId, ps)
    ensures InStep(log, userId, ps)
  {
    if ps != [] {
      var init, p := ps[..|ps| - 1], ps[|ps| - 1];
      assert ps == init + [p];
      HonestPrefix(log, userId, ps, |ps| - 1);
      BatchSyncs(log, userId, init);
      InStepSnoc(log, userId, init, p);
    }
  }

  lemma OneStamped(log: Log, userId: int, p: Payload, id: string)
    requires KeyedStamped(log) && Stampable(p.metadata)
    ensures KeyedStamped(Appended(log, userId, [KeyedEvent(EventOf(p, id), p.clientId)]))
  {
    var e := KeyedEvent(EventOf(p, id), p.clientId);
    assert [e][..0] == [] && Appended(log, userId, []) == log;
    StampReadsBack(Event(p.eventType, p.trackId, p.occurredAt, p.metadata, p.sessionId), id);
  }

  lemma LastEventSyncs(log: Log, userId: int, prev: Option<Current>, init: seq<Payload>, p: Payload, l: Log)
    requires KeyedStamped(log) && KeyedStamped(l) && Honest(log, userId, init + [p])
    requires prev == Recorded(log, userId) && l == Appended(log, userId, StampAll(prev, init))
    ensures var cur, span := Recorded(l, userId), SpanOf(p);
            var next := Advance(cur, span.startMs, span.endMs, LISTEN_SESSION_GAP_MS);
            Recorded(Appended(l, userId, [KeyedEvent(EventOf(p, next.id), p.clientId)]), userId) == Some(next)
  {
    EventSyncIff(l, userId, p);
    var all := init + [p];
    assert all[|init|] == p;
    assert forall i :: 0 <= i < |init| ==> all[i] == init[i];
    if p.clientId.Some? && Taken(l, userId, p.clientId.value) {
      var r :| r in l && r.userId == userId && r.clientId == Some(p.clientId.value);
      RowsAfter(log, userId, prev, init, r);
      assert SameClientId(r.clientId, all[|init|].clientId);
      if r !in log {
        var i :| 0 <= i < |init| && r.clientId == init[i].clientId && r.event.occurredAt == init[i].occurredAt;
        assert SameClientId(all[i].clientId, all[|init|].clientId);
      }
      RecordedCovers(l, userId, r);
    }
  }

  /** Every admitted batch along the run is honest with respect to the log it meets, lookups
      work and appends succeed. */
  ghost predicate HonestRun(w: World, acts: seq<Action>)
    decreases |acts|
  {
    acts == [] ||
    (var a := acts[0];
     && (!a.Restart? && Admitted(a.role, a.ps) ==> a.env.commits && Honest(w.log, a.userId, a.ps))
     && (!a.Restart? ==> a.env.found)
     && HonestRun(Step(w, a), acts[1..]))
  }

  /** Memory holds exactly what the log does. */
  ghost predicate Synced(w: World) {
    forall u :: u in w.sessions ==> Recorded(w.log, u) == Some(w.sessions[u])
  }

  lemma SubmitSyncs(w: World, userId: int, role: Role, ps: seq<Payload>, env: Env)
    requires Synced(w) && KeyedStamped(w.log) && env.commits && env.found
    requires Admitted(role, ps) ==> Honest(w.log, userId, ps)
    ensures var x := Submitted(w, userId, role, ps, env); Synced(x) && KeyedStamped(x.log)
  {
    if Admitted(role, ps) {
      assert Resume(w.sessions, w.log, userId, true) == Recorded(w.log, userId);
      BatchSyncs(w.log, userId, ps);
      forall u | u in w.sessions && u != userId
        ensures Recorded(Submitted(w, userId, role, ps, env).log, u) == Some(w.sessions[u])
      {
        OtherUsersKept(w.log, userId, StampedBatch(w, userId, ps, env), u);
      }
    }
  }

  /** With honest clients and a log that can be reached, every run is settled. */
  lemma {:induction false} HonestSettles(w: World, acts: seq<Action>)
    requires Synced(w) && KeyedStamped(w.log) && HonestRun(w, acts)
    ensures SettledRun(w, acts)
    decreases |acts|
  {
    if acts != [] {
      var a := acts[0];
      if !a.Restart? && Admitted(a.role, a.ps) {
        SubmitSyncs(w, a.userId, a.role, a.ps, a.env);
      }
      HonestSettles(Step(w, a), acts[1..]);
    }
  }

  // ----- A closed session stays closed -----

  predicate StampedAt(log: Log, userId: int, i: int) {
    0 <= i < |log| && log[i].userId == userId && SessionOf(log[i].event).Some?
  }

  /** The session that the row is stamped with. */
  function StampAt(log: Log, userId: int, i: int): string
    requires StampedAt(log, userId, i)
  {
    SessionOf(log[i].event).value
  }

  /** Once a later row of the user carries another stamp, the earlier stamp does not appear again. */
  ghost predicate NeverRecurs(log: Log, userId: int) {
    forall i, j, k | i < j < k && StampedAt(log, userId, i) && StampedAt(log, userId, j) && StampedAt(log, userId, k) ::
      StampAt(log, userId, i) == StampAt(log, userId, k) ==> StampAt(log, userId, i) == StampAt(log, userId, j)
  }

  /** No other stamp follows one with this id. */
  ghost predicate IsLast(log: Log, userId: int, id: string) {
    forall i, j | i < j && StampedAt(log, userId, i) && StampedAt(log, userId, j) ::
      StampAt(log, userId, i) == id ==> StampAt(log, userId, j) == id
  }

  /** No stamp but the session's own starts later than the gap after its last activity. */
  ghost predicate OthersNear(log: Log, userId: int, c: Current) {
    forall i, s | StampedAt(log, userId, i) && StampAt(log, userId, i) == SessionId(s) ::
      StampAt(log, userId, i) == c.id || s <= c.lastMs + LISTEN_SESSION_GAP_MS
  }

  /** From `cur` on no session can open that the log is stamped with, `cur` itself apart: its rows
      are the last ones, other stamps start no later than the gap after its last activity, and its
      own start is too close for another session to come and go before it. */
  ghost predicate Ahead(log: Log, userId: int, cur: Option<Current>) {
    match cur
    case None => forall i :: !StampedAt(log, userId, i)
    case Some(c) =>
      && IsLast(log, userId, c.id)
      && OthersNear(log, userId, c)
      && (forall s | SessionId(s) == c.id :: s <= c.lastMs + 2 * LISTEN_SESSION_GAP_MS + 1)
  }

  ghost predicate Onward(log: Log, userId: int, cur: Option<Current>) {
    NeverRecurs(log, userId) && Ahead(log, userId, cur)
  }

  lemma AdvanceAhead(log: Log, userId: int, cur: Option<Current>, span: Span)
    requires Ahead(log, userId, cur) && span.startMs <= span.endMs
    ensures Ahead(log, userId, Some(Advance(cur, span.startMs, span.endMs, LISTEN_SESSION_GAP_MS)))
  {
    forall s | SessionId(s) == SessionId(span.startMs)
      ensures s == span.startMs
    {
      SessionIdInjective(s, span.startMs);
    }
  }

  /** One row more. */
  lemma StampsSnoc(log: Log, userId: int, r: Row, i: int)
    requires StampedAt(log + [r], userId, i)
    ensures if i < |log| then StampedAt(log, userId, i) && StampAt(log + [r], userId, i) == StampAt(log, userId, i)
            else i == |log| && SessionOf(r.event) == Some(StampAt(log + [r], userId, i))
  {
  }

  /** A row stamped with the open session, or with nothing. */
  lemma RowAhead(log: Log, userId: int, cur: Current, r: Row)
    requires Ahead(log, userId, Some(cur)) && SessionOf(r.event) in {None, Some(cur.id)}
    ensures Ahead(log + [r], userId, Some(cur))
  {
    forall i | StampedAt(log + [r], userId, i)
      ensures if i < |log| then StampedAt(log, userId, i) && StampAt(log + [r], userId, i) == StampAt(log, userId, i)
              else StampAt(log + [r], userId, i) == cur.id
    {
      StampsSnoc(log, userId, r, i);
    }
  }

  lemma RowNeverRecurs(log: Log, userId: int, cur: Current, r: Row)
    requires Onward(log, userId, Some(cur)) && SessionOf(r.event) in {None, Some(cur.id)}
    ensures NeverRecurs(log + [r], userId)
  {
    var l := log + [r];
    forall i, j, k | i < j < k && StampedAt(l, userId, i) && StampedAt(l, userId, j) && StampedAt(l, userId, k)
      ensures StampAt(l, userId, i) == StampAt(l, userId, k) ==> StampAt(l, userId, i) == StampAt(l, userId, j)
    {
      StampsSnoc(log, userId, r, i);
      StampsSnoc(log, userId, r, j);
      StampsSnoc(log, userId, r, k);
    }
  }

  lemma EventOnward(log: Log, userId: int, cur: Option<Current>, p: Payload)
    requires Onward(log, userId, cur)
    ensures var span := SpanOf(p);
            var next := Advance(cur, span.startMs, span.endMs, LISTEN_SESSION_GAP_MS);
            && Onward(log, userId, Some(next))
            && Onward(Appended(log, userId, [KeyedEvent(EventOf(p, next.id), p.clientId)]), userId, Some(next))
  {
    var span := SpanOf(p);
    var next := Advance(cur, span.startMs, span.endMs, LISTEN_SESSION_GAP_MS);
    AdvanceAhead(log, userId, cur, span);
    var e := KeyedEvent(EventOf(p, next.id), p.clientId);
    assert [e][..0] == [] && Appended(log, userId, []) == log;
    StampReadsBack(Event(p.eventType, p.trackId, p.occurredAt, p.metadata, p.sessionId), next.id);
    RowAhead(log, userId, next, StampedRow(userId, p, next.id));
    RowNeverRecurs(log, userId, next, StampedRow(userId, p, next.id));
  }

  lemma {:induction false} BatchOnward(log: Log, userId: int, prev: Option<Current>, ps: seq<Payload>)
    requires Onward(log, userId, prev)
    ensures Onward(log, userId, Open(prev, Spans(ps)))
    ensures Onward(Appended(log, userId, StampAll(prev, ps)), userId, Open(prev, Spans(ps)))
  {
    if ps != [] {
      var init, p := ps[..|ps| - 1], ps[|ps| - 1];
      BatchOnward(log, userId, prev, init);
      BatchSnoc(log, userId, prev, ps);
      EventOnward(log, userId, Open(prev, Spans(init)), p);
      EventOnward(Appended(log, userId, StampAll(prev, init)), userId, Open(prev, Spans(init)), p);
    }
  }

  /** Another user's rows do not matter. */
  lemma OtherOnward(log: Log, userId: int, events: seq<KeyedEvent>, other: int, cur: Option<Current>)
    requires other != userId && Onward(log, other, cur)
    ensures Onward(Appended(log, userId, events), other, cur)
  {
    AppendsFresh(log, userId, events);
    SameStamps(log, Appended(log, userId, events), other, cur);
  }

  lemma SameStamps(log: Log, after: Log, userId: int, cur: Option<Current>)
    requires Onward(log, userId, cur) && log <= after && forall i :: |log| <= i < |after| ==> after[i].userId != userId
    ensures Onward(after, userId, cur)
  {
    forall i | StampedAt(after, userId, i)
      ensures StampedAt(log, userId, i) && StampAt(after, userId, i) == StampAt(log, userId, i)
    {
    }
  }

  ghost predicate AllOnward(w: World) {
    forall u :: Onward(w.log, u, Resume(w.sessions, w.log, u, true))
  }

  lemma SubmitOnward(w: World, a: Action)
    requires AllOnward(w) && a.Submit? && LookupWorks(w, a)
    ensures AllOnward(Step(w, a))
  {
    if Admitted(a.role, a.ps) {
      var prev := Resume(w.sessions, w.log, a.userId, true);
      BatchOnward(w.log, a.userId, prev, a.ps);
      forall u | u != a.userId
        ensures Onward(Step(w, a).log, u, Resume(Step(w, a).sessions, Step(w, a).log, u, true))
      {
        OtherUsersKept(w.log, a.userId, StampAll(prev, a.ps), u);
        OtherOnward(w.log, a.userId, StampAll(prev, a.ps), u, Resume(w.sessions, w.log, u, true));
      }
    }
  }

  lemma LossOnward(w: World)
    requires AllOnward(w) && LogTrails(w) && Settled(w)
    ensures AllOnward(Lost(w))
  {
    forall u
      ensures Resume(map[], w.log, u, true) == Resume(w.sessions, w.log, u, true)
    {
    }
  }

  lemma {:induction false} RunOnward(w: World, acts: seq<Action>)
    requires AllOnward(w) && LogTrails(w) && SettledRun(w, acts)
    ensures AllOnward(Run(w, acts))
    decreases |acts|
  {
    if acts != [] {
      var a := acts[0];
      StepTrails(w, a);
      if a.Restart? {
        LossOnward(w);
      } else {
        var b := Submit(a.userId, a.role, a.ps, a.env);
        StepTrails(w, b);
        SubmitOnward(w, b);
        if a.SubmitThenCrash? {
          LossOnward(Step(w, b));
        }
      }
      RunOnward(Step(w, a), acts[1..]);
    }
  }

  /** In a settled run from an empty server, crashes and restarts included, no stamp that was left
      appears again. */
  lemma StampsNeverRecur(acts: seq<Action>, userId: int)
    requires SettledRun(World(map[], [], []), acts)
    ensures NeverRecurs(Run(World(map[], [], []), acts).log, userId)
  {
    RunOnward(World(map[], [], []), acts);
    var w := Run(World(map[], [], []), acts);
    assert Onward(w.log, userId, Resume(w.sessions, w.log, userId, true));
  }

  // ----- Exactly when a loss of memory can bring a stamp back -----

  /** Memory is gone, the log is as it was. */
  function Lost(w: World): World { w.(sessions := map[]) }

  /** A row `j` is stamped with a session that starts at `s`, and `n` is the row that the lookup
      finds: the start is no later than the gap after that row or, for the row's own session, twice
      the gap and a tick. */
  predicate WithinReach(log: Log, userId: int, n: int, j: int, s: int)
    requires StampedAt(log, userId, n) && StampedAt(log, userId, j)
  {
    s <= log[n].event.occurredAt
         + if StampAt(log, userId, j) == StampAt(log, userId, n) then 2 * LISTEN_SESSION_GAP_MS + 1 else LISTEN_SESSION_GAP_MS
  }

  /** What a user's rows must look like for a loss to be harmless: rows behind the one that the
      lookup finds carry its stamp, and every session the rows are stamped with is within reach. */
  ghost predicate ResumableAt(log: Log, userId: int, n: int)
    requires StampedAt(log, userId, n)
  {
    && (forall j | n < j && StampedAt(log, userId, j) :: StampAt(log, userId, j) == StampAt(log, userId, n))
    && (forall j, s | StampedAt(log, userId, j) && StampAt(log, userId, j) == SessionId(s) :: WithinReach(log, userId, n, j, s))
  }

  ghost predicate Resumable(log: Log, userId: int) {
    NeverRecurs(log, userId) && forall n: nat | IsNewest(log, userId, n) :: ResumableAt(log, userId, n)
  }

  /** From here on no settled run repeats a stamp that was left. */
  ghost predicate SafeOn(w: World) {
    forall acts, u :: SettledRun(w, acts) ==> NeverRecurs(Run(w, acts).log, u)
  }

  lemma RowsBehindLast(log: Log, userId: int, n: int)
    requires NeverRecurs(log, userId) && StampedAt(log, userId, n)
    requires forall j | n < j && StampedAt(log, userId, j) :: StampAt(log, userId, j) == StampAt(log, userId, n)
    ensures IsLast(log, userId, StampAt(log, userId, n))
  {
    forall i, j | i < j && StampedAt(log, userId, i) && StampedAt(log, userId, j)
      ensures StampAt(log, userId, i) == StampAt(log, userId, n) ==> StampAt(log, userId, j) == StampAt(log, userId, n)
    {
      if j < n {
        assert StampAt(log, userId, i) == StampAt(log, userId, n) ==> StampAt(log, userId, i) == StampAt(log, userId, j);
      }
    }
  }

  lemma NearOf(log: Log, userId: int, n: int)
    requires StampedAt(log, userId, n) && ResumableAt(log, userId, n)
    ensures OthersNear(log, userId, Current(StampAt(log, userId, n), log[n].event.occurredAt))
  {
    forall j, s | StampedAt(log, userId, j) && StampAt(log, userId, j) == SessionId(s)
      ensures StampAt(log, userId, j) == StampAt(log, userId, n) || s <= log[n].event.occurredAt + LISTEN_SESSION_GAP_MS
    {
      assert WithinReach(log, userId, n, j, s);
    }
  }

  lemma OwnStartNear(log: Log, userId: int, n: int, s: int)
    requires StampedAt(log, userId, n) && ResumableAt(log, userId, n) && StampAt(log, userId, n) == SessionId(s)
    ensures s <= log[n].event.occurredAt + 2 * LISTEN_SESSION_GAP_MS + 1
  {
    assert WithinReach(log, userId, n, n, s);
  }

  lemma AheadOf(log: Log, userId: int, n: int)
    requires NeverRecurs(log, userId) && StampedAt(log, userId, n) && ResumableAt(log, userId, n)
    ensures Ahead(log, userId, Some(Current(StampAt(log, userId, n), log[n].event.occurredAt)))
  {
    RowsBehindLast(log, userId, n);
    NearOf(log, userId, n);
    forall s | SessionId(s) == StampAt(log, userId, n)
      ensures s <= log[n].event.occurredAt + 2 * LISTEN_SESSION_GAP_MS + 1
    {
      OwnStartNear(log, userId, n, s);
    }
  }

  lemma ResumableAhead(log: Log, userId: int)
    requires Resumable(log, userId)
    ensures Ahead(log, userId, Recorded(log, userId))
  {
    NoneStamped(log, userId);
    if Recorded(log, userId).Some? {
      var n := LastIsNewest(log, userId);
      NewestFound(log, userId, n);
      AheadOf(log, userId, n);
    }
  }

  function Play(at: int, metadata: Option<Json>): Payload { Payload("play", "t", at, metadata, 0, None, None) }

  function PlayAt(userId: int, at: int, metadata: Option<Json>): Action {
    Submit(userId, Member, [Play(at, metadata)], Env(true, true, map[], {}))
  }

  /** One event without a client id, spanning a moment. */
  lemma OnePlay(w: World, userId: int, at: int, metadata: Option<Json>)
    requires ExtractMs(metadata, "heard_ms").None?
    ensures var next := Advance(Resume(w.sessions, w.log, userId, true), at, at, LISTEN_SESSION_GAP_MS);
            var x, r := Step(w, PlayAt(userId, at, metadata)), StampedRow(userId, Play(at, metadata), next.id);
            && x.log == w.log + [r] && x.sessions == w.sessions[userId := next]
            && SessionOf(r.event) == (if Stampable(metadata) then Some(next.id) else None)
            && Recorded(x.log, userId) == (var rec := Recorded(w.log, userId);
                                      if Stampable(metadata) && (rec.None? || rec.value.lastMs <= at) then Some(Current(next.id, at)) else rec)
  {
    var p, prev := Play(at, metadata), Resume(w.sessions, w.log, userId, true);
    var next := Advance(prev, at, at, LISTEN_SESSION_GAP_MS);
    PlayStamped(prev, at, metadata);
    PlayAdmitted(at, metadata);
    assert [KeyedEvent(EventOf(p, next.id), None)][..0] == [];
    assert Appended(w.log, userId, []) == w.log;
    AppendOne(w.log, userId, p, next.id);
    StampReadsBack(Event(p.eventType, p.trackId, p.occurredAt, p.metadata, p.sessionId), next.id);
  }

  lemma PlayStamped(prev: Option<Current>, at: int, metadata: Option<Json>)
    requires ExtractMs(metadata, "heard_ms").None?
    ensures var p, next := Play(at, metadata), Advance(prev, at, at, LISTEN_SESSION_GAP_MS);
            && Open(prev, Spans([p])) == Some(next)
            && StampAll(prev, [p]) == [KeyedEvent(EventOf(p, next.id), None)]
  {
    var p := Play(at, metadata);
    SpansSnoc(prev, [p], 0);
    assert [p][..1] == [p] && [p][..0] == [];
  }

  lemma PlayAdmitted(at: int, metadata: Option<Json>)
    ensures Admitted(Member, [Play(at, metadata)])
  {
    assert FieldsFit(Play(at, metadata));
  }

  /** One play of a user whose session is known: where it lands, and that the run is settled. */
  lemma PlayLands(w: World, userId: int, at: int)
    ensures var acts, next := [PlayAt(userId, at, None)], Advance(Resume(w.sessions, w.log, userId, true), at, at, LISTEN_SESSION_GAP_MS);
            var x := Run(w, acts);
            && SettledRun(w, acts) && x == Step(w, acts[0])
            && |x.log| == |w.log| + 1 && x.log[..|w.log|] == w.log
            && StampedAt(x.log, userId, |w.log|) && StampAt(x.log, userId, |w.log|) == next.id
            && userId in x.sessions && x.sessions[userId] == next
  {
    OnePlay(w, userId, at, None);
    var acts := [PlayAt(userId, at, None)];
    assert acts[1..] == [];
    assert Run(Step(w, acts[0]), acts[1..]) == Step(w, acts[0]);
  }

  /** Rows are where they were. */
  lemma StampKept(log: Log, after: Log, userId: int, i: int)
    requires StampedAt(log, userId, i) && |log| <= |after| && after[..|log|] == log
    ensures StampedAt(after, userId, i) && StampAt(after, userId, i) == StampAt(log, userId, i)
  {
    assert after[i] == after[..|log|][i];
  }

  lemma Recurs(log: Log, userId: int, i: int, j: int, k: int)
    requires i < j < k && StampedAt(log, userId, i) && StampedAt(log, userId, j) && StampedAt(log, userId, k)
    requires StampAt(log, userId, i) == StampAt(log, userId, k) != StampAt(log, userId, j)
    ensures !NeverRecurs(log, userId)
  {
  }

  /** A play that is stamped like row `i`, after row `j` was not. */
  lemma PlayRecurs(w: World, userId: int, at: int, i: int, j: int)
    requires i < j && StampedAt(w.log, userId, i) && StampedAt(w.log, userId, j)
    requires StampAt(w.log, userId, i) != StampAt(w.log, userId, j)
    requires Advance(Resume(w.sessions, w.log, userId, true), at, at, LISTEN_SESSION_GAP_MS).id == StampAt(w.log, userId, i)
    ensures !SafeOn(w)
  {
    PlayLands(w, userId, at);
    var x := Run(w, [PlayAt(userId, at, None)]);
    StampKept(w.log, x.log, userId, i);
    StampKept(w.log, x.log, userId, j);
    Recurs(x.log, userId, i, j, |w.log|);
  }

  /** A run that starts with one action is unsafe if what follows is. */
  lemma SafeAfter(w: World, a: Action)
    requires SafeOn(w) && SettledRun(w, [a])
    ensures SafeOn(Step(w, a))
  {
    forall acts, u | SettledRun(Step(w, a), acts)
      ensures NeverRecurs(Run(Step(w, a), acts).log, u)
    {
      assert ([a] + acts)[1..] == acts;
      assert SettledRun(w, [a] + acts) && Run(w, [a] + acts) == Run(Step(w, a), acts);
    }
  }

  /** The user's next play resumes from row `n`. */
  predicate ResumesAt(w: World, userId: int, n: int) {
    && userId !in w.sessions && StampedAt(w.log, userId, n)
    && Recorded(w.log, userId) == Some(Current(StampAt(w.log, userId, n), w.log[n].event.occurredAt))
  }

  /** A session whose start lies far after the row that resumes it: another one opens, and then it
      opens again. */
  lemma FarStartRecurs(w: World, userId: int, n: int, s: int)
    requires ResumesAt(w, userId, n) && StampAt(w.log, userId, n) == SessionId(s)
    requires s > w.log[n].event.occurredAt + 2 * LISTEN_SESSION_GAP_MS + 1
    ensures !SafeOn(w)
  {
    var at := w.log[n].event.occurredAt + LISTEN_SESSION_GAP_MS + 1;
    PlayLands(w, userId, at);
    var x := Step(w, PlayAt(userId, at, None));
    if SessionId(at) == SessionId(s) {
      SessionIdInjective(at, s);
    }
    StampKept(w.log, x.log, userId, n);
    PlayRecurs(x, userId, s, n, |w.log|);
    if SafeOn(w) {
      SafeAfter(w, PlayAt(userId, at, None));
    }
  }

  lemma RowBehindRecurs(w: World, userId: int, n: int, j: int)
    requires ResumesAt(w, userId, n) && n < j && StampedAt(w.log, userId, j)
    requires StampAt(w.log, userId, j) != StampAt(w.log, userId, n)
    ensures !SafeOn(w)
  {
    PlayRecurs(w, userId, w.log[n].event.occurredAt, n, j);
  }

  lemma OutOfReachRecurs(w: World, userId: int, n: int, j: int, s: int)
    requires ResumesAt(w, userId, n) && StampedAt(w.log, userId, j) && StampAt(w.log, userId, j) == SessionId(s)
    requires !WithinReach(w.log, userId, n, j, s) && (n < j ==> StampAt(w.log, userId, j) == StampAt(w.log, userId, n))
    ensures !SafeOn(w)
  {
    if StampAt(w.log, userId, j) == StampAt(w.log, userId, n) {
      FarStartRecurs(w, userId, n, s);
    } else {
      PlayRecurs(w, userId, s, j, n);
    }
  }

  lemma UnresumableUnsafe(w: World, userId: int, n: int)
    requires ResumesAt(w, userId, n) && !ResumableAt(w.log, userId, n)
    ensures !SafeOn(w)
  {
    if j :| n < j && StampedAt(w.log, userId, j) && StampAt(w.log, userId, j) != StampAt(w.log, userId, n) {
      RowBehindRecurs(w, userId, n, j);
    } else {
      var j, s :| StampedAt(w.log, userId, j) && StampAt(w.log, userId, j) == SessionId(s) && !WithinReach(w.log, userId, n, j, s);
      OutOfReachRecurs(w, userId, n, j, s);
    }
  }

  /** The lookup finds the one newest row. */
  lemma NewestFound(log: Log, userId: int, n: nat)
    requires IsNewest(log, userId, n)
    ensures StampedAt(log, userId, n)
    ensures Recorded(log, userId) == Some(Current(StampAt(log, userId, n), log[n].event.occurredAt))
  {
    NoneStamped(log, userId);
    assert log[n] in log;
    var m := LastIsNewest(log, userId);
  }

  /** Losing memory is harmless, that is, no settled run from then on repeats a stamp that was left,
      exactly when every user's rows are resumable. */
  lemma LossHarmlessIff(w: World)
    ensures SafeOn(Lost(w)) <==> forall u :: Resumable(w.log, u)
  {
    if u :| !Resumable(w.log, u) {
      if NeverRecurs(w.log, u) {
        var n: nat :| IsNewest(w.log, u, n) && !ResumableAt(w.log, u, n);
        NewestFound(w.log, u, n);
        UnresumableUnsafe(Lost(w), u, n);
      } else {
        assert SettledRun(Lost(w), []) && Run(Lost(w), []) == Lost(w);
      }
    } else {
      forall u
        ensures Onward(w.log, u, Recorded(w.log, u))
      {
        ResumableAhead(w.log, u);
      }
      forall acts, u | SettledRun(Lost(w), acts)
        ensures NeverRecurs(Run(Lost(w), acts).log, u)
      {
        RunOnward(Lost(w), acts);
        var x := Run(Lost(w), acts);
        assert Onward(x.log, u, Resume(x.sessions, x.log, u, true));
      }
    }
  }

  // ----- Without a settled log it can come back -----

  /** A session, an event whose metadata cannot carry a stamp opens the next one, an event of
      before the first gets the new stamp, and after a restart the first session is resumed. */
  function Relapse(): seq<Action> {
    [PlayAt(1, 0, None), PlayAt(1, 2 * LISTEN_SESSION_GAP_MS, Some(JInt(0))), PlayAt(1, -1, None), Restart, PlayAt(1, 1, None)]
  }

  /** A play a long idle time later, with metadata that cannot carry a stamp, moves memory only. */
  lemma SecondPlay(w: World)
    requires |w.log| == 1 && 1 in w.sessions && w.sessions[1] == Current(SessionId(0), 0) && Recorded(w.log, 1) == Some(w.sessions[1])
    ensures var x, at := Step(w, PlayAt(1, 2 * LISTEN_SESSION_GAP_MS, Some(JInt(0)))), 2 * LISTEN_SESSION_GAP_MS;
            && |x.log| == 2 && x.log[0] == w.log[0] && Recorded(x.log, 1) == Recorded(w.log, 1)
            && 1 in x.sessions && x.sessions[1] == Current(SessionId(at), at)
  {
    OnePlay(w, 1, 2 * LISTEN_SESSION_GAP_MS, Some(JInt(0)));
  }

  /** A late play gets the new stamp, and does not become the newest row by time. */
  lemma ThirdPlay(w: World)
    requires |w.log| == 2 && Recorded(w.log, 1) == Some(Current(SessionId(0), 0))
    requires var at := 2 * LISTEN_SESSION_GAP_MS; 1 in w.sessions && w.sessions[1] == Current(SessionId(at), at)
    ensures var x := Step(w, PlayAt(1, -1, None));
            && |x.log| == 3 && x.log[0] == w.log[0] && Recorded(x.log, 1) == Recorded(w.log, 1)
            && StampedAt(x.log, 1, 2) && StampAt(x.log, 1, 2) == SessionId(2 * LISTEN_SESSION_GAP_MS)
  {
    OnePlay(w, 1, -1, None);
  }

  /** The state before the restart: the newest row by time is the first. */
  lemma BeforeRelapse() returns (w: World)
    ensures w == Step(Step(Step(World(map[], [], []), PlayAt(1, 0, None)), PlayAt(1, 2 * LISTEN_SESSION_GAP_MS, Some(JInt(0)))), PlayAt(1, -1, None))
    ensures |w.log| == 3 && Recorded(w.log, 1) == Some(Current(SessionId(0), 0))
    ensures StampedAt(w.log, 1, 0) && StampAt(w.log, 1, 0) == SessionId(0)
    ensures StampedAt(w.log, 1, 2) && StampAt(w.log, 1, 2) == SessionId(2 * LISTEN_SESSION_GAP_MS)
  {
    OnePlay(World(map[], [], []), 1, 0, None);
    w := Step(World(map[], [], []), PlayAt(1, 0, None));
    SecondPlay(w);
    w := Step(w, PlayAt(1, 2 * LISTEN_SESSION_GAP_MS, Some(JInt(0))));
    ThirdPlay(w);
    w := Step(w, PlayAt(1, -1, None));
  }

  /** After a restart a play soon after the newest row joins its session. */
  lemma Rejoins(w: World, id: string, at: int)
    requires Recorded(w.log, 1) == Some(Current(id, 0)) && at <= LISTEN_SESSION_GAP_MS
    ensures var log := Step(Step(w, Restart), PlayAt(1, at, None)).log;
            && |log| == |w.log| + 1 && log[..|w.log|] == w.log
            && StampedAt(log, 1, |w.log|) && StampAt(log, 1, |w.log|) == id
  {
    PlayLands(Step(w, Restart), 1, at);
  }

  lemma UnsettledStampRecurs()
    ensures var log := Run(World(map[], [], []), Relapse()).log;
            && StampedAt(log, 1, 0) && StampedAt(log, 1, 2) && StampedAt(log, 1, 3)
            && StampAt(log, 1, 2) != StampAt(log, 1, 0) && StampAt(log, 1, 3) == StampAt(log, 1, 0)
  {
    var a, b, c := PlayAt(1, 0, None), PlayAt(1, 2 * LISTEN_SESSION_GAP_MS, Some(JInt(0))), PlayAt(1, -1, None);
    var w := BeforeRelapse();
    Rejoins(w, SessionId(0), 1);
    if SessionId(0) == SessionId(2 * LISTEN_SESSION_GAP_MS) {
      SessionIdInjective(0, 2 * LISTEN_SESSION_GAP_MS);
    }
    var log := Step(Step(w, Restart), PlayAt(1, 1, None)).log;
    assert log[0] == log[..3][0] && log[2] == log[..3][2];
    Unrolled(World(map[], [], []), a, b, c, Restart, PlayAt(1, 1, None));
  }

  lemma Unrolled(w: World, a: Action, b: Action, c: Action, d: Action, e: Action)
    ensures Run(w, [a, b, c, d, e]) == Step(Step(Step(Step(Step(w, a), b), c), d), e)
  {
    assert [a, b, c, d, e][1..] == [b, c, d, e] && [b, c, d, e][1..] == [c, d, e];
    assert [c, d, e][1..] == [d, e] && [d, e][1..] == [e] && [e][1..] == [];
    var x := Step(w, a);
    assert Run(w, [a, b, c, d, e]) == Run(x, [b, c, d, e]);
    var y := Step(x, b);
    assert Run(x, [b, c, d, e]) == Run(y, [c, d, e]);
    var z := Step(y, c);
    assert Run(y, [c, d, e]) == Run(z, [d, e]);
    var v := Step(z, d);
    assert Run(z, [d, e]) == Run(v, [e]);
    assert Run(v, [e]) == Run(Step(v, e), []);
  }
}
