/** `POST /v1/events`: stamp, persist, and fold what is new, under retries and restarts. */
module EventIngest {
  import opened Prelude
  import opened EventLog
  import opened ListenSession
  import Text

  const MAX_BATCH := 1_000
  const MAX_EVENT_TYPE_LEN := 64
  const MAX_TRACK_ID_LEN := 256
  const MAX_METADATA_BYTES := 4096
  const MAX_CLIENT_EVENT_ID_LEN := 64
  const I64_MAX := 0x7FFF_FFFF_FFFF_FFFF
  const I64_MIN := -0x8000_0000_0000_0000

  datatype Role = Guest | Member

  /** One event of a request; `metadataBytes` is the length of its serialized metadata. */
  datatype Payload = Payload(
    eventType: string, trackId: string, occurredAt: int, metadata: Option<Json>, metadataBytes: nat,
    sessionId: Option<string>, clientId: Option<string>)

  datatype Response = Accepted(n: nat) | BadRequest | PayloadTooLarge | EventLogUnavailable

  /** A JSON number as i64: integers as they are, anything else truncated and saturated. */
  function AsMillis(j: Json): Option<int> {
    match j
    case JInt(n) => Some(Max(I64_MIN, Min(I64_MAX, n)))
    case JFloat(x) =>
      Some(Max(I64_MIN, Min(I64_MAX, if x >= 0.0 then x.Floor else -((-x).Floor))))
    case _ => None
  }

  /** A non-negative millisecond field of an event's metadata. */
  function ExtractMs(metadata: Option<Json>, field: string): (r: Option<nat>) {
    if metadata.Some? && metadata.value.JObject? && field in metadata.value.fields then
      var ms := AsMillis(metadata.value.fields[field]);
      if ms.Some? && ms.value >= 0 then Some(ms.value) else None
    else None
  }

  /** The listening an event reports, so that a long track does not read as an idle gap. */
  function SpanOf(p: Payload): Span {
    var heard := ExtractMs(p.metadata, "heard_ms");
    Span(p.occurredAt - (if heard.Some? then heard.value else 0), p.occurredAt)
  }

  function Spans(ps: seq<Payload>): seq<Span> {
    if ps == [] then [] else Spans(ps[..|ps| - 1]) + [SpanOf(ps[|ps| - 1])]
  }

  function EventOf(p: Payload, id: string): Event {
    Event(p.eventType, p.trackId, p.occurredAt, Stamped(p.metadata, id), p.sessionId)
  }

  /** The batch with each event stamped by the session it falls into. */
  function StampAll(prev: Option<Current>, ps: seq<Payload>): seq<KeyedEvent> {
    if ps == [] then []
    else
      var p := ps[|ps| - 1];
      StampAll(prev, ps[..|ps| - 1]) + [KeyedEvent(EventOf(p, Open(prev, Spans(ps)).value.id), p.clientId)]
  }

  // ----- What a batch is stamped with -----

  /** Integers of an event's metadata are read as they are, up to the largest i64; a negative one
      does not count. */
  lemma IntegerMs(fields: map<string, Json>, field: string, n: int)
    requires field in fields && fields[field] == JInt(n)
    ensures ExtractMs(Some(JObject(fields)), field) == if n < 0 then None else Some(if n <= I64_MAX then n else I64_MAX)
  {
  }

  /** Other numbers lose their fraction; what rounds up to zero from below counts as zero. */
  lemma FractionMs(fields: map<string, Json>, field: string, x: real)
    requires field in fields && fields[field] == JFloat(x)
    ensures var ms := ExtractMs(Some(JObject(fields)), field);
            && (ms.None? <==> x <= -1.0)
            && (-1.0 < x < 0.0 ==> ms == Some(0))
            && (0.0 <= x < I64_MAX as real ==> ms.value as real <= x < ms.value as real + 1.0)
            && (x >= I64_MAX as real ==> ms == Some(I64_MAX))
  {
    if x < 0.0 {
      assert (-x).Floor as real <= -x < (-x).Floor as real + 1.0;
    } else {
      assert x.Floor as real <= x < x.Floor as real + 1.0;
    }
  }

  /** Anything else is as good as absent. */
  lemma NoMs(metadata: Option<Json>, field: string)
    requires metadata.None? || !metadata.value.JObject? || field !in metadata.value.fields
             || !(metadata.value.fields[field].JInt? || metadata.value.fields[field].JFloat?)
    ensures ExtractMs(metadata, field) == None
  {
  }

  /** It began within the gap after the last activity of the open session. */
  predicate Joins(cur: Option<Current>, at: int, heard: int) {
    cur.Some? && at - heard - cur.value.lastMs <= LISTEN_SESSION_GAP_MS
  }

  /** The session an event that was heard for `heard` up to `at` falls into, `cur` being open. */
  ghost predicate FallsInto(cur: Option<Current>, at: int, heard: int, id: string) {
    if Joins(cur, at, heard) then id == cur.value.id else id == SessionId(at - heard)
  }

  /** `e` is the client's event as sent, with the stamp in its metadata and nothing else changed. */
  ghost predicate CarriesStamp(e: KeyedEvent, p: Payload, id: string) {
    && e.event.eventType == p.eventType && e.event.trackId == p.trackId
    && e.event.occurredAt == p.occurredAt && e.event.sessionId == p.sessionId && e.clientId == p.clientId
    && e.event.metadata == match p.metadata
         case None => Some(JObject(map["listen_session" := JString(id)]))
         case Some(JObject(fields)) => Some(JObject(fields["listen_session" := JString(id)]))
         case Some(other) => Some(other)
  }

  lemma EventCarries(p: Payload, id: string)
    ensures CarriesStamp(KeyedEvent(EventOf(p, id), p.clientId), p, id)
  {
    var fields := [("listen_session", JString(id))];
    assert fields[..0] == [];
    assert forall obj: map<string, Json> :: Merged(obj, fields) == Merged(obj, fields[..0])["listen_session" := JString(id)];
  }

  /** Milliseconds heard, none if the event does not say. */
  function HeardMs(p: Payload): int { match ExtractMs(p.metadata, "heard_ms") case None => 0 case Some(h) => h }

  /** `e` is the client's event, stamped with the session `next` that it falls into from `cur`. */
  ghost predicate IsStamped(e: KeyedEvent, p: Payload, cur: Option<Current>, next: Option<Current>, heard: int) {
    && next.Some? && FallsInto(cur, p.occurredAt, heard, next.value.id) && CarriesStamp(e, p, next.value.id)
    && next.value.lastMs == if Joins(cur, p.occurredAt, heard) && cur.value.lastMs > p.occurredAt then cur.value.lastMs else p.occurredAt
  }

  lemma AdvanceFalls(cur: Option<Current>, at: int, heard: int)
    ensures var next := Advance(cur, at - heard, at, LISTEN_SESSION_GAP_MS);
            && FallsInto(cur, at, heard, next.id)
            && next.lastMs == if Joins(cur, at, heard) && cur.value.lastMs > at then cur.value.lastMs else at
  {
  }

  lemma EventStamped(cur: Option<Current>, p: Payload)
    ensures var span := SpanOf(p);
            var next := Advance(cur, span.startMs, span.endMs, LISTEN_SESSION_GAP_MS);
            IsStamped(KeyedEvent(EventOf(p, next.id), p.clientId), p, cur, Some(next), HeardMs(p))
  {
    var span := SpanOf(p);
    AdvanceFalls(cur, p.occurredAt, HeardMs(p));
    EventCarries(p, Advance(cur, span.startMs, span.endMs, LISTEN_SESSION_GAP_MS).id);
  }

  /** One event behind others. */
  lemma LastStamped(prev: Option<Current>, init: seq<Payload>, p: Payload)
    ensures var events := StampAll(prev, init + [p]);
            && events != []
            && IsStamped(events[|events| - 1], p, Open(prev, Spans(init)), Open(prev, Spans(init + [p])), HeardMs(p))
  {
    var ps, n := init + [p], |init|;
    assert ps[..n] == init && ps[..n + 1] == ps && ps[n] == p;
    SpansSnoc(prev, ps, n);
    EventStamped(Open(prev, Spans(init)), p);
  }

  lemma StampAllSnoc(prev: Option<Current>, ps: seq<Payload>, p: Payload)
    ensures var events := StampAll(prev, ps + [p]);
            |events| == |ps| + 1 && events[..|ps|] == StampAll(prev, ps)
  {
    assert (ps + [p])[..|ps|] == ps;
    StampAllLength(prev, ps);
  }

  /** Each event of a batch is the client's, stamped by the time heard: with the session open before
      it if it was begun within the gap, and else with a new one named after its beginning. The
      session open afterwards ends no earlier than the event or the activity before. */
  lemma {:induction false} StampedByHeard(prev: Option<Current>, init: seq<Payload>, p: Payload, rest: seq<Payload>)
    ensures var events := StampAll(prev, init + [p] + rest);
            && |events| == |init| + 1 + |rest|
            && IsStamped(events[|init|], p, Open(prev, Spans(init)), Open(prev, Spans(init + [p])), HeardMs(p))
    decreases |rest|
  {
    if rest == [] {
      assert init + [p] + rest == init + [p];
      StampAllLength(prev, init + [p]);
      LastStamped(prev, init, p);
    } else {
      var n := |rest| - 1;
      var before := init + [p] + rest[..n];
      assert init + [p] + rest == before + [rest[n]];
      StampedByHeard(prev, init, p, rest[..n]);
      StampAllSnoc(prev, before, rest[n]);
      assert StampAll(prev, before)[|init|] == StampAll(prev, before + [rest[n]])[|init|];
    }
  }

  lemma {:induction false} StampAllLength(prev: Option<Current>, ps: seq<Payload>)
    ensures |StampAll(prev, ps)| == |ps|
  {
    if ps != [] {
      StampAllLength(prev, ps[..|ps| - 1]);
    }
  }

  /** The stamp of a lone event. */
  function LoneStamp(prev: Option<Current>, p: Payload): Option<string> {
    var events := StampAll(prev, [p]);
    if |events| == 1 then SessionOf(events[0].event) else None
  }

  /** A stamp that metadata could carry reads back. */
  lemma StampedReads(e: KeyedEvent, p: Payload, cur: Option<Current>, next: Option<Current>, heard: int)
    requires IsStamped(e, p, cur, next, heard) && Stampable(p.metadata)
    ensures SessionOf(e.event).Some? && FallsInto(cur, p.occurredAt, heard, SessionOf(e.event).value)
  {
  }

  lemma LoneStampReads(prev: Option<Current>, p: Payload)
    requires Stampable(p.metadata)
    ensures LoneStamp(prev, p).Some? && FallsInto(prev, p.occurredAt, HeardMs(p), LoneStamp(prev, p).value)
  {
    var events := StampAll(prev, [p]);
    assert [] + [p] + [] == [p] && [] + [p] == [p];
    StampedByHeard(prev, [], p, []);
    assert |events| == 1 && Open(prev, Spans([])) == prev;
    StampedReads(events[0], p, prev, Open(prev, Spans([p])), HeardMs(p));
  }

  /** An event that reports a whole number of milliseconds belongs to the open session if it began
      within the gap, and otherwise to a new one named after its beginning. */
  lemma HeardJoins(c: Current, p: Payload, fields: map<string, Json>, h: int)
    requires p.metadata == Some(JObject(fields)) && "heard_ms" in fields && fields["heard_ms"] == JInt(h) && 0 <= h <= I64_MAX
    ensures LoneStamp(Some(c), p)
         == Some(if p.occurredAt - h - c.lastMs <= LISTEN_SESSION_GAP_MS then c.id else SessionId(p.occurredAt - h))
  {
    IntegerMs(fields, "heard_ms", h);
    LoneStampReads(Some(c), p);
  }

  /** One that reports nothing that can be read counts from the moment it is sent. */
  lemma UnheardJoins(c: Current, p: Payload)
    requires Stampable(p.metadata) && ExtractMs(p.metadata, "heard_ms") == None
    ensures LoneStamp(Some(c), p) == Some(if p.occurredAt - c.lastMs <= LISTEN_SESSION_GAP_MS then c.id else SessionId(p.occurredAt))
  {
    LoneStampReads(Some(c), p);
  }

  // ----- Skip affinity -----

  /** One affinity update; the skip's completion is `playedMs / durationMs`. */
  datatype SkipFold = SkipFold(userId: int, trackId: string, playedMs: nat, durationMs: nat, occurredAt: int)

  /** What one event contributes to the affinity counter: a skip with a known position in a track
      of known duration. */
  function FoldOf(userId: int, e: Event, durations: map<string, nat>): seq<SkipFold> {
    var played := ExtractMs(e.metadata, "played_ms");
    if e.eventType != "skip" || played.None? || e.trackId !in durations || durations[e.trackId] == 0 then []
    else [SkipFold(userId, e.trackId, played.value, durations[e.trackId] * 1000, e.occurredAt)]
  }

  /** The updates of a batch, except those of the events in `lost`. */
  function FoldEvents(userId: int, events: seq<KeyedEvent>, durations: map<string, nat>, lost: set<nat>): seq<SkipFold> {
    if events == [] then []
    else
      var n := |events| - 1;
      FoldEvents(userId, events[..n], durations, lost)
      + if n in lost then [] else FoldOf(userId, events[n].event, durations)
  }

  type Durations = map<string, nat>

  /** `f` is what a skip by this user leaves: its position as reported, in a track whose length was
      known, at the time it happened. */
  ghost predicate TracesTo(f: SkipFold, userId: int, e: Event, durations: Durations) {
    && e.eventType == "skip" && e.metadata.Some? && e.metadata.value.JObject? && "played_ms" in e.metadata.value.fields
    && ExtractMs(e.metadata, "played_ms") == Some(f.playedMs)
    && e.trackId in durations && durations[e.trackId] > 0 && f.durationMs == 1000 * durations[e.trackId]
    && f.userId == userId && f.trackId == e.trackId && f.occurredAt == e.occurredAt
  }

  /** A lone event leaves one such update if it is a skip with a known position in a track of known
      length, and none otherwise. */
  lemma OneFold(userId: int, it: KeyedEvent, durations: Durations)
    ensures var folds, e := FoldEvents(userId, [it], durations, {}), it.event;
            && (|folds| == 1 <==> e.eventType == "skip" && ExtractMs(e.metadata, "played_ms").Some?
                                  && e.trackId in durations && durations[e.trackId] > 0)
            && (|folds| == 1 ==> TracesTo(folds[0], userId, e, durations))
            && |folds| <= 1
  {
    assert [it][..0] == [];
  }

  /** A skip whose position is a whole number, and any other event with the same metadata. */
  lemma SkipFolds(userId: int, it: KeyedEvent, fields: map<string, Json>, n: int, durations: Durations, d: nat)
    requires it.event.metadata == Some(JObject(fields)) && "played_ms" in fields && fields["played_ms"] == JInt(n)
    requires 0 <= n <= I64_MAX && it.event.trackId in durations && durations[it.event.trackId] == d > 0
    ensures FoldEvents(userId, [it], durations, {})
         == if it.event.eventType == "skip" then [SkipFold(userId, it.event.trackId, n, 1000 * d, it.event.occurredAt)] else []
  {
    IntegerMs(fields, "played_ms", n);
    OneFold(userId, it, durations);
    assert [it][..0] == [];
  }

  /** Without a position or a length nothing is folded. */
  lemma NothingFolds(userId: int, it: KeyedEvent, durations: Durations)
    requires it.event.metadata.None? || !it.event.metadata.value.JObject? || "played_ms" !in it.event.metadata.value.fields
             || it.event.trackId !in durations || durations[it.event.trackId] == 0
    ensures FoldEvents(userId, [it], durations, {}) == []
  {
    OneFold(userId, it, durations);
  }

  /** A batch folds event by event. */
  lemma FoldsOneByOne(userId: int, events: seq<KeyedEvent>, it: KeyedEvent, durations: Durations, lost: set<nat>)
    ensures FoldEvents(userId, events + [it], durations, lost)
         == FoldEvents(userId, events, durations, lost)
            + if |events| in lost then [] else FoldEvents(userId, [it], durations, {})
  {
    assert (events + [it])[..|events|] == events && [it][..0] == [];
  }

  /** The folds of a whole log, each row once, with the durations known when the row was written. */
  function FoldLog(log: Log, known: seq<Durations>): seq<SkipFold>
    requires |known| == |log|
  {
    if log == [] then []
    else
      var n := |log| - 1;
      FoldLog(log[..n], known[..n]) + FoldOf(log[n].userId, log[n].event, known[n])
  }

  lemma {:induction false} FoldLogAppend(log: Log, known: seq<Durations>, userId: int, events: seq<KeyedEvent>, durations: Durations)
    requires |known| == |log|
    ensures FoldLog(log + RowsOf(userId, events), known + seq(|events|, _ => durations))
         == FoldLog(log, known) + FoldEvents(userId, events, durations, {})
  {
    if events == [] {
      assert log + RowsOf(userId, events) == log && known + seq(0, _ => durations) == known;
    } else {
      var n := |events| - 1;
      var all, allKnown := log + RowsOf(userId, events), known + seq(|events|, _ => durations);
      FoldLogAppend(log, known, userId, events[..n], durations);
      assert all[..|all| - 1] == log + RowsOf(userId, events[..n]);
      assert allKnown[..|all| - 1] == known + seq(n, _ => durations);
      Regroup(FoldLog(log, known), FoldEvents(userId, events[..n], durations, {}), FoldOf(userId, events[n].event, durations));
    }
  }

  lemma Regroup<T>(a: seq<T>, b: seq<T>, c: seq<T>)
    ensures (a + b) + c == a + (b + c)
  {
  }

  /** Losing updates leaves a subsequence. */
  lemma {:induction false} LossLeavesOut(userId: int, events: seq<KeyedEvent>, durations: Durations, lost: set<nat>)
    ensures Subsequence(FoldEvents(userId, events, durations, lost), FoldEvents(userId, events, durations, {}))
  {
    if events != [] {
      var n := |events| - 1;
      LossLeavesOut(userId, events[..n], durations, lost);
      var some, all := FoldEvents(userId, events[..n], durations, lost), FoldEvents(userId, events[..n], durations, {});
      var last := FoldOf(userId, events[n].event, durations);
      SubsequenceSkips(some, all, last);
      SubsequenceExtends(some, all, last);
      assert some + [] == some;
    }
  }

  // ----- The server as a state machine -----

  datatype World = World(sessions: map<int, Current>, log: Log, folded: seq<SkipFold>)

  /** What befalls one request: whether the resume lookup and the append succeed, the durations
      that the metadata store knows, and the new events whose affinity update is lost, be it to an
      error or because the process died first. */
  datatype Env = Env(found: bool, commits: bool, durations: Durations, lost: set<nat>)

  /** The caps count bytes. */
  predicate FieldsFit(p: Payload) {
    && Text.Utf8Length(p.eventType) <= MAX_EVENT_TYPE_LEN
    && Text.Utf8Length(p.trackId) <= MAX_TRACK_ID_LEN
    && (p.metadata.Some? ==> p.metadataBytes <= MAX_METADATA_BYTES)
    && (p.clientId.Some? ==> p.clientId.value != [] && Text.Utf8Length(p.clientId.value) <= MAX_CLIENT_EVENT_ID_LEN)
  }

  predicate Admitted(role: Role, ps: seq<Payload>) {
    role.Member? && 1 <= |ps| <= MAX_BATCH && forall p :: p in ps ==> FieldsFit(p)
  }

  /** The batch as stamped. */
  function StampedBatch(w: World, userId: int, ps: seq<Payload>, env: Env): seq<KeyedEvent> {
    StampAll(Resume(w.sessions, w.log, userId, env.found), ps)
  }

  /** The events of the batch that are new. */
  function NewEvents(w: World, userId: int, ps: seq<Payload>, env: Env): seq<KeyedEvent> {
    var events := StampedBatch(w, userId, ps, env);
    Fresh(events, Inserted(w.log, userId, events))
  }

  /** Stamp, commit and fold; a failed append leaves only the session in memory moved. */
  function Submitted(w: World, userId: int, role: Role, ps: seq<Payload>, env: Env): World {
    if !Admitted(role, ps) then w
    else
      var sessions := w.sessions[userId := Open(Resume(w.sessions, w.log, userId, env.found), Spans(ps)).value];
      if !env.commits then w.(sessions := sessions)
      else
        World(sessions, Appended(w.log, userId, StampedBatch(w, userId, ps, env)),
              w.folded + FoldEvents(userId, NewEvents(w, userId, ps, env), env.durations, env.lost))
  }

  datatype Action =
    | Submit(userId: int, role: Role, ps: seq<Payload>, env: Env)
    | SubmitThenCrash(userId: int, role: Role, ps: seq<Payload>, env: Env)  // and memory is lost
    | Restart

  function Step(w: World, a: Action): World {
    match a
    case Submit(userId, role, ps, env) => Submitted(w, userId, role, ps, env)
    case SubmitThenCrash(userId, role, ps, env) => Submitted(w, userId, role, ps, env).(sessions := map[])
    case Restart => w.(sessions := map[])
  }

  function Run(w: World, acts: seq<Action>): World
    decreases |acts|
  {
    if acts == [] then w else Run(Step(w, acts[0]), acts[1..])
  }

  // ----- At most once, and once when nothing is lost -----

  predicate Loses(a: Action) { !a.Restart? && a.env.lost != {} }

  predicate NothingLost(acts: seq<Action>) {
    forall i :: 0 <= i < |acts| ==> !Loses(acts[i])
  }

  /** The durations known at each row's writing, carried over one action. */
  function Learned(w: World, known: seq<Durations>, a: Action): seq<Durations> {
    if a.Restart? || !Admitted(a.role, a.ps) || !a.env.commits then known
    else known + seq(|NewEvents(w, a.userId, a.ps, a.env)|, _ => a.env.durations)
  }

  function RunLearned(w: World, known: seq<Durations>, acts: seq<Action>): seq<Durations>
    decreases |acts|
  {
    if acts == [] then known else RunLearned(Step(w, acts[0]), Learned(w, known, acts[0]), acts[1..])
  }

  /** The folded skips are rows of the log, each at most once and in log order. */
  ghost predicate FoldsOnce(w: World, known: seq<Durations>) {
    |known| == |w.log| && Subsequence(w.folded, FoldLog(w.log, known))
  }

  ghost predicate FoldsAll(w: World, known: seq<Durations>) {
    |known| == |w.log| && w.folded == FoldLog(w.log, known)
  }

  lemma StepFolds(w: World, known: seq<Durations>, a: Action)
    requires KeysOnce(w.log) && FoldsOnce(w, known)
    ensures KeysOnce(Step(w, a).log) && FoldsOnce(Step(w, a), Learned(w, known, a))
    ensures FoldsAll(w, known) && !Loses(a) ==> FoldsAll(Step(w, a), Learned(w, known, a))
  {
    if !a.Restart? && Admitted(a.role, a.ps) && a.env.commits {
      var events, fresh_ := StampedBatch(w, a.userId, a.ps, a.env), NewEvents(w, a.userId, a.ps, a.env);
      AppendsFresh(w.log, a.userId, events);
      FoldLogAppend(w.log, known, a.userId, fresh_, a.env.durations);
      LossLeavesOut(a.userId, fresh_, a.env.durations, a.env.lost);
      SubsequenceBoth(w.folded, FoldLog(w.log, known),
                      FoldEvents(a.userId, fresh_, a.env.durations, a.env.lost), FoldEvents(a.userId, fresh_, a.env.durations, {}));
    }
  }

  /** In every run the log keeps one row per client id and the folded skips are rows of the log,
      each at most once and in log order; if no update is lost, exactly once. */
  lemma {:induction false} FoldsLogRows(w: World, known: seq<Durations>, acts: seq<Action>)
    requires KeysOnce(w.log) && FoldsOnce(w, known)
    ensures KeysOnce(Run(w, acts).log) && FoldsOnce(Run(w, acts), RunLearned(w, known, acts))
    ensures FoldsAll(w, known) && NothingLost(acts) ==> FoldsAll(Run(w, acts), RunLearned(w, known, acts))
    decreases |acts|
  {
    if acts != [] {
      StepFolds(w, known, acts[0]);
      FoldsLogRows(Step(w, acts[0]), Learned(w, known, acts[0]), acts[1..]);
    }
  }

  /** Every fold of a log comes from one of its skips. */
  lemma {:induction false} LogFoldsTrace(log: Log, known: seq<Durations>, k: nat)
    requires |known| == |log| && k < |FoldLog(log, known)|
    ensures exists i :: 0 <= i < |log| && TracesTo(FoldLog(log, known)[k], log[i].userId, log[i].event, known[i])
  {
    if log != [] {
      var n := |log| - 1;
      var before := FoldLog(log[..n], known[..n]);
      if k < |before| {
        LogFoldsTrace(log[..n], known[..n], k);
        var i :| 0 <= i < n && TracesTo(before[k], log[..n][i].userId, log[..n][i].event, known[..n][i]);
        assert TracesTo(before[k], log[i].userId, log[i].event, known[i]);
      } else {
        assert TracesTo(FoldLog(log, known)[k], log[n].userId, log[n].event, known[n]);
      }
    }
  }

  /** So in every run from an empty server whatever was folded was a skip that is on record. */
  lemma FoldedAreSkips(acts: seq<Action>, k: nat)
    requires k < |Run(World(map[], [], []), acts).folded|
    ensures var x, known := Run(World(map[], [], []), acts), RunLearned(World(map[], [], []), [], acts);
            |known| == |x.log| && exists i :: 0 <= i < |x.log| && TracesTo(x.folded[k], x.log[i].userId, x.log[i].event, known[i])
  {
    FoldsLogRows(World(map[], [], []), [], acts);
    var x, known := Run(World(map[], [], []), acts), RunLearned(World(map[], [], []), [], acts);
    var j := SubsequenceMember(x.folded, FoldLog(x.log, known), k);
    LogFoldsTrace(x.log, known, j);
  }

  /** The caps in numbers, for plain ASCII fields. */
  lemma CapsInAscii(p: Payload)
    requires Text.Ascii(p.eventType) && Text.Ascii(p.trackId) && (p.clientId.Some? ==> Text.Ascii(p.clientId.value))
    ensures FieldsFit(p) <==>
            && |p.eventType| <= 64 && |p.trackId| <= 256 && (p.metadata.Some? ==> p.metadataBytes <= 4096)
            && (p.clientId.Some? ==> 1 <= |p.clientId.value| <= 64)
  {
    Text.AsciiLength(p.eventType);
    Text.AsciiLength(p.trackId);
    if p.clientId.Some? { Text.AsciiLength(p.clientId.value); }
  }

  /** They count bytes: 22 signs of three bytes each are too many. */
  lemma CapsCountBytes(p: Payload)
    requires |p.eventType| == 22 && forall c :: c in p.eventType ==> c == '\U{20AC}'
    ensures !FieldsFit(p)
  {
    Text.RepeatedLength(p.eventType, '\U{20AC}');
  }

  // ----- The handler -----

  lemma SpansSnoc(prev: Option<Current>, ps: seq<Payload>, i: nat)
    requires i < |ps|
    ensures var span, cur := SpanOf(ps[i]), Open(prev, Spans(ps[..i]));
            var next := Advance(cur, span.startMs, span.endMs, LISTEN_SESSION_GAP_MS);
            && Open(prev, Spans(ps[..i + 1])) == Some(next)
            && StampAll(prev, ps[..i + 1]) == StampAll(prev, ps[..i]) + [KeyedEvent(EventOf(ps[i], next.id), ps[i].clientId)]
  {
    assert ps[..i + 1][..i] == ps[..i];
    assert Spans(ps[..i + 1])[..|Spans(ps[..i])|] == Spans(ps[..i]);
  }

  class TrackAffinity {
    var folded: seq<SkipFold>

    constructor ()
      ensures folded == []
    {
      folded := [];
    }
  }

  class Gateway {
    const store: EventStore
    const sessions: ListenSessions
    const affinity: TrackAffinity

    constructor ()
      ensures fresh(store) && fresh(sessions) && fresh(affinity)
      ensures State() == World(map[], [], [])
    {
      store := new EventStore();
      sessions := new ListenSessions();
      affinity := new TrackAffinity();
    }

    ghost function State(): World
      reads store, sessions, affinity
    {
      World(sessions.current, store.log, affinity.folded)
    }

    /** `lost` are the events whose affinity update fails, which the loop passes over. */
    method FoldSkipAffinity(userId: int, events: seq<KeyedEvent>, durations: Durations, lost: set<nat>)
      modifies affinity
      ensures affinity.folded == old(affinity.folded) + FoldEvents(userId, events, durations, lost)
    {
      for i := 0 to |events|
        invariant affinity.folded == old(affinity.folded) + FoldEvents(userId, events[..i], durations, lost)
      {
        assert events[..i + 1][..i] == events[..i];
        var ev := events[i].event;
        if ev.eventType != "skip" {
          continue;
        }
        var playedMs := ExtractMs(ev.metadata, "played_ms");
        if playedMs.None? || ev.trackId !in durations || durations[ev.trackId] == 0 {
          continue;
        }
        var durationMs := durations[ev.trackId] * 1000;
        if i in lost {
          continue;
        }
        affinity.folded := affinity.folded + [SkipFold(userId, ev.trackId, playedMs.value, durationMs, ev.occurredAt)];
      }
      assert events[..|events|] == events;
    }

    /** Stamps one event against the open session. */
    method StampOne(userId: int, p: Payload, found: bool) returns (e: KeyedEvent)
      modifies sessions
      ensures var span := SpanOf(p);
              var next := Advance(Resume(old(sessions.current), store.log, userId, found), span.startMs, span.endMs, LISTEN_SESSION_GAP_MS);
              e == KeyedEvent(EventOf(p, next.id), p.clientId) && sessions.current == old(sessions.current)[userId := next]
    {
      var heard := ExtractMs(p.metadata, "heard_ms");
      var startMs := p.occurredAt - (if heard.Some? then heard.value else 0);
      var id := sessions.Stamp(store, userId, startMs, p.occurredAt, found);
      var metadata := WithFields(p.metadata, [("listen_session", JString(id))]);
      e := KeyedEvent(Event(p.eventType, p.trackId, p.occurredAt, metadata, p.sessionId), p.clientId);
    }

    method StampBatch(userId: int, ps: seq<Payload>, found: bool) returns (events: seq<KeyedEvent>)
      modifies sessions
      ensures var prev := Resume(old(sessions.current), store.log, userId, found);
              && events == StampAll(prev, ps)
              && sessions.current == if ps == [] then old(sessions.current)
                                     else old(sessions.current)[userId := Open(prev, Spans(ps)).value]
    {
      events := [];
      ghost var start, prev := sessions.current, Resume(sessions.current, store.log, userId, found);
      for i := 0 to |ps|
        invariant events == StampAll(prev, ps[..i])
        invariant Resume(sessions.current, store.log, userId, found) == Open(prev, Spans(ps[..i]))
        invariant sessions.current == if i == 0 then start else start[userId := Open(prev, Spans(ps[..i])).value]
      {
        SpansSnoc(prev, ps, i);
        var e := StampOne(userId, ps[i], found);
        events := events + [e];
      }
      assert ps[..|ps|] == ps;
    }

    method Submit(userId: int, role: Role, ps: seq<Payload>, env: Env) returns (r: Response)
      modifies store, sessions, affinity
      ensures State() == Submitted(old(State()), userId, role, ps, env)
      ensures r == if role.Guest? then Accepted(0)
                   else if ps == [] then BadRequest
                   else if |ps| > MAX_BATCH then PayloadTooLarge
                   else if !Admitted(role, ps) then BadRequest
                   else if !env.commits then EventLogUnavailable
                   else Accepted(|NewEvents(old(State()), userId, ps, env)|)
    {
      if role.Guest? {
        return Accepted(0);
      }
      if |ps| == 0 {
        return BadRequest;
      }
      if |ps| > MAX_BATCH {
        return PayloadTooLarge;
      }
      for i := 0 to |ps|
        invariant forall j :: 0 <= j < i ==> FieldsFit(ps[j])
        invariant State() == old(State())
      {
        if !FieldsFit(ps[i]) {
          assert ps[i] in ps;
          return BadRequest;
        }
      }
      var events := StampBatch(userId, ps, env.found);
      if !env.commits {
        return EventLogUnavailable;
      }
      var inserted := store.AppendKeyed(userId, events);
      var landed := Fresh(events, inserted);
      FoldSkipAffinity(userId, landed, env.durations, env.lost);
      return Accepted(|landed|);
    }
  }
}
