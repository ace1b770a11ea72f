/** The append-only event log, with deduplication of client-keyed events. */
module EventLog {
  import opened Prelude

  datatype Json =
    | JNull | JBool(b: bool) | JInt(n: int) | JFloat(x: real) | JString(s: string) | JArray(items: seq<Json>)
    | JObject(fields: map<string, Json>)

  datatype Event = Event(
    eventType: string,
    trackId: string,
    occurredAt: int,
    metadata: Option<Json>,
    sessionId: Option<string>)

  /** An event plus the client's id for it, if the client sent one. */
  datatype KeyedEvent = KeyedEvent(event: Event, clientId: Option<string>)

  /** A persisted event; its row id is its position in the log. */
  datatype Row = Row(userId: int, event: Event, clientId: Option<string>)

  type Log = seq<Row>

  /** The unique index on (user, client id) already holds this id. */
  predicate Taken(log: Log, userId: int, clientId: string) {
    exists r :: r in log && r.userId == userId && r.clientId == Some(clientId)
  }

  predicate Lands(log: Log, userId: int, e: KeyedEvent) {
    e.clientId.Some? ==> !Taken(log, userId, e.clientId.value)
  }

  /** The log after a batch: `INSERT ... ON CONFLICT DO NOTHING`, event by event. */
  function Appended(log: Log, userId: int, events: seq<KeyedEvent>): Log {
    if events == [] then log
    else
      var l, e := Appended(log, userId, events[..|events| - 1]), events[|events| - 1];
      if Lands(l, userId, e) then l + [Row(userId, e.event, e.clientId)] else l
  }

  /** Per event and in order, whether it was newly persisted. */
  function Inserted(log: Log, userId: int, events: seq<KeyedEvent>): (flags: seq<bool>)
    ensures |flags| == |events|
  {
    if events == [] then []
    else
      var init := events[..|events| - 1];
      Inserted(log, userId, init) + [Lands(Appended(log, userId, init), userId, events[|events| - 1])]
  }

  /** The events flagged as new. */
  function Fresh(events: seq<KeyedEvent>, flags: seq<bool>): seq<KeyedEvent>
    requires |flags| == |events|
  {
    if events == [] then []
    else
      var n := |events| - 1;
      Fresh(events[..n], flags[..n]) + if flags[n] then [events[n]] else []
  }

  function RowsOf(userId: int, events: seq<KeyedEvent>): seq<Row> {
    seq(|events|, i requires 0 <= i < |events| => Row(userId, events[i].event, events[i].clientId))
  }

  function Unkeyed(events: seq<Event>): seq<KeyedEvent> {
    seq(|events|, i requires 0 <= i < |events| => KeyedEvent(events[i], None))
  }

  // ----- Retries -----

  /** No (user, client id) pair has two rows. */
  ghost predicate KeysOnce(log: Log) {
    forall i, j :: 0 <= i < j < |log| && log[i].clientId.Some? && log[i].userId == log[j].userId ==>
                     log[i].clientId != log[j].clientId
  }

  /** A batch appends exactly the events it flags, in order, and keeps ids unique. */
  lemma {:induction false} AppendsFresh(log: Log, userId: int, events: seq<KeyedEvent>)
    ensures Appended(log, userId, events) == log + RowsOf(userId, Fresh(events, Inserted(log, userId, events)))
    ensures KeysOnce(log) ==> KeysOnce(Appended(log, userId, events))
  {
    if events != [] {
      var n := |events| - 1;
      AppendsFresh(log, userId, events[..n]);
      var flags := Inserted(log, userId, events);
      assert flags[..n] == Inserted(log, userId, events[..n]);
      var before := Fresh(events[..n], flags[..n]);
      if flags[n] {
        assert RowsOf(userId, before + [events[n]])
            == RowsOf(userId, before) + [Row(userId, events[n].event, events[n].clientId)];
      } else {
        assert before + [] == before;
      }
      var l := Appended(log, userId, events[..n]);
      assert forall i :: 0 <= i < |l| ==> l[i] in l;
    }
  }

  /** Afterwards every id of the batch is on record, and an event without an id was always new. */
  lemma {:induction false} AllRecorded(log: Log, userId: int, events: seq<KeyedEvent>, i: nat)
    requires i < |events|
    ensures events[i].clientId.Some? ==> Taken(Appended(log, userId, events), userId, events[i].clientId.value)
    ensures events[i].clientId.None? ==> Inserted(log, userId, events)[i]
  {
    var n := |events| - 1;
    var l := Appended(log, userId, events[..n]);
    assert forall r :: r in l ==> r in Appended(log, userId, events);
    if i < n {
      AllRecorded(log, userId, events[..n], i);
      assert events[..n][i] == events[i];
    } else if Lands(l, userId, events[n]) {
      assert Row(userId, events[n].event, events[n].clientId) in Appended(log, userId, events);
    }
  }

  /** Only the user's own rows with that very id keep an event out. */
  lemma LandsIff(log: Log, userId: int, e: KeyedEvent)
    ensures Inserted(log, userId, [e]) == [e.clientId.None? || forall r :: r in log && r.userId == userId ==> r.clientId != e.clientId]
  {
    assert [e][..0] == [];
  }

  /** Resending events whose ids are on record leaves the log alone and flags nothing. */
  lemma {:induction false} ResendIsNoop(log: Log, userId: int, events: seq<KeyedEvent>)
    requires forall i :: 0 <= i < |events| ==> events[i].clientId.Some? && Taken(log, userId, events[i].clientId.value)
    ensures Appended(log, userId, events) == log
    ensures Fresh(events, Inserted(log, userId, events)) == []
  {
    if events != [] {
      var n := |events| - 1;
      ResendIsNoop(log, userId, events[..n]);
      assert Inserted(log, userId, events)[..n] == Inserted(log, userId, events[..n]);
    }
  }

  datatype Batch = Batch(userId: int, events: seq<KeyedEvent>)

  function AppendedAll(log: Log, batches: seq<Batch>): Log {
    if batches == [] then log
    else
      var b := batches[|batches| - 1];
      Appended(AppendedAll(log, batches[..|batches| - 1]), b.userId, b.events)
  }

  /** Any number of batches later the ids are still unique and still on record. */
  lemma {:induction false} RunKeepsKeys(log: Log, batches: seq<Batch>)
    requires KeysOnce(log)
    ensures KeysOnce(AppendedAll(log, batches)) && log <= AppendedAll(log, batches)
  {
    if batches != [] {
      var init, b := batches[..|batches| - 1], batches[|batches| - 1];
      RunKeepsKeys(log, init);
      AppendsFresh(AppendedAll(log, init), b.userId, b.events);
    }
  }

  /** A whole keyed batch retried after any other traffic changes nothing. */
  lemma RetryIsNoop(log: Log, userId: int, events: seq<KeyedEvent>, between: seq<Batch>)
    requires KeysOnce(log) && forall i :: 0 <= i < |events| ==> events[i].clientId.Some?
    ensures var later := AppendedAll(Appended(log, userId, events), between);
            && Appended(later, userId, events) == later
            && Fresh(events, Inserted(later, userId, events)) == []
  {
    var after := Appended(log, userId, events);
    var later := AppendedAll(after, between);
    AppendsFresh(log, userId, events);
    RunKeepsKeys(after, between);
    forall i | 0 <= i < |events|
      ensures Taken(later, userId, events[i].clientId.value)
    {
      AllRecorded(log, userId, events, i);
      var r :| r in after && r.userId == userId && r.clientId == Some(events[i].clientId.value);
      assert r in later;
    }
    ResendIsNoop(later, userId, events);
  }

  // ----- The last listening session on record -----

  /** `json_extract(metadata, '$.listen_session')`, where it is a string. */
  function SessionOf(e: Event): Option<string> {
    if e.metadata.Some? && e.metadata.value.JObject? && "listen_session" in e.metadata.value.fields
       && e.metadata.value.fields["listen_session"].JString?
    then Some(e.metadata.value.fields["listen_session"].s)
    else None
  }

  /** The user's newest stamped row by (occurred_at, row id), as its session and time. */
  function LastListenSession(log: Log, userId: int): Option<(string, int)> {
    if log == [] then None
    else
      var rest, r := LastListenSession(log[..|log| - 1], userId), log[|log| - 1];
      if r.userId != userId || SessionOf(r.event).None? then rest
      else if rest.Some? && rest.value.1 > r.event.occurredAt then rest
      else Some((SessionOf(r.event).value, r.event.occurredAt))
  }

  ghost predicate IsNewest(log: Log, userId: int, i: nat) {
    && i < |log| && log[i].userId == userId && SessionOf(log[i].event).Some?
    && forall j :: 0 <= j < |log| && log[j].userId == userId && SessionOf(log[j].event).Some? ==>
         log[j].event.occurredAt < log[i].event.occurredAt || (log[j].event.occurredAt == log[i].event.occurredAt && j <= i)
  }

  lemma {:induction false} NoneStamped(log: Log, userId: int)
    ensures LastListenSession(log, userId).None? <==> forall r :: r in log && r.userId == userId ==> SessionOf(r.event).None?
  {
    if log != [] {
      NoneStamped(log[..|log| - 1], userId);
      assert log == log[..|log| - 1] + [log[|log| - 1]];
    }
  }

  /** It is the latest stamped row of that user, the last inserted one among equals. */
  lemma {:induction false} LastIsNewest(log: Log, userId: int) returns (i: nat)
    requires LastListenSession(log, userId).Some?
    ensures IsNewest(log, userId, i)
    ensures LastListenSession(log, userId).value == (SessionOf(log[i].event).value, log[i].event.occurredAt)
  {
    var n := |log| - 1;
    var init, r := log[..n], log[n];
    var rest := LastListenSession(init, userId);
    NoneStamped(init, userId);
    assert forall j :: 0 <= j < n ==> log[j] in init;
    if rest.Some? {
      i := LastIsNewest(init, userId);
    }
    if r.userId == userId && SessionOf(r.event).Some? && (rest.None? || rest.value.1 <= r.event.occurredAt) {
      i := n;
    }
  }

  class EventStore {
    var log: Log

    constructor ()
      ensures log == []
    {
      log := [];
    }

    /** One transaction: all of the batch, with its per-event verdicts. */
    method AppendKeyed(userId: int, events: seq<KeyedEvent>) returns (inserted: seq<bool>)
      modifies this
      ensures log == Appended(old(log), userId, events)
      ensures inserted == Inserted(old(log), userId, events)
    {
      inserted := [];
      for i := 0 to |events|
        invariant log == Appended(old(log), userId, events[..i])
        invariant inserted == Inserted(old(log), userId, events[..i])
      {
        assert events[..i + 1][..i] == events[..i];
        var e := events[i];
        if e.clientId.Some? && Taken(log, userId, e.clientId.value) {
          inserted := inserted + [false];
        } else {
          log := log + [Row(userId, e.event, e.clientId)];
          inserted := inserted + [true];
        }
      }
      assert events[..|events|] == events;
    }

    /** A batch without client ids: everything lands. */
    method AppendBatch(userId: int, events: seq<Event>) returns (n: nat)
      modifies this
      ensures n == |events| && log == old(log) + RowsOf(userId, Unkeyed(events))
    {
      var keyed := Unkeyed(events);
      ghost var before := log;
      var inserted := AppendKeyed(userId, keyed);
      AppendsFresh(before, userId, keyed);
      KeylessLands(before, userId, keyed);
      n := 0;
      for i := 0 to |inserted|
        invariant n == i && log == Appended(before, userId, keyed)
      {
        AllRecorded(before, userId, keyed, i);
        if inserted[i] {
          n := n + 1;
        }
      }
    }
  }

  lemma {:induction false} KeylessLands(log: Log, userId: int, events: seq<KeyedEvent>)
    requires forall i :: 0 <= i < |events| ==> events[i].clientId.None?
    ensures Fresh(events, Inserted(log, userId, events)) == events
  {
    if events != [] {
      var n := |events| - 1;
      KeylessLands(log, userId, events[..n]);
      assert Inserted(log, userId, events)[..n] == Inserted(log, userId, events[..n]);
    }
  }
}
