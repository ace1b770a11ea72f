/** Listening sessions: one id per stretch of listening, split on idle gaps. */
module ListenSession {
  import opened Prelude
  import opened EventLog
  import Text

  const LISTEN_SESSION_GAP_MS := 30 * 60_000

  datatype Current = Current(id: string, lastMs: int)

  function SessionId(startMs: int): string { "ls-" + Text.Signed(startMs) }

  /** The session that activity spanning `startMs..=endMs` belongs to. */
  function Advance(prev: Option<Current>, startMs: int, endMs: int, gapMs: nat): Current {
    if prev.Some? && startMs - prev.value.lastMs <= gapMs
    then Current(prev.value.id, Max(prev.value.lastMs, endMs))
    else Current(SessionId(startMs), endMs)
  }

  lemma SessionIdInjective(a: int, b: int)
    requires SessionId(a) == SessionId(b)
    ensures a == b
  {
    assert SessionId(a)[3..] == Text.Signed(a) && SessionId(b)[3..] == Text.Signed(b);
    Text.SignedInjective(a, b);
  }

  /** The user's open session: the one in memory, else the one the log ended on, if the lookup
      finds it; a failed lookup starts fresh. */
  function Resume(sessions: map<int, Current>, log: Log, userId: int, found: bool): Option<Current> {
    if userId in sessions then Some(sessions[userId]) else if found then Recorded(log, userId) else None
  }

  function Recorded(log: Log, userId: int): Option<Current> {
    match LastListenSession(log, userId) case None => None case Some((id, lastMs)) => Some(Current(id, lastMs))
  }

  class ListenSessions {
    var current: map<int, Current>

    constructor ()
      ensures current == map[]
    {
      current := map[];
    }

    /** `found` tells whether the resume lookup, if one is needed, succeeds. */
    method Stamp(store: EventStore, userId: int, startMs: int, endMs: int, found: bool) returns (id: string)
      modifies this
      ensures var next := Advance(Resume(old(current), store.log, userId, found), startMs, endMs, LISTEN_SESSION_GAP_MS);
              id == next.id && current == old(current)[userId := next]
    {
      if userId !in current && found {
        var last := LastListenSession(store.log, userId);
        if last.Some? {
          current := current[userId := Current(last.value.0, last.value.1)];
        }
      }
      var prev := if userId in current then Some(current[userId]) else None;
      var next := Advance(prev, startMs, endMs, LISTEN_SESSION_GAP_MS);
      current := current[userId := next];
      return next.id;
    }
  }

  /** `metadata` with `fields` merged in; a non-object is passed through. */
  function WithFields(metadata: Option<Json>, fields: seq<(string, Json)>): Option<Json> {
    match metadata
    case None => Some(JObject(Merged(map[], fields)))
    case Some(JObject(obj)) => Some(JObject(Merged(obj, fields)))
    case Some(other) => Some(other)
  }

  function Merged(obj: map<string, Json>, fields: seq<(string, Json)>): map<string, Json> {
    if fields == [] then obj else Merged(obj, fields[..|fields| - 1])[fields[|fields| - 1].0 := fields[|fields| - 1].1]
  }

  /** Metadata that can carry the stamp. */
  predicate Stampable(metadata: Option<Json>) { metadata.None? || metadata.value.JObject? }

  function Stamped(metadata: Option<Json>, id: string): Option<Json> {
    WithFields(metadata, [("listen_session", JString(id))])
  }

  /** The stamp can be read back exactly when the metadata could carry it, whatever the client
      put there; every other field is untouched. */
  lemma StampReadsBack(e: Event, id: string)
    ensures SessionOf(e.(metadata := Stamped(e.metadata, id))) == if Stampable(e.metadata) then Some(id) else None
    ensures e.metadata.Some? && e.metadata.value.JObject? ==>
              Stamped(e.metadata, id) == Some(JObject(e.metadata.value.fields["listen_session" := JString(id)]))
  {
    var fields := [("listen_session", JString(id))];
    assert fields[..0] == [];
    assert forall obj: map<string, Json> :: Merged(obj, fields) == Merged(obj, fields[..0])[fields[0].0 := fields[0].1];
  }

  /** Activity splits the session exactly when it starts more than the gap after the last seen, and
      the new one is named after that start; a late event joins and never moves the clock back. */
  lemma SplitsIff(c: Current, start: int, startMs: int, endMs: int, gapMs: nat)
    requires Named(c, start) && startMs <= endMs
    ensures var next := Advance(Some(c), startMs, endMs, gapMs);
            && (next.id != c.id <==> startMs - c.lastMs > gapMs)
            && next.id in {c.id, "ls-" + Text.Signed(startMs)}
            && next.lastMs >= c.lastMs && next.lastMs >= endMs && next.lastMs in {c.lastMs, endMs}
    ensures Advance(None, startMs, endMs, gapMs) == Current("ls-" + Text.Signed(startMs), endMs)
  {
    if startMs - c.lastMs > gapMs && SessionId(startMs) == c.id {
      SessionIdInjective(startMs, start);
    }
  }

  // ----- Sessions move forward only -----

  /** One span of activity. */
  datatype Span = Span(startMs: int, endMs: int)

  function Open(prev: Option<Current>, spans: seq<Span>): Option<Current> {
    if spans == [] then prev
    else
      var s := spans[|spans| - 1];
      Some(Advance(Open(prev, spans[..|spans| - 1]), s.startMs, s.endMs, LISTEN_SESSION_GAP_MS))
  }

  ghost predicate Forward(spans: seq<Span>) {
    forall i :: 0 <= i < |spans| ==> spans[i].startMs <= spans[i].endMs
  }

  /** The session is named after a start that is not after its last activity. */
  ghost predicate Named(c: Current, startMs: int) { c.id == SessionId(startMs) && startMs <= c.lastMs }

  /** Each session that opens starts after everything seen before it, so starts strictly
      increase from session to session; last activity never moves back. */
  lemma {:induction false} StartsIncrease(c: Current, start: int, spans: seq<Span>) returns (s: int)
    requires Named(c, start) && Forward(spans)
    ensures var d := Open(Some(c), spans).value;
            && Named(d, s) && c.lastMs <= d.lastMs
            && (d.id != c.id ==> s > c.lastMs >= start)
            && (d.id == c.id ==> s == start)
  {
    if spans == [] {
      return start;
    }
    var n := |spans| - 1;
    var before := StartsIncrease(c, start, spans[..n]);
    var b, d := Open(Some(c), spans[..n]).value, Open(Some(c), spans).value;
    s := if spans[n].startMs - b.lastMs <= LISTEN_SESSION_GAP_MS then before else spans[n].startMs;
    if d.id == c.id {
      SessionIdInjective(s, start);
    }
    if b.id == c.id && d.id != c.id {
      assert s == spans[n].startMs;
    }
  }

  lemma {:induction false} OpenAppend(prev: Option<Current>, a: seq<Span>, b: seq<Span>)
    ensures Open(prev, a + b) == Open(Open(prev, a), b)
  {
    if b == [] {
      assert a + b == a;
    } else {
      OpenAppend(prev, a, b[..|b| - 1]);
      assert (a + b)[..|a + b| - 1] == a + b[..|b| - 1];
      assert (a + b)[|a + b| - 1] == b[|b| - 1];
    }
  }

  /** Once a session is closed its id never comes back. */
  lemma ClosedNeverRecurs(c: Current, start: int, spans: seq<Span>, more: seq<Span>)
    requires Named(c, start) && Forward(spans) && Forward(more)
    requires Open(Some(c), spans).value.id != c.id
    ensures Open(Some(c), spans + more).value.id != c.id
  {
    OpenAppend(Some(c), spans, more);
    var s := StartsIncrease(c, start, spans);
    var d := Open(Some(c), spans).value;
    var t := StartsIncrease(d, s, more);
    if Open(Some(d), more).value.id == c.id {
      SessionIdInjective(t, start);
    }
  }
}
