/** The on-disk audio cache: metadata rows, a blob directory, LRU eviction and pinning. */
module AudioCaches {
  import opened Prelude
  import Text

  type Bitrate = b: nat | b < 0x1_0000_0000

  datatype AudioKey = AudioKey(trackId: string, bitrate: Option<Bitrate>, codec: string)

  function BitrateText(b: Option<Bitrate>): string {
    match b case None => "orig" case Some(n) => Text.Decimal(n)
  }

  /** The SQLite primary key, and what the blob's file name is hashed from. */
  function Canonical(k: AudioKey): string {
    k.trackId + "|" + BitrateText(k.bitrate) + "|" + k.codec
  }

  // ----- Which keys collide -----

  lemma BitrateTextFacts(a: Option<Bitrate>, b: Option<Bitrate>)
    ensures '|' !in BitrateText(a) && BitrateText(a) != []
    ensures BitrateText(a) == BitrateText(b) ==> a == b
  {
    assert 'o' in "orig" by { assert "orig"[0] == 'o'; }
    if a.Some? && b.Some? && BitrateText(a) == BitrateText(b) {
      Text.DecimalInjective(a.value, b.value);
    }
  }

  lemma SplitAtLastBar(a: string, b: string, c: string, d: string)
    requires a + "|" + b == c + "|" + d && '|' !in b && '|' !in d
    ensures a == c && b == d
  {
    LastBar(a, b);
    LastBar(c, d);
    var s := a + "|" + b;
    assert |a| == |c|;
    assert a == s[..|a|] && c == s[..|c|] && s[|a| + 1..] == b && s[|c| + 1..] == d;
  }

  lemma LastBar(a: string, b: string)
    requires '|' !in b
    ensures var s := a + "|" + b; s[|a|] == '|' && forall i :: |a| < i < |s| ==> s[i] != '|'
  {
    var s := a + "|" + b;
    assert forall i :: |a| < i < |s| ==> s[i] == b[i - |a| - 1];
  }

  /** Distinct keys have distinct canonical forms when codecs are free of '|'. */
  lemma CanonicalInjective(k: AudioKey, l: AudioKey)
    requires '|' !in k.codec && '|' !in l.codec && Canonical(k) == Canonical(l)
    ensures k == l
  {
    BitrateTextFacts(k.bitrate, l.bitrate);
    BitrateTextFacts(l.bitrate, k.bitrate);
    SplitAtLastBar(k.trackId + "|" + BitrateText(k.bitrate), k.codec, l.trackId + "|" + BitrateText(l.bitrate), l.codec);
    SplitAtLastBar(k.trackId, BitrateText(k.bitrate), l.trackId, BitrateText(l.bitrate));
  }

  /** `codec` carries a bitrate field of its own: `rest` is what a shorter codec could be. */
  ghost predicate Embeds(codec: string, pre: string, b: Option<Bitrate>, rest: string) {
    codec == pre + BitrateText(b) + "|" + rest && (pre == [] || pre[|pre| - 1] == '|')
  }

  ghost predicate Smuggles(codec: string) {
    exists pre, b, rest :: Embeds(codec, pre, b, rest)
  }

  ghost predicate CollidesBelow(k: AudioKey, l: AudioKey) {
    l != k && |l.codec| <= |k.codec| && Canonical(l) == Canonical(k)
  }

  /** Text before a bitrate field and a codec reads as a track id of its own. */
  lemma Reads(k: AudioKey, id: string, b: Option<Bitrate>, rest: string)
    requires Canonical(k) == id + "|" + (BitrateText(b) + "|" + rest) && |rest| < |k.codec|
    ensures CollidesBelow(k, AudioKey(id, b, rest))
  {
    var text := BitrateText(b);
    assert id + "|" + text + "|" + rest == id + "|" + (text + "|" + rest);
  }

  /** The codec starts with the field. */
  lemma LeadingField(k: AudioKey, b: Option<Bitrate>, rest: string)
    requires k.codec == BitrateText(b) + "|" + rest
    ensures exists l :: CollidesBelow(k, l)
  {
    Reads(k, k.trackId + "|" + BitrateText(k.bitrate), b, rest);
  }

  /** The codec has the field behind a bar. */
  lemma InnerField(k: AudioKey, inner: string, b: Option<Bitrate>, rest: string)
    requires k.codec == inner + "|" + (BitrateText(b) + "|" + rest)
    ensures exists l :: CollidesBelow(k, l)
  {
    var head, tail := k.trackId + "|" + BitrateText(k.bitrate), BitrateText(b) + "|" + rest;
    assert head + "|" + (inner + "|" + tail) == head + "|" + inner + "|" + tail;
    Reads(k, head + "|" + inner, b, rest);
  }

  lemma SmugglerCollides(k: AudioKey, pre: string, b: Option<Bitrate>, rest: string)
    requires Embeds(k.codec, pre, b, rest)
    ensures exists l :: CollidesBelow(k, l)
  {
    var text := BitrateText(b);
    if pre == [] {
      assert pre + text + "|" + rest == text + "|" + rest;
      LeadingField(k, b, rest);
    } else {
      var inner := pre[..|pre| - 1];
      assert pre == inner + "|";
      assert pre + text + "|" + rest == inner + "|" + (text + "|" + rest);
      InnerField(k, inner, b, rest);
    }
  }

  lemma ColliderSmuggles(k: AudioKey, l: AudioKey)
    requires CollidesBelow(k, l)
    ensures Smuggles(k.codec)
  {
    var s, bk, bl := Canonical(k), BitrateText(k.bitrate), BitrateText(l.bitrate);
    BitrateTextFacts(k.bitrate, l.bitrate);
    BitrateTextFacts(l.bitrate, k.bitrate);
    var at := |s| - |k.codec|;
    var prefix := l.trackId + "|" + bl;
    assert s == prefix + "|" + l.codec && s[at..] == k.codec && s[at - 1] == '|';
    if |l.codec| == |k.codec| {
      assert s[|s| - |l.codec|..] == l.codec;
      assert prefix == s[..at - 1] == k.trackId + "|" + bk;
      SplitAtLastBar(k.trackId, bk, l.trackId, bl);
    } else {
      assert forall i :: |l.trackId| < i < |prefix| ==> s[i] == bl[i - |l.trackId| - 1] && s[i] in bl;
      assert at <= |l.trackId| + 1;
      var pre := (l.trackId + "|")[at..];
      assert k.codec == pre + bl + "|" + l.codec;
      assert Embeds(k.codec, pre, l.bitrate, l.codec);
    }
  }

  /** A key shares its canonical form with another of no longer codec exactly when its codec has
      a bitrate field of its own. */
  lemma CollisionIff(k: AudioKey)
    ensures (exists l :: CollidesBelow(k, l)) <==> Smuggles(k.codec)
  {
    if Smuggles(k.codec) {
      var pre, b, rest :| Embeds(k.codec, pre, b, rest);
      SmugglerCollides(k, pre, b, rest);
    }
    if l :| CollidesBelow(k, l) {
      ColliderSmuggles(k, l);
    }
  }

  // ----- The table -----

  /** A blob file's path; hashing the canonical key is taken to be collision-free. */
  datatype BlobPath = BlobPath(hashOf: string)
  type Body = seq<bv8>

  datatype Row = Row(key: string, audio: AudioKey, blobPath: BlobPath, bytes: nat, lastAccessed: int, pinned: bool)

  type Table = seq<Row>

  ghost predicate UniqueKeys(rows: Table) {
    forall i, j :: 0 <= i < j < |rows| ==> rows[i].key != rows[j].key
  }

  function Find(rows: Table, key: string): (r: Option<Row>)
    ensures r.Some? ==> r.value in rows && r.value.key == key
    ensures r.None? ==> forall x :: x in rows ==> x.key != key
  {
    if rows == [] then None else if rows[0].key == key then Some(rows[0]) else Find(rows[1..], key)
  }

  function RegularBytes(rows: Table): nat {
    if rows == [] then 0 else (if rows[0].pinned then 0 else rows[0].bytes) + RegularBytes(rows[1..])
  }

  function RegularCount(rows: Table): nat {
    if rows == [] then 0 else (if rows[0].pinned then 0 else 1) + RegularCount(rows[1..])
  }

  function PinnedBytes(rows: Table): nat {
    if rows == [] then 0 else (if rows[0].pinned then rows[0].bytes else 0) + PinnedBytes(rows[1..])
  }

  function Deleted(rows: Table, key: string): Table {
    if rows == [] then [] else if rows[0].key == key then Deleted(rows[1..], key) else [rows[0]] + Deleted(rows[1..], key)
  }

  /** The row with `row`'s key gives way to it. */
  function Replaced(rows: Table, row: Row): Table {
    if rows == [] then [] else [if rows[0].key == row.key then row else rows[0]] + Replaced(rows[1..], row)
  }

  /** `INSERT ... ON CONFLICT(key) DO UPDATE`, which leaves `pinned` alone. */
  function Upserted(rows: Table, row: Row): Table {
    match Find(rows, row.key)
    case None => rows + [row.(pinned := false)]
    case Some(old_) => Replaced(rows, row.(pinned := old_.pinned))
  }

  /** Least recently used first, keys breaking ties. */
  predicate Before(a: Row, b: Row) {
    a.lastAccessed < b.lastAccessed || (a.lastAccessed == b.lastAccessed && Text.Below(a.key, b.key))
  }

  /** `SELECT ... WHERE pinned = 0 ORDER BY last_accessed_at, key LIMIT 1`. */
  function Oldest(rows: Table): (r: Option<Row>)
    ensures r.Some? ==> r.value in rows && !r.value.pinned
    ensures r.None? <==> RegularCount(rows) == 0
  {
    if rows == [] then None
    else
      var rest := Oldest(rows[1..]);
      if rows[0].pinned || (rest.Some? && Before(rest.value, rows[0])) then rest else Some(rows[0])
  }

  function SumOf(row: Row): (nat, nat, nat) {
    if row.pinned then (0, 0, row.bytes) else (row.bytes, 1, 0)
  }

  lemma {:induction false} ReplaceShape(rows: Table, row: Row)
    ensures var r := Replaced(rows, row);
            |r| == |rows| && forall i :: 0 <= i < |rows| ==> r[i] == if rows[i].key == row.key then row else rows[i]
  {
    if rows != [] {
      ReplaceShape(rows[1..], row);
    }
  }

  lemma {:induction false} ReplaceSums(rows: Table, was: Row, row: Row)
    requires UniqueKeys(rows) && was in rows && was.key == row.key
    ensures var r := Replaced(rows, row);
            && RegularBytes(r) == RegularBytes(rows) - SumOf(was).0 + SumOf(row).0
            && RegularCount(r) == RegularCount(rows) - SumOf(was).1 + SumOf(row).1
            && PinnedBytes(r) == PinnedBytes(rows) - SumOf(was).2 + SumOf(row).2
  {
    if rows[0] == was {
      ReplaceAbsent(rows[1..], row);
      assert Replaced(rows, row) == [row] + rows[1..];
    } else {
      ReplaceSums(rows[1..], was, row);
      assert Replaced(rows, row) == [rows[0]] + Replaced(rows[1..], row);
    }
  }

  lemma ReplaceFacts(rows: Table, was: Row, row: Row)
    requires UniqueKeys(rows) && was in rows && was.key == row.key
    ensures var r := Replaced(rows, row);
            UniqueKeys(r) && forall x :: x in r <==> x == row || (x in rows && x != was)
  {
    ReplaceShape(rows, row);
    var r := Replaced(rows, row);
    forall x | x == row || (x in rows && x != was)
      ensures x in r
    {
      var i :| 0 <= i < |rows| && rows[i] == if x == row then was else x;
      assert r[i] == row || rows[i] == x;
      assert r[i] == x;
    }
  }

  lemma {:induction false} ReplaceAbsent(rows: Table, row: Row)
    requires forall x :: x in rows ==> x.key != row.key
    ensures Replaced(rows, row) == rows && Deleted(rows, row.key) == rows
  {
    if rows != [] {
      ReplaceAbsent(rows[1..], row);
    }
  }

  lemma {:induction false} AppendFacts(rows: Table, row: Row)
    ensures RegularBytes(rows + [row]) == RegularBytes(rows) + SumOf(row).0
    ensures RegularCount(rows + [row]) == RegularCount(rows) + SumOf(row).1
    ensures PinnedBytes(rows + [row]) == PinnedBytes(rows) + SumOf(row).2
  {
    if rows != [] {
      AppendFacts(rows[1..], row);
      assert (rows + [row])[1..] == rows[1..] + [row];
    }
  }

  lemma {:induction false} DeleteMembers(rows: Table, was: Row)
    requires UniqueKeys(rows) && was in rows
    ensures var r := Deleted(rows, was.key);
            |r| < |rows| && forall x :: x in r <==> x in rows && x != was
  {
    if rows[0] == was {
      ReplaceAbsent(rows[1..], was);
    } else {
      DeleteMembers(rows[1..], was);
      assert Deleted(rows, was.key) == [rows[0]] + Deleted(rows[1..], was.key);
    }
    assert rows == [rows[0]] + rows[1..];
  }

  lemma {:induction false} DeleteUnique(rows: Table, was: Row)
    requires UniqueKeys(rows) && was in rows
    ensures UniqueKeys(Deleted(rows, was.key))
  {
    if rows[0] == was {
      ReplaceAbsent(rows[1..], was);
    } else {
      DeleteUnique(rows[1..], was);
      DeleteMembers(rows[1..], was);
      var rest := Deleted(rows[1..], was.key);
      assert Deleted(rows, was.key) == [rows[0]] + rest;
      assert forall i :: 0 <= i < |rest| ==> rest[i] in rest;
    }
  }

  lemma {:induction false} DeleteSums(rows: Table, was: Row)
    requires UniqueKeys(rows) && was in rows
    ensures var r := Deleted(rows, was.key);
            && RegularBytes(r) == RegularBytes(rows) - SumOf(was).0
            && RegularCount(r) == RegularCount(rows) - SumOf(was).1
            && PinnedBytes(r) == PinnedBytes(rows) - SumOf(was).2
  {
    if rows[0] == was {
      ReplaceAbsent(rows[1..], was);
    } else {
      DeleteSums(rows[1..], was);
      assert Deleted(rows, was.key) == [rows[0]] + Deleted(rows[1..], was.key);
    }
  }

  lemma DeleteFacts(rows: Table, was: Row)
    requires UniqueKeys(rows) && was in rows
    ensures var r := Deleted(rows, was.key);
            && UniqueKeys(r) && |r| < |rows|
            && (forall x :: x in r <==> x in rows && x != was)
            && RegularBytes(r) == RegularBytes(rows) - SumOf(was).0
            && RegularCount(r) == RegularCount(rows) - SumOf(was).1
            && PinnedBytes(r) == PinnedBytes(rows) - SumOf(was).2
  {
    DeleteMembers(rows, was);
    DeleteUnique(rows, was);
    DeleteSums(rows, was);
  }

  // ----- Eviction -----

  /** The regular rows fit their budget, or there is at most one of them. */
  predicate Fits(rows: Table, budget: nat) {
    RegularBytes(rows) <= budget || RegularCount(rows) <= 1
  }

  /** Drops the oldest regular row until the rest fit. */
  function Evicted(rows: Table, budget: nat): Table
    decreases RegularCount(rows)
    requires UniqueKeys(rows)
  {
    if Fits(rows, budget) then rows
    else
      var gone := Oldest(rows).value;
      DeleteFacts(rows, gone);
      Evicted(Deleted(rows, gone.key), budget)
  }

  /** The regular rows, least recently used first. */
  ghost predicate IsLruOrder(order: seq<Row>, rows: Table) {
    && (forall i, j :: 0 <= i < j < |order| ==> Before(order[i], order[j]))
    && (forall r :: r in order <==> r in rows && !r.pinned)
  }

  function Without(rows: Table, gone: set<Row>): Table {
    if rows == [] then [] else if rows[0] in gone then Without(rows[1..], gone) else [rows[0]] + Without(rows[1..], gone)
  }

  lemma BeforeTotal(a: Row, b: Row)
    requires a.key != b.key
    ensures Before(a, b) != Before(b, a)
  {
    Text.BelowTotal(a.key, b.key);
    if Text.Below(a.key, b.key) && Text.Below(b.key, a.key) {
      Text.BelowTransitive(a.key, b.key, a.key);
    }
    Text.BelowIrreflexive(a.key);
  }

  lemma BeforeTransitive(a: Row, b: Row, c: Row)
    requires Before(a, b) && Before(b, c)
    ensures Before(a, c)
  {
    if a.lastAccessed == b.lastAccessed == c.lastAccessed {
      Text.BelowTransitive(a.key, b.key, c.key);
    }
  }

  lemma {:induction false} OldestIsLeast(rows: Table, r: Row)
    requires UniqueKeys(rows) && r in rows && !r.pinned
    ensures Oldest(rows).Some? && (Oldest(rows).value == r || Before(Oldest(rows).value, r))
  {
    if rows[0] != r {
      OldestIsLeast(rows[1..], r);
      var m := Oldest(rows[1..]).value;
      if !rows[0].pinned && !Before(m, rows[0]) {
        BeforeTotal(m, rows[0]);
        if m != r { BeforeTransitive(rows[0], m, r); }
      }
    } else if Oldest(rows[1..]).Some? {
      BeforeTotal(Oldest(rows[1..]).value, r);
    }
  }

  lemma {:induction false} WithoutNone(rows: Table)
    ensures Without(rows, {}) == rows
  {
    if rows != [] {
      WithoutNone(rows[1..]);
    }
  }

  lemma {:induction false} WithoutMembers(rows: Table, gone: set<Row>)
    requires UniqueKeys(rows)
    ensures forall r :: r in Without(rows, gone) <==> r in rows && r !in gone
    ensures UniqueKeys(Without(rows, gone))
  {
    if rows != [] {
      WithoutMembers(rows[1..], gone);
      var rest := Without(rows[1..], gone);
      assert rows == [rows[0]] + rows[1..];
      assert rows[0] !in gone ==> Without(rows, gone) == [rows[0]] + rest;
      forall i | 0 <= i < |rest|
        ensures rest[i].key != rows[0].key
      {
        assert rest[i] in rows[1..];
      }
    }
  }

  lemma {:induction false} DeleteThenWithout(rows: Table, r: Row, gone: set<Row>)
    requires UniqueKeys(rows) && r in rows
    ensures Without(Deleted(rows, r.key), gone) == Without(rows, gone + {r})
  {
    if rows[0] == r {
      ReplaceAbsent(rows[1..], r);
      WithoutOutside(rows[1..], r, gone);
    } else {
      DeleteThenWithout(rows[1..], r, gone);
      assert Deleted(rows, r.key) == [rows[0]] + Deleted(rows[1..], r.key);
    }
  }

  lemma {:induction false} WithoutOutside(rows: Table, r: Row, gone: set<Row>)
    requires r !in rows
    ensures Without(rows, gone) == Without(rows, gone + {r})
  {
    if rows != [] {
      WithoutOutside(rows[1..], r, gone);
    }
  }

  /** Eviction removes exactly the shortest prefix of the LRU order that makes the rest fit. */
  lemma {:induction false} EvictsShortestPrefix(rows: Table, budget: nat, order: seq<Row>) returns (n: nat)
    requires UniqueKeys(rows) && IsLruOrder(order, rows)
    ensures n <= |order| && Evicted(rows, budget) == Without(rows, Elems(order[..n]))
    ensures Fits(Without(rows, Elems(order[..n])), budget)
    ensures forall m :: 0 <= m < n ==> !Fits(Without(rows, Elems(order[..m])), budget)
    decreases |order|
  {
    NoPrefix(rows, order);
    if Fits(rows, budget) {
      return 0;
    }
    OldestHeadsOrder(rows, order);
    var tail := order[1..];
    DeleteUnique(rows, order[0]);
    TailOrder(rows, order);
    var k := EvictsShortestPrefix(Deleted(rows, order[0].key), budget, tail);
    n := k + 1;
    PrefixWithout(rows, order, n);
    forall m | 1 <= m < n
      ensures !Fits(Without(rows, Elems(order[..m])), budget)
    {
      PrefixWithout(rows, order, m);
    }
  }

  lemma NoPrefix(rows: Table, order: seq<Row>)
    ensures Without(rows, Elems(order[..0])) == rows
  {
    WithoutNone(rows);
    assert Elems(order[..0]) == {};
  }

  /** With its head deleted, the order is the order of what is left. */
  lemma TailOrder(rows: Table, order: seq<Row>)
    requires UniqueKeys(rows) && IsLruOrder(order, rows) && order != []
    ensures IsLruOrder(order[1..], Deleted(rows, order[0].key))
  {
    assert order[0] in order;
    DeleteMembers(rows, order[0]);
    BeforeIrreflexive(order[0]);
    assert order == [order[0]] + order[1..];
  }

  lemma PrefixWithout(rows: Table, order: seq<Row>, m: nat)
    requires UniqueKeys(rows) && 1 <= m <= |order| && order[0] in rows
    ensures Without(rows, Elems(order[..m])) == Without(Deleted(rows, order[0].key), Elems(order[1..][..m - 1]))
  {
    var tail := order[1..][..m - 1];
    DeleteThenWithout(rows, order[0], Elems(tail));
    assert order[..m] == [order[0]] + tail;
    assert Elems(order[..m]) == Elems(tail) + {order[0]};
  }

  lemma BeforeIrreflexive(r: Row)
    ensures !Before(r, r)
  {
    Text.BelowIrreflexive(r.key);
  }

  lemma OldestHeadsOrder(rows: Table, order: seq<Row>)
    requires UniqueKeys(rows) && IsLruOrder(order, rows) && RegularCount(rows) > 0
    ensures order != [] && Oldest(rows) == Some(order[0])
  {
    var least := Oldest(rows).value;
    assert least in order;
    var first := order[0];
    OldestIsLeast(rows, first);
    if least != first {
      BeforeTransitive(first, least, first);
      BeforeIrreflexive(first);
    }
  }

  lemma {:induction false} LoneRegular(rows: Table, r: Row)
    requires UniqueKeys(rows) && forall x :: x in rows && !x.pinned ==> x == r
    ensures RegularCount(rows) <= 1
  {
    if rows != [] {
      LoneRegular(rows[1..], r);
      if !rows[0].pinned {
        NoRegular(rows[1..]);
      }
    }
  }

  lemma {:induction false} NoRegular(rows: Table)
    requires forall x :: x in rows ==> x.pinned
    ensures RegularCount(rows) == 0
  {
    if rows != [] {
      NoRegular(rows[1..]);
    }
  }

  /** Pinned rows and the newest regular row outlive every eviction. */
  lemma EvictionSpares(rows: Table, budget: nat, order: seq<Row>, r: Row)
    requires UniqueKeys(rows) && IsLruOrder(order, rows) && r in rows
    requires r.pinned || r == order[|order| - 1]
    ensures r in Evicted(rows, budget)
  {
    var n := EvictsShortestPrefix(rows, budget, order);
    WithoutMembers(rows, Elems(order[..n]));
    if !r.pinned {
      if n == |order| {
        AllButLastFit(rows, budget, order);
      }
      forall i | 0 <= i < n
        ensures order[i] != r
      {
        assert Before(order[i], r);
        BeforeIrreflexive(r);
      }
    }
  }

  /** The regular rows that eviction takes before `r`. */
  function Older(rows: Table, r: Row): set<Row> { set x | x in rows && !x.pinned && Before(x, r) }

  lemma {:induction false} WithoutMore(rows: Table, a: set<Row>, b: set<Row>)
    requires a <= b
    ensures RegularBytes(Without(rows, b)) <= RegularBytes(Without(rows, a))
    ensures RegularCount(Without(rows, b)) <= RegularCount(Without(rows, a))
  {
    if rows != [] {
      WithoutMore(rows[1..], a, b);
      assert rows[0] !in a ==> Without(rows, a) == [rows[0]] + Without(rows[1..], a);
      assert rows[0] !in b ==> Without(rows, b) == [rows[0]] + Without(rows[1..], b);
    }
  }

  lemma OlderIsPrefix(rows: Table, order: seq<Row>, i: nat)
    requires UniqueKeys(rows) && IsLruOrder(order, rows) && i < |order|
    ensures Elems(order[..i]) == Older(rows, order[i])
  {
    forall x | x in Older(rows, order[i])
      ensures x in order[..i]
    {
      assert x in order;
      var j :| 0 <= j < |order| && order[j] == x;
      BeforeIrreflexive(order[i]);
      if j > i { BeforeTransitive(x, order[i], x); BeforeIrreflexive(x); }
    }
    forall x | x in order[..i]
      ensures x in Older(rows, order[i])
    {
      assert x in order;
    }
  }

  lemma InPrefixIff(order: seq<Row>, n: nat, i: nat)
    requires n <= |order| && i < |order| && forall a, b :: 0 <= a < b < |order| ==> Before(order[a], order[b])
    ensures order[i] in order[..n] <==> i < n
  {
    BeforeIrreflexive(order[i]);
    if i < n {
      assert order[..n][i] == order[i];
    }
  }

  /** The `i`-th regular row outlives eviction exactly when the table fits without those before it. */
  lemma SurvivesAt(rows: Table, budget: nat, order: seq<Row>, i: nat)
    requires UniqueKeys(rows) && IsLruOrder(order, rows) && i < |order|
    ensures order[i] in Evicted(rows, budget) <==> Fits(Without(rows, Elems(order[..i])), budget)
  {
    var n := EvictsShortestPrefix(rows, budget, order);
    assert order[i] in order;
    WithoutMembers(rows, Elems(order[..n]));
    InPrefixIff(order, n, i);
    if n <= i {
      assert order[..n] == order[..i][..n];
      WithoutMore(rows, Elems(order[..n]), Elems(order[..i]));
    }
  }

  /** A row outlives eviction exactly when it is pinned or the table fits without the older rows. */
  lemma SurvivesIff(rows: Table, budget: nat, r: Row)
    requires UniqueKeys(rows) && r in rows
    ensures r in Evicted(rows, budget) <==> r.pinned || Fits(Without(rows, Older(rows, r)), budget)
  {
    var order := LruOrderExists(rows);
    if r.pinned {
      EvictionSpares(rows, budget, order, r);
    } else {
      assert r in order;
      var i :| 0 <= i < |order| && order[i] == r;
      OlderIsPrefix(rows, order, i);
      SurvivesAt(rows, budget, order, i);
    }
  }

  lemma AllButLastFit(rows: Table, budget: nat, order: seq<Row>)
    requires UniqueKeys(rows) && IsLruOrder(order, rows) && order != []
    ensures Fits(Without(rows, Elems(order[..|order| - 1])), budget)
  {
    var gone, r := order[..|order| - 1], order[|order| - 1];
    WithoutMembers(rows, Elems(gone));
    assert order == gone + [r];
    LoneRegular(Without(rows, Elems(gone)), r);
  }

  /** Every table has an LRU order. */
  lemma {:induction false} LruOrderExists(rows: Table) returns (order: seq<Row>)
    requires UniqueKeys(rows)
    ensures IsLruOrder(order, rows)
    decreases RegularCount(rows)
  {
    if RegularCount(rows) == 0 {
      order := [];
      forall r | r in rows ensures r.pinned {
        if !r.pinned { OldestIsLeast(rows, r); }
      }
    } else {
      var least := Oldest(rows).value;
      DeleteFacts(rows, least);
      var tail := LruOrderExists(Deleted(rows, least.key));
      order := [least] + tail;
      forall j | 0 <= j < |tail|
        ensures Before(least, tail[j])
      {
        assert tail[j] in tail;
        OldestIsLeast(rows, tail[j]);
      }
    }
  }

  // ----- The whole cache -----

  datatype Cache = Cache(rows: Table, blobs: map<BlobPath, Body>, regularBudget: nat, pinnedBudget: nat)

  /** Every row is well formed and has its file, at the recorded size. */
  ghost predicate Backed(c: Cache) {
    forall r :: r in c.rows ==>
      && r.key == Canonical(r.audio) && r.blobPath == BlobPath(r.key)
      && r.blobPath in c.blobs && |c.blobs[r.blobPath]| == r.bytes
  }

  /** Every file belongs to a row. */
  ghost predicate Owned(c: Cache) {
    forall p :: p in c.blobs ==> exists r :: r in c.rows && r.blobPath == p
  }

  /** The blob directory holds exactly the rows' files. */
  ghost predicate Consistent(c: Cache) { UniqueKeys(c.rows) && Backed(c) && Owned(c) }

  /** Removes one row and its file. */
  function Dropped(c: Cache, r: Row): Cache {
    c.(rows := Deleted(c.rows, r.key), blobs := c.blobs - {r.blobPath})
  }

  function EvictedCache(c: Cache): Cache
    requires UniqueKeys(c.rows)
    decreases RegularCount(c.rows)
  {
    if Fits(c.rows, c.regularBudget) then c
    else
      var gone := Oldest(c.rows).value;
      DeleteFacts(c.rows, gone);
      EvictedCache(Dropped(c, gone))
  }

  function NewRow(k: AudioKey, body: Body, now: int): Row {
    Row(Canonical(k), k, BlobPath(Canonical(k)), |body|, now, false)
  }

  /** The cache once the blob is written and the row upserted, before eviction. */
  function Stored(c: Cache, k: AudioKey, body: Body, now: int): Cache {
    c.(rows := Upserted(c.rows, NewRow(k, body, now)), blobs := c.blobs[BlobPath(Canonical(k)) := body])
  }

  lemma DropConsistent(c: Cache, r: Row)
    requires Consistent(c) && r in c.rows
    ensures Consistent(Dropped(c, r))
  {
    DeleteFacts(c.rows, r);
    var d := Dropped(c, r);
    forall x | x in d.rows
      ensures x.blobPath in d.blobs
    {
      SameKeySameRow(c.rows, x, r);
    }
    forall p | p in d.blobs
      ensures exists x :: x in d.rows && x.blobPath == p
    {
      var x :| x in c.rows && x.blobPath == p;
      assert x in d.rows;
    }
  }

  lemma SameKeySameRow(rows: Table, x: Row, y: Row)
    requires UniqueKeys(rows) && x in rows && y in rows
    ensures x.key == y.key ==> x == y
  {
  }

  lemma {:induction false} EvictConsistent(c: Cache)
    requires Consistent(c)
    ensures Consistent(EvictedCache(c)) && Fits(EvictedCache(c).rows, c.regularBudget)
    ensures EvictedCache(c).rows == Evicted(c.rows, c.regularBudget)
    ensures PinnedBytes(EvictedCache(c).rows) == PinnedBytes(c.rows)
    decreases RegularCount(c.rows)
  {
    if !Fits(c.rows, c.regularBudget) {
      var gone := Oldest(c.rows).value;
      DeleteFacts(c.rows, gone);
      DropConsistent(c, gone);
      EvictConsistent(Dropped(c, gone));
    }
  }

  lemma UpsertFacts(rows: Table, row: Row)
    requires UniqueKeys(rows) && !row.pinned
    ensures var found, r := Find(rows, row.key), Upserted(rows, row);
            var stored := row.(pinned := found.Some? && found.value.pinned);
            && UniqueKeys(r)
            && (forall x :: x in r <==> x == stored || (x in rows && x.key != row.key))
            && PinnedBytes(r) == PinnedBytes(rows) + (if stored.pinned then row.bytes - found.value.bytes else 0)
  {
    match Find(rows, row.key)
    case None =>
      AppendFacts(rows, row);
      assert forall i :: 0 <= i < |rows| ==> rows[i] in rows;
    case Some(was) =>
      var stored := row.(pinned := was.pinned);
      ReplaceFacts(rows, was, stored);
      ReplaceSums(rows, was, stored);
      forall x | x in rows
        ensures x.key != row.key <==> x != was
      {
        SameKeySameRow(rows, x, was);
      }
  }

  /** The row a put leaves in the table: a replaced row hands on its pin. */
  function PutRow(c: Cache, k: AudioKey, body: Body, now: int): Row {
    var found := Find(c.rows, Canonical(k));
    NewRow(k, body, now).(pinned := found.Some? && found.value.pinned)
  }

  lemma StoreMembers(c: Cache, k: AudioKey, body: Body, now: int)
    requires UniqueKeys(c.rows)
    ensures var d, row := Stored(c, k, body, now), PutRow(c, k, body, now);
            && UniqueKeys(d.rows)
            && forall x :: x in d.rows <==> x == row || (x in c.rows && x.key != row.key)
  {
    UpsertFacts(c.rows, NewRow(k, body, now));
  }

  lemma StoreOwned(c: Cache, k: AudioKey, body: Body, now: int)
    requires Consistent(c)
    ensures Owned(Stored(c, k, body, now))
  {
    StoreMembers(c, k, body, now);
    var d, row := Stored(c, k, body, now), PutRow(c, k, body, now);
    forall p | p in d.blobs
      ensures exists x :: x in d.rows && x.blobPath == p
    {
      if p == row.blobPath {
        assert row in d.rows;
      } else {
        var x :| x in c.rows && x.blobPath == p;
        assert x in d.rows;
      }
    }
  }

  lemma StoreConsistent(c: Cache, k: AudioKey, body: Body, now: int)
    requires Consistent(c)
    ensures Consistent(Stored(c, k, body, now))
  {
    StoreMembers(c, k, body, now);
    StoreOwned(c, k, body, now);
  }

  /** Changing a row's clock or pin keeps the cache consistent. */
  lemma ReplaceConsistent(c: Cache, was: Row, row: Row)
    requires Consistent(c) && was in c.rows
    requires row == was.(lastAccessed := row.lastAccessed, pinned := row.pinned)
    ensures Consistent(Changed(c, row))
  {
    ReplaceFacts(c.rows, was, row);
    var d := Changed(c, row);
    forall p | p in d.blobs
      ensures exists x :: x in d.rows && x.blobPath == p
    {
      var x :| x in c.rows && x.blobPath == p;
      assert row in d.rows && (x == was || x in d.rows);
    }
  }

  // ----- Operations -----

  datatype PinOutcome = Pinned | AlreadyPinned | PinNotInCache | WouldExceedBudget(overBy: nat)
  datatype UnpinOutcome = Unpinned | NotPinned | UnpinNotInCache

  function PinVerdict(c: Cache, k: AudioKey): PinOutcome {
    match Find(c.rows, Canonical(k))
    case None => PinNotInCache
    case Some(r) =>
      if r.pinned then AlreadyPinned
      else if PinnedBytes(c.rows) + r.bytes > c.pinnedBudget then
        WouldExceedBudget(PinnedBytes(c.rows) + r.bytes - c.pinnedBudget)
      else Pinned
  }

  datatype Op =
    | Put(key: AudioKey, body: Body, now: int)
    | Delete(key: AudioKey)
    | Touch(key: AudioKey, now: int)
    | Pin(key: AudioKey)
    | Unpin(key: AudioKey)
    | SetBudgets(regular: nat, pinned: nat)
    | EvictLruToFit

  /** One row with its clock or pin changed. */
  function Changed(c: Cache, row: Row): Cache { c.(rows := Replaced(c.rows, row)) }

  /** A row loses its pin, and room is made for it. */
  ghost function Loosened(c: Cache, r: Row): (d: Cache)
    requires Consistent(c) && r in c.rows && r.pinned
  {
    ReplaceConsistent(c, r, r.(pinned := false));
    EvictedCache(Changed(c, r.(pinned := false)))
  }

  ghost function Apply(c: Cache, op: Op): Cache
    requires Consistent(c)
  {
    match op
    case Put(k, body, now) =>
      StoreConsistent(c, k, body, now);
      EvictedCache(Stored(c, k, body, now))
    case Delete(k) =>
      (match Find(c.rows, Canonical(k)) case None => c case Some(r) => Dropped(c, r))
    case Touch(k, now) =>
      (match Find(c.rows, Canonical(k)) case None => c case Some(r) => Changed(c, r.(lastAccessed := now)))
    case Pin(k) =>
      if PinVerdict(c, k).Pinned? then Changed(c, Find(c.rows, Canonical(k)).value.(pinned := true)) else c
    case Unpin(k) =>
      (match Find(c.rows, Canonical(k)) case None => c case Some(r) => if r.pinned then Loosened(c, r) else c)
    case SetBudgets(regular, pinned) => c.(regularBudget := regular, pinnedBudget := pinned)
    case EvictLruToFit => EvictedCache(c)
  }

  lemma PutConsistent(c: Cache, k: AudioKey, body: Body, now: int)
    requires Consistent(c)
    ensures Consistent(Apply(c, Put(k, body, now)))
  {
    StoreConsistent(c, k, body, now);
    EvictConsistent(Stored(c, k, body, now));
  }

  lemma DeleteConsistent(c: Cache, k: AudioKey)
    requires Consistent(c)
    ensures Consistent(Apply(c, Delete(k)))
  {
    var found := Find(c.rows, Canonical(k));
    if found.Some? { DropConsistent(c, found.value); }
  }

  lemma TouchConsistent(c: Cache, k: AudioKey, now: int)
    requires Consistent(c)
    ensures Consistent(Apply(c, Touch(k, now)))
  {
    var found := Find(c.rows, Canonical(k));
    if found.Some? { ReplaceConsistent(c, found.value, found.value.(lastAccessed := now)); }
  }

  lemma PinConsistent(c: Cache, k: AudioKey)
    requires Consistent(c)
    ensures Consistent(Apply(c, Pin(k)))
  {
    var found := Find(c.rows, Canonical(k));
    if found.Some? { ReplaceConsistent(c, found.value, found.value.(pinned := true)); }
  }

  lemma UnpinConsistent(c: Cache, k: AudioKey)
    requires Consistent(c)
    ensures Consistent(Apply(c, Unpin(k)))
  {
    var found := Find(c.rows, Canonical(k));
    if found.Some? && found.value.pinned { LoosenEffect(c, found.value); }
  }

  /** Every operation keeps rows and blob directory in agreement. */
  lemma ApplyConsistent(c: Cache, op: Op)
    requires Consistent(c)
    ensures Consistent(Apply(c, op))
  {
    match op
    case Put(k, body, now) => PutConsistent(c, k, body, now);
    case Delete(k) => DeleteConsistent(c, k);
    case Touch(k, now) => TouchConsistent(c, k, now);
    case Pin(k) => PinConsistent(c, k);
    case Unpin(k) => UnpinConsistent(c, k);
    case SetBudgets(regular, pinned) =>
    case EvictLruToFit => EvictConsistent(c);
  }

  /** The regular budget is not lowered below what is there, one row excepted. */
  predicate KeepsRegularBudget(c: Cache, op: Op) {
    op.SetBudgets? ==> Fits(c.rows, op.regular)
  }

  /** The pinned budget is not lowered below the pinned bytes, and a body put under a pinned key
      fits beside the other pinned bytes. */
  predicate KeepsPinnedBudget(c: Cache, op: Op) {
    && (op.SetBudgets? ==> PinnedBytes(c.rows) <= op.pinned)
    && (op.Put? ==>
          var found := Find(c.rows, Canonical(op.key));
          found.Some? && found.value.pinned ==> PinnedBytes(c.rows) - found.value.bytes + |op.body| <= c.pinnedBudget)
  }

  lemma PutEffect(c: Cache, k: AudioKey, body: Body, now: int)
    requires Consistent(c)
    ensures var d, found := Apply(c, Put(k, body, now)), Find(c.rows, Canonical(k));
            && Consistent(Stored(c, k, body, now))
            && Fits(d.rows, c.regularBudget) && d.regularBudget == c.regularBudget && d.pinnedBudget == c.pinnedBudget
            && PinnedBytes(d.rows)
               == PinnedBytes(c.rows) + if found.Some? && found.value.pinned then |body| - found.value.bytes else 0
  {
    StoreConsistent(c, k, body, now);
    UpsertFacts(c.rows, NewRow(k, body, now));
    EvictConsistent(Stored(c, k, body, now));
    EvictKeepsBudgets(Stored(c, k, body, now));
  }

  lemma {:induction false} EvictKeepsBudgets(c: Cache)
    requires UniqueKeys(c.rows)
    ensures EvictedCache(c).regularBudget == c.regularBudget && EvictedCache(c).pinnedBudget == c.pinnedBudget
    decreases RegularCount(c.rows)
  {
    if !Fits(c.rows, c.regularBudget) {
      var gone := Oldest(c.rows).value;
      DeleteFacts(c.rows, gone);
      EvictKeepsBudgets(Dropped(c, gone));
    }
  }

  lemma UnpinEffect(c: Cache, k: AudioKey)
    requires Consistent(c)
    ensures var d, found := Apply(c, Unpin(k)), Find(c.rows, Canonical(k));
            && (if found.Some? && found.value.pinned then Fits(d.rows, c.regularBudget) else d == c)
            && d.regularBudget == c.regularBudget && d.pinnedBudget == c.pinnedBudget
            && PinnedBytes(d.rows) <= PinnedBytes(c.rows)
  {
    var found := Find(c.rows, Canonical(k));
    if found.Some? && found.value.pinned {
      assert Apply(c, Unpin(k)) == Loosened(c, found.value);
      LoosenEffect(c, found.value);
    }
  }

  lemma LoosenEffect(c: Cache, r: Row)
    requires Consistent(c) && r in c.rows && r.pinned
    ensures var d := Loosened(c, r);
            && Consistent(d) && Fits(d.rows, c.regularBudget)
            && d.regularBudget == c.regularBudget && d.pinnedBudget == c.pinnedBudget
            && PinnedBytes(d.rows) <= PinnedBytes(c.rows)
  {
    var row := r.(pinned := false);
    ReplaceSums(c.rows, r, row);
    ReplaceConsistent(c, r, row);
    EvictConsistent(Changed(c, row));
    EvictKeepsBudgets(Changed(c, row));
  }

  /** Deleting, touching and pinning never grow the regular side. */
  lemma RowEffect(c: Cache, op: Op)
    requires Consistent(c) && (op.Delete? || op.Touch? || op.Pin?)
    ensures var d := Apply(c, op);
            && RegularBytes(d.rows) <= RegularBytes(c.rows) && RegularCount(d.rows) <= RegularCount(c.rows)
            && d.regularBudget == c.regularBudget && d.pinnedBudget == c.pinnedBudget
            && (PinnedBytes(d.rows) <= PinnedBytes(c.rows) || PinnedBytes(d.rows) <= c.pinnedBudget)
  {
    var found := Find(c.rows, Canonical(op.key));
    if found.Some? {
      var r := found.value;
      DeleteSums(c.rows, r);
      if op.Touch? {
        ReplaceSums(c.rows, r, r.(lastAccessed := op.now));
      } else if op.Pin? {
        ReplaceSums(c.rows, r, r.(pinned := true));
      }
    }
  }

  lemma EvictEffect(c: Cache)
    requires Consistent(c)
    ensures var d := EvictedCache(c);
            && Fits(d.rows, c.regularBudget) && PinnedBytes(d.rows) == PinnedBytes(c.rows)
            && d.regularBudget == c.regularBudget && d.pinnedBudget == c.pinnedBudget
  {
    EvictConsistent(c);
    EvictKeepsBudgets(c);
  }

  /** Which operations keep the budgets: exactly those that keep them in the stated sense. */
  lemma Effects(c: Cache, op: Op)
    requires Consistent(c)
    ensures Fits(c.rows, c.regularBudget) ==>
              (Fits(Apply(c, op).rows, Apply(c, op).regularBudget) <==> KeepsRegularBudget(c, op))
    ensures PinnedBytes(c.rows) <= c.pinnedBudget ==>
              (PinnedBytes(Apply(c, op).rows) <= Apply(c, op).pinnedBudget <==> KeepsPinnedBudget(c, op))
  {
    match op
    case Put(k, body, now) => PutEffect(c, k, body, now);
    case Unpin(k) => UnpinEffect(c, k);
    case SetBudgets(regular, pinned) =>
    case EvictLruToFit => EvictEffect(c);
    case _ => RowEffect(c, op);
  }

  /** A put on a pinned key stays within the pinned budget exactly when the other pinned bytes leave
      room for the new body; by `Effects` only that and a lowered budget can exceed it. */
  lemma PinnedPutIff(c: Cache, k: AudioKey, body: Body, now: int)
    requires Consistent(c) && PinnedBytes(c.rows) <= c.pinnedBudget
    ensures var found := Find(c.rows, Canonical(k));
            PinnedBytes(Apply(c, Put(k, body, now)).rows) <= c.pinnedBudget <==>
            (found.Some? && found.value.pinned ==> PinnedBytes(c.rows) - found.value.bytes + |body| <= c.pinnedBudget)
  {
    PutEffect(c, k, body, now);
  }

  ghost function Run(c: Cache, ops: seq<Op>): Cache
    requires Consistent(c)
    decreases |ops|
  {
    if ops == [] then c
    else
      ApplyConsistent(c, ops[0]);
      Run(Apply(c, ops[0]), ops[1..])
  }

  /** `p` holds of every operation in the state it meets. */
  ghost predicate Along(c: Cache, ops: seq<Op>, p: (Cache, Op) -> bool)
    requires Consistent(c)
    decreases |ops|
  {
    ops == [] || (p(c, ops[0]) && (ApplyConsistent(c, ops[0]); Along(Apply(c, ops[0]), ops[1..], p)))
  }

  /** Any run from a consistent cache, in particular from an empty one: files and rows agree; and
      along operations that keep them, regular bytes fit or at most one regular row is left, and
      pinned bytes stay within their budget. */
  lemma {:induction false} RunKeepsCache(c: Cache, ops: seq<Op>)
    requires Consistent(c)
    ensures Consistent(Run(c, ops))
    ensures Fits(c.rows, c.regularBudget) && Along(c, ops, KeepsRegularBudget) ==>
              Fits(Run(c, ops).rows, Run(c, ops).regularBudget)
    ensures PinnedBytes(c.rows) <= c.pinnedBudget && Along(c, ops, KeepsPinnedBudget) ==>
              PinnedBytes(Run(c, ops).rows) <= Run(c, ops).pinnedBudget
    decreases |ops|
  {
    if ops != [] {
      ApplyConsistent(c, ops[0]);
      Effects(c, ops[0]);
      RunKeepsCache(Apply(c, ops[0]), ops[1..]);
    }
  }

  /** What a put leaves behind under its key: the row and the body when the row is pinned or the
      stored table fits without the regular rows older than it, and otherwise neither. */
  lemma PutSurvivesIff(c: Cache, k: AudioKey, body: Body, now: int)
    requires Consistent(c)
    ensures var d, row, rows := Apply(c, Put(k, body, now)), PutRow(c, k, body, now), Stored(c, k, body, now).rows;
            var kept := row.pinned || Fits(Without(rows, Older(rows, row)), c.regularBudget);
            && Find(d.rows, row.key) == (if kept then Some(row) else None)
            && (row.blobPath in d.blobs <==> kept)
            && (kept ==> d.blobs[row.blobPath] == body)
  {
    var s, row := Stored(c, k, body, now), PutRow(c, k, body, now);
    StoreConsistent(c, k, body, now);
    StoreMembers(c, k, body, now);
    SurvivesIff(s.rows, s.regularBudget, row);
    EvictConsistent(s);
    EvictKeepsBlobs(s);
    FoundIff(s, row);
  }

  /** A row of the cache is found by its key, and has its file, exactly when eviction left it. */
  lemma FoundIff(s: Cache, row: Row)
    requires Consistent(s) && row in s.rows
    ensures var d := EvictedCache(s);
            && Find(d.rows, row.key) == (if row in d.rows then Some(row) else None)
            && (row.blobPath in d.blobs <==> row in d.rows)
  {
    EvictConsistent(s);
    EvictSubset(s.rows, s.regularBudget);
    var d := EvictedCache(s);
    var found := Find(d.rows, row.key);
    if found.Some? {
      SameKeySameRow(s.rows, found.value, row);
    }
    if row.blobPath in d.blobs {
      var x :| x in d.rows && x.blobPath == row.blobPath;
      SameKeySameRow(s.rows, x, row);
    }
  }

  lemma EvictSubset(rows: Table, budget: nat)
    requires UniqueKeys(rows)
    ensures forall r :: r in Evicted(rows, budget) ==> r in rows
  {
    var order := LruOrderExists(rows);
    var n := EvictsShortestPrefix(rows, budget, order);
    WithoutMembers(rows, Elems(order[..n]));
  }

  /** A put entry that is pinned, or newer than every other regular row, is in the cache. */
  lemma PutSurvives(c: Cache, k: AudioKey, body: Body, now: int)
    requires Consistent(c)
    requires var row := PutRow(c, k, body, now);
             row.pinned || forall r :: r in c.rows && !r.pinned && r.key != row.key ==> Before(r, row)
    ensures var d, row := Apply(c, Put(k, body, now)), PutRow(c, k, body, now);
            && Find(d.rows, row.key) == Some(row)
            && row.blobPath in d.blobs && d.blobs[row.blobPath] == body
  {
    PutSurvivesIff(c, k, body, now);
    var row, rows := PutRow(c, k, body, now), Stored(c, k, body, now).rows;
    if !row.pinned {
      StoreMembers(c, k, body, now);
      WithoutMembers(rows, Older(rows, row));
      LoneRegular(Without(rows, Older(rows, row)), row);
    }
  }

  /** A put of the same moment as the one before, with the lesser key and no room for both: the entry
      just put is the one that goes. */
  lemma TiedPutIsEvicted(b: AudioKey, a: AudioKey, first: Body, second: Body, now: int, budget: nat, pinnedBudget: nat)
    requires Text.Below(Canonical(a), Canonical(b)) && |first| + |second| > budget
    ensures var d := Run(Cache([], map[], budget, pinnedBudget), [Put(b, first, now), Put(a, second, now)]);
            Find(d.rows, Canonical(a)) == None && BlobPath(Canonical(a)) !in d.blobs
  {
    var empty := Cache([], map[], budget, pinnedBudget);
    var c := Apply(empty, Put(b, first, now));
    OnlyPut(empty, b, first, now);
    ApplyConsistent(empty, Put(b, first, now));
    PutSurvivesIff(c, a, second, now);
    TiedRows(NewRow(b, first, now), NewRow(a, second, now));
    ApplyConsistent(c, Put(a, second, now));
    assert [Put(b, first, now), Put(a, second, now)][1..] == [Put(a, second, now)] && [Put(a, second, now)][1..] == [];
    assert Run(c, [Put(a, second, now)]) == Run(Apply(c, Put(a, second, now)), []);
  }

  lemma OnlyPut(empty: Cache, k: AudioKey, body: Body, now: int)
    requires empty.rows == [] && empty.blobs == map[]
    ensures Consistent(empty) && Apply(empty, Put(k, body, now)).rows == [NewRow(k, body, now)]
    ensures Apply(empty, Put(k, body, now)).regularBudget == empty.regularBudget
  {
    StoreConsistent(empty, k, body, now);
    var rows := Stored(empty, k, body, now).rows;
    assert rows == [NewRow(k, body, now)] && rows[1..] == [];
  }

  /** Of two tied rows the one with the lesser key has no older row, so nothing leaves before it. */
  lemma TiedRows(r: Row, x: Row)
    requires !r.pinned && !x.pinned && r.lastAccessed == x.lastAccessed && Text.Below(x.key, r.key)
    ensures Find([r], x.key) == None && Older([r, x], x) == {} && Without([r, x], {}) == [r, x]
    ensures RegularBytes([r, x]) == r.bytes + x.bytes && RegularCount([r, x]) == 2
  {
    Text.BelowIrreflexive(x.key);
    if Text.Below(r.key, x.key) {
      Text.BelowTransitive(x.key, r.key, x.key);
    }
    assert [r, x][1..] == [x] && [x][1..] == [] && [r][1..] == [];
    AppendFacts([], r);
    AppendFacts([r], x);
    assert [] + [r] == [r] && [r] + [x] == [r, x];
    WithoutNone([r, x]);
  }

  /** Two keys at hand. */
  lemma TiedPutExample()
    ensures var a, b := AudioKey("a", None, "mp3"), AudioKey("b", None, "mp3");
            Find(Run(Cache([], map[], 1, 0), [Put(b, [0], 7), Put(a, [0], 7)]).rows, Canonical(a)) == None
  {
    var a, b := AudioKey("a", None, "mp3"), AudioKey("b", None, "mp3");
    assert Canonical(a)[0] == 'a' && Canonical(b)[0] == 'b';
    TiedPutIsEvicted(b, a, [0], [0], 7, 1, 0);
  }

  /** A put leaves every other pinned entry and its file alone, and brings in no other row. */
  lemma PutSpares(c: Cache, k: AudioKey, body: Body, now: int, r: Row)
    requires Consistent(c) && r.key != Canonical(k)
    ensures r in Apply(c, Put(k, body, now)).rows ==> r in c.rows
    ensures r in c.rows && r.pinned ==>
              var d := Apply(c, Put(k, body, now));
              r in d.rows && r.blobPath in d.blobs && d.blobs[r.blobPath] == c.blobs[r.blobPath]
  {
    var s := Stored(c, k, body, now);
    StoreConsistent(c, k, body, now);
    UpsertFacts(c.rows, NewRow(k, body, now));
    EvictConsistent(s);
    var order := LruOrderExists(s.rows);
    var n := EvictsShortestPrefix(s.rows, s.regularBudget, order);
    WithoutMembers(s.rows, Elems(order[..n]));
    if r in c.rows && r.pinned {
      EvictKeepsBlobs(s);
    }
  }

  // ----- What the operations do -----

  /** A put entry carries the body's size and the time of the put; pinned it is exactly if the entry
      it replaces was. */
  lemma PutCarries(c: Cache, k: AudioKey, body: Body, now: int, r: Row)
    requires Consistent(c) && r in Apply(c, Put(k, body, now)).rows && r.key == Canonical(k)
    ensures r.audio == k && r.bytes == |body| && r.lastAccessed == now
    ensures r.pinned <==> exists x :: x in c.rows && x.key == r.key && x.pinned
  {
    PutSurvivesIff(c, k, body, now);
    PutConsistent(c, k, body, now);
    var found := Find(c.rows, Canonical(k));
    SameKeySameRow(Apply(c, Put(k, body, now)).rows, r, PutRow(c, k, body, now));
    forall x | x in c.rows && x.key == r.key && x.pinned
      ensures found.Some? && found.value.pinned
    {
      SameKeySameRow(c.rows, x, found.value);
    }
  }

  /** Only these rows and files differ from before: one entry's row is `row` now. */
  ghost predicate OneChanged(c: Cache, d: Cache, row: Row) {
    && d.blobs == c.blobs && row in d.rows
    && forall x: Row :: x.key != row.key ==> (x in d.rows <==> x in c.rows)
  }

  lemma ChangedOne(c: Cache, was: Row, row: Row)
    requires Consistent(c) && was in c.rows && was.key == row.key
    ensures OneChanged(c, Changed(c, row), row) && UniqueKeys(Changed(c, row).rows)
  {
    ReplaceFacts(c.rows, was, row);
  }

  /** A pin with room pins the entry, and nothing else; it then outlives any eviction. */
  lemma PinPins(c: Cache, k: AudioKey, r: Row, budget: nat)
    requires Consistent(c) && r in c.rows && r.key == Canonical(k) && !r.pinned
    requires PinnedBytes(c.rows) + r.bytes <= c.pinnedBudget
    ensures PinVerdict(c, k) == Pinned
    ensures var d, row := Apply(c, Pin(k)), r.(pinned := true);
            OneChanged(c, d, row) && UniqueKeys(d.rows) && row in Evicted(d.rows, budget)
  {
    SameKeySameRow(c.rows, r, Find(c.rows, Canonical(k)).value);
    ChangedOne(c, r, r.(pinned := true));
    SurvivesIff(Changed(c, r.(pinned := true)).rows, budget, r.(pinned := true));
  }

  /** Every other pin changes nothing and says why. */
  lemma PinRefused(c: Cache, k: AudioKey)
    requires Consistent(c) && PinVerdict(c, k) != Pinned
    ensures Apply(c, Pin(k)) == c
    ensures PinVerdict(c, k).PinNotInCache? <==> forall r :: r in c.rows ==> r.key != Canonical(k)
    ensures PinVerdict(c, k).AlreadyPinned? <==> exists r :: r in c.rows && r.key == Canonical(k) && r.pinned
    ensures PinVerdict(c, k).WouldExceedBudget? <==>
            exists r :: r in c.rows && r.key == Canonical(k) && !r.pinned && PinnedBytes(c.rows) + r.bytes > c.pinnedBudget
    ensures forall r :: r in c.rows && r.key == Canonical(k) && PinVerdict(c, k).WouldExceedBudget? ==>
            PinVerdict(c, k).overBy == PinnedBytes(c.rows) + r.bytes - c.pinnedBudget
  {
    var found := Find(c.rows, Canonical(k));
    if found.Some? {
      forall r | r in c.rows && r.key == Canonical(k)
        ensures r == found.value
      {
        SameKeySameRow(c.rows, r, found.value);
      }
    }
  }

  /** A deleted entry is gone, row and file, and nothing else is. */
  lemma DeleteDeletes(c: Cache, k: AudioKey)
    requires Consistent(c)
    ensures var d := Apply(c, Delete(k));
            && (forall x :: x in d.rows <==> x in c.rows && x.key != Canonical(k))
            && (forall p :: p in d.blobs <==> p in c.blobs && p != BlobPath(Canonical(k)))
            && (forall p :: p in d.blobs ==> d.blobs[p] == c.blobs[p])
  {
    var found := Find(c.rows, Canonical(k));
    if found.Some? {
      DeleteMembers(c.rows, found.value);
      forall x | x in c.rows
        ensures x.key == Canonical(k) <==> x == found.value
      {
        SameKeySameRow(c.rows, x, found.value);
      }
    } else {
      forall p | p in c.blobs
        ensures p != BlobPath(Canonical(k))
      {
        var x :| x in c.rows && x.blobPath == p;
      }
    }
  }

  /** A row accessed after all others is not evicted. */
  lemma LatestSpared(rows: Table, budget: nat, r: Row)
    requires UniqueKeys(rows) && r in rows && forall x :: x in rows && x != r ==> x.lastAccessed < r.lastAccessed
    ensures r in Evicted(rows, budget)
  {
    SurvivesIff(rows, budget, r);
    if !r.pinned {
      WithoutMembers(rows, Older(rows, r));
      LoneRegular(Without(rows, Older(rows, r)), r);
    }
  }

  /** A touched entry carries the time, and nothing else changes; touched after all others, no
      eviction takes it. */
  lemma TouchTouches(c: Cache, k: AudioKey, now: int, r: Row, budget: nat)
    requires Consistent(c) && r in c.rows && r.key == Canonical(k)
    ensures var d, row := Apply(c, Touch(k, now)), r.(lastAccessed := now);
            && OneChanged(c, d, row) && UniqueKeys(d.rows)
            && ((forall x :: x in c.rows && x.key != r.key ==> x.lastAccessed < now) ==> row in Evicted(d.rows, budget))
  {
    FoundRow(c.rows, r);
    ChangedOne(c, r, r.(lastAccessed := now));
    if forall x :: x in c.rows && x.key != r.key ==> x.lastAccessed < now {
      LatestTouched(c, r, now, budget);
    }
  }

  lemma LatestTouched(c: Cache, r: Row, now: int, budget: nat)
    requires Consistent(c) && r in c.rows && forall x :: x in c.rows && x.key != r.key ==> x.lastAccessed < now
    ensures var row := r.(lastAccessed := now);
            var rows := Changed(c, row).rows;
            UniqueKeys(rows) && row in Evicted(rows, budget)
  {
    var row := r.(lastAccessed := now);
    var rows := Changed(c, row).rows;
    ChangedOne(c, r, row);
    forall x | x in rows && x != row
      ensures x.lastAccessed < now
    {
      SameKeySameRow(rows, x, row);
    }
    LatestSpared(rows, budget, row);
  }

  lemma FoundRow(rows: Table, r: Row)
    requires UniqueKeys(rows) && r in rows
    ensures Find(rows, r.key) == Some(r)
  {
    SameKeySameRow(rows, r, Find(rows, r.key).value);
  }

  lemma LoosenedRows(c: Cache, r: Row)
    requires Consistent(c) && r in c.rows && r.pinned
    ensures var row := r.(pinned := false);
            var rows := Replaced(c.rows, row);
            UniqueKeys(rows) && row in rows && Loosened(c, r).rows == Evicted(rows, c.regularBudget)
  {
    var row := r.(pinned := false);
    ReplaceFacts(c.rows, r, row);
    ReplaceConsistent(c, r, row);
    EvictConsistent(Changed(c, row));
  }

  /** An unpinned entry is an ordinary one from then on: it stays exactly if the table with it fits
      without the regular rows older than it. */
  lemma UnpinUnpins(c: Cache, k: AudioKey, r: Row)
    requires Consistent(c) && r in c.rows && r.key == Canonical(k) && r.pinned
    ensures var d, row, rows := Apply(c, Unpin(k)), r.(pinned := false), Replaced(c.rows, r.(pinned := false));
            && (row in d.rows <==> Fits(Without(rows, Older(rows, row)), c.regularBudget))
            && forall x :: x in d.rows && x.key == r.key ==> x == row
  {
    var row, rows := r.(pinned := false), Replaced(c.rows, r.(pinned := false));
    FoundRow(c.rows, r);
    assert Apply(c, Unpin(k)) == Loosened(c, r);
    LoosenedRows(c, r);
    EvictSubset(rows, c.regularBudget);
    SurvivesIff(rows, c.regularBudget, row);
    forall x | x in Evicted(rows, c.regularBudget) && x.key == r.key
      ensures x == row
    {
      SameKeySameRow(rows, x, row);
    }
  }

  /** Of two regular rows eviction takes the one not accessed for longer, keys breaking ties. */
  lemma EvictsOldestFirst(rows: Table, budget: nat, gone: Row, kept: Row)
    requires UniqueKeys(rows) && gone in rows && kept in rows && !kept.pinned
    requires gone !in Evicted(rows, budget) && kept in Evicted(rows, budget)
    ensures !gone.pinned && gone.lastAccessed <= kept.lastAccessed
    ensures gone.lastAccessed == kept.lastAccessed ==> Text.Below(gone.key, kept.key)
  {
    SurvivesIff(rows, budget, gone);
    SurvivesIff(rows, budget, kept);
    SameKeySameRow(rows, gone, kept);
    BeforeTotal(gone, kept);
    if Before(kept, gone) {
      forall x | x in Older(rows, kept)
        ensures x in Older(rows, gone)
      {
        BeforeTransitive(x, kept, gone);
      }
      WithoutMore(rows, Older(rows, kept), Older(rows, gone));
    }
  }

  function TotalBytes(rows: Table): nat {
    if rows == [] then 0 else rows[0].bytes + TotalBytes(rows[1..])
  }

  /** The two sums split the table's bytes, each summing its own kind of rows. */
  lemma {:induction false} SumsSplit(rows: Table)
    ensures RegularBytes(rows) + PinnedBytes(rows) == TotalBytes(rows)
    ensures (forall r :: r in rows ==> r.pinned) ==> RegularBytes(rows) == 0 == RegularCount(rows)
    ensures (forall r :: r in rows ==> !r.pinned) ==> PinnedBytes(rows) == 0 && RegularCount(rows) == |rows|
  {
    if rows != [] {
      SumsSplit(rows[1..]);
      assert rows[0] in rows && forall r :: r in rows[1..] ==> r in rows;
    }
  }

  /** A run that leaves an entry's key alone. */
  predicate LeavesAlone(op: Op, key: string) {
    op.Put? || op.Delete? || op.Touch? || op.Unpin? ==> Canonical(op.key) != key
  }

  lemma PinnedStays(c: Cache, op: Op, r: Row)
    requires Consistent(c) && r in c.rows && r.pinned && LeavesAlone(op, r.key)
    ensures var d := Apply(c, op);
            r in d.rows && r.blobPath in d.blobs && d.blobs[r.blobPath] == c.blobs[r.blobPath]
  {
    match op
    case Put(k, body, now) => PutSpares(c, k, body, now, r);
    case Delete(k) => DeleteDeletes(c, k);
    case Touch(k, now) =>
      var found := Find(c.rows, Canonical(k));
      if found.Some? { ChangedOne(c, found.value, found.value.(lastAccessed := now)); }
    case Pin(k) => PinnedStaysPin(c, k, r);
    case Unpin(k) => PinnedStaysUnpin(c, k, r);
    case SetBudgets(regular, pinned) =>
    case EvictLruToFit => EvictionKeepsPinned(c, r);
  }

  lemma PinnedStaysPin(c: Cache, k: AudioKey, r: Row)
    requires Consistent(c) && r in c.rows && r.pinned
    ensures r in Apply(c, Pin(k)).rows && Apply(c, Pin(k)).blobs == c.blobs
  {
    if PinVerdict(c, k).Pinned? {
      var found := Find(c.rows, Canonical(k)).value;
      SameKeySameRow(c.rows, found, r);
      PinPins(c, k, found, 0);
    }
  }

  lemma EvictionKeepsPinned(c: Cache, r: Row)
    requires Consistent(c) && r in c.rows && r.pinned
    ensures var d := EvictedCache(c);
            r in d.rows && r.blobPath in d.blobs && d.blobs[r.blobPath] == c.blobs[r.blobPath]
  {
    SurvivesIff(c.rows, c.regularBudget, r);
    EvictConsistent(c);
    EvictKeepsBlobs(c);
  }

  lemma PinnedStaysUnpin(c: Cache, k: AudioKey, r: Row)
    requires Consistent(c) && r in c.rows && r.pinned && r.key != Canonical(k)
    ensures var d := Apply(c, Unpin(k));
            r in d.rows && r.blobPath in d.blobs && d.blobs[r.blobPath] == c.blobs[r.blobPath]
  {
    var found := Find(c.rows, Canonical(k));
    if found.Some? && found.value.pinned {
      var row := found.value.(pinned := false);
      assert Apply(c, Unpin(k)) == Loosened(c, found.value);
      ReplaceConsistent(c, found.value, row);
      ChangedOne(c, found.value, row);
      EvictionKeepsPinned(Changed(c, row), r);
    }
  }

  /** A pinned entry stays, with its body, in every run that does not put, delete, touch or unpin it. */
  lemma {:induction false} PinnedStaysOn(c: Cache, ops: seq<Op>, r: Row)
    requires Consistent(c) && r in c.rows && r.pinned && forall i :: 0 <= i < |ops| ==> LeavesAlone(ops[i], r.key)
    ensures var d := Run(c, ops);
            r in d.rows && r.blobPath in d.blobs && d.blobs[r.blobPath] == c.blobs[r.blobPath]
    decreases |ops|
  {
    if ops != [] {
      ApplyConsistent(c, ops[0]);
      PinnedStays(c, ops[0], r);
      PinnedStaysOn(Apply(c, ops[0]), ops[1..], r);
    }
  }

  lemma {:induction false} EvictKeepsBlobs(c: Cache)
    requires Consistent(c)
    ensures forall p :: p in EvictedCache(c).blobs ==> p in c.blobs && EvictedCache(c).blobs[p] == c.blobs[p]
    decreases RegularCount(c.rows)
  {
    if !Fits(c.rows, c.regularBudget) {
      var gone := Oldest(c.rows).value;
      DeleteFacts(c.rows, gone);
      DropConsistent(c, gone);
      EvictKeepsBlobs(Dropped(c, gone));
    }
  }

  lemma EvictStep(c: Cache)
    requires Consistent(c) && !Fits(c.rows, c.regularBudget)
    ensures var gone := Oldest(c.rows);
            && gone.Some? && Consistent(Dropped(c, gone.value))
            && EvictedCache(c) == EvictedCache(Dropped(c, gone.value))
            && RegularCount(Dropped(c, gone.value).rows) < RegularCount(c.rows)
  {
    DeleteFacts(c.rows, Oldest(c.rows).value);
    DropConsistent(c, Oldest(c.rows).value);
  }

  // ----- The cache object -----

  class AudioCache {
    var rows: Table
    var blobs: map<BlobPath, Body>
    var regularBudget: nat
    var pinnedBudget: nat

    ghost function State(): Cache
      reads this
    {
      Cache(rows, blobs, regularBudget, pinnedBudget)
    }

    constructor Open(regularBudget: nat, pinnedBudget: nat)
      ensures State() == Cache([], map[], regularBudget, pinnedBudget) && Consistent(State())
    {
      rows, blobs := [], map[];
      this.regularBudget, this.pinnedBudget := regularBudget, pinnedBudget;
    }

    method SetBudgets(regular: nat, pinned: nat)
      requires Consistent(State())
      modifies `regularBudget, `pinnedBudget
      ensures State() == Apply(old(State()), Op.SetBudgets(regular, pinned))
    {
      regularBudget := regular;
      pinnedBudget := pinned;
    }

    method EvictLruToFit() returns (total: nat)
      requires Consistent(State())
      modifies `rows, `blobs
      ensures State() == EvictedCache(old(State())) && Consistent(State())
      ensures total == RegularBytes(rows)
    {
      ghost var c := State();
      while true
        invariant State() == c && Consistent(c) && EvictedCache(c) == EvictedCache(old(State()))
        decreases RegularCount(c.rows)
      {
        total := RegularBytes(rows);
        if total <= regularBudget || RegularCount(rows) <= 1 {
          return;
        }
        EvictStep(c);
        var row := Oldest(rows);
        if row.None? {
          return;
        }
        DropRow(row.value);
        c := Dropped(c, row.value);
      }
    }

    /** Unlinks the row's file and deletes the row. */
    method DropRow(row: Row)
      modifies `rows, `blobs
      ensures State() == Dropped(old(State()), row)
    {
      blobs := blobs - {row.blobPath};
      rows := Deleted(rows, row.key);
    }

    method Put(k: AudioKey, body: Body, now: int) returns (entry: Row)
      requires Consistent(State())
      modifies `rows, `blobs
      ensures State() == Apply(old(State()), Op.Put(k, body, now)) && Consistent(State())
      ensures entry == PutRow(old(State()), k, body, now)
      ensures Find(rows, entry.key).Some? ==> entry in rows && entry.blobPath in blobs && blobs[entry.blobPath] == body
    {
      ghost var goal := Apply(State(), Op.Put(k, body, now));
      PutSurvivesIff(State(), k, body, now);
      PutConsistent(State(), k, body, now);
      StoreConsistent(State(), k, body, now);
      assert goal == EvictedCache(Stored(State(), k, body, now));
      Store(k, body, now);
      var _ := EvictLruToFit();
      assert State() == goal;
      var found := Find(rows, Canonical(k));
      entry := if found.Some? then found.value else NewRow(k, body, now);
    }

    /** The blob write and the row upsert of a put. */
    method Store(k: AudioKey, body: Body, now: int)
      modifies `rows, `blobs
      ensures State() == Stored(old(State()), k, body, now)
    {
      var row := Row(Canonical(k), k, BlobPath(Canonical(k)), |body|, now, false);
      blobs := blobs[row.blobPath := body];
      rows := Upserted(rows, row);
    }

    method Delete(k: AudioKey) returns (existed: bool)
      requires Consistent(State())
      modifies `rows, `blobs
      ensures State() == Apply(old(State()), Op.Delete(k)) && Consistent(State())
      ensures existed <==> exists r :: r in old(rows) && r.key == Canonical(k)
    {
      ApplyConsistent(State(), Op.Delete(k));
      var found := Find(rows, Canonical(k));
      if found.None? {
        return false;
      }
      DropRow(found.value);
      return true;
    }

    method Touch(k: AudioKey, now: int) returns (matched: bool)
      requires Consistent(State())
      modifies `rows
      ensures State() == Apply(old(State()), Op.Touch(k, now)) && Consistent(State())
      ensures matched <==> exists r :: r in old(rows) && r.key == Canonical(k)
    {
      ApplyConsistent(State(), Op.Touch(k, now));
      var found := Find(rows, Canonical(k));
      if found.Some? {
        Rewrite(found.value.(lastAccessed := now));
      }
      return found.Some?;
    }

    method Pin(k: AudioKey) returns (r: PinOutcome)
      requires Consistent(State())
      modifies `rows
      ensures State() == Apply(old(State()), Op.Pin(k)) && Consistent(State())
      ensures r == PinVerdict(old(State()), k)
    {
      ApplyConsistent(State(), Op.Pin(k));
      var found := Find(rows, Canonical(k));
      if found.None? {
        return PinNotInCache;
      }
      if found.value.pinned {
        return AlreadyPinned;
      }
      var projected := PinnedBytes(rows) + found.value.bytes;
      if projected > pinnedBudget {
        return WouldExceedBudget(projected - pinnedBudget);
      }
      Rewrite(found.value.(pinned := true));
      return Pinned;
    }

    /** The row update of a touch, a pin or an unpin. */
    method Rewrite(row: Row)
      modifies `rows
      ensures State() == Changed(old(State()), row)
    {
      rows := Replaced(rows, row);
    }

    /** Clears the pin and makes room: unpinned bytes count against the regular budget. */
    method Loosen(row: Row)
      requires Consistent(State()) && row in rows && row.pinned
      modifies `rows, `blobs
      ensures State() == Loosened(old(State()), row) && Consistent(State())
    {
      LoosenEffect(State(), row);
      ReplaceConsistent(State(), row, row.(pinned := false));
      Rewrite(row.(pinned := false));
      var _ := EvictLruToFit();
    }

    method Unpin(k: AudioKey) returns (r: UnpinOutcome)
      requires Consistent(State())
      modifies `rows, `blobs
      ensures State() == Apply(old(State()), Op.Unpin(k)) && Consistent(State())
      ensures r == match Find(old(rows), Canonical(k))
                   case None => UnpinNotInCache
                   case Some(row) => if row.pinned then Unpinned else NotPinned
    {
      ghost var goal := Apply(State(), Op.Unpin(k));
      var found := Find(rows, Canonical(k));
      if found.None? {
        return UnpinNotInCache;
      }
      if !found.value.pinned {
        return NotPinned;
      }
      Loosen(found.value);
      assert State() == goal;
      return Unpinned;
    }
  }
}
