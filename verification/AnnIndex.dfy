/** The cosine-similarity index: a two-way id/key map kept in step with a foreign vector index. */
module Ann {
  import opened Prelude

  type TrackId = string
  type Vector = seq<real>

  /** What the lock guards. `index` is the foreign HNSW, reduced to the vectors it stores. */
  datatype Inner = Inner(
    index: map<nat, Vector>,
    forward: map<TrackId, nat>,
    reverse: map<nat, TrackId>,
    nextKey: nat)

  const EMPTY := Inner(map[], map[], map[], 1)

  ghost predicate Linked(s: Inner) {
    && (forall id :: id in s.forward ==> s.forward[id] in s.reverse && s.reverse[s.forward[id]] == id)
    && (forall k :: k in s.reverse ==> s.reverse[k] in s.forward && s.forward[s.reverse[k]] == k)
  }

  ghost predicate Valid(s: Inner) {
    && Linked(s)
    && s.index.Keys == s.reverse.Keys
    && (forall k :: k in s.reverse ==> k < s.nextKey)
    && 1 <= s.nextKey
  }

  /** The catalogue the index stands for: each stored track with its vector. */
  ghost function Contents(s: Inner): map<TrackId, Vector>
    requires Valid(s)
  {
    map id | id in s.forward :: s.index[s.forward[id]]
  }

  // ----- Mutations -----

  /** Adds under a fresh key, with no look at what `id` mapped to before. */
  function Inserted(s: Inner, id: TrackId, v: Vector): Inner {
    Inner(s.index[s.nextKey := v], s.forward[id := s.nextKey], s.reverse[s.nextKey := id], s.nextKey + 1)
  }

  function Removed(s: Inner, id: TrackId): Inner {
    if id !in s.forward then s
    else s.(index := s.index - {s.forward[id]}, forward := s.forward - {id}, reverse := s.reverse - {s.forward[id]})
  }

  function Upserted(s: Inner, id: TrackId, v: Vector): Inner {
    Inserted(Removed(s, id), id, v)
  }

  function Rebuilt(pairs: seq<(TrackId, Vector)>): Inner {
    if pairs == [] then EMPTY
    else
      var (id, v) := pairs[|pairs| - 1];
      Inserted(Rebuilt(pairs[..|pairs| - 1]), id, v)
  }

  datatype Op = Upsert(id: TrackId, v: Vector) | Remove(id: TrackId) | Rebuild(pairs: seq<(TrackId, Vector)>)

  function Apply(s: Inner, op: Op): Inner {
    match op
    case Upsert(id, v) => Upserted(s, id, v)
    case Remove(id) => Removed(s, id)
    case Rebuild(pairs) => Rebuilt(pairs)
  }

  function Run(s: Inner, ops: seq<Op>): Inner
    decreases |ops|
  {
    if ops == [] then s else Run(Apply(s, ops[0]), ops[1..])
  }

  ghost predicate DistinctIds(pairs: seq<(TrackId, Vector)>) {
    forall i, j :: 0 <= i < j < |pairs| ==> pairs[i].0 != pairs[j].0
  }

  ghost predicate DistinctRebuilds(ops: seq<Op>) {
    forall i :: 0 <= i < |ops| && ops[i].Rebuild? ==> DistinctIds(ops[i].pairs)
  }

  /** Rebuilding numbers the pairs 1, 2, ... in order. */
  lemma {:induction false} RebuiltKeys(pairs: seq<(TrackId, Vector)>)
    ensures var s := Rebuilt(pairs);
            && s.nextKey == |pairs| + 1
            && (forall k :: k in s.reverse <==> 1 <= k <= |pairs|)
            && (forall k :: k in s.reverse ==> s.reverse[k] == pairs[k - 1].0)
            && s.index.Keys == s.reverse.Keys
  {
    if pairs != [] {
      RebuiltKeys(pairs[..|pairs| - 1]);
    }
  }

  lemma {:induction false} RebuiltForward(pairs: seq<(TrackId, Vector)>)
    ensures var s := Rebuilt(pairs);
            && (forall id :: id in s.forward ==> s.forward[id] in s.reverse && s.reverse[s.forward[id]] == id)
            && (forall i :: 0 <= i < |pairs| ==> pairs[i].0 in s.forward)
  {
    if pairs != [] {
      RebuiltKeys(pairs[..|pairs| - 1]);
      RebuiltForward(pairs[..|pairs| - 1]);
    }
  }

  lemma DistinctRebuildValid(pairs: seq<(TrackId, Vector)>)
    requires DistinctIds(pairs)
    ensures Valid(Rebuilt(pairs))
  {
    RebuiltKeys(pairs);
    RebuiltForward(pairs);
    var s := Rebuilt(pairs);
    forall k | k in s.reverse
      ensures s.reverse[k] in s.forward && s.forward[s.reverse[k]] == k
    {
      var id := pairs[k - 1].0;
      assert pairs[s.forward[id] - 1].0 == id;
    }
  }

  /** The two maps come out of a rebuild as inverses exactly when the input ids are distinct. */
  lemma RebuildValidIff(pairs: seq<(TrackId, Vector)>)
    ensures Valid(Rebuilt(pairs)) <==> DistinctIds(pairs)
  {
    if DistinctIds(pairs) {
      DistinctRebuildValid(pairs);
    } else {
      RebuiltKeys(pairs);
      var s := Rebuilt(pairs);
      var i, j :| 0 <= i < j < |pairs| && pairs[i].0 == pairs[j].0;
      assert i + 1 in s.reverse && j + 1 in s.reverse && s.reverse[i + 1] == s.reverse[j + 1];
    }
  }

  // ----- Refinement of a plain map -----

  function Loaded(pairs: seq<(TrackId, Vector)>): map<TrackId, Vector> {
    if pairs == [] then map[]
    else Loaded(pairs[..|pairs| - 1])[pairs[|pairs| - 1].0 := pairs[|pairs| - 1].1]
  }

  /** The same operation on a plain id-to-vector map. */
  function ApplyToMap(m: map<TrackId, Vector>, op: Op): map<TrackId, Vector> {
    match op
    case Upsert(id, v) => m[id := v]
    case Remove(id) => m - {id}
    case Rebuild(pairs) => Loaded(pairs)
  }

  function RunOnMap(m: map<TrackId, Vector>, ops: seq<Op>): map<TrackId, Vector>
    decreases |ops|
  {
    if ops == [] then m else RunOnMap(ApplyToMap(m, ops[0]), ops[1..])
  }

  lemma InsertStep(s: Inner, id: TrackId, v: Vector)
    requires Valid(s) && id !in s.forward
    ensures Valid(Inserted(s, id, v)) && Contents(Inserted(s, id, v)) == Contents(s)[id := v]
  {
  }

  lemma RemoveStep(s: Inner, id: TrackId)
    requires Valid(s)
    ensures Valid(Removed(s, id)) && Contents(Removed(s, id)) == Contents(s) - {id}
    ensures id !in Removed(s, id).forward
  {
  }

  lemma UpsertStep(s: Inner, id: TrackId, v: Vector)
    requires Valid(s)
    ensures Valid(Upserted(s, id, v)) && Contents(Upserted(s, id, v)) == Contents(s)[id := v]
  {
    RemoveStep(s, id);
    InsertStep(Removed(s, id), id, v);
    assert (Contents(s) - {id})[id := v] == Contents(s)[id := v];
  }

  lemma {:induction false} RebuildStep(pairs: seq<(TrackId, Vector)>)
    requires DistinctIds(pairs)
    ensures Valid(Rebuilt(pairs)) && Contents(Rebuilt(pairs)) == Loaded(pairs)
  {
    DistinctRebuildValid(pairs);
    if pairs != [] {
      var init := pairs[..|pairs| - 1];
      RebuildStep(init);
      RebuiltKeys(init);
      RebuiltForward(init);
      var s := Rebuilt(init);
      var (id, v) := pairs[|pairs| - 1];
      assert forall x :: x in s.forward ==> x == init[s.forward[x] - 1].0;
      InsertStep(s, id, v);
    }
  }

  lemma ApplyStep(s: Inner, op: Op)
    requires Valid(s) && (op.Rebuild? ==> DistinctIds(op.pairs))
    ensures Valid(Apply(s, op)) && Contents(Apply(s, op)) == ApplyToMap(Contents(s), op)
  {
    match op
    case Upsert(id, v) => UpsertStep(s, id, v);
    case Remove(id) => RemoveStep(s, id);
    case Rebuild(pairs) => RebuildStep(pairs);
  }

  /** Whole runs: the maps stay inverse and the index behaves as a plain map from ids to vectors. */
  lemma {:induction false} RunRefinesMap(s: Inner, ops: seq<Op>)
    requires Valid(s) && DistinctRebuilds(ops)
    ensures Valid(Run(s, ops)) && Contents(Run(s, ops)) == RunOnMap(Contents(s), ops)
    decreases |ops|
  {
    if ops != [] {
      ApplyStep(s, ops[0]);
      RunRefinesMap(Apply(s, ops[0]), ops[1..]);
    }
  }

  /** Between rebuilds a key that was ever handed out is never handed out again: it keeps its
      track, or it is dead for good. */
  lemma {:induction false} KeysNeverReused(s: Inner, ops: seq<Op>)
    requires Valid(s) && forall i :: 0 <= i < |ops| ==> !ops[i].Rebuild?
    ensures var t := Run(s, ops);
            && s.nextKey <= t.nextKey
            && forall k :: k in t.reverse && k < s.nextKey ==> k in s.reverse && t.reverse[k] == s.reverse[k]
    decreases |ops|
  {
    if ops != [] {
      ApplyStep(s, ops[0]);
      KeysNeverReused(Apply(s, ops[0]), ops[1..]);
    }
  }

  // ----- The two files on disk -----

  datatype AnnError = DimMismatch(expected: nat, got: nat) | Usearch | Io
  datatype Result<+T> = Ok(value: T) | Err(error: AnnError)

  datatype Entry = Entry(key: nat, trackId: TrackId)
  datatype Sidecar = Sidecar(nextKey: nat, entries: seq<Entry>)

  /** A file that may be absent, or there without being loadable. */
  datatype File<+T> = Missing | Whole(content: T) | Garbled
  datatype Disk = Disk(index: File<map<nat, Vector>>, keys: File<Sidecar>)

  /** `entries` lists `forward`, in whatever order the hash map yields it. */
  ghost predicate Lists(entries: seq<Entry>, forward: map<TrackId, nat>) {
    && (forall e :: e in entries ==> e.trackId in forward && forward[e.trackId] == e.key)
    && (forall id :: id in forward ==> Entry(forward[id], id) in entries)
  }

  /** Both files hold a complete image of `s`. */
  ghost predicate DiskHolds(disk: Disk, s: Inner) {
    && disk.index == Whole(s.index)
    && disk.keys.Whole?
    && disk.keys.content.nextKey == s.nextKey
    && Lists(disk.keys.content.entries, s.forward)
  }

  function ForwardOf(entries: seq<Entry>): map<TrackId, nat> {
    if entries == [] then map[]
    else ForwardOf(entries[..|entries| - 1])[entries[|entries| - 1].trackId := entries[|entries| - 1].key]
  }

  function ReverseOf(entries: seq<Entry>): map<nat, TrackId> {
    if entries == [] then map[]
    else ReverseOf(entries[..|entries| - 1])[entries[|entries| - 1].key := entries[|entries| - 1].trackId]
  }

  function Opened(disk: Disk): Result<Inner> {
    if disk.index.Garbled? || disk.keys.Garbled? then Err(Usearch)
    else
      var index := if disk.index.Whole? then disk.index.content else map[];
      if disk.keys.Missing? then Ok(Inner(index, map[], map[], 1))
      else
        var sidecar := disk.keys.content;
        Ok(Inner(index, ForwardOf(sidecar.entries), ReverseOf(sidecar.entries), Max(sidecar.nextKey, 1)))
  }

  lemma {:induction false} EntriesFold(entries: seq<Entry>)
    ensures forall id :: id in ForwardOf(entries) ==> Entry(ForwardOf(entries)[id], id) in entries
    ensures forall k :: k in ReverseOf(entries) ==> Entry(k, ReverseOf(entries)[k]) in entries
    ensures forall e :: e in entries ==> e.trackId in ForwardOf(entries) && e.key in ReverseOf(entries)
  {
    if entries != [] {
      EntriesFold(entries[..|entries| - 1]);
      assert entries == entries[..|entries| - 1] + [entries[|entries| - 1]];
    }
  }

  /** Opening what was persisted gives back the same maps, counter and vectors, whatever order
      the sidecar entries are in. */
  lemma OpenRestores(disk: Disk, s: Inner)
    requires Valid(s) && DiskHolds(disk, s)
    ensures Opened(disk) == Ok(s)
  {
    var entries := disk.keys.content.entries;
    EntriesFold(entries);
    assert ForwardOf(entries) == s.forward;
    forall k | k in s.reverse
      ensures k in ReverseOf(entries)
    {
      assert Entry(k, s.reverse[k]) in entries;
    }
    assert ReverseOf(entries) == s.reverse;
  }

  /** Opening fails exactly on a file that is there and does not load. What is there is taken over as
      it is, the vectors under their keys and the counter, which starts at one; what is not counts
      as empty. */
  lemma OpenMeans(disk: Disk)
    ensures Opened(disk).Err? <==> disk.index.Garbled? || disk.keys.Garbled?
    ensures Opened(disk).Ok? ==>
              var s := Opened(disk).value;
              && s.index == (if disk.index.Whole? then disk.index.content else map[])
              && (disk.keys.Missing? ==> s.forward == map[] && s.reverse == map[] && s.nextKey == 1)
              && (disk.keys.Whole? ==>
                    && s.nextKey == (if disk.keys.content.nextKey == 0 then 1 else disk.keys.content.nextKey)
                    && (forall e :: e in disk.keys.content.entries ==> e.trackId in s.forward && e.key in s.reverse)
                    && (forall id :: id in s.forward ==> Entry(s.forward[id], id) in disk.keys.content.entries)
                    && (forall k :: k in s.reverse ==> Entry(k, s.reverse[k]) in disk.keys.content.entries))
  {
    if disk.keys.Whole? {
      EntriesFold(disk.keys.content.entries);
    }
  }

  // ----- Search -----

  /** One row of a foreign search result. */
  datatype Hit = Hit(key: nat, distance: real)
  datatype QueryResult = QueryResult(trackId: TrackId, similarity: real)

  /** A full ranking of the stored keys; a search for `w` returns its first `w` rows. */
  ghost predicate Ranks(ranking: seq<Hit>, s: Inner) {
    && (forall i, j :: 0 <= i < j < |ranking| ==> ranking[i].key != ranking[j].key)
    && (set h | h in ranking :: h.key) == s.index.Keys
  }

  /** The hits that resolve to a track outside `exclude`, in order. */
  function Kept(hits: seq<Hit>, reverse: map<nat, TrackId>, exclude: seq<TrackId>): seq<QueryResult> {
    if hits == [] then []
    else
      var rest, h := Kept(hits[..|hits| - 1], reverse, exclude), hits[|hits| - 1];
      if h.key !in reverse || reverse[h.key] in exclude then rest
      else rest + [QueryResult(reverse[h.key], 1.0 - h.distance)]
  }

  /** Exactly the known, non-excluded hits are kept, each as its track and similarity. */
  lemma {:induction false} KeptIff(hits: seq<Hit>, reverse: map<nat, TrackId>, exclude: seq<TrackId>, q: QueryResult)
    ensures q in Kept(hits, reverse, exclude) <==>
            exists h :: h in hits && h.key in reverse && reverse[h.key] !in exclude
                     && reverse[h.key] == q.trackId && q.similarity + h.distance == 1.0
  {
    if hits != [] {
      KeptIff(hits[..|hits| - 1], reverse, exclude, q);
      assert hits == hits[..|hits| - 1] + [hits[|hits| - 1]];
    }
  }

  lemma TakePrefix<T>(a: seq<T>, b: seq<T>, k: nat)
    requires a <= b && (k <= |a| || a == b)
    ensures Take(a, k) == Take(b, k)
  {
  }

  ghost function Dropped(hits: seq<Hit>, reverse: map<nat, TrackId>, exclude: seq<TrackId>): set<TrackId> {
    set h | h in hits && h.key in reverse && reverse[h.key] in exclude :: reverse[h.key]
  }

  lemma {:induction false} KeptPrefix(hits: seq<Hit>, w: nat, reverse: map<nat, TrackId>, exclude: seq<TrackId>)
    requires w <= |hits|
    ensures Kept(hits[..w], reverse, exclude) <= Kept(hits, reverse, exclude)
    decreases |hits|
  {
    if w < |hits| {
      assert hits[..|hits| - 1][..w] == hits[..w];
      KeptPrefix(hits[..|hits| - 1], w, reverse, exclude);
    } else {
      assert hits[..w] == hits;
    }
  }

  /** Each hit is kept, or is a distinct member of the exclusion list. */
  lemma {:induction false} KeptCount(hits: seq<Hit>, s: Inner, exclude: seq<TrackId>)
    requires Valid(s)
    requires forall i, j :: 0 <= i < j < |hits| ==> hits[i].key != hits[j].key
    requires forall h :: h in hits ==> h.key in s.index
    ensures |Kept(hits, s.reverse, exclude)| + |Dropped(hits, s.reverse, exclude)| == |hits|
    ensures |Dropped(hits, s.reverse, exclude)| <= |exclude|
  {
    if hits != [] {
      var init, h := hits[..|hits| - 1], hits[|hits| - 1];
      assert hits == init + [h];
      KeptCount(init, s, exclude);
      assert h.key in s.reverse;
      if s.reverse[h.key] in exclude {
        assert s.reverse[h.key] !in Dropped(init, s.reverse, exclude);
        assert Dropped(hits, s.reverse, exclude) == Dropped(init, s.reverse, exclude) + {s.reverse[h.key]};
      } else {
        assert Dropped(hits, s.reverse, exclude) == Dropped(init, s.reverse, exclude);
      }
    }
    SubsetSize(Dropped(hits, s.reverse, exclude), Elems(exclude));
    ElemsBound(exclude);
  }

  lemma {:induction false} RankingSize(hits: seq<Hit>)
    requires forall i, j :: 0 <= i < j < |hits| ==> hits[i].key != hits[j].key
    ensures |set h | h in hits :: h.key| == |hits|
  {
    if hits != [] {
      var init, h := hits[..|hits| - 1], hits[|hits| - 1];
      assert hits == init + [h];
      RankingSize(init);
      assert (set x | x in hits :: x.key) == (set x | x in init :: x.key) + {h.key};
    }
  }

  lemma {:induction false} SameSize(s: Inner, ids: set<TrackId>)
    requires Linked(s) && ids <= s.forward.Keys
    ensures |ids| == |set id | id in ids :: s.forward[id]|
  {
    if ids != {} {
      var x :| x in ids;
      SameSize(s, ids - {x});
      assert (set id | id in ids :: s.forward[id]) == (set id | id in ids - {x} :: s.forward[id]) + {s.forward[x]};
    }
  }

  lemma RanksStored(ranking: seq<Hit>, s: Inner)
    requires Ranks(ranking, s)
    ensures forall h :: h in ranking ==> h.key in s.index
  {
    forall h | h in ranking
      ensures h.key in s.index
    {
      assert h.key in set x | x in ranking :: x.key;
    }
  }

  lemma RankingCovers(ranking: seq<Hit>, s: Inner)
    requires Valid(s) && Ranks(ranking, s)
    ensures |ranking| == |s.forward|
  {
    RankingSize(ranking);
    SameSize(s, s.forward.Keys);
    assert (set id | id in s.forward.Keys :: s.forward[id]) == s.index.Keys;
  }

  lemma FetchSuffices(hits: seq<Hit>, want: nat, s: Inner, k: nat, exclude: seq<TrackId>)
    requires Valid(s) && want <= |hits| && (want == |hits| || want == k + |exclude|)
    requires forall i, j :: 0 <= i < j < |hits| ==> hits[i].key != hits[j].key
    requires forall h :: h in hits ==> h.key in s.index
    ensures Take(Kept(hits[..want], s.reverse, exclude), k) == Take(Kept(hits, s.reverse, exclude), k)
  {
    var first := hits[..want];
    KeptPrefix(hits, want, s.reverse, exclude);
    if want < |hits| {
      assert forall h :: h in first ==> h in hits;
      KeptCount(first, s, exclude);
    } else {
      assert first == hits;
    }
    TakePrefix(Kept(first, s.reverse, exclude), Kept(hits, s.reverse, exclude), k);
  }

  /** Over-fetching by the length of the exclusion list and then filtering loses nothing. */
  lemma OverFetch(ranking: seq<Hit>, s: Inner, k: nat, exclude: seq<TrackId>)
    requires Valid(s) && Ranks(ranking, s)
    ensures var want := Min(k + |exclude|, |s.forward|);
            && want <= |ranking|
            && Take(Kept(ranking[..want], s.reverse, exclude), k) == Take(Kept(ranking, s.reverse, exclude), k)
  {
    RankingCovers(ranking, s);
    RanksStored(ranking, s);
    FetchSuffices(ranking, Min(k + |exclude|, |s.forward|), s, k, exclude);
  }

  /** How many answers there are to give: every stored track that is not excluded. */
  lemma KeptTotal(ranking: seq<Hit>, s: Inner, exclude: seq<TrackId>)
    requires Valid(s) && Ranks(ranking, s)
    ensures |Kept(ranking, s.reverse, exclude)| == |s.forward.Keys - Elems(exclude)|
  {
    RankingCovers(ranking, s);
    RanksStored(ranking, s);
    KeptCount(ranking, s, exclude);
    var gone := Dropped(ranking, s.reverse, exclude);
    forall id | id in s.forward && id in exclude
      ensures id in gone
    {
      assert s.forward[id] in s.index.Keys;
      var h :| h in ranking && h.key == s.forward[id];
    }
    assert gone == s.forward.Keys * Elems(exclude);
    assert s.forward.Keys == gone + (s.forward.Keys - Elems(exclude));
    assert |s.forward.Keys| == |s.forward|;
  }

  /** The filter loop of a search: skips unknown and excluded hits and stops at `k` results. */
  method Scan(matches: seq<Hit>, reverse: map<nat, TrackId>, k: nat, exclude: seq<TrackId>)
      returns (out: seq<QueryResult>)
    requires k > 0
    ensures out == Take(Kept(matches, reverse, exclude), k)
  {
    out := [];
    for i := 0 to |matches|
      invariant out == Kept(matches[..i], reverse, exclude)
      invariant |out| < k
    {
      assert matches[..i + 1][..i] == matches[..i];
      var h := matches[i];
      if h.key !in reverse || reverse[h.key] in exclude {
        continue;
      }
      out := out + [QueryResult(reverse[h.key], 1.0 - h.distance)];
      if |out| == k {
        KeptPrefix(matches, i + 1, reverse, exclude);
        return;
      }
    }
    assert matches[..|matches|] == matches;
  }

  // ----- The index object -----

  /** How a save went: complete, or broken off with the file being written in any state. */
  datatype SaveOutcome = Saved | IndexTorn(index: File<map<nat, Vector>>) | KeysTorn(keys: File<Sidecar>)

  class AnnIndex {
    const dim: nat
    const onDisk: bool
    var inner: Inner
    var dirty: bool
    var disk: Disk

    constructor InMemory(dim: nat)
      ensures this.dim == dim && !onDisk && !dirty && inner == EMPTY
    {
      this.dim, this.onDisk, this.dirty, this.inner, this.disk := dim, false, false, EMPTY, Disk(Missing, Missing);
    }

    constructor Loaded(inner: Inner, disk: Disk, dim: nat)
      ensures this.dim == dim && onDisk && !dirty && this.disk == disk && this.inner == inner
    {
      this.dim, this.onDisk, this.dirty, this.inner, this.disk := dim, true, false, inner, disk;
    }

    /** Opens the files found at the index's path; one that is there and does not load is an error. */
    static method Open(disk: Disk, dim: nat) returns (r: Result<AnnIndex>)
      ensures r.Ok? <==> Opened(disk).Ok?
      ensures r.Err? ==> Err(r.error) == Opened(disk)
      ensures r.Ok? ==> fresh(r.value) && Opened(disk) == Ok(r.value.inner)
      ensures r.Ok? ==> r.value.dim == dim && r.value.onDisk && !r.value.dirty && r.value.disk == disk
    {
      var index, forward, reverse, nextKey := map[], map[], map[], 1;
      if disk.index.Garbled? {
        return Err(Usearch);
      }
      if disk.index.Whole? {
        index := disk.index.content;
      }
      if disk.keys.Garbled? {
        return Err(Usearch);
      }
      if disk.keys.Whole? {
        var sidecar := disk.keys.content;
        nextKey := Max(sidecar.nextKey, 1);
        for i := 0 to |sidecar.entries|
          invariant forward == ForwardOf(sidecar.entries[..i])
          invariant reverse == ReverseOf(sidecar.entries[..i])
        {
          assert sidecar.entries[..i + 1][..i] == sidecar.entries[..i];
          forward := forward[sidecar.entries[i].trackId := sidecar.entries[i].key];
          reverse := reverse[sidecar.entries[i].key := sidecar.entries[i].trackId];
        }
        assert sidecar.entries[..|sidecar.entries|] == sidecar.entries;
      }
      var loaded := new AnnIndex.Loaded(Inner(index, forward, reverse, nextKey), disk, dim);
      return Ok(loaded);
    }

    method Upsert(id: TrackId, v: Vector) returns (r: Result<()>)
      requires Valid(inner)
      modifies `inner, `dirty
      ensures |v| != dim ==> r == Err(DimMismatch(dim, |v|)) && inner == old(inner) && dirty == old(dirty)
      ensures |v| == dim ==> r == Ok(()) && inner == Upserted(old(inner), id, v) && dirty
      ensures Valid(inner)
    {
      if |v| != dim {
        return Err(DimMismatch(dim, |v|));
      }
      UpsertStep(inner, id, v);
      var index, reverse := inner.index, inner.reverse;
      if id in inner.forward {
        index := index - {inner.forward[id]};
        reverse := reverse - {inner.forward[id]};
      }
      var key := inner.nextKey;
      assert key !in index;  // the foreign add never meets a duplicate key
      inner := Inner(index[key := v], inner.forward[id := key], reverse[key := id], key + 1);
      dirty := true;
      return Ok(());
    }

    method Remove(id: TrackId)
      requires Valid(inner)
      modifies `inner, `dirty
      ensures inner == Removed(old(inner), id) && Valid(inner)
      ensures dirty == (old(dirty) || id in old(inner).forward)
    {
      RemoveStep(inner, id);
      if id in inner.forward {
        var key := inner.forward[id];
        inner := Inner(inner.index - {key}, inner.forward - {id}, inner.reverse - {key}, inner.nextKey);
        dirty := true;
      }
    }

    method RebuildFrom(pairs: seq<(TrackId, Vector)>) returns (r: Result<()>)
      modifies `inner, `dirty
      ensures r.Ok? <==> forall p :: p in pairs ==> |p.1| == dim
      ensures r.Ok? ==> inner == Rebuilt(pairs) && dirty
      ensures r.Err? ==> inner == old(inner) && dirty == old(dirty)
    {
      for i := 0 to |pairs|
        invariant forall j :: 0 <= j < i ==> |pairs[j].1| == dim
        invariant inner == old(inner) && dirty == old(dirty)
      {
        if |pairs[i].1| != dim {
          return Err(DimMismatch(dim, |pairs[i].1|));
        }
      }
      var s := EMPTY;
      for i := 0 to |pairs|
        invariant s == Rebuilt(pairs[..i])
      {
        assert pairs[..i + 1][..i] == pairs[..i];
        var (id, v) := pairs[i];
        var key := s.nextKey;
        s := Inner(s.index[key := v], s.forward[id := key], s.reverse[key := id], key + 1);
      }
      assert pairs[..|pairs|] == pairs;
      inner := s;
      dirty := true;
      return Ok(());
    }

    /** The `k` nearest tracks outside `exclude`; `ranking` is the foreign index's full answer. */
    method QueryExcluding(query: Vector, ranking: seq<Hit>, k: nat, exclude: seq<TrackId>)
        returns (r: Result<seq<QueryResult>>)
      requires Valid(inner) && Ranks(ranking, inner)
      ensures |query| != dim ==> r == Err(DimMismatch(dim, |query|))
      ensures |query| == dim ==> r == Ok(Take(Kept(ranking, inner.reverse, exclude), k))
      ensures r.Ok? ==> |r.value| == Min(k, |inner.forward.Keys - Elems(exclude)|)
    {
      if |query| != dim {
        return Err(DimMismatch(dim, |query|));
      }
      KeptTotal(ranking, inner, exclude);
      if k == 0 {
        return Ok([]);
      }
      OverFetch(ranking, inner, k, exclude);
      var want := Min(k + |exclude|, |inner.forward|);
      var matches := ranking[..want];
      var out := Scan(matches, inner.reverse, k, exclude);
      return Ok(out);
    }

    /** Writes the index file, then the sidecar; the fate of the writes is the caller's to choose. */
    method Persist(outcome: SaveOutcome) returns (r: Result<()>)
      modifies `dirty, `disk
      ensures r.Ok? <==> !onDisk || outcome.Saved?
      ensures r.Ok? ==> !dirty && (onDisk ==> DiskHolds(disk, inner))
      ensures r.Err? ==> dirty == old(dirty)
      ensures r.Err? && outcome.IndexTorn? ==> disk == old(disk).(index := outcome.index)
      ensures r.Err? && outcome.KeysTorn? ==> disk == Disk(Whole(inner.index), outcome.keys)
      ensures !onDisk ==> disk == old(disk)
    {
      if !onDisk {
        dirty := false;
        return Ok(());
      }
      if outcome.IndexTorn? {
        disk := disk.(index := outcome.index);
        return Err(Usearch);
      }
      disk := disk.(index := Whole(inner.index));
      var entries: seq<Entry> := [];
      var left := inner.forward.Keys;
      while left != {}
        invariant left <= inner.forward.Keys
        invariant forall e :: e in entries ==> e.trackId in inner.forward && inner.forward[e.trackId] == e.key
        invariant forall id :: id in inner.forward.Keys - left ==> Entry(inner.forward[id], id) in entries
        decreases |left|
      {
        var id :| id in left;
        entries := entries + [Entry(inner.forward[id], id)];
        left := left - {id};
      }
      if outcome.KeysTorn? {
        disk := disk.(keys := outcome.keys);
        return Err(Io);
      }
      disk := disk.(keys := Whole(Sidecar(inner.nextKey, entries)));
      dirty := false;
      return Ok(());
    }

    method PersistIfDirty(outcome: SaveOutcome) returns (r: Result<bool>)
      modifies `dirty, `disk
      ensures r.Ok? ==> r.value == old(dirty) && !dirty
      ensures r == Ok(true) && onDisk ==> DiskHolds(disk, inner)
      ensures r == Ok(false) ==> disk == old(disk)
      ensures r.Err? ==> old(dirty) && dirty
    {
      var was := dirty;
      dirty := false;
      if !was {
        return Ok(false);
      }
      var saved := Persist(outcome);
      if saved.Err? {
        dirty := true;
        return Err(saved.error);
      }
      return Ok(true);
    }
  }
}
