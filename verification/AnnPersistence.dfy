/** Background persistence of the index while writers run: the lock, the lock-free `dirty` flag
    and the two files, as interleaved steps of any number of threads. */
module AnnPersistence {
  import opened Prelude
  import opened Ann

  /** What a deployment allows: how many threads may be flushing at once, whether some of them
      call `persist` directly instead of `persist_if_dirty`, and whether a save can fail. */
  datatype Config = Config(persisters: nat, direct: bool, mayFail: bool)

  /** A thread inside `upsert`, `remove` or `rebuild_from`. */
  datatype Mutator =
    | Locked(op: Op)          // holds the write lock
    | Mutated(touched: bool)  // holds the write lock, memory changed
    | Unlocked                // lock released, flag not stored yet

  /** A thread inside `persist` or `persist_if_dirty`. */
  datatype Persister =
    | Waiting(direct: bool)      // flag swapped (unless direct), lock not held yet
    | Saving(direct: bool)       // holds the read lock
    | WroteIndex(direct: bool)   // holds the read lock, index file written
    | WroteKeys                  // holds the read lock, both files written
    | Cleared                    // holds the read lock, flag cleared
    | Failed                     // lock released after an error, flag not re-armed yet

  datatype State = State(
    mem: Inner,
    disk: Disk,
    dirty: bool,
    mutators: map<nat, Mutator>,
    persisters: map<nat, Persister>)

  datatype Action =
    | LockWrite(m: nat, op: Op) | Mutate(m: nat) | UnlockWrite(m: nat) | StoreDirty(m: nat)
    | Tick(p: nat) | Direct(p: nat) | LockRead(p: nat)
    | SaveIndex(p: nat) | SaveKeys(p: nat, entries: seq<Entry>) | Fail(p: nat, torn: Disk)
    | ClearDirty(p: nat) | UnlockRead(p: nat) | Rearm(p: nat)

  predicate HoldsWrite(m: Mutator) { !m.Unlocked? }

  predicate HoldsRead(p: Persister) { !p.Waiting? && !p.Failed? }

  ghost predicate NoWriter(s: State) {
    forall m :: m in s.mutators ==> !HoldsWrite(s.mutators[m])
  }

  ghost predicate NoReader(s: State) {
    forall p :: p in s.persisters ==> !HoldsRead(s.persisters[p])
  }

  /** Whether the operation stores the flag: a `remove` of an unknown track does not. */
  predicate Touches(mem: Inner, op: Op) {
    op.Remove? ==> op.id in mem.forward
  }

  ghost predicate Enabled(cfg: Config, s: State, a: Action) {
    match a
    case LockWrite(m, op) =>
      m !in s.mutators && NoWriter(s) && NoReader(s) && (op.Rebuild? ==> DistinctIds(op.pairs))
    case Mutate(m) => m in s.mutators && s.mutators[m].Locked?
    case UnlockWrite(m) => m in s.mutators && s.mutators[m].Mutated?
    case StoreDirty(m) => m in s.mutators && s.mutators[m].Unlocked?
    case Tick(p) => p < cfg.persisters && p !in s.persisters
    case Direct(p) => p < cfg.persisters && cfg.direct && p !in s.persisters
    case LockRead(p) => p in s.persisters && s.persisters[p].Waiting? && NoWriter(s)
    case SaveIndex(p) => p in s.persisters && s.persisters[p].Saving?
    case SaveKeys(p, entries) => p in s.persisters && s.persisters[p].WroteIndex? && Lists(entries, s.mem.forward)
    case Fail(p, torn) =>
      && cfg.mayFail && p in s.persisters
      && ((s.persisters[p].Saving? && torn.keys == s.disk.keys) || (s.persisters[p].WroteIndex? && torn.index == s.disk.index))
    case ClearDirty(p) => p in s.persisters && s.persisters[p].WroteKeys?
    case UnlockRead(p) => p in s.persisters && s.persisters[p].Cleared?
    case Rearm(p) => p in s.persisters && s.persisters[p].Failed?
  }

  ghost function Next(cfg: Config, s: State, a: Action): State
    requires Enabled(cfg, s, a)
  {
    match a
    case LockWrite(m, op) => s.(mutators := s.mutators[m := Locked(op)])
    case Mutate(m) =>
      var op := s.mutators[m].op;
      s.(mem := Apply(s.mem, op), mutators := s.mutators[m := Mutated(Touches(s.mem, op))])
    case UnlockWrite(m) =>
      if s.mutators[m].touched then s.(mutators := s.mutators[m := Unlocked])
      else s.(mutators := s.mutators - {m})
    case StoreDirty(m) => s.(dirty := true, mutators := s.mutators - {m})
    case Tick(p) =>
      if s.dirty then s.(dirty := false, persisters := s.persisters[p := Waiting(false)]) else s
    case Direct(p) => s.(persisters := s.persisters[p := Waiting(true)])
    case LockRead(p) => s.(persisters := s.persisters[p := Saving(s.persisters[p].direct)])
    case SaveIndex(p) =>
      s.(disk := s.disk.(index := Whole(s.mem.index)), persisters := s.persisters[p := WroteIndex(s.persisters[p].direct)])
    case SaveKeys(p, entries) =>
      s.(disk := s.disk.(keys := Whole(Sidecar(s.mem.nextKey, entries))), persisters := s.persisters[p := WroteKeys])
    case Fail(p, torn) =>
      if s.persisters[p].direct then s.(disk := torn, persisters := s.persisters - {p})
      else s.(disk := torn, persisters := s.persisters[p := Failed])
    case ClearDirty(p) => s.(dirty := false, persisters := s.persisters[p := Cleared])
    case UnlockRead(p) => s.(persisters := s.persisters - {p})
    case Rearm(p) => s.(dirty := true, persisters := s.persisters - {p})
  }

  /** A freshly opened index: memory is what the files hold, nothing is running. */
  ghost predicate Init(s: State) {
    && Valid(s.mem) && Opened(s.disk) == Ok(s.mem) && !s.dirty
    && s.mutators == map[] && s.persisters == map[]
  }

  /** The state after a schedule, if every step of it was enabled. */
  ghost function Run(cfg: Config, s: State, acts: seq<Action>): Option<State> {
    if acts == [] then Some(s)
    else
      var t := Run(cfg, s, acts[..|acts| - 1]);
      if t.Some? && Enabled(cfg, t.value, acts[|acts| - 1]) then Some(Next(cfg, t.value, acts[|acts| - 1])) else None
  }

  /** Some mutator has changed memory and not stored the flag yet. */
  ghost predicate StorePending(s: State) {
    exists m :: m in s.mutators && Pending(s.mutators[m])
  }

  predicate Pending(m: Mutator) { m.Unlocked? || (m.Mutated? && m.touched) }

  /** Whenever a restart would not restore memory, something is still going to flush it. */
  ghost predicate NothingLost(s: State) {
    Opened(s.disk) != Ok(s.mem) ==> s.dirty || StorePending(s) || s.persisters != map[]
  }

  ghost predicate LockInv(s: State) {
    && (forall m, p :: m in s.mutators && p in s.persisters ==> !(HoldsWrite(s.mutators[m]) && HoldsRead(s.persisters[p])))
    && (forall m, n :: m in s.mutators && n in s.mutators && HoldsWrite(s.mutators[m]) && HoldsWrite(s.mutators[n]) ==> m == n)
  }

  ghost predicate FilesInv(s: State, p: Persister) {
    && (p.WroteIndex? ==> s.disk.index == Whole(s.mem.index))
    && (p.WroteKeys? || p.Cleared? ==> DiskHolds(s.disk, s.mem))
  }

  /** A flusher that will not re-arm the flag if its save fails. */
  predicate IsDirect(p: Persister) { (p.Waiting? || p.Saving? || p.WroteIndex?) && p.direct }

  ghost predicate Inv(cfg: Config, s: State) {
    && Valid(s.mem) && LockInv(s) && NothingLost(s)
    && (forall m :: m in s.mutators && s.mutators[m].Locked? && s.mutators[m].op.Rebuild? ==> DistinctIds(s.mutators[m].op.pairs))
    && (forall p :: p in s.persisters ==> p < cfg.persisters && FilesInv(s, s.persisters[p]))
    && (!cfg.direct ==> forall p :: p in s.persisters ==> !IsDirect(s.persisters[p]))
  }

  /** No save fails, or the only flusher is one thread that re-arms the flag. */
  predicate Sound(cfg: Config) {
    !cfg.mayFail || cfg.persisters == 0 || (cfg.persisters == 1 && !cfg.direct)
  }

  lemma PendingPersists(s: State, t: State, m: nat)
    requires forall n :: n in s.mutators && Pending(s.mutators[n]) && n != m ==> n in t.mutators && t.mutators[n] == s.mutators[n]
    requires m in s.mutators && Pending(s.mutators[m]) ==> m in t.mutators && Pending(t.mutators[m])
    ensures StorePending(s) ==> StorePending(t)
  {
    if StorePending(s) {
      var n :| n in s.mutators && Pending(s.mutators[n]);
      assert n in t.mutators && Pending(t.mutators[n]);
    }
  }

  lemma MutateStep(cfg: Config, s: State, m: nat, mem: Inner, touched: bool)
    requires Inv(cfg, s) && m in s.mutators && s.mutators[m].Locked?
    requires Valid(mem) && (touched || mem == s.mem)
    ensures Inv(cfg, s.(mem := mem, mutators := s.mutators[m := Mutated(touched)]))
  {
    var t := s.(mem := mem, mutators := s.mutators[m := Mutated(touched)]);
    PendingPersists(s, t, m);
    assert m in t.mutators && (touched ==> Pending(t.mutators[m]));
  }

  lemma OpRuns(cfg: Config, s: State, m: nat)
    requires Inv(cfg, s) && Enabled(cfg, s, Mutate(m))
    ensures Inv(cfg, Next(cfg, s, Mutate(m)))
  {
    var op := s.mutators[m].op;
    ApplyStep(s.mem, op);
    MutateStep(cfg, s, m, Apply(s.mem, op), Touches(s.mem, op));
  }

  lemma LockStep(cfg: Config, s: State, m: nat, op: Op)
    requires Inv(cfg, s) && Enabled(cfg, s, LockWrite(m, op))
    ensures Inv(cfg, Next(cfg, s, LockWrite(m, op)))
  {
    PendingPersists(s, Next(cfg, s, LockWrite(m, op)), m);
  }

  lemma UnlockTouched(cfg: Config, s: State, m: nat)
    requires Inv(cfg, s) && m in s.mutators && s.mutators[m] == Mutated(true)
    ensures Inv(cfg, s.(mutators := s.mutators[m := Unlocked]))
  {
    PendingPersists(s, s.(mutators := s.mutators[m := Unlocked]), m);
  }

  lemma UnlockUntouched(cfg: Config, s: State, m: nat)
    requires Inv(cfg, s) && m in s.mutators && s.mutators[m] == Mutated(false)
    ensures Inv(cfg, s.(mutators := s.mutators - {m}))
  {
    PendingPersists(s, s.(mutators := s.mutators - {m}), m);
  }

  lemma UnlockStep(cfg: Config, s: State, m: nat)
    requires Inv(cfg, s) && Enabled(cfg, s, UnlockWrite(m))
    ensures Inv(cfg, Next(cfg, s, UnlockWrite(m)))
  {
    if s.mutators[m].touched {
      UnlockTouched(cfg, s, m);
    } else {
      UnlockUntouched(cfg, s, m);
    }
  }

  lemma StoreStep(cfg: Config, s: State, m: nat)
    requires Inv(cfg, s) && Enabled(cfg, s, StoreDirty(m))
    ensures Inv(cfg, Next(cfg, s, StoreDirty(m)))
  {
  }

  lemma FlushStarts(cfg: Config, s: State, a: Action)
    requires Inv(cfg, s) && Enabled(cfg, s, a) && (a.Tick? || a.Direct? || a.LockRead?)
    ensures Inv(cfg, Next(cfg, s, a))
  {
    assert Next(cfg, s, a) == s || a.p in Next(cfg, s, a).persisters;
  }

  lemma FlushWrites(cfg: Config, s: State, a: Action)
    requires Sound(cfg) && Inv(cfg, s) && Enabled(cfg, s, a) && (a.SaveIndex? || a.SaveKeys? || a.Fail?)
    ensures Inv(cfg, Next(cfg, s, a))
  {
    assert a.p in Next(cfg, s, a).persisters;
  }

  lemma FlushEnds(cfg: Config, s: State, a: Action)
    requires Inv(cfg, s) && Enabled(cfg, s, a) && (a.ClearDirty? || a.UnlockRead? || a.Rearm?)
    ensures Inv(cfg, Next(cfg, s, a))
  {
    if a.ClearDirty? {
      assert a.p in Next(cfg, s, a).persisters;
    } else if a.UnlockRead? {
      assert FilesInv(s, s.persisters[a.p]);
      OpenRestores(s.disk, s.mem);
    }
  }

  lemma StepKeepsInv(cfg: Config, s: State, a: Action)
    requires Sound(cfg) && Inv(cfg, s) && Enabled(cfg, s, a)
    ensures Inv(cfg, Next(cfg, s, a))
  {
    if a.LockWrite? {
      LockStep(cfg, s, a.m, a.op);
    } else if a.Mutate? {
      OpRuns(cfg, s, a.m);
    } else if a.UnlockWrite? {
      UnlockStep(cfg, s, a.m);
    } else if a.StoreDirty? {
      StoreStep(cfg, s, a.m);
    } else if a.Tick? || a.Direct? || a.LockRead? {
      FlushStarts(cfg, s, a);
    } else if a.SaveIndex? || a.SaveKeys? || a.Fail? {
      FlushWrites(cfg, s, a);
    } else {
      FlushEnds(cfg, s, a);
    }
  }

  lemma {:induction false} RunKeepsInv(cfg: Config, s: State, acts: seq<Action>)
    requires Sound(cfg) && Init(s) && Run(cfg, s, acts).Some?
    ensures Inv(cfg, Run(cfg, s, acts).value)
  {
    if acts != [] {
      var init := acts[..|acts| - 1];
      RunKeepsInv(cfg, s, init);
      StepKeepsInv(cfg, Run(cfg, s, init).value, acts[|acts| - 1]);
    }
  }

  /** At rest with a clean flag, the files restore exactly what memory holds. */
  lemma QuiescentIsDurable(cfg: Config, s: State, acts: seq<Action>)
    requires Sound(cfg) && Init(s) && Run(cfg, s, acts).Some?
    ensures var t := Run(cfg, s, acts).value;
            t.mutators == map[] && t.persisters == map[] && !t.dirty ==> Opened(t.disk) == Ok(t.mem)
  {
    RunKeepsInv(cfg, s, acts);
  }

  // ----- Where the promise ends -----

  /** No schedule from a freshly opened index ever loses an update. */
  ghost predicate Safe(cfg: Config) {
    forall s, acts :: Init(s) && Run(cfg, s, acts).Some? ==> NothingLost(Run(cfg, s, acts).value)
  }

  const FRESH := State(EMPTY, Disk(Missing, Missing), false, map[], map[])

  /** Some schedule leads from a fresh index to `t`. */
  ghost predicate Reached(cfg: Config, t: State) {
    exists acts :: Run(cfg, FRESH, acts) == Some(t)
  }

  lemma Step(cfg: Config, t: State, a: Action) returns (u: State)
    requires Reached(cfg, t) && Enabled(cfg, t, a)
    ensures u == Next(cfg, t, a) && Reached(cfg, u)
  {
    var acts :| Run(cfg, FRESH, acts) == Some(t);
    assert (acts + [a])[..|acts|] == acts;
    u := Next(cfg, t, a);
    assert Run(cfg, FRESH, acts + [a]) == Some(u);
  }

  lemma Refutes(cfg: Config, t: State)
    requires Reached(cfg, t) && !NothingLost(t)
    ensures !Safe(cfg)
  {
    var acts :| Run(cfg, FRESH, acts) == Some(t);
    assert Init(FRESH);
  }

  /** One whole upsert by a lone mutator sets the flag. */
  lemma UpsertRuns(cfg: Config, t: State, id: TrackId) returns (u: State)
    requires Reached(cfg, t) && t.mutators == map[] && NoReader(t)
    ensures u == t.(mem := Upserted(t.mem, id, []), dirty := true) && Reached(cfg, u)
  {
    u := Step(cfg, t, LockWrite(0, Upsert(id, [])));
    u := Step(cfg, u, Mutate(0));
    u := Step(cfg, u, UnlockWrite(0));
    u := Step(cfg, u, StoreDirty(0));
    assert u.mutators == t.mutators;
  }

  /** A flusher that holds the lock writes both files. */
  lemma SaveRuns(cfg: Config, t: State, entries: seq<Entry>) returns (u: State)
    requires Reached(cfg, t) && 0 in t.persisters && t.persisters[0] == Saving(false)
    requires Lists(entries, t.mem.forward)
    ensures u == t.(disk := Disk(Whole(t.mem.index), Whole(Sidecar(t.mem.nextKey, entries))),
                    persisters := t.persisters[0 := WroteKeys])
    ensures Reached(cfg, u)
  {
    u := Step(cfg, t, SaveIndex(0));
    u := Step(cfg, u, SaveKeys(0, entries));
    assert u.persisters == t.persisters[0 := WroteKeys];
  }

  /** One whole flush by a lone flusher saves memory and leaves the flag clean. */
  lemma FlushRuns(cfg: Config, t: State, entries: seq<Entry>) returns (u: State)
    requires Reached(cfg, t) && NoWriter(t) && t.persisters == map[] && t.dirty
    requires cfg.persisters >= 1 && Lists(entries, t.mem.forward)
    ensures u == t.(disk := Disk(Whole(t.mem.index), Whole(Sidecar(t.mem.nextKey, entries))), dirty := false)
    ensures Reached(cfg, u)
  {
    u := Step(cfg, t, Tick(0));
    u := Step(cfg, u, LockRead(0));
    u := SaveRuns(cfg, u, entries);
    u := Step(cfg, u, ClearDirty(0));
    u := Step(cfg, u, UnlockRead(0));
    assert u.persisters == t.persisters;
  }

  /** A direct `persist` on a clean index breaks off while it rewrites the index file: the file no
      longer loads, the flag is clean, and nothing is left to write it again. */
  lemma DirectFails(cfg: Config, t: State)
    requires cfg.mayFail && cfg.direct && cfg.persisters >= 1
    requires Reached(cfg, t) && t.mutators == map[] && t.persisters == map[] && !t.dirty
    ensures !Safe(cfg)
  {
    var u := Step(cfg, t, Direct(0));
    u := Step(cfg, u, LockRead(0));
    u := Step(cfg, u, Fail(0, u.disk.(index := Garbled)));
    assert u.persisters == map[];
    Refutes(cfg, u);
  }

  /** An upsert is flushed; then a direct `persist` of the same content fails. */
  lemma DirectPersistLoses(cfg: Config)
    requires cfg.mayFail && cfg.direct && cfg.persisters >= 1
    ensures !Safe(cfg)
  {
    assert Run(cfg, FRESH, []) == Some(FRESH);
    var t := UpsertRuns(cfg, FRESH, "a");
    t := FlushRuns(cfg, t, [Entry(1, "a")]);
    DirectFails(cfg, t);
  }

  /** Two flushers: one breaks off in the index file and re-arms the flag, then the other, having
      saved before the failure, clears it. */
  lemma TwoPersistersLose(cfg: Config)
    requires cfg.mayFail && cfg.persisters >= 2
    ensures !Safe(cfg)
  {
    assert Run(cfg, FRESH, []) == Some(FRESH);
    var t := UpsertRuns(cfg, FRESH, "a");
    t := Step(cfg, t, Tick(0));
    t := UpsertRuns(cfg, t, "a");
    t := Step(cfg, t, Tick(1));
    assert t.persisters == map[0 := Waiting(false), 1 := Waiting(false)];
    t := RaceSaves(cfg, t);
    RaceLoses(cfg, t);
  }

  lemma RaceSaves(cfg: Config, t: State) returns (u: State)
    requires Reached(cfg, t) && t.mutators == map[] && t.mem.forward == map["a" := 2]
    requires t.persisters == map[0 := Waiting(false), 1 := Waiting(false)]
    ensures Reached(cfg, u) && u.mutators == map[]
    ensures u.persisters == map[0 := WroteKeys, 1 := Saving(false)]
  {
    u := Step(cfg, t, LockRead(0));
    u := Step(cfg, u, LockRead(1));
    u := SaveRuns(cfg, u, [Entry(2, "a")]);
  }

  lemma RaceLoses(cfg: Config, t: State)
    requires cfg.mayFail && Reached(cfg, t) && t.mutators == map[]
    requires t.persisters == map[0 := WroteKeys, 1 := Saving(false)]
    ensures !Safe(cfg)
  {
    var u := Step(cfg, t, Fail(1, t.disk.(index := Garbled)));
    u := Step(cfg, u, Rearm(1));
    assert u.persisters == map[0 := WroteKeys];
    u := Step(cfg, u, ClearDirty(0));
    u := Step(cfg, u, UnlockRead(0));
    assert u.persisters == map[];
    Refutes(cfg, u);
  }

  /** Exactly the deployments in which the race is benign. */
  lemma BenignIff(cfg: Config)
    ensures Safe(cfg) <==> Sound(cfg)
  {
    if Sound(cfg) {
      forall s, acts | Init(s) && Run(cfg, s, acts).Some?
        ensures NothingLost(Run(cfg, s, acts).value)
      {
        RunKeepsInv(cfg, s, acts);
      }
    } else if cfg.persisters == 1 {
      DirectPersistLoses(cfg);
    } else {
      TwoPersistersLose(cfg);
    }
  }
}
