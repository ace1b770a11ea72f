# Verified model of the crates-music server and player core

A Dafny 4.11 model of the stateful parts of crates-music, with proofs about whole runs rather
than single calls. `dafny verify dfyconfig.toml` checks it.

| file | component |
|---|---|
| `AnnIndex.dfy` | the similarity index: the two-way id/key map beside the foreign vector index, its search with exclusions, its files |
| `AnnPersistence.dfy` | the lock, the lock-free `dirty` flag and the two files, as interleaved steps of any number of writers and flushers |
| `EventLog.dfy`, `ListenSession.dfy`, `EventIngest.dfy` | event ingestion: stamping, deduplicating, folding skips |
| `RestartSafety.dfy`, `Overlap.dfy` | listening sessions over runs with restarts, crashes and failed appends, and under overlapping requests |
| `AudioCache.dfy` | the two-budget LRU audio cache with pinning and its blob directory |
| `Sampling.dfy`, `Aggregate.dfy`, `Mmr.dfy`, `Recommend.dfy` | seed sampling, weighted aggregation, the greedy re-ranker, re-ranking stages, the filtered walks and their verdict |
| `RateLimit.dfy`, `LoginLimit.dfy` | the request limiter with its memory sweep, and the login limiter |
| `PlayQueue.dfy` | the play queue and its cursor |
| `AutoProjection.dfy` | the projection debouncer |
| `Prelude.dfy`, `Text.dfy`, `Sorting.dfy` | options and sequences, string order and decimal rendering, a stable sort |

Objects that the source updates in place are classes whose methods are proved against
specification functions on values; the theorems are lemmas about those functions and about runs
of them. SQLite tables are sequences of rows with atomic statements, clocks are integers handed
in by the caller, `f32` is `real`, the random generator is the sequence of its choices, and
integers are unbounded (`u64` keys, `i64` milliseconds and byte counts never wrap here; the
saturating conversion of JSON numbers to `i64` is written out). usearch is a map from keys to
vectors plus one full ranking of the stored keys per query; a blob's file name is a value
determined by its canonical key, that is, SHA-256 is taken to be collision-free.

Where the proofs say more than the source's own documentation:

* The comment on `persist_if_dirty` calls its race with writers benign. `BenignIff` proves that it
  is for any number of writers when saves cannot fail, or when the only flusher is one thread that
  calls `persist_if_dirty`, and that it is not otherwise: with saves that can break off while they
  rewrite the index file, a second flusher can clear a flag that the first has just re-armed, and a
  direct `persist` that fails never re-arms it.
* The request limiter lets through at most `2 * max - 1` requests in any interval of one window
  length, and this is attained; its per-window cap is not a cap per sliding interval.
* The sweep of the request limiter cannot be seen when windows only get shorter along the run. For
  a set of window lengths it cannot be seen in any run exactly when the set has at most one element:
  for any two lengths there is a run in which the sweep forgives a source that should be blocked.
* The login limiter's check and its record are separate calls. With at most `c` logins of a source in
  flight and no success, at most `5 + c - 1` failures are recorded in any half-open minute, and this
  is attained; five a minute holds exactly when logins of a source do not overlap.
* Losing the sessions in memory shows in later stamps exactly when a user's newest stamped row is
  older than the last activity seen of them. That needs a failed append, a failed lookup, an event
  whose metadata cannot carry the stamp, or a resent id with a new time.
* A session id that was left can then come back (`UnsettledStampRecurs`). After a loss no settled run
  repeats a left id exactly when, for every user, none repeats in the log already, rows behind the
  newest-by-time row carry its stamp, and no row is stamped with a session that starts more than the
  gap after that row (twice the gap and a millisecond for that row's own session). The last part is
  about late events, which carry the stamp of a session that starts after them.
* A put can evict its own entry (`TiedPutExample`): an unpinned entry outlives its own put exactly
  when the table fits its budget without the regular rows older than it.
* Pinned bytes exceed their budget in two ways only: the budget is lowered, or a pinned entry is
  replaced by a body for which the other pinned bytes leave no room.
* Canonical audio keys collide exactly when a codec carries a bitrate field of its own.
* Rebuilding the index keeps its two maps inverse exactly when the input ids are distinct.
* The novelty term of the re-ranker is documented as the largest similarity to an admitted track; the
  code floors it at zero. The two agree exactly when some similarity is not negative, and there is a
  pool of three on which the floor changes the order (`FloorChangesOrder`).

## Model

| member | source | states |
|---|---|---|
| Ann.RunRefinesMap | crates/music-recommend/src/ann.rs:233-279 | after any run of upserts, removes and rebuilds the id/key maps are mutual inverses, the index stores exactly the reverse map's keys, all below the counter, and the index behaves as a plain map from ids to vectors |
| Ann.RebuildValidIff | crates/music-recommend/src/ann.rs:530-546 | a rebuild leaves the maps inverse exactly when its ids are distinct |
| Ann.RebuildStep | crates/music-recommend/src/ann.rs:530-546 | a rebuild from distinct ids stores each id with its own vector and nothing else |
| Ann.KeysNeverReused | crates/music-recommend/src/ann.rs:99-101 | between rebuilds a key keeps its track or is dead for good |
| Ann.OpenRestores | crates/music-recommend/src/ann.rs:134-169 | opening what was persisted restores maps, counter and vectors, for any order of the sidecar entries |
| Ann.OpenMeans | crates/music-recommend/src/ann.rs:134-169 | opening fails exactly on a file that is there and does not load; what loads is taken over as it is, the counter starting at one, and what is missing counts as empty |
| Ann.OverFetch | crates/music-recommend/src/ann.rs:399-431 | fetching k plus the exclusion list's length and filtering gives what filtering the full ranking and taking k gives |
| Ann.KeptTotal | crates/music-recommend/src/ann.rs:414-429 | filtering the full ranking leaves one result per stored track that is not excluded, duplicates and unknown ids in the list notwithstanding |
| Ann.KeptIff | crates/music-recommend/src/ann.rs:415-425 | a result is there exactly when a hit resolves to its track, is not excluded, and has the complementary distance |
| Ann.Scan | crates/music-recommend/src/ann.rs:414-429 | the filter loop yields the first k kept hits, in rank order |
| Ann.AnnIndex.Open | crates/music-recommend/src/ann.rs:134-169 | an index file or sidecar that is there and does not load is an error; otherwise the index holds what the files say, absent files counting as empty, and is clean |
| Ann.AnnIndex.Upsert | crates/music-recommend/src/ann.rs:233-263 | a vector of the wrong length changes nothing; otherwise the track moves to a fresh key, the maps stay inverse, and the flag is set |
| Ann.AnnIndex.Remove | crates/music-recommend/src/ann.rs:265-279 | an unknown track changes nothing, not even the flag |
| Ann.AnnIndex.RebuildFrom | crates/music-recommend/src/ann.rs:497-547 | one vector of the wrong length refuses the whole rebuild before anything changes |
| Ann.AnnIndex.QueryExcluding | crates/music-recommend/src/ann.rs:316-432 | the answer is the first k non-excluded entries of the full ranking, min(k, non-excluded tracks) of them |
| Ann.AnnIndex.Persist | crates/music-recommend/src/ann.rs:440-466 | success leaves a complete image of memory on disk and a clean flag; failure leaves the flag, and the files except the one being written |
| Ann.AnnIndex.PersistIfDirty | crates/music-recommend/src/ann.rs:478-491 | reports whether it wrote, and re-arms the flag on failure |
| AnnPersistence.StepKeepsInv | crates/music-recommend/src/ann.rs:244-279 | every step of every thread keeps: files that differ from memory imply a set flag, a mutator yet to set it, or a flusher under way |
| AnnPersistence.RunKeepsInv | crates/music-recommend/src/ann.rs:440-491 | the same after every interleaving from a freshly opened index |
| AnnPersistence.QuiescentIsDurable | crates/music-recommend/src/ann.rs:468-491 | at rest with a clean flag, the files restore exactly what memory holds |
| AnnPersistence.DirectPersistLoses | crates/music-recommend/src/ann.rs:440-466 | a schedule in which an upsert is flushed and a direct persist then breaks off in the index file: it no longer loads, and the flag is clean |
| AnnPersistence.TwoPersistersLose | crates/music-recommend/src/ann.rs:478-491 | a schedule of two flushers in which one breaks off in the index file and re-arms the flag, and the other then clears it |
| AnnPersistence.BenignIff | crates/music-recommend/src/ann.rs:468-477 | no schedule loses an update exactly when saves cannot fail, nothing flushes, or one re-arming flusher is alone |
| EventLog.AppendsFresh | crates/music-recommend/src/events.rs:138-176 | a batch appends exactly the events it flags as new, in order, and keeps one row per (user, client id) |
| EventLog.AllRecorded | crates/music-recommend/src/events.rs:86-93 | afterwards every id of the batch is on record, and an event without an id always landed |
| EventLog.LandsIff | crates/music-recommend/src/events.rs:138-176 | an event is new exactly when it has no client id or no row of the same user has that id |
| EventLog.RunKeepsKeys | crates/music-recommend/src/events.rs:138-176 | over any sequence of batches the log only grows and ids stay unique |
| EventLog.RetryIsNoop | crates/music-recommend/src/events.rs:133-137 | a keyed batch resent after any other traffic changes nothing and flags nothing |
| EventLog.LastIsNewest | crates/music-recommend/src/events.rs:178-194 | the resume lookup finds the user's newest stamped row by time, then row id |
| EventLog.NoneStamped | crates/music-recommend/src/events.rs:178-194 | the lookup is empty exactly when the user has no stamped row |
| EventLog.EventStore.AppendKeyed | crates/music-recommend/src/events.rs:138-176 | the loop appends and flags as the batch specification says |
| EventLog.EventStore.AppendBatch | crates/music-recommend/src/events.rs:121-131 | without client ids every event lands, in order, and is counted |
| ListenSession.SplitsIff | crates/music-gateway/src/listen_session.rs:38-49 | activity opens a new session, named after its start, exactly when it starts more than the gap after the last seen; late events never rewind, and the last activity is the later of the two |
| ListenSession.StartsIncrease | crates/music-gateway/src/listen_session.rs:32-49 | along any activity, each new session starts after everything seen before it, and last activity never moves back |
| ListenSession.ClosedNeverRecurs | crates/music-gateway/src/listen_session.rs:38-49 | the id of a closed session never comes back |
| ListenSession.SessionIdInjective | crates/music-gateway/src/listen_session.rs:45 | sessions with different starts have different ids |
| ListenSession.StampReadsBack | crates/music-gateway/src/listen_session.rs:90-106 | the stamp can be read back exactly from object or absent metadata, overriding any field the client sent, other fields untouched |
| ListenSession.ListenSessions.Stamp | crates/music-gateway/src/listen_session.rs:60-87 | the user's session advances from memory, else from the log, else, if the lookup fails, from nothing; other users' sessions are untouched |
| EventIngest.FoldsLogRows | crates/music-gateway/src/events.rs:157-175 | in any run, with crashes anywhere in the fold loop, failing updates, failing appends and changing durations, the skips folded are rows of the log, each at most once and in log order; if no update is lost, each exactly once |
| EventIngest.FoldedAreSkips | crates/music-gateway/src/events.rs:212-241 | in every run whatever was folded traces to a skip on record: its reported position, the known length of its track in milliseconds, its user, track and time |
| EventIngest.SkipFolds | crates/music-gateway/src/events.rs:210-242 | an event with a whole position in a track of known length leaves exactly one such update if it is a skip, and none otherwise |
| EventIngest.NothingFolds | crates/music-gateway/src/events.rs:214-226 | without a position or a length nothing is folded |
| EventIngest.FoldsOneByOne | crates/music-gateway/src/events.rs:212-241 | a batch folds event by event |
| EventIngest.IntegerMs | crates/music-gateway/src/events.rs:183-205 | whole numbers are read as they are up to the largest i64; negative ones do not count |
| EventIngest.FractionMs | crates/music-gateway/src/events.rs:183-205 | other numbers lose their fraction toward zero and saturate |
| EventIngest.NoMs | crates/music-gateway/src/events.rs:183-205 | anything but a number in an object counts as absent |
| EventIngest.StampedByHeard | crates/music-gateway/src/events.rs:126-147 | each event of a batch is persisted as the client sent it, with one metadata field added: the session open before it if the listening began within the gap, and else one named after that beginning |
| EventIngest.HeardJoins | crates/music-gateway/src/events.rs:130-135 | in numbers, for an event that reports whole milliseconds heard |
| EventIngest.UnheardJoins | crates/music-gateway/src/events.rs:130-135 | and for one that reports nothing readable, which counts from the moment it is sent |
| EventIngest.CapsInAscii | crates/music-gateway/src/events.rs:101-124 | the caps of a batch's fields in numbers |
| EventIngest.CapsCountBytes | crates/music-gateway/src/events.rs:101-124 | they count bytes, not characters |
| RestartSafety.EventSyncIff | crates/music-gateway/src/events.rs:128-146 | memory and log stay in step over an event exactly when it is recorded with its stamp or ended no later than what is on record |
| RestartSafety.RestartVisibleIff | crates/music-gateway/src/listen_session.rs:11-13 | a restart after an event can change the session of a later one exactly when the event was neither recorded with its stamp nor late |
| RestartSafety.StepTrails | crates/music-gateway/src/listen_session.rs:60-87 | whatever fails, what the log records of a user's session is the session in memory or something older, as long as lookups work |
| RestartSafety.LossVisibleIff | crates/music-gateway/src/listen_session.rs:11-13 | from any such state, losing memory can change the session of a later event exactly when the user's newest stamped row is older than the last activity seen |
| RestartSafety.BatchSyncs | crates/music-gateway/src/events.rs:126-147 | after an honest batch, resends included, the newest logged row yields exactly the session in memory, also on a log with unstamped rows from before |
| RestartSafety.RestartsInvisible | crates/music-gateway/src/listen_session.rs:60-87 | if the log is up to date whenever memory is lost, a run with restarts and crashes writes the same log, stamps included, as one without, and would stamp any next event alike |
| RestartSafety.HonestSettles | crates/music-gateway/src/listen_session.rs:11-13 | with object or absent metadata, resent ids at their old time and a log that can be reached, it is up to date whenever memory is lost |
| RestartSafety.StampsNeverRecur | crates/music-gateway/src/listen_session.rs:38-49 | in such runs from an empty server, restarts and crashes included, once a later row of a user carries another stamp the earlier stamp never appears again |
| RestartSafety.UnsettledStampRecurs | crates/music-gateway/src/listen_session.rs:60-87 | a run of four plays and a restart, one play with a number for metadata, in which a stamp comes back |
| RestartSafety.LossHarmlessIff | crates/music-gateway/src/listen_session.rs:60-87 | for any log: after a loss of memory no settled run repeats a stamp that was left exactly when, for every user, the log repeats none, rows behind the newest carry its stamp, and every stamped session starts within the gap after the newest row, or for its own session within twice the gap and a tick |
| OverlapSafety.CommitsCatchUp | crates/music-gateway/src/events.rs:126-155 | with honest clients, whenever a user has no request open the newest row gives the session in memory, however the stamping of requests overlapped and in whatever order they committed |
| EventIngest.Gateway.StampBatch | crates/music-gateway/src/events.rs:126-147 | each event is stamped with the session that its span, heard time included, falls into after the events before it |
| EventIngest.Gateway.FoldSkipAffinity | crates/music-gateway/src/events.rs:210-242 | one update per skip with a known position in a track of known duration, in order, passing over updates that fail |
| EventIngest.Gateway.Submit | crates/music-gateway/src/events.rs:74-181 | guests and malformed batches, by caps in bytes, change nothing; otherwise stamp, append and fold the new events, and report how many were new; a failed append is answered as such and moves only the session in memory |
| AudioCaches.CanonicalInjective | crates/music-cache/src/audio.rs:40-48 | keys with codecs free of '\|' have distinct canonical forms |
| AudioCaches.CollisionIff | crates/music-cache/src/audio.rs:40-48 | a key collides with one of no longer codec exactly when its codec has a bitrate field of its own |
| AudioCaches.EvictsShortestPrefix | crates/music-cache/src/audio.rs:394-434 | eviction removes exactly the shortest prefix of the unpinned rows in (last access, key) order after which the rest fit or one is left |
| AudioCaches.EvictsOldestFirst | crates/music-cache/src/audio.rs:412-416 | of two regular rows eviction takes the one not accessed for longer, the lesser key on a tie |
| AudioCaches.SumsSplit | crates/music-cache/src/audio.rs:400-410 | regular and pinned bytes split the table's bytes, each summing its own kind of rows |
| AudioCaches.EvictionSpares | crates/music-cache/src/audio.rs:394-434 | pinned rows and the newest unpinned row outlive every eviction |
| AudioCaches.LruOrderExists | crates/music-cache/src/audio.rs:412-416 | every table has such an order |
| AudioCaches.SurvivesIff | crates/music-cache/src/audio.rs:394-434 | a row outlives eviction exactly when it is pinned or the table fits its budget without the regular rows older than it |
| AudioCaches.PutSurvivesIff | crates/music-cache/src/audio.rs:203-258 | after a put its row, pin kept, and its body are in the cache under exactly that condition, and otherwise neither is |
| AudioCaches.PutSurvives | crates/music-cache/src/audio.rs:244-247 | in particular when the entry is pinned, or newer than every other regular row |
| AudioCaches.PutCarries | crates/music-cache/src/audio.rs:214-242 | a put row carries the body's size and the time of the put, and is pinned exactly if the entry it replaces was |
| AudioCaches.TiedPutIsEvicted | crates/music-cache/src/audio.rs:244-247 | after two puts of the same moment with no room for both, the lesser key put last, that entry and its file are gone |
| AudioCaches.TiedPutExample | crates/music-cache/src/audio.rs:244-247 | two keys and bodies for which that happens |
| AudioCaches.PutSpares | crates/music-cache/src/audio.rs:203-258 | a put leaves other pinned entries and their files alone and brings in no other row |
| AudioCaches.PinPins | crates/music-cache/src/audio.rs:298-332 | a pin with room pins that entry and changes nothing else, and the entry then outlives any eviction |
| AudioCaches.PinRefused | crates/music-cache/src/audio.rs:298-326 | every other pin changes nothing: unknown exactly when no row has the key, already pinned, or over budget by what is missing |
| AudioCaches.PinnedStaysOn | crates/music-cache/src/audio.rs:298-332 | a pinned entry stays, with its body, in every run that does not put, delete, touch or unpin it |
| AudioCaches.DeleteDeletes | crates/music-cache/src/audio.rs:260-281 | exactly the entry's row and file are gone |
| AudioCaches.TouchTouches | crates/music-cache/src/audio.rs:284-292 | the touched row carries the time, nothing else changes, and touched after all others no eviction takes it |
| AudioCaches.UnpinUnpins | crates/music-cache/src/audio.rs:336-356 | an unpinned entry is an ordinary one: it stays exactly if the table fits without the regular rows older than it |
| AudioCaches.ApplyConsistent | crates/music-cache/src/audio.rs:206-356 | every operation keeps keys unique and the blob directory exactly the rows' files at their recorded sizes |
| AudioCaches.Effects | crates/music-cache/src/audio.rs:157-166 | an operation leaves regular bytes fitting, or one row, exactly unless it sets a budget they do not fit; it leaves pinned bytes within budget exactly unless it sets a smaller budget or puts a pinned body that has no room |
| AudioCaches.PinnedPutIff | crates/music-cache/src/audio.rs:218-230 | a put keeps pinned bytes within budget exactly when, for a pinned key, the other pinned bytes leave room for the new body |
| AudioCaches.RunKeepsCache | crates/music-cache/src/audio.rs:206-434 | the three invariants over every run |
| AudioCaches.AudioCache.EvictLruToFit | crates/music-cache/src/audio.rs:396-434 | the delete loop terminates in the evicted cache and returns its regular bytes |
| AudioCaches.AudioCache.Put | crates/music-cache/src/audio.rs:206-258 | blob, upsert that keeps the pin, eviction; the entry returned is the row put, whether or not it is still there |
| AudioCaches.AudioCache.Delete | crates/music-cache/src/audio.rs:260-281 | row and file go together; reports whether the entry existed |
| AudioCaches.AudioCache.Touch | crates/music-cache/src/audio.rs:284-292 | only the access time of the entry changes; reports whether it matched |
| AudioCaches.AudioCache.Pin | crates/music-cache/src/audio.rs:298-332 | refuses unknown entries and ones that would exceed the pinned budget, naming the excess |
| AudioCaches.AudioCache.Unpin | crates/music-cache/src/audio.rs:336-356 | the entry returns to the regular rows, and room is made |
| Sampling.DrawThenRecover | crates/music-recommend/src/aggregate.rs:124-131 | every choice sequence draws distinct pool elements, and the draw determines the choices |
| Sampling.RecoverThenDraw | crates/music-recommend/src/aggregate.rs:124-131 | every arrangement is drawn by some choice sequence: with the row above, a bijection |
| Sampling.PoolPermuted | crates/music-recommend/src/aggregate.rs:128 | the drawn and the remaining elements together are the pool |
| Sampling.SampleIndices | crates/music-recommend/src/aggregate.rs:117-132 | the array loop computes that draw: min(k, len) distinct indices in range, all of them in order when k is at least len |
| Aggregation.TallyHits | crates/music-recommend/src/aggregate.rs:73-88 | the nested loops compute, for exactly the hit non-excluded tracks, the weighted sum and hit count over positive-weight seeds |
| Aggregation.OneHit | crates/music-recommend/src/aggregate.rs:73-88 | one hit of a seed of positive weight counts once and scores similarity times weight, for its own track |
| Aggregation.SeedConcat | crates/music-recommend/src/aggregate.rs:80-87 | scores and hits add up over the hits of a seed |
| Aggregation.ScoreConcat | crates/music-recommend/src/aggregate.rs:73-88 | and over seeds |
| Aggregation.SeedsWeights | crates/music-recommend/src/aggregate.rs:74 | a missing weight counts as one |
| Aggregation.SortRanks | crates/music-recommend/src/aggregate.rs:97-103 | the sort lists the tally strictly by score, hits, id |
| Aggregation.TopEntries | crates/music-recommend/src/aggregate.rs:89-105 | the answer's entries carry those sums, of hit tracks that are not excluded, top_n of them at most |
| Aggregation.TopDescends | crates/music-recommend/src/aggregate.rs:97-103 | along the answer scores never rise, on equal scores hits never rise, and on equal hits ids do |
| Aggregation.LeftOutScoresLess | crates/music-recommend/src/aggregate.rs:97-105 | a hit, non-excluded track is left out only of a full answer, and scores no better than its last entry |
| Aggregation.OrderIrrelevant | crates/music-recommend/src/aggregate.rs:55-63 | the answer depends neither on map iteration order nor on the order of the seeds |
| Aggregation.NonPositiveIrrelevant | crates/music-recommend/src/aggregate.rs:75-79 | deleting seeds of zero or negative weight changes nothing |
| Aggregation.AggregateSeedResultsWeighted | crates/music-recommend/src/aggregate.rs:64-106 | the answer is the first top_n of the unique ranking; a missing weight counts as one |
| Aggregation.AggregateSeedResults | crates/music-recommend/src/aggregate.rs:44-53 | the unweighted form is the weighted one with every weight one |
| Recommendation.WalkHardCap | crates/music-gateway/src/recommend.rs:2364-2388 | slate and statistics are those of the walk up to the first point where the slate is full, or the end |
| Recommendation.WalkOff | crates/music-gateway/src/recommend.rs:2473-2491 | the first top_n candidates that are not queued, nothing dropped |
| Recommendation.WalkAccounting | crates/music-gateway/src/recommend.rs:1670-1700 | admitted plus dropped is the number of eligible candidates seen, the recorded similarities match, and the slate is an order-preserving subsequence |
| Recommendation.VerdictTruthful | crates/music-gateway/src/recommend.rs:1800-1816 | pool exhausted exactly when the slate is short and is every eligible candidate; starved exactly when it is short and one was turned away |
| Recommendation.WalkTallies | crates/music-gateway/src/recommend.rs:1670-1700 | the walk asks the acceptance rule about the eligible candidates in order, admits the accepted ones, counts each kind of rejection under its own name, and notes the scores of both kinds |
| Recommendation.BlameIsRight | crates/music-gateway/src/recommend.rs:1811-1815 | a short slate is blamed on the rejection that struck more often, artist caps on a tie |
| Mmr.MmrRerank | crates/music-recommend/src/mmr.rs:99-189 | the loop with its running maxima and artist tally picks min(top_n, pool) indices, each the first of the highest score by definition given those before it |
| Mmr.Formula | crates/music-recommend/src/mmr.rs:6-11 | the score in terms of the candidate's similarity, bonus, crowding and how often its artist is represented in queue and slate |
| Mmr.FreshArtistFirst | crates/music-recommend/src/mmr.rs:132-141 | with a positive penalty no candidate is admitted while one remains that is as relevant, no closer to any admitted one, and whose artist is less represented or unknown |
| Mmr.BonusFirst | crates/music-recommend/src/mmr.rs:13-21 | nor while one remains that differs in a larger bonus only, as long as relevance counts |
| Mmr.ClampedRange | crates/music-recommend/src/mmr.rs:87-90 | knobs out of range go to the nearer end, others stay |
| Mmr.CrowdingIsMax | crates/music-recommend/src/mmr.rs:165-176 | the novelty term is the largest similarity to an admitted candidate, floored at zero |
| Mmr.FloorUnseenIff | crates/music-recommend/src/mmr.rs:6-11 | it equals the documented maximum exactly when some similarity to an admitted candidate is not negative |
| Mmr.DocumentedUnlessAverse | crates/music-recommend/src/mmr.rs:6-11 | if that is so at every slot but the first for every remaining candidate, the order is the one the documented formula gives |
| Mmr.FloorChangesOrder | crates/music-recommend/src/mmr.rs:6-11 | a pool on which the formula admits another candidate than the code |
| Mmr.GreedyUnique | crates/music-recommend/src/mmr.rs:53-56 | the result is determined by the input, and fewer slots give a prefix of more |
| Mmr.GreedyDistinct | crates/music-recommend/src/mmr.rs:84-85 | no candidate is picked twice |
| Mmr.PureRelevance | crates/music-recommend/src/mmr.rs:23 | with lambda one and no artist penalty, a pool sorted by relevance keeps its order |
| Recommendation.WalkMmr | crates/music-gateway/src/recommend.rs:2396-2468 | the slate is the filtered walk over the eligible pool in the re-ranker's order, which is asked for twice the slate |
| Recommendation.PreferenceLeads | crates/music-gateway/src/recommend.rs:2421-2433 | of two eligible tracks alike in score, vector and artist the re-ranker places the one with the larger bonus first, as long as relevance counts |
| Recommendation.MmrVerdictTruthful | crates/music-gateway/src/recommend.rs:2396-2468 | although that walk sees part of the pool, exhausted still means that every eligible candidate is in the slate, and starved that one was turned away |
| Recommendation.StagesKeepIds | crates/music-gateway/src/recommend.rs:2345-2359 | leash, exploration and preference carry the same tracks, whatever their numbers are |
| Recommendation.LeashLowers | crates/music-gateway/src/recommend.rs:2552-2563 | penalties are taken off the scores entry by entry, and the best remaining score comes first |
| Recommendation.ExplorationRescores | crates/music-gateway/src/recommend.rs:2572-2592 | the explored scores replace the old ones, best first; a lone candidate stays as it is |
| Recommendation.ExploredLast | crates/music-gateway/src/recommend.rs:909-935 | the candidates' final scores are the explored ones, best first, whatever the leash did |
| Recommendation.PresortOrders | crates/music-gateway/src/recommend.rs:2345-2359 | the preference sort permutes the pool into descending score plus bonus, and without bonuses leaves it alone |
| Recommendation.ApplyAnchorLeash | crates/music-gateway/src/recommend.rs:2552-2563 | in place: penalties subtracted index by index, then re-ranked |
| Recommendation.ApplyExploration | crates/music-gateway/src/recommend.rs:2572-2592 | in place: scores replaced index by index, then re-ranked; fewer than two candidates stay put |
| Recommendation.ExclusionSet | crates/music-gateway/src/recommend.rs:822-865 | exactly seeds, caller exclusions, queued tracks other than the playing one, and suppressed tracks |
| Recommendation.PlayingMayReturn | crates/music-gateway/src/recommend.rs:822-865 | a queued track that nothing else excludes may be recommended exactly if it is the one playing |
| Recommendation.SlateSizes | crates/music-gateway/src/recommend.rs:746-795 | slate size, candidates asked for and request limits in numbers |
| Recommendation.TopAdmissible | crates/music-gateway/src/recommend.rs:902-907 | aggregation yields distinct, non-excluded, hit tracks |
| Recommendation.FromSeeds | crates/music-gateway/src/recommend.rs:746-950 | a bad request is refused; otherwise at most top_n distinct tracks, none excluded, selected from the leashed and explored ranking as each of the three modes says |
| RateLimit.SweepUnobservable | crates/music-gateway/src/ratelimit.rs:128-149 | with a forward clock and windows that never grow, every verdict and retry hint is the one without the sweep |
| RateLimit.GrowingWindowObservable | crates/music-gateway/src/ratelimit.rs:131-133 | for any two window lengths, a run from the empty limiter in which the sweep lets a call in that is refused without it |
| RateLimit.InvisibleIff | crates/music-gateway/src/ratelimit.rs:128-149 | with a forward clock and a given set of window lengths, no verdict of any run shows the sweep exactly when the set has at most one element |
| RateLimit.RetryHintExact | crates/music-gateway/src/ratelimit.rs:144-147 | a refused call fails until the hinted time has passed and succeeds from then on |
| RateLimit.OthersDoNotMatter | crates/music-gateway/src/ratelimit.rs:101-107 | a call is told what it would be told had its own source, at its own endpoint, been the only one to call before |
| RateLimit.WindowBound | crates/music-gateway/src/ratelimit.rs:114-149 | in any half-open interval of one window length a source gets at most 2 max - 1 requests through |
| RateLimit.BoundIsTight | crates/music-gateway/src/ratelimit.rs:139-149 | a trace that attains the bound, for every max and every window of at least two ticks |
| RateLimit.RateLimiter.Check | crates/music-gateway/src/ratelimit.rs:118-150 | sweep, roll over, count: verdict and map as specified |
| LoginLimit.LockoutBound | crates/music-gateway/src/ratelimit.rs:44-72 | with at most c logins in flight, a source without success records at most 5 + c - 1 failures in any half-open minute, whatever other sources do |
| LoginLimit.BoundAttained | crates/music-gateway/src/ratelimit.rs:44-72 | for every c of at least one, a run of interleaved checks and records that attains the bound |
| LoginLimit.LeastBound | crates/music-gateway/src/ratelimit.rs:44-72 | a bound holds for all runs with at most c logins in flight exactly when c is zero or it is at least 5 + c - 1 |
| LoginLimit.FiveIffSerial | crates/music-gateway/src/ratelimit.rs:16-21 | five failures a minute holds for all runs exactly when logins of a source do not overlap |
| LoginLimit.SuccessClears | crates/music-gateway/src/ratelimit.rs:74-78 | a success leaves its source as if it had never failed and lets the next login in at once |
| LoginLimit.SourcesIndependent | crates/music-gateway/src/ratelimit.rs:29-38 | dropping every other source's calls changes neither a source's state nor a decision about it |
| LoginLimit.RemainingExact | crates/music-gateway/src/ratelimit.rs:44-61 | the remaining lockout is exact, and its end clears the count |
| LoginLimit.LoginLimiter.Check | crates/music-gateway/src/ratelimit.rs:48-61 | refuses during a lockout, resets an elapsed one in passing |
| LoginLimit.LoginLimiter.RecordFailure | crates/music-gateway/src/ratelimit.rs:64-72 | counts, and locks at the fifth failure |
| PlayQueues.Run | crates/music-player/src/queue.rs:31-39 | no sequence of operations leaves the cursor outside the queue |
| PlayQueues.CursorMoves | crates/music-player/src/queue.rs:40-178 | where each operation that sets or moves the cursor puts it |
| PlayQueues.ApplyRefines | crates/music-player/src/queue.rs:49-176 | on any queue, repeated tracks included, every operation moves the index to the item that the same operation on an item cursor names, items told apart by when they were queued |
| PlayQueues.ApplyErases | crates/music-player/src/queue.rs:49-176 | the index arithmetic does not depend on what the items are |
| PlayQueues.RunRefines | crates/music-player/src/queue.rs:49-176 | the same over whole runs, for any queue and any operations |
| PlayQueues.RemoveRefines | crates/music-player/src/queue.rs:72-93 | on any queue, removing another item keeps the cursor's item; removing the current one moves to its successor, else the new last item |
| PlayQueues.MoveRefines | crates/music-player/src/queue.rs:144-165 | a move keeps the cursor on its item, duplicates or not |
| PlayQueues.MovePermutes | crates/music-player/src/queue.rs:149-156 | a move permutes the items |
| PlayQueues.MoveBackRestores | crates/music-player/src/queue.rs:149-165 | moving back from the clamped target restores items and cursor |
| PlayQueues.PlayQueue.Remove | crates/music-player/src/queue.rs:79-93 | the object's update is the specified one |
| PlayQueues.PlayQueue.MoveItem | crates/music-player/src/queue.rs:149-165 | the object's update is the specified one |
| PlayQueues.PlayQueue.EnqueueNext | crates/music-player/src/queue.rs:67-70 | items go right behind the cursor, or to the front without one |
| PlayQueues.PlayQueue.Advance | crates/music-player/src/queue.rs:103-114 | next track, or none past the end |
| PlayQueues.PlayQueue.Previous | crates/music-player/src/queue.rs:119-131 | previous track, staying at the first, recovering the last from a finished queue |
| AutoProjection.FiresIff | crates/music-gateway/src/auto_projection.rs:299-317 | the loop fires at a tick exactly when its count has been steady since a change at least the quiet interval back and exceeds the last projected count by the minimum, all told from the ticks |
| AutoProjection.TracksProjected | crates/music-gateway/src/auto_projection.rs:177-178 | the loop's baseline is the count of the last tick at which a recompute was due and succeeded |
| AutoProjection.StateTracksTicks | crates/music-gateway/src/auto_projection.rs:187-190 | the loop's state is the last count read and the time of the last change |
| AutoProjection.SuccessesCostGrowth | crates/music-gateway/src/auto_projection.rs:177-178 | every success uses up the minimum of new rows |
| AutoProjection.ReducesBound | crates/music-gateway/src/auto_projection.rs:11-14 | with counts that never fall, at most (last count read - baseline) / minimum successes |
| AutoProjection.ExactlyOneMore | crates/music-gateway/src/auto_projection.rs:95-193 | once the count is steady with enough new rows and recomputes succeed, exactly one more happens, as soon as the quiet interval has passed |
| AutoProjection.SettlesOnce | crates/music-gateway/src/auto_projection.rs:187-190 | the tick that first reads the settled count only restarts the quiet timer; after it exactly one recompute happens |
| AutoProjection.RunLoop | crates/music-gateway/src/auto_projection.rs:84-193 | the loop computes that state and count of successes |

## Left out

- RestartSafety.RestartsInvisible: requests are handled one at a time; of requests that interleave, `OverlapSafety.CommitsCatchUp` says that they leave the log up to date once all have committed, and a loss of memory while some are open is not modelled.
- LoginLimit.LockoutBound: a call reads the clock and updates the map in one step; in the source the clock is read just before the lock is taken.
- Ann.RunRefinesMap: assumes that usearch calls succeed and that rebuild ids are distinct; failures half-way through a mutation are promised nothing by the source.
- AudioCaches.RunKeepsCache: assumes that each operation runs to its end alone; crashes between a blob operation and its row update, and concurrent operations on one cache, are not modelled.
- Recommendation.FromSeeds: takes the per-seed search results as given; penalties, noise, bonuses, the similarity of two vectors and the filter's acceptance rule are arbitrary.
- Aggregation.OrderIrrelevant: holds over the reals; in `f32` sums depend on the order of addition. The same goes for ties between scores in `Mmr.MmrRerank`.
- Whitening, the HNSW graph, SHA-256, SQLite, the filesystem and HTTP: foreign code or arithmetic outside these components.
- A poisoned lock, and I/O errors other than a file that does not load or a write that breaks off.
- The scrobble endpoint, which stamps and appends one event per call with the same two operations as the event endpoint.
- `received_at`, session counts and the other read-only queries of the event log; `find_by_track`, `list_pinned` and `stats` of the audio cache: plain reads.
- `classify_shortfall`'s JSON recording, the min/max accessors of the filter statistics, provenance logging: single-function claims.
- The projection task's store reads, pruning and version naming: I/O around the decision.
- The player's audio thread, the CLI, the TUI, the web app and configuration: I/O and user interface.
