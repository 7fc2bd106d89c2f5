# A verified model of the stores and protocols of copious-transitions

copious-transitions is a framework for services that handle state-transition requests. This project
models the stateful parts of it in Dafny and proves what they keep over whole runs.

- **The two-tier key-value store** (`key_value_model.dfy`, `key_value_db.dfy`). A table in insertion order,
  one disk file per category, and a queue of keys awaiting removal stand together for one plain map, the
  *view*. The effect of every operation on the view is proved, and a run behaves as a plain map exactly
  when no cull evicts a key that awaits removal. The random draws of a cull do not matter: it evicts the
  entries inserted first, whatever is drawn, and it fails exactly when it is asked for more entries than
  there are.
- **Logging in** (`object_cache.dfy`, `login_model.dfy`, `user_processing.dfy`). A primary request checks the
  password and caches a transition under a token; a secondary request redeems the token. Every stretch of
  code between two awaits is one step, and safety is proved for every interleaving of any number of requests.
- **Transitions in one or two requests** (`transition_model.dfy`, `transition_processing.dfy`). Safety is
  stated over the log of what happened: guard, validation, feasibility, caching, redeeming, finalizing.
- **The local store that ages out to a remote** (`storage_model.dfy`, `files_and_relays.dfy`). Time buckets,
  pruning, retention, and what stays known through eviction and refetching.
- **The session table** (`session_table.dfy`). What the recency list still guarantees in spite of duplicate
  mentions, deletions of first mentions and prefix culls.
- **Uploads in chunks** (`store_path.dfy`, `upload_model.dfy`, `transition_engine.dfy`). Many tokens and files
  interleave; what is stored for a file is what arrived for it, if its descriptor can write, and a stored file is
  overwritten only by a store of the same name, time and extension.
- **Websocket liveness** (`websocket_model.dfy`, `websocket.dfy`). Pings, pongs, suspects and sweeps.
- **Paging of large objects** (`paging_model.dfy`, `static_db.dfy`). Skeletons in memory, full objects in
  files, backups, page-outs and reads.

Each part has a model on values, with the lemmas about its runs, and a class whose methods change their
fields as the program does and are proved to do what the model says. The session table has both in one file.

Where the code and its comments differ the model follows the code. These are the places, each with the
exact condition under which the intended property holds:

- `get` never loads a culled value: it answers nothing for exactly the stored keys that have been culled
  (`KeyValueModel.GetIsViewUnlessCulled`, `KeyValueModel.CulledKeyIsMissed`).
- A key that is deleted and set again stays queued for removal, and a cull then loses it
  (`KeyValueModel.RevivedKeyIsLost`, `KeyValueModel.CullView`, `KeyValueModel.RunRefinesMap`).
- Without a removal interval, shutdown forgets the removal queue
  (`KeyValueModel.ShutdownWithoutInterval`).
- A prune drops an object when any bucket older than the cutoff names its id, whatever its own stamp
  (`StorageModel.PruneDropsIff`), and some buckets are never cleaned: deleting an object leaves its id in its
  bucket, and so does a lookup that comes back from the remote after another one has stored the object. An object
  that was just added or found can then be pruned early (`StorageModel.ReaddedIsPrunedEarly`,
  `StorageModel.LateArrivalIsPrunedEarly`). It is retained for the age limit exactly when no older bucket names it
  (`StorageModel.RunRetainsIff`, `StorageModel.TouchedIsRetainedIff`), and the index is exact in exactly the runs of
  `StorageModel.RunKeepsOneBucketIff` and `StorageModel.RunKeepsIndexedOnceIff`.
- A lookup that comes back after its object has been changed and evicted again puts the old fields back
  (`StorageModel.StaleArrivalReverts`, `StorageModel.EvictionIsInvisibleIff`).
- Pruning without a remote, or an object with a message path of its own, makes eviction visible
  (`StorageModel.PruneInvisibleIff`).
- A secondary login whose user has vanished in the meantime is still answered with OK and the session token;
  the grant then carries no released data (`LoginModel.LoginSafety` covers these grants too).
- A websocket transition is finalized directly after the feasibility test, with no guard or validation before it
  (`TransitionModel.FinalizationSafety` promises no more about it than that).
- Completing an upload returns no identifiers (`TransitionEngine.GeneralTransitionEngine.ChunksComplete`).
- The default `store_data` calls `writeFile` of the file's own descriptor. A descriptor that was posted with a file
  list has none: completing it throws as soon as there is something to store, and nothing is stored by any run of
  such completions (`UploadModel.PlainDescriptorsStoreNothing`). A file is written iff something arrived for it,
  none of that is a string, and the descriptor can write (`UploadModel.StoreWritesWhatArrived`,
  `TransitionEngine.GeneralTransitionEngine.ChunkMover`).
- Two tokens that complete the same name in the same millisecond with the same extension write to one path, and the
  first file is lost (`UploadModel.SameMomentOverwrites`, `UploadModel.SameMomentLosesFirst`); no other store can
  overwrite it (`UploadModel.StoredFileStaysIff`).
- A request with several files brings nothing to an upload that was started without a file list
  (`UploadModel.ManyFilesAreLost`).
- Stashing a large object again while a backup is writing it, and paging it out when that write is done, loses the
  new object (`PagingModel.StashDuringWriteIsLost`, `PagingModel.LatePageOutIff`); stashing it again while it is
  being read back loses it too (`PagingModel.StashDuringReadIsLost`, `PagingModel.LateReadIff`). Paging is
  transparent in exactly the runs where neither happens (`PagingModel.PagingIsTransparentIff`).
- Reading a large object back drops its text, and the next backup fails on it
  (`PagingModel.ReadBackBreaksBackupIff`); `keepsFlat` selects the intended behaviour instead, for which
  `PagingModel.KeptTextsNeverFail` holds. Transparency has the same condition for both. A key longer than 64
  characters is clipped together with the rest of the object (`PagingModel.SkeletonKeepsKeyIff`).

Assumptions about what is outside: tokens, session tokens, request numbers and socket ids are fresh; clocks
do not go backwards; a file or a remote gives back what it was last sent; parsing undoes stringifying; no two
elements of the static store share a file; a descriptor's own `writeFile` writes what it is given where it is
told. The password check, the hash of a password and the match are taken in the default form the code gives
them; guards, validators, feasibility tests, transition objects and fetched elements are arbitrary.

## Model

| member | source | states |
|---|---|---|
| KeyValueModel.BatchEqualsEach | default_storage/key_value_db.js:178-199 | collecting evicted entries into one batch for each category and writing the batches at the end leaves the disk as writing every entry on its own would, in any order |
| KeyValueModel.SetView | default_storage/key_value_db.js:109-111 | setting a key changes the view at that key only, to the new value |
| KeyValueModel.DeleteView | default_storage/key_value_db.js:145-148 | deleting a key removes it from the view and nothing else, although the disk is not touched yet |
| KeyValueModel.TouchView | default_storage/key_value_db.js:155-171 | looking a key up, which may create its category file, leaves the view as it is |
| KeyValueModel.RemoveWhenView | default_storage/key_value_db.js:291-322 | emptying the removal queue leaves the view as it is |
| KeyValueModel.EvictLookup | default_storage/key_value_db.js:177-201 | after an eviction a key is looked up as before, unless it was evicted while awaiting removal or with no disk, and then it is gone |
| KeyValueModel.CullView | default_storage/key_value_db.js:177-201 | a cull adds and alters nothing, keeps every key that does not await removal, and keeps the whole view iff it evicts no key that awaits removal |
| KeyValueModel.SaneNeverOverdraws | default_storage/key_value_db.js:180-187 | no cull of any valid store can be asked for more entries than there are iff the release size is at most the memory bound plus one |
| KeyValueModel.StepView | default_storage/key_value_db.js:109-201 | each operation does to the view what it does to a plain map, a cull iff it loses nothing |
| KeyValueModel.RunRefinesMap | default_storage/key_value_db.js:109-201 | through a whole run the view stays equal to a plain map under the same operations iff no cull of the run evicts a key awaiting removal |
| KeyValueModel.CarefulRunIsPlainMap | default_storage/key_value_db.js:109-201 | a run that never sets a key still awaiting removal behaves as a plain map throughout |
| KeyValueModel.RevivedKeyIsLost | default_storage/key_value_db.js:145-201 | delete, set again, cull: the store no longer has the value |
| KeyValueModel.PlacedByFirstEight | default_storage/key_value_db.js:188-199 | in every reachable state a key lies on disk only in the category that is its first eight characters, or the whole key when it is shorter |
| KeyValueModel.OrderIsByBirth | default_storage/key_value_db.js:109-111 | over every run the table is in insertion order: of two keys in it the one last set while absent earlier stands earlier, whatever is set again, deleted or culled besides |
| KeyValueModel.EveryKeyIsBorn | default_storage/key_value_db.js:109-111 | every key in the table was set while absent at some moment, and has stayed since |
| KeyValueModel.CullSize | default_storage/key_value_db.js:177-201 | a cull takes nothing from a table that fits in memory, exactly releaseSize entries from one that does not, and all when asked to |
| KeyValueModel.CullEvictsEarliest | default_storage/key_value_db.js:177-201 | whatever a partial cull evicts was inserted before whatever it leaves, which keeps its value |
| KeyValueModel.TouchLeavesFile | default_storage/key_value_db.js:155-171 | looking up a key that is neither in the table nor queued leaves a file for its category and no other trace |
| KeyValueModel.SweepErases | default_storage/key_value_db.js:291-322 | sweeping empties the queue and takes from each file exactly the queued keys the file is for |
| KeyValueModel.GetIsViewUnlessCulled | default_storage/key_value_db.js:120-134 | get answers nothing or the value in the view, and misses exactly the culled keys |
| KeyValueModel.CulledKeyIsMissed | default_storage/key_value_db.js:120-134 | a key that is set and then culled is in the view with its value, and get answers nothing for it |
| KeyValueModel.ShutdownPersistsView | default_storage/key_value_db.js:340-349 | with a removal interval shutdown empties table and queue, and a restart on the same disk has the same view |
| KeyValueModel.ShutdownWithoutInterval | default_storage/key_value_db.js:340-349 | without one a restart has the same view iff no queued key outside the table is still on disk |
| KeyValueDB.KeyValueDBDefault.constructor | default_storage/key_value_db.js:20-29 | a new store has an empty table and queue over whatever the disk holds |
| KeyValueDB.KeyValueDBDefault.Set | default_storage/key_value_db.js:109-111 | the new state, with the table kept in insertion order |
| KeyValueDB.KeyValueDBDefault.Delete | default_storage/key_value_db.js:145-148 | the new state: out of the table, queued for removal |
| KeyValueDB.KeyValueDBDefault.Exists | default_storage/key_value_db.js:155-171 | true iff the key is in the view |
| KeyValueDB.KeyValueDBDefault.Get | default_storage/key_value_db.js:120-134 | answers from the table only, and creates at most a category file |
| KeyValueDB.KeyValueDBDefault.LoadDataCategory | default_storage/key_value_db.js:210-220 | the contents of a category, whose file is created when missing |
| KeyValueDB.KeyValueDBDefault.RemoveExistence | default_storage/key_value_db.js:291-303 | erases one key from its category file |
| KeyValueDB.KeyValueDBDefault.RemoveWhen | default_storage/key_value_db.js:317-322 | every queued key is erased from disk and the queue is empty |
| KeyValueDB.KeyValueDBDefault.GetRandomIndex | default_storage/key_value_db.js:329-333 | any index below the limit |
| KeyValueDB.KeyValueDBDefault.WriteDataCategories | default_storage/key_value_db.js:229-235 | every batch replaces its category file, in whatever order they are written |
| KeyValueDB.KeyValueDBDefault.MoveToDisk | default_storage/key_value_db.js:181-199 | for every sequence of draws exactly the entries inserted first are moved to disk and the others keep their order; it fails iff there are fewer entries than that, and then has written none |
| KeyValueDB.KeyValueDBDefault.PersistenceStoreAndCull | default_storage/key_value_db.js:177-201 | the cull as a function of the state alone, independent of the draws, with its exact failure condition |
| KeyValueDB.KeyValueDBDefault.Shutdown | default_storage/key_value_db.js:340-349 | shutdown never fails, and sweeps before it writes everything |
| SessionTable.SetKeeps | default_storage/session_table_no_sharing.js:54-57 | setting a session keeps the list in step with the table |
| SessionTable.DeleteKeeps | default_storage/session_table_no_sharing.js:83-94 | deleting a session, which removes only its first mention, keeps the list in step |
| SessionTable.CutMentionIsStale | default_storage/session_table_no_sharing.js:110-132 | a last mention that a cull cuts off names an expired session |
| SessionTable.CullKeeps | default_storage/session_table_no_sharing.js:110-132 | a timed cull keeps the list in step |
| SessionTable.CullCutsOnlyStaleMentions | default_storage/session_table_no_sharing.js:110-132 | each mention a cull cuts names an expired key, a key no longer in the table, or one mentioned again in what is left |
| SessionTable.CullCutsExactly | default_storage/session_table_no_sharing.js:110-132 | with e the last position whose key is older than the session time, exactly min(e, max(length - allowance, 5)) mentions go from the front |
| SessionTable.SetStores | default_storage/session_table_no_sharing.js:54-57 | setting stores the entry with its time, leaves every other, and adds a mention at the end |
| SessionTable.DeleteRemoves | default_storage/session_table_no_sharing.js:83-94 | deleting a present key removes its entry and no other, and exactly its first mention |
| SessionTable.TableIsLastSet | default_storage/session_table_no_sharing.js:54-132 | after any run a key is in the table iff the last operation on it was a set, with the value and time of that set |
| SessionTable.RunKeeps | default_storage/session_table_no_sharing.js:54-132 | the invariant holds through every run whose clock does not go backwards |
| SessionTable.LiveSessionsAreListed | default_storage/session_table_no_sharing.js:54-132 | in every reachable state a session that has not expired is listed, and its last mention was pushed at its table time |
| SessionTable.OnlyDeleteForgets | default_storage/session_table_no_sharing.js:83-132 | culling never takes a session out of the table |
| SessionTable.SessionKeyValueDBDefault.Set | default_storage/session_table_no_sharing.js:54-57 | the new table and list |
| SessionTable.SessionKeyValueDBDefault.Get | default_storage/session_table_no_sharing.js:66-72 | the entry as stored, or nothing |
| SessionTable.SessionKeyValueDBDefault.Delete | default_storage/session_table_no_sharing.js:83-94 | the new table and list, with only the first mention gone |
| SessionTable.SessionKeyValueDBDefault.LargestExpiredIndex | default_storage/session_table_no_sharing.js:112-123 | the last position that names an expired key, zero if none |
| SessionTable.SessionKeyValueDBDefault.TimedCull | default_storage/session_table_no_sharing.js:110-132 | exactly min(last expired position, max(length - allowance, 5)) mentions go from the front, and the table is untouched |
| ObjectCache.CachedEntry | default_storage/local_object_cache.js:19-29 | what is cached is the entry without its session token, with the object's own entry time when it has one |
| ObjectCache.SweepKeepsYoung | default_storage/local_object_cache.js:42-58 | a sweep keeps exactly the entries without an entry time or no older than the limit, unchanged |
| ObjectCache.LocalTObjectCache.Add | default_storage/local_object_cache.js:19-29 | the entry is cached without its session token and with its entry time |
| ObjectCache.LocalTObjectCache.Fetch | default_storage/local_object_cache.js:32-39 | the entry, which stays cached only if more is to come |
| ObjectCache.LocalTObjectCache.TimeoutTransitionCache | default_storage/local_object_cache.js:42-58 | exactly the entries with an entry time older than the limit go |
| LoginModel.StepKeeps | contractual/user_processing.js:56-137 | every step of every request keeps the protocol's invariant |
| LoginModel.LoginSafety | contractual/user_processing.js:56-137 | in every interleaving a session is granted only for a token made by a login whose posted password equals the stored one and is not empty, for the login action, to a client that showed the token, with that login's session, user and data; no token and no session is granted twice |
| LoginModel.GrantIsTraced | contractual/user_processing.js:56-137 | behind every grant the run holds, in this order, the request that posted the password, the user the database answered with, and the making of the grant's token and session |
| LoginModel.GrantedEarlier | contractual/user_processing.js:119-137 | the login a grant rests on was complete before the granting step, and none of the earlier grants used its token |
| LoginModel.RedeemedOnce | contractual/user_processing.js:119-137 | redeeming spends the token whether or not action and match are right; ever after it is not cached and presenting it changes nothing |
| LoginModel.ReleaseChangesOnlyOwnSession | lib/general_auth.js:384-416 | the release table changes only by putting in a new login's data or taking out a granted session's, and no other entry with it |
| LoginModel.LoginSucceeds | contractual/user_processing.js:56-137 | however other requests interleave, a login with the right password that nobody else redeems and that is not too old is granted its session and its data, which are then no longer held; each of its steps can be taken when its turn comes |
| LoginModel.PasswordIsCompared | lib/general_auth.js:61-129 | a password is accepted iff it equals the stored one and is not empty; then token, session, elements and released data are made, and otherwise nothing is |
| LoginModel.NoPasswordNoCheck | lib/general_auth.js:113-116 | without a user or without both passwords the login ends unchecked |
| LoginModel.PreparedIsCached | contractual/user_processing.js:65-77 | the login is cached under its own token, for its action, without the session token |
| LoginModel.SecondaryComparesIff | contractual/user_processing.js:119-125 | presenting a token spends it, goes on iff the action is the cached one, and is a good match iff the cached match element is shown and not empty |
| LoginModel.MatchGoesOnIff | contractual/user_processing.js:126-130 | after the match a login goes on iff it was good and a session can be unstashed |
| LoginModel.VanishedUserIsGranted | lib/general_auth.js:384-416 | a login whose user is gone is still answered with its session, and its data stays held |
| UserProcessing.UserHandling.BeginPrimary | contractual/user_processing.js:56-59 | a primary request waits for its user |
| UserProcessing.UserHandling.LoginTransition | lib/general_auth.js:113-116 | without a user or without both passwords the login ends |
| UserProcessing.UserHandling.LoginTransitionFields | lib/general_auth.js:85-98 | once the password check passes, token, session token, match and released data are in place |
| UserProcessing.UserHandling.FinishPrimary | contractual/user_processing.js:65-77 | the transition is cached under its token, and the client is not sent the session token |
| UserProcessing.UserHandling.BeginSecondary | contractual/user_processing.js:119-125 | the token is taken from the cache, and the request goes on only for the cached action |
| UserProcessing.UserHandling.ContinueSecondary | contractual/user_processing.js:126-130 | after a good match the session token is unstashed and the user fetched again |
| UserProcessing.UserHandling.InitializeSessionState | lib/general_auth.js:384-416 | the answer carries the session's own token and its released data, which are then deleted |
| UserProcessing.UserHandling.Timeout | default_storage/local_object_cache.js:42-58 | aged logins leave the cache |
| TransitionModel.StepKeeps | contractual/transition_processing.js:93-183 | every step of every request keeps the cache and the log in agreement |
| TransitionModel.FinalizationSafety | contractual/transition_processing.js:93-203 | in every interleaving a secondary finalization directly follows a redemption of its token by a client that showed the cached match element, and uses exactly the name and elements cached under it by a request that passed guard, validation and feasibility in that order, with that entry still cached when it was redeemed; an immediate one passed the same tests, and one over a websocket directly follows its feasibility test |
| TransitionModel.RightMatchIsFinalized | contractual/transition_processing.js:164-183 | the converse, in every reachable state: a client that shows the match element of an entry cached and not closed since has it finalized with its own name and elements |
| TransitionModel.RedeemFinalizesIff | contractual/transition_processing.js:164-183 | a redemption finalizes iff the token is cached with a match element, and that is what was shown, and not empty |
| TransitionModel.EventHasStep | contractual/transition_processing.js:93-203 | every event of every run goes back to a step that bears it out: tests are noted only when the application answered yes |
| TransitionModel.PrimaryGoesOnIff | contractual/transition_processing.js:93-137 | a primary request goes on to each next test, or is finalized, exactly when the application lets it |
| TransitionModel.ElementsAreCachedIff | contractual/transition_processing.js:112-122 | the elements are cached under the object's token and final name iff they arrived and a secondary action is still wanted |
| TransitionModel.WebSocketFinalizesIff | contractual/transition_processing.js:194-203 | a websocket transition is finalized iff it is feasible |
| TransitionModel.SweepDropsOld | default_storage/local_object_cache.js:42-58 | a sweep drops exactly the entries that are too old |
| TransitionModel.CacheIsOpenEntries | default_storage/local_object_cache.js:19-58 | a token is cached iff its last caching has been followed by no redemption without next and no timeout |
| TransitionModel.FinalizedOncePerCaching | contractual/transition_processing.js:164-183 | after any redemption without next, with a right match or not, a finalization of the token other than the one that follows at once has the token cached anew in between |
| TransitionModel.NextKeepsEntry | contractual/transition_processing.js:164-166 | next keeps the entry, its absence removes just that entry |
| TransitionProcessing.TransitionHandling.TransitionHandler | contractual/transition_processing.js:93-95 | a primary request waits for the guard |
| TransitionProcessing.TransitionHandling.AfterGuard | contractual/transition_processing.js:95-101 | a request goes on iff guard and validator let it |
| TransitionProcessing.TransitionHandling.AfterFeasible | contractual/transition_processing.js:101-105 | a request goes on iff it is feasible |
| TransitionProcessing.TransitionHandling.AfterProcess | contractual/transition_processing.js:105-137 | without a secondary action the transition is finalized at once, under its object's token |
| TransitionProcessing.TransitionHandling.AfterElements | contractual/transition_processing.js:112-122 | the stored elements are cached under the final name, unless the fetch failed or called the secondary action off |
| TransitionProcessing.TransitionHandling.SecondaryTransitionHandler | contractual/transition_processing.js:164-183 | finalize_transition is called iff the token was cached and the match is right |
| TransitionProcessing.TransitionHandling.WsTransition | contractual/transition_processing.js:194-203 | finalized iff feasible |
| TransitionProcessing.TransitionHandling.EndpointTransition | contractual/transition_processing.js:220-230 | a message is primary iff it has no token |
| TransitionProcessing.TransitionHandling.Timeout | default_storage/local_object_cache.js:42-58 | aged transitions leave the cache |
| StorageModel.UpdateStores | default_storage/files_and_relays.js:425-436 | an update stores a new object with the present as its stamp, and refuses one whose id is stored |
| StorageModel.SendTells | default_storage/files_and_relays.js:162-169 | sending a stored object puts a copy of it, marked with the operation, under its own path or else the default one, and changes no other entry of the remote |
| StorageModel.SendDetachedTells | default_storage/files_and_relays.js:162-169 | the same for an object that is no longer stored, which changes nothing here |
| StorageModel.ArrivalTells | default_storage/files_and_relays.js:640-672 | an object that arrives is stored and stamped, and the remote is told that it was created; when another was stored meanwhile, that one stays |
| StorageModel.FindStamps | default_storage/files_and_relays.js:371-376 | finding a stored object changes nothing but its stamp |
| StorageModel.DeleteDrops | default_storage/files_and_relays.js:741-746 | deleting drops the object here and, unless told otherwise, its copy on the default path |
| StorageModel.AddKeepsOneBucketIff | default_storage/files_and_relays.js:323-332 | adding an object keeps the index exact iff no other bucket still names its id |
| StorageModel.RunKeepsOneBucketIff | default_storage/files_and_relays.js:310-376 | every stored object is in exactly the bucket of its stamp at every moment of a run iff no object is added while another bucket names its id and no lookup comes back late at another time than the stored stamp |
| StorageModel.RunKeepsOneBucket | default_storage/files_and_relays.js:310-376 | in a run that adds no deleted id again, and in which no lookup comes back late at another time than the stored stamp, every stored object is in exactly one bucket, that of its stamp |
| StorageModel.PruneIsByAge | default_storage/files_and_relays.js:472-487 | pruning keeps exactly the objects stamped at or after the cutoff, sends a copy of every other one, and touches no other remote entry |
| StorageModel.PruneDropsIff | default_storage/files_and_relays.js:472-487 | from any state a prune drops a stored object iff a bucket older than the cutoff names it, whatever its stamp |
| StorageModel.PruneInvisibleIff | default_storage/files_and_relays.js:611-620 | pruning changes what some lookup answers iff it evicts an object that was not sent where lookups ask |
| StorageModel.ReaddedIsPrunedEarly | default_storage/files_and_relays.js:444-450 | add, delete, add again, prune: the object goes before its time |
| StorageModel.LateArrivalIsPrunedEarly | default_storage/files_and_relays.js:656-672 | two lookups that both miss, then a prune within the age limit of the second: the object goes, with nothing deleted |
| StorageModel.RunRetainsIff | default_storage/files_and_relays.js:472-487 | a stored object is safe from every prune up to t plus the age limit, in every run that does not delete it, iff no bucket older than t names it |
| StorageModel.TouchedIsRetainedIff | default_storage/files_and_relays.js:656-672 | adding, finding or bringing back an object secures it for the age limit iff no older bucket names its id, apart from the one the operation takes it out of |
| StorageModel.RunKeepsIndexedOnceIff | default_storage/files_and_relays.js:310-376 | an id is named at every moment by the bucket of its stamp only, or by none when not stored, iff it is never deleted from the store and no lookup of it comes back late at another time |
| StorageModel.StepKnown | default_storage/files_and_relays.js:656-746 | each operation does to the fields lookups answer with what it should (updates of stored ids are refused, lookups and prunes change nothing, only deleting forgets) iff it evicts recoverably and brings nothing out of date |
| StorageModel.EvictionIsInvisibleIff | default_storage/files_and_relays.js:611-746 | through any run of writes, deletions, prunes and lookups an id is answered at every moment with the fields last written iff each prune that drops it has sent it, or finds a copy, where lookups ask, and what arrives or is sent for it while it is away is current |
| StorageModel.StaleArrivalReverts | default_storage/files_and_relays.js:656-672 | a lookup answered before its object was changed and evicted brings the old fields back |
| StorageModel.OnlyDeleteForgetsIff | default_storage/files_and_relays.js:741-746 | a known id that is not deleted stays known at every moment iff each prune that evicts it leaves something where lookups ask |
| StorageModel.DefaultPathsRecover | default_storage/files_and_relays.js:122-169 | with a messenger, and with all objects on the default path, every eviction of every run is recoverable |
| StorageModel.LateArrivalKeepsOneBucketIff | default_storage/files_and_relays.js:656-672 | a lookup that finds its object stored by another in the meantime keeps the index exact iff it ends at the stored stamp |
| FilesAndRelays.LocalStore.AddTStamp | default_storage/files_and_relays.js:310-315 | the id joins the stamp's bucket |
| FilesAndRelays.LocalStore.UpdateStamp | default_storage/files_and_relays.js:342-364 | the id moves from the old stamp's bucket to the new one's |
| FilesAndRelays.LocalStore.ObjectUpdateStamp | default_storage/files_and_relays.js:371-376 | a stored object moves to the present, stamp and bucket |
| FilesAndRelays.LocalStore.AddToStorageMap | default_storage/files_and_relays.js:425-436 | an object is stored and stamped, or refused iff its id is stored |
| FilesAndRelays.LocalStore.RemoteStoreMessage | default_storage/files_and_relays.js:162-169 | a copy goes to the object's own path, and nothing is sent for an id that is not stored |
| FilesAndRelays.LocalStore.RemoteStoreSync | default_storage/files_and_relays.js:611-620 | every given id is sent and dropped, in any order |
| FilesAndRelays.LocalStore.PruneStorageMap | default_storage/files_and_relays.js:472-487 | the prune as a function of state and time, whatever order stamps and ids are visited in |
| FilesAndRelays.LocalStore.ChronoUpdateAll | default_storage/files_and_relays.js:458-465 | from any state the rebuilt index has every object in exactly one bucket |
| FilesAndRelays.LocalStore.FindOne | default_storage/files_and_relays.js:656-660 | up to the await: answers a stored object with its fields and a new stamp, and waits for the remote otherwise |
| FilesAndRelays.LocalStore.FetchArrives | default_storage/files_and_relays.js:640-672 | from the await on: answers the fields that came, and brings the object back, or moves the stamp of the copy when another lookup has stored it |
| FilesAndRelays.LocalStore.Update | default_storage/files_and_relays.js:715-720 | up to the await: stores a new object, refuses a stored one |
| FilesAndRelays.LocalStore.SendUpdate | default_storage/files_and_relays.js:720-724 | from the await on: a copy goes to the object's path, whether or not the object is still stored |
| FilesAndRelays.LocalStore.Delete | default_storage/files_and_relays.js:741-746 | the object goes here and, unless told otherwise, remotely; its bucket entry stays |
| StorePath.ReadUndoesStoreName | lib/general_transition_engine.js:425-431 | name, time and extension are recovered from a stored name whose extension does not contain the mark |
| StorePath.DistinctFilesDistinctPaths | lib/tagged_transitions.js:272-274 | equal paths mean equal name, time and extension |
| StorePath.SameExtensionDistinctPaths | lib/general_transition_engine.js:425-431 | under one extension, whatever it contains, equal paths mean equal name and time |
| StorePath.MarkInExtensionCollides | lib/general_transition_engine.js:425-431 | an extension that contains the mark can make two files meet |
| UploadModel.ManagerIsSession | lib/general_transition_engine.js:300-382 | a token's chunk manager holds exactly what the trace says arrived under the token since its last start |
| UploadModel.StartEmpties | lib/general_transition_engine.js:300-313 | a start gives every name of its list an empty array, or one array when there is no list |
| UploadModel.NamedRequestAdds | lib/general_transition_engine.js:359-375 | a request adds to a listed name its data, or its text if not empty, and nothing else |
| UploadModel.SingleRequestAdds | lib/general_transition_engine.js:352-358 | a request with one file adds its data or text to a single array |
| UploadModel.JoinFailsIff | lib/general_transition_engine.js:165-167 | joining fails iff there is a string among the chunks |
| UploadModel.StoreThrowsIff | lib/general_transition_engine.js:200-282 | completing a file throws iff there is an array for it that holds a string or cannot be written |
| UploadModel.StoreWritesWhatArrived | lib/general_transition_engine.js:200-282 | storing a file writes the bytes that arrived for it, in order, and no other path; it writes iff something arrived, none of it is a string, and the descriptor can write |
| UploadModel.PlainDescriptorsStoreNothing | lib/general_transition_engine.js:200-206 | descriptors without a writeFile of their own never store a file, in any run |
| UploadModel.ManyFilesAreLost | lib/general_transition_engine.js:352-375 | a request with several files, or none, adds nothing to an upload with a single array |
| UploadModel.OtherTokensDoNotMatter | lib/general_transition_engine.js:340-382 | what arrives for a token is the same with all other tokens' operations left out |
| UploadModel.InterleavingDoesNotMatter | lib/general_transition_engine.js:340-382 | two interleavings that agree on a token's own operations deliver the same chunks for it |
| UploadModel.CutFileIsStoredWhole | lib/general_transition_engine.js:414-447 | however a file is cut and its pieces interleave, into one of many arrays or the only one, storing it puts the file itself at its path iff the descriptor can write, and changes nothing else |
| UploadModel.StoredFileStaysIff | lib/general_transition_engine.js:425-431 | a stored file stays as it is all through a run iff every store of the same name, time and extension, under whatever token, writes nothing or the same bytes |
| UploadModel.StoredFileSurvives | lib/general_transition_engine.js:414-447 | files that differ in name, time or extension, stored later under any token, leave a stored file as it is |
| UploadModel.UploadIsKeptWhole | lib/general_transition_engine.js:260-447 | from the first chunk to the end of any run: a file whose pieces arrived in order and was stored by a descriptor that can write is there whole, as long as the same name is not stored at the same time with the same extension |
| UploadModel.SameMomentOverwrites | lib/general_transition_engine.js:425-431 | two tokens that complete one name at one time with one extension share a path, and the second file replaces the first |
| UploadModel.SameMomentLosesFirst | lib/general_transition_engine.js:425-431 | a concrete run of six operations in which that happens |
| TransitionEngine.GeneralTransitionEngine.FilesComingInChunks | lib/general_transition_engine.js:300-313 | a token gets a fresh manager with one empty array, or one for each named file |
| TransitionEngine.GeneralTransitionEngine.UploadChunk | lib/general_transition_engine.js:340-382 | each part reaches the array of its name, with the exact answer for empty requests and unknown tokens |
| TransitionEngine.GeneralTransitionEngine.ChunkMover | lib/general_transition_engine.js:200-282 | writes the joined chunks, and throws iff there is something to store and one chunk is a string or the descriptor has no writeFile |
| TransitionEngine.GeneralTransitionEngine.ChunksComplete | lib/general_transition_engine.js:414-457 | stores the listed files one by one up to the first that throws, throws iff one of them does, and returns no identifiers |
| TransitionEngine.StoredUnder | lib/general_transition_engine.js:425-431 | a file is stored under its directory, its name, "_file_", the time, a dot, and its extension or else "media" |
| WebSocketModel.SilentIffUnanswered | lib/websocket.js:552-576 | a socket's flag is down iff a round pinged it and it has not answered since |
| WebSocketModel.KnownIffConnected | lib/websocket.js:528-538 | a socket has a flag iff it was connected |
| WebSocketModel.GoingIffConnected | lib/websocket.js:528-595 | a session is going iff it was connected and has not been closed or swept since |
| WebSocketModel.SuspectIffOverdue | lib/websocket.js:641-651 | the suspects are exactly the sockets with an unanswered ping and a full later round since, no sweep having come |
| WebSocketModel.SuspectsAreSilent | lib/websocket.js:641-662 | in every run every suspect is silent |
| WebSocketModel.PromptClientIsNeverSwept | lib/websocket.js:656-662 | a client that answers each ping before the next round is never suspected and never closed by a sweep |
| WebSocketModel.SweepClosesTheOverdue | lib/websocket.js:656-662 | a sweep closes exactly the sockets overdue when it begins |
| WebSocketModel.ClosedIffSwept | lib/websocket.js:656-662 | a socket has been closed by a sweep iff it was a suspect when one began |
| WebSockets.WebSocketManager.AddWsSession | lib/websocket.js:528-538 | a new socket is alive and going |
| WebSockets.WebSocketManager.Ponged | lib/websocket.js:571-576 | the socket is alive and no suspect |
| WebSockets.WebSocketManager.CloseWssSession | lib/websocket.js:584-595 | the session is no longer going |
| WebSockets.WebSocketManager.DoPings | lib/websocket.js:641-649 | every going session is pinged or suspected, in any order, and no other socket is touched |
| WebSockets.WebSocketManager.CloseSuspects | lib/websocket.js:656-662 | every suspect is closed and no other |
| PagingModel.ClipTwiceIsClip | default_storage/static_db.js:71-78 | clipping a skeleton again changes nothing |
| PagingModel.PagingIsTransparentIff | default_storage/static_db.js:244-356 | in every run of stashes, writes, page-outs, reads and clears an element stands for the object last stashed at every moment iff each page-out drops only what is in the file and each read ends while the element still stands for what was read |
| PagingModel.PagedObjectComesBack | default_storage/static_db.js:346-356 | after every such run an object asked for by its skeleton comes back with every field last stashed, as the run's operations say, and no other but its identity fields |
| PagingModel.StashedIsTrace | default_storage/static_db.js:276-381 | what counts as last stashed is what the operations say, and exactly those keys have an element |
| PagingModel.CreatedObject | default_storage/static_db.js:289-307 | an object just stashed comes back with its fields and the identity fields it lacked, and no other |
| PagingModel.SkeletonIs | default_storage/static_db.js:71-78 | the skeleton has every field, with texts of more than 64 characters replaced by their name, and the new key |
| PagingModel.KeysAreApart | default_storage/static_db.js:538-541 | a text is its own name in the table, and different numbers have different names |
| PagingModel.StashDuringWriteIsLost | default_storage/static_db.js:247-260 | stash, write, stash again, page out: the object stashed first comes back |
| PagingModel.StashDuringReadIsLost | default_storage/static_db.js:321-332 | page out, start to read, stash again, end the read: the object read overwrites the one stashed |
| PagingModel.SkeletonKeepsKeyIff | default_storage/static_db.js:71-78 | a skeleton still names its element iff its key is a number or has at most 64 characters |
| PagingModel.LatePageOutIff | default_storage/static_db.js:244-263 | paging out after a write keeps the object whole iff what is dropped from memory is what is in the file |
| PagingModel.LateReadIff | default_storage/static_db.js:321-332 | ending a read keeps the object whole iff what was read is still what the element stands for |
| PagingModel.ReadBackBreaksBackupIff | default_storage/static_db.js:321-332 | after reading back, the next backup of the element fails iff reading does not keep the text |
| PagingModel.KeptTextsNeverFail | default_storage/static_db.js:244-332 | if reading kept the text no backup of any run whatever would fail |
| StaticDB.LocalStaticDB.ApplicationStashLargeData | default_storage/static_db.js:276-308 | small objects are left alone, large ones get or update an element under a key that is text or a number, and the caller keeps the skeleton |
| StaticDB.LocalStaticDB.BackupElement | default_storage/static_db.js:247-252 | the element's text goes to its file, and the write throws iff there is none |
| StaticDB.LocalStaticDB.BackupElementDone | default_storage/static_db.js:253-260 | the full object is dropped from memory or not |
| StaticDB.LocalStaticDB.LoadObjectPmse | default_storage/static_db.js:323-332 | from the await on: what was read replaces what the element has by now, and is answered |
| StaticDB.LocalStaticDB.ApplicationLargeDataFromStash | default_storage/static_db.js:321-356 | up to the await: answers an object in memory under the skeleton's key, or the object itself, and starts to read one that is paged out |
| StaticDB.LocalStaticDB.ApplicationClearLargeData | default_storage/static_db.js:371-381 | the element goes, its file stays |

## Left out

- KeyValueDB.KeyValueDBDefault.PersistenceStoreAndCull: taken as one step; other operations during its awaits are not modelled, nor the possibility that the file cache hands out its own object instead of a copy.
- KeyValueDB.KeyValueDBDefault.Exists: keys that are names of built-in object members (such as `toString`), which `in` finds in every object.
- KeyValueDB.KeyValueDBDefault.MoveToDisk: keys whose first eight characters are such a name (`valueOf`, or any key that begins with `toString`): the batches are kept in a plain object, which seems to have a batch for them already, and a cull loses them. The results about culls and runs are about all other keys.
- FilesAndRelays.LocalStore.FetchArrives: what the remote answers is any object; that it is one the remote once held is not used.
- FilesAndRelays.LocalStore.Update: objects are values here, so a caller that goes on changing its own reference appears as the separate operation Mutate; ids that the program makes itself come in as arguments.
- StaticDB.LocalStaticDB.LoadObjectPmse: page-out is a free choice, because the memory counter that governs it is never increased; a caller that changes an answered object in place without stashing it.
- StaticDB.LocalStaticDB.BackupElement: a read during a write sees the new text, not a file half written; elements are values in the table, so an element that was replaced during its write or read is simply no longer tracked; the table of owners and the hash and id makers come in as arguments.
- TransitionEngine.GeneralTransitionEngine.ChunksComplete: files are completed in one go in the class; in UploadModel each store is an operation of its own that others may come between.
- UserProcessing.UserHandling.BeginPrimary: only login; logout, registration and forgotten passwords cache nothing, since their transition objects are assumed to have no secondary action, and the deprecated foreign authorization is not modelled.
- UserProcessing.UserHandling.InitializeSessionState: marking the user as logged in and entering the session into the token store happen in the database and the session_tokens package, which are not part of this model.
- TransitionProcessing.TransitionHandling.SecondaryTransitionHandler: a match that an application overrides asynchronously, and an application that changes cached elements in place while next keeps them.
- StaticDB.LocalStaticDB.ApplicationStashLargeData: field values that are neither text nor numbers, and an owner field that is present but empty, which the program overwrites.
- Request bodies that carry the chunk manager's own field names, file lists with several descriptors of the same name or entries that are not objects, names of built-in object members as file names, and file names or extensions with path separators, for which different paths can be one file.
- An application's own `store_data`, `alt_store` or `app_pack_data`: the storing results are about the default ones.
- WebSocketModel sweeps at any time; the program schedules a single sweep after the first connection, before any round could have suspected a client.
- HTTP routing, adapters, cookies, middleware and configuration: input and output plumbing.
- lib/general_db.js and lib/general_link_manager.js: delegation to the stores modelled here.
- The override of pruning in the static store, which sends old objects without dropping them: it would add only easy members.
- Key search by another field (`search_one`), subscriptions and publishing: messages to a relay that is not part of this model.
- The shutdown of the session table, which calls a method that its class does not have.
- Field validators, mail, captcha, foreign authorization and the default modules: thin or provider-specific.
