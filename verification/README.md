# Proxy pool: what the bans, the store, the selection and the relay guarantee

A Dafny model of the stateful core of the proxy pool.

- **Ban registry** (`internal/chanpolicy`). A state machine over pairs of channel and proxy address: a ring of six slices
  and a failure streak as evidence, an escalating ladder of bans, probation, allowlist, custom rules, two ceilings with
  eviction, a sweeper, and a table of persisted bans with restore. `Window`, `Policies` and `BanLadder` hold the parts,
  `RegistryModel` one step of the whole on values, `Registry` the class whose methods change the maps in place and are
  proved against that step. `WindowHistory`, `RecordHistory`, `Recency` and `LadderHistory` say what the stored evidence,
  stamps and strikes mean in terms of the run; `Allowlist`, `Caps`, `SweepTargets`, `SweepEquivalence`, `SweepRuns`,
  `LadderRuns`, `Probation`, `Mirror`, `Restart` and `Lives` prove what every run keeps, over any number of restarts;
  `SweepLimits`, `LadderLimits` and `RestartLimits` give the histories (told with `Solo`) that mark where those results end.
- **Proxy store** (`internal/freproxies`). Addresses are untested, working or retrying. `PoolModel` gives the operations on
  values, `MemoryStore` and `RedisStore` the two backends, `Snapshots` the lossy table, `Submission` the accounting,
  `Batches` the order of validation, `TwoStrikes` the life of one address, `Ages` whom eviction lets go.
- **Selection**. `Candidates` from the filters down the ladder of relaxations, `Sampling` (weighted, two choices),
  `Shuffling`, `RoundRobin` and `Fairness`, and `Picking` for one pick from end to end.
- **Relay**. `Throttle` is the token bucket, `ViaPool` the pool of warm connections as a linear resource.

Conventions. Each method that holds the lock is one atomic step. Instants are nanoseconds since Go's zero time, so 0 is
the unset time, and clock readings do not precede the Unix epoch. Map iteration order and every choice among equals are
left open and proved irrelevant or bounded. Random draws, the clock, dialling results, answers of the store and of the
hot cache, and the country, blacklist and disabled-source checks are parameters. Scores, weights, rates and tokens are
real numbers. Addresses and channel names are opaque, non-empty and already normalized. Ban reasons are values of a
datatype instead of text, and the kind of a custom rule is parsed once.

Where the code does something other than its documentation or a natural reading suggests, the model follows the code:

- A sweep can be noticed at its own instant, and later if someone lifts an expired ban by hand in between
  (`SweepLimits.SameInstantIsObservable`, `SweepLimits.UnbanOfExpiredIsObservable`). `SweepRuns.SweepIsUnobservable` therefore
  spaces the steps and lets Unban be used only where it is safe (`SweepEquivalence.UnbanKeepsAllTwinsAlikeIff`).
- A restart restores under the shipped policy, before the configured one is applied (`internal/app/app.go:139-158` and
  `213`). If the running bans do not fit under
  its ceilings, restoring evicts running bans and deletes their rows (`Restart.AllBansAreKeptIffTheyFit`,
  `RestartLimits.OverfullRestartLosesABan`).
- The TTL doubles in 64 bits before it is compared with the maximum, and the maximum is not bounded
  (`BanLadder.LadderKeepsPromiseIffItFits`).
- The configured maximum of 1800 s cannot be reached by the ladder alone (`LadderRuns.ShippedMaximumIsOutOfReach`).
- The ladder starts over after a pause since the last ban, whatever failed in between; the comment at
  `internal/chanpolicy/policy.go:135-137` speaks of the last failure (`LadderHistory.BanLengthRefinesHistory`).
- The TTL of a custom rule is not capped by the maximum (`RegistryFacts.RuleBansLastAsWritten`), so the results about whole ladders ask for runs without custom rules.
- A global allow lifts bans but leaves their rows, and restoring does not look at the allowlist
  (`Lives.GlobalAllowDoesNotSurviveRestart`). A success that ends probation before the TTL leaves its row as well.
- `SubmitRaw` counts its own listeners as blocked and then overwrites that count, and "duplicates" also holds what the
  store refused for other reasons.

## Model

| member | source | states |
|---|---|---|
| `Window.Counters.Slot` | `internal/chanpolicy/window.go:38-44` | A slot that carries another slice number is emptied and relabelled; one that carries this number is left alone; no other slot changes |
| `Window.Counters.Record` | `internal/chanpolicy/window.go:48-68` | The ring after an outcome: one more success or failure (and timeout) in its own slot, a success or a stale gap ends the streak before it is counted, both time stamps follow the outcome |
| `Window.Counters.SumWindow` | `internal/chanpolicy/window.go:71-84` | The loop over the six slots returns exactly the evidence of the last six slices, newest slice included, whatever order the slots stand in |
| `Window.Counters.CurrentStreak` | `internal/chanpolicy/window.go:88-96` | The stored streak, or zero once the last outcome is older than the window |
| `Window.Counters.Empty` | `internal/chanpolicy/window.go:100-103` | True exactly if no success and no failure is counted in the last six slices |
| `Window.SlotOrderDoesNotMatter` | `internal/chanpolicy/window.go:71-84` | Adding the six slots in array order gives the sum over the last six slices, wherever the ring has wrapped |
| `Window.RecordedSlices` | `internal/chanpolicy/window.go:38-68` | Recording adds one to one kind of one slice, keeps the other slices of the window and can only empty older ones |
| `WindowHistory.SumCountsLog` | `internal/chanpolicy/window.go:71-84` | For any log in time order, the window sum of every kind is the number of logged outcomes whose slice is one of the last six |
| `WindowHistory.WindowCoversByAge` | `internal/chanpolicy/window.go:29-34` | Every outcome at most five slice lengths old is inside the window, none that is six slice lengths old or older is |
| `WindowHistory.WindowCountsByAge` | `internal/chanpolicy/window.go:71-84` | The count of the window takes in every outcome up to five slice lengths old and none as old as six |
| `WindowHistory.RunLengthIsLongestRun` | `internal/chanpolicy/window.go:48-68` | The streak that is kept step by step is the longest trailing run of failures without a gap above the window, and no longer run exists |
| `WindowHistory.ConsecutiveIsLongestRun` | `internal/chanpolicy/window.go:88-96` | The reported streak is at least k exactly if the last k outcomes are such a run and the last of them is still recent |
| `WindowHistory.RingRefinesLog` | `internal/chanpolicy/window.go:29-96` | The ring fed with any log answers sums and streak as if the whole log had been kept |
| `WindowHistory.RecordedRepresents` | `internal/chanpolicy/window.go:48-68` | A ring that stands for a log stands, after one more outcome, for the longer log |
| `Policies.NormalizeRepairs` | `internal/chanpolicy/policy.go:73-119` | Normalize makes every policy usable (window, thresholds, rate, TTLs and ceilings in range, maximum not below the base) and leaves a usable one as it is |
| `Policies.NormalizeIsFieldwise` | `internal/chanpolicy/policy.go:73-119` | Field by field: a value in range stays whatever the other fields hold; any other becomes the shipped number or the bound it has overstepped |
| `Policies.ContainsIsOccurrence` | `internal/chanpolicy/registry.go:241-248` | The text test behind time-outs and error rules holds exactly if some position of the text starts the needle |
| `Policies.FindRule` | `internal/chanpolicy/registry.go:281-292` | The loop over the custom rules returns the first enabled rule that applies to the channel and matches, and none only if none does |
| `Policies.DecideIsFirstCondition` | `internal/chanpolicy/registry.go:260-325` | A ban is decided exactly if some condition (status, streak, timeouts, failure rate, custom rules in their order) holds, and the reason and rule are those of the first that holds |
| `BanLadder.ComputeBanTTL` | `internal/chanpolicy/registry.go:329-339` | The doubling loop on wrapped 64-bit durations computes the TTL the other lemmas are about |
| `BanLadder.LadderKeepsPromiseIffItFits` | `internal/chanpolicy/registry.go:329-339` | The TTL is min(base·2^strikes, max) for every number of strikes if and only if the first rung at or above the maximum fits in a 64-bit duration |
| `BanLadder.LadderClimbs` | `internal/chanpolicy/registry.go:329-339` | Where the ladder fits: TTLs are positive, never fall, at most double per strike, start at the base and stay within the maximum |
| `BanLadder.LargeMaximumOverflows` | `internal/chanpolicy/registry.go:329-339` | A normalized policy for which the third strike gives a negative TTL |
| `Registries.Registry.constructor` | `internal/chanpolicy/registry.go:100-116` | An empty registry under the normalized policy |
| `Registries.Registry.Record` | `internal/chanpolicy/registry.go:177-236` | The new channels, allows, rules and rows, and the returned ban, are those of one atomic step of the model, for some legal choice of what was evicted |
| `Registries.Registry.Evaluate` | `internal/chanpolicy/registry.go:252-293` | No verdict for an allowed or already banned pair; otherwise one exactly if a condition holds, with the reason and rule of the first |
| `Registries.Registry.Judge` | `internal/chanpolicy/registry.go:294-325` | The entry after a verdict, with expiry, strikes, start of the ban and probation set, and the ban that is reported; without a verdict neither |
| `Registries.Registry.ChannelLocked` | `internal/chanpolicy/registry.go:343-353` | The channel is tracked afterwards; a full registry gives up one victim, chosen by the eviction rule, and its rows |
| `Registries.ChooseChannel` | `internal/chanpolicy/registry.go:358-383` | The search over the channels yields a least recently seen one without bans, and one with bans only if all hold bans |
| `Registries.Registry.EntryLocked` | `internal/chanpolicy/registry.go:387-397` | The pair has an entry afterwards; a full channel gives up one victim and its row |
| `Registries.ChooseEntry` | `internal/chanpolicy/registry.go:399-424` | The search over the entries yields a least recently seen one that is not banned, and a banned one only if all are |
| `Registries.ActiveBans` | `internal/chanpolicy/registry.go:426-434` | The loop returns the number of entries that are banned now |
| `Registries.Registry.BannedNow` | `internal/chanpolicy/registry.go:438-456` | True exactly if the policy is on and the pair has an entry that is banned |
| `Registries.Registry.BanSet` | `internal/chanpolicy/registry.go:462-486` | An address is in the result exactly if Banned would say so, with its expiry |
| `Registries.Registry.SetPolicy` | `internal/chanpolicy/registry.go:131-144` | The normalized policy; another window length empties every ring and streak and touches no ban |
| `Registries.Registry.Unban` | `internal/chanpolicy/registry.go:560-588` | Lifts the ban of one pair, clears its evidence and deletes its row, exactly if there was something to lift |
| `Registries.Registry.ResetChannel` | `internal/chanpolicy/registry.go:591-606` | All entries and rows of one channel go, nothing else |
| `Registries.Registry.DeleteChannel` | `internal/chanpolicy/registry.go:609-621` | The channel and its rows go, nothing else |
| `Registries.Registry.SweepNow` | `internal/chanpolicy/registry.go:626-652` | Over any order of channels and entries, exactly the sweepable entries, the channels left empty and the matching rows are removed |
| `Registries.Registry.Allow` | `internal/chanpolicy/registry.go:724-761` | The allow is stored and the ban and probation (not the evidence) of the pair are lifted on its channel, or of the address on every channel; only the row under the given channel is deleted |
| `Registries.Registry.Deny` | `internal/chanpolicy/registry.go:763-777` | The allow is removed; the answer says whether there was one |
| `Registries.Registry.Restore` | `internal/chanpolicy/store.go:139-164` | Every unexpired ban of the list is put back with expiry, strikes, start and reason, evicting where there is no room; expired or malformed ones are skipped; the count is that of the bans put back |
| `Registries.Registry.RestoreAllows` | `internal/chanpolicy/registry.go:806-823` | A pair is allowed afterwards exactly if it was or is listed with an address; nothing else changes, no ban is lifted |
| `Registries.Registry.RestoreRules` | `internal/chanpolicy/registry.go:894-898` | The stored rules replace the current ones |
| `Registries.SqlStore.SaveBan` | `internal/chanpolicy/store.go:61-79` | The row of the pair is inserted or overwritten, no other row changes |
| `Registries.SqlStore.DeleteBan` | `internal/chanpolicy/store.go:81-91` | Exactly the row of the pair goes |
| `Registries.SqlStore.DeleteChannel` | `internal/chanpolicy/store.go:93-103` | Exactly the rows of the channel go |
| `Registries.SqlStore.LoadBans` | `internal/chanpolicy/store.go:107-135` | Deletes the expired rows and lists every remaining row once |
| `RegistryFacts.FindAfter` | `internal/chanpolicy/registry.go:177-652` | What any step makes of any pair, as a function of that pair alone and of the settings |
| `RegistryFacts.RecordEffect` | `internal/chanpolicy/registry.go:177-236` | A Record changes its own pair as judged, removes what it evicts and leaves every other pair as it was |
| `RegistryFacts.BanIsEntrys` | `internal/chanpolicy/registry.go:312-325` | A reported ban is for the recorded pair and carries the expiry, strikes and start that its entry now has |
| `RegistryFacts.RuleBansLastAsWritten` | `internal/chanpolicy/registry.go:300-325` | A ban by a custom rule is by a rule in force and ends exactly as many seconds after its start as the rule says, above the maximum of the ladder included; without a TTL of its own it lasts the base length |
| `RegistryFacts.StepKeepsWellFormed` | `internal/chanpolicy/registry.go:177-777` | Every step keeps the policy normalized and the empty name out of the maps |
| `RecordHistory.RunIsFaithful` | `internal/chanpolicy/registry.go:177-236` | In every run, the counters of each pair stand for its own outcomes since it was created or last cleared |
| `RecordHistory.RecordRefinesHistory` | `internal/chanpolicy/registry.go:165-325` | In every run from a new registry, Record returns a ban exactly if the policy is on, the pair is neither allowed nor already out, and its own history meets some condition; the reason is that of the first one. The evidence counts every outcome up to 5·(window/6) seconds old, none of max(window, 6) seconds or more, and the streak is the longest trailing run of failures with no gap above the window |
| `RecordHistory.TimeoutsBan` | `internal/chanpolicy/registry.go:165-271` | In every run, with a time-out limit set: that many time-outs within five sixths of the configured window ban a pair that is not out or allowed, and a ban for time-outs means that many within the window |
| `Recency.ChannelStampIsLastRecord` | `internal/chanpolicy/registry.go:196` | In every run from a new registry the stamp of a channel is the time of the last outcome filed on it, read off the steps of the run |
| `Recency.EntryStampIsLastRecord` | `internal/chanpolicy/registry.go:197` | And the stamp of an entry is the time of the last outcome of its pair |
| `Recency.EvictedChannelIsStalest` | `internal/chanpolicy/registry.go:343-383` | A full registry that hears of a new channel drops exactly one: holding bans only if all channels do, and among those alike in this the one whose own last outcome in the run is oldest |
| `Recency.EvictedEntryIsStalest` | `internal/chanpolicy/registry.go:387-424` | The same for the entries of a full channel |
| `Allowlist.StepKeepsProtection` | `internal/chanpolicy/registry.go:252-259` | No step of any kind leaves an allowed pair banned or on probation |
| `Allowlist.AllowlistIsAbsolute` | `internal/chanpolicy/registry.go:706-777` | In every run from a new registry, an allowed pair is not banned at any time and no Record bans it |
| `Caps.StepKeepsCaps` | `internal/chanpolicy/registry.go:343-424` | Every step but a policy change keeps both ceilings |
| `Caps.RunFromNewKeepsCaps` | `internal/chanpolicy/registry.go:343-424` | Under one policy every run stays within both ceilings |
| `Caps.RecordIsIsolated` | `internal/chanpolicy/registry.go:343-424` | Record leaves every other pair alone except one it evicts; an evicted one is a legal victim, and a banned one only if all candidates were banned |
| `SweepEquivalence.SweptIsFresh` | `internal/chanpolicy/registry.go:626-652` | From the next instant on, a sweepable entry is indistinguishable from a new one |
| `SweepEquivalence.SweptIsFreshAtOnceIff` | `internal/chanpolicy/registry.go:626-652` | At the instant of the sweep itself the two agree exactly if the ladder is over by then |
| `SweepLimits.SameInstantIsObservable` | `internal/chanpolicy/registry.go:626-652` | A history from a new registry (a ban; ten minutes later, at one instant, a sweep and a second ban) in which the sweep changes the length of that ban |
| `SweepEquivalence.JudgedEntriesAlike` | `internal/chanpolicy/registry.go:177-339` | Two indistinguishable entries are judged the same by any outcome and stay indistinguishable |
| `SweepEquivalence.UnbanOfExpiredKeepsAlikeIff` | `internal/chanpolicy/registry.go:560-588` | Exactly when Unban of an expired ban keeps an entry alike to a twin without one |
| `SweepEquivalence.UnbanKeepsAllTwinsAlikeIff` | `internal/chanpolicy/registry.go:560-588` | Unban keeps an entry alike to every twin a sweep can have left exactly if there is nothing to clear, the pair is out, or its streak is over |
| `SweepLimits.UnbanOfExpiredIsObservable` | `internal/chanpolicy/registry.go:560-588` | A spaced history from a new registry (ban, sweep, two failures, Unban, failure) in which the last failure bans only if the pair had been swept |
| `SweepRuns.SweptRunIsComparable` | `internal/chanpolicy/registry.go:626-652` | A run with sweeps and the same run without them are both legal, end in indistinguishable registries and answer alike |
| `SweepRuns.SweepIsUnobservable` | `internal/chanpolicy/registry.go:626-652` | Sweeping at any instants changes no answer of Record, Banned or BanSet at any strictly later instant, if Unban is used only where it is safe |
| `SweepRuns.RunFromNewIsSound` | `internal/chanpolicy/registry.go:100-116` | Every entry that any run from a new registry reaches is sound: no evidence from the future, time stamps in order |
| `SweepRuns.RunFromNewIsReady` | `internal/chanpolicy/registry.go:100-116` | Under one policy every such registry meets all that the sweep theorem asks of its starting point |
| `SweepTargets.SweepTakesTheQuiet` | `internal/chanpolicy/registry.go:626-645` | In every run from a new registry a sweep takes a pair exactly if it is not out and its last outcome in the run is at least ten minutes and two windows old; that its window is empty follows |
| `SweepTargets.SweepTakesEmptyChannels` | `internal/chanpolicy/registry.go:646-652` | It takes a channel exactly if no pair of it is left and nothing was heard on it for longer than that |
| `Probation.BanLasts` | `internal/chanpolicy/registry.go:438-456` | Through any steps that neither lift the ban nor forget the pair, the pair is out exactly until the ban ends, or on probation for as long as nothing works; a success does not shorten a ban without probation, and no later policy changes which of the two it is |
| `Probation.SuccessEndsProbation` | `internal/chanpolicy/registry.go:199-203` | On probation a success puts the pair back unless that outcome is itself banned |
| `LadderRuns.SuccessiveBansLieApart` | `internal/chanpolicy/registry.go:312-339` | In every run that does not release the pair early its bans never overlap and each lasts a rung of the ladder, at most max(base, 2·idle reset); other pairs may be released |
| `LadderRuns.ShippedMaximumIsOutOfReach` | `internal/chanpolicy/policy.go:51-68` | With the shipped numbers no such ban is longer than 960 s, although 1800 s are configured |
| `LadderHistory.RunSumsUp` | `internal/chanpolicy/registry.go:300-325` | In every run under one policy, the strikes and the stamp of an entry are a function of the times of its own bans |
| `LadderHistory.BanLengthRefinesHistory` | `internal/chanpolicy/registry.go:300-339` | The next ban of a pair counts its earlier bans back to the last pause of more than max(ten minutes, two windows), and unless a custom rule gives it, it lasts min(base·2^count, maximum), where the ladder fits |
| `LadderLimits.EarlyReleaseClimbs` | `internal/chanpolicy/registry.go:560-588` | A history from a new registry: after k rounds of a 403 and an Unban, the next 403 bans for the k-th rung |
| `LadderLimits.EarlyReleaseReachesMaximum` | `internal/chanpolicy/registry.go:560-588` | With the shipped numbers five such rounds lead to a ban of 1800 s |
| `Mirror.StepKeepsMirrorIff` | `internal/chanpolicy/registry.go:227-234` | A step keeps the unexpired rows equal to the running bans exactly if it is neither a global allow over a running ban nor a success that ends probation early |
| `Lives.TableMirrorsBans` | `internal/chanpolicy/store.go:61-164` | Through any operations and any number of restarts, the unexpired rows are the running bans, if no step is one of those two and the running bans fit at each restart |
| `Restart.AllBansAreKeptIffTheyFit` | `internal/chanpolicy/store.go:139-164` | Whatever policy restores: every running ban survives the restart if and only if the channels with running bans, and the running bans of each, fit under its ceilings |
| `Restart.RestartKeepsRunningBans` | `internal/chanpolicy/store.go:107-164` | Load, restore under one policy, then apply another: exactly the running bans are in force at every later instant, with the same expiry, strikes, start and reason, and no row is lost |
| `Restart.BootKeepsMirror` | `internal/chanpolicy/store.go:107-164` | The table mirrors the bans of the restored registry, so the next restart finds it as this one did |
| `RestartLimits.OverfullRestartLosesABan` | `internal/chanpolicy/registry.go:387-424` | A history with two running bans, and a legal restart with room for one entry, after which the first pair is not banned and its row is gone |
| `RestartLimits.OverfullRestartForgetsARow` | `internal/chanpolicy/registry.go:358-383` | With room for one channel a restored ban can end up running without a row, so the mirror needs the room as well |
| `Restart.RestartIsInvisibleIff` | `internal/chanpolicy/store.go:107-164` | Where the running bans fit, a restart changes Banned exactly for pairs that are out on probation alone |
| `Lives.RestartIsInvisible` | `internal/chanpolicy/store.go:107-164` | With reprobe off and no global allow, after any operations, policies and restarts, one more restart changes no answer of Banned |
| `Lives.RestoredBanIsInForceEvenIfAllowed` | `internal/chanpolicy/store.go:139-164` | A running ban is restored whether or not the pair is allowed |
| `Lives.BootProtectsIff` | `internal/app/app.go:155-177` | After a restart no allowed pair is banned if and only if no allowed pair has a row that is still running |
| `Lives.GlobalAllowDoesNotSurviveRestart` | `internal/app/app.go:155-177` | An address banned on a channel and then allowed everywhere is banned again by the next restart, whatever else is restored |
| `Scoring.GoodScoresStayGood` | `internal/freproxies/types.go:35-64` | Quality and blended scores stay between 20 and 100, so one failure never brings a score to zero |
| `Scoring.QualityFalls` | `internal/freproxies/types.go:35-47` | A slower answer never scores better: one point per 50 ms, down to the floor at four seconds |
| `Scoring.SmoothLiesBetween` | `internal/freproxies/types.go:53-58` | In exact arithmetic the smoothed latency lies between the two readings, three tenths of the way, up to the cut to whole milliseconds |
| `Scoring.SmoothUpToRounding` | `internal/freproxies/types.go:53-58` | In floating point it may fall one millisecond lower, even below both readings, but no more |
| `Scoring.RetryDueIsOnTime` | `internal/freproxies/store_validate.go:10-16` | The deadline is the whole second of five (fifteen) minutes on |
| `PoolModel.InsertedAllKeepsPartition` | `internal/freproxies/store.go:1186-1225` | Adding untested proxies keeps the raw, scored and retry sets a partition of the stored addresses |
| `PoolModel.MarkedKeepsPartition` | `internal/freproxies/store.go:1300-1348` | So does every verdict |
| `PoolModel.WithoutKeepsPartition` | `internal/freproxies/store.go:1251-1260` | So does every removal |
| `PoolModel.VerdictMovesScore` | `internal/freproxies/store.go:1300-1348` | A good verdict moves the score of a working proxy exactly three tenths of the way to the quality of its smoothed latency and gives any other that quality outright; a forgiven failure costs one point |
| `MemoryStores.MemoryStore.AddRaw` | `internal/freproxies/store.go:1186-1239` | Counts the accepted proxies; beyond 4000 raw ones exactly the excess goes, and nobody evicted is younger than a survivor |
| `MemoryStores.MemoryStore.MarkValidated` | `internal/freproxies/store.go:1300-1348` | The pool after a verdict: a success is scored and leaves retry, a first failure of a working proxy goes to retry with its deadline, any other failure deletes; an unknown address changes nothing |
| `MemoryStores.MemoryStore.Delete` | `internal/freproxies/store.go:1251-1260` | The address leaves every set and map, nothing else changes |
| `MemoryStores.MemoryStore.PurgeRetry` | `internal/freproxies/store.go:1350-1364` | Exactly the retrying addresses go, and their number is returned |
| `MemoryStores.MemoryStore.Trim` | `internal/freproxies/store.go:1442-1499` | Each set loses exactly its excess over its cap and no survivor ranks below an evicted address of the same set |
| `MemoryStores.MemoryStore.EvictExcess` | `internal/freproxies/store.go:1442-1499` | The eviction loop removes exactly the lowest ranked addresses beyond the cap |
| `MemoryStores.MemoryStore.Count` | `internal/freproxies/store.go:1501-1505` | The three sizes, without changing anything |
| `MemoryStores.MemoryStore.SetScraperEnabled` | `internal/freproxies/store.go:1550-1565` | The switch of one source is set and its opposite removed |
| `MemoryStores.MemoryStore.UpdateRegion` | `internal/freproxies/store.go:1703-1715` | Only the region (and update stamp) of one record changes |
| `MemoryStores.MemoryStore.FlushSnapshot` | `internal/freproxies/persist.go:59-120` | After a save that succeeds, what the table holds decodes to the pool; after one that fails, the table and the dirty flag are as before |
| `MemoryStores.MemoryStore.Load` | `internal/freproxies/persist.go:128-190` | Loading into an empty store what an earlier store has saved gives its pool back, sets, retry deadlines and switches included |
| `Ranking.SortByRank` | `internal/freproxies/store.go:1442-1499` | The addresses of a set, each once, in the order of their rank |
| `Ranking.FirstAreLowest` | `internal/freproxies/store.go:1442-1499` | The first k of them are k distinct addresses, none of which ranks above any of the others |
| `PoolFacts.TrimmedInTurn` | `internal/freproxies/store.go:1442-1499` | Trimming the three sets one after the other evicts what trimming each on its own would |
| `PoolFacts.TrimmedIsWithinCaps` | `internal/freproxies/store.go:1442-1499` | After any legal trim all three caps hold |
| `PoolFacts.AddedIsProper` | `internal/freproxies/store.go:1186-1239` | Whatever the eviction of AddRaw picks, the pool stays proper, and if nothing was added nothing has changed |
| `PoolFacts.OfferedIsIn` | `internal/freproxies/store.go:1186-1225` | Whoever is offered to the store is in it before eviction, unless the untested set is full and more than fifty others work |
| `PoolFacts.InIsOfferedOrOld` | `internal/freproxies/store.go:1186-1225` | Known records are left alone, and every new record is one of those offered |
| `Ages.CreatedAtIsJoin` | `internal/freproxies/store.go:1207-1215` | Over any run of additions with evictions, verdicts, deletions and purges, the stamp of a record is the time at which its address last joined |
| `Ages.NobodyYoungerMakesRoom` | `internal/freproxies/store.go:1222-1239` | In every such run an address that AddRaw evicts joined no later than any untested one that stays |
| `Snapshots.SnapshotRoundTrip` | `internal/freproxies/persist.go:59-165` | Encoding and decoding gives every reachable pool back, although retry membership and deadlines are not stored |
| `Snapshots.SwitchesSurvive` | `internal/freproxies/store.go:1550-1578` | Every source answers on or off as before, even if both switches were set |
| `Snapshots.OnlyFailedRecordsReturnToRetry` | `internal/db/snapshot.go:17-98` | Exactly which records come back as retrying, for any pool, reachable or not |
| `Submissions.SubmitRaw` | `internal/freproxies/service.go:417-509` | Every item that is well-formed, not our own listener and not blocked is in the pool before eviction unless that was full, stored stripped, and nobody else is new; the rest follows by the eviction rules. Parsed and blocked count the items; parsed = blocked + added + duplicates; added is the growth, evicted the addresses that left, net growth = added − evicted |
| `Submissions.EveryInsertionCounts` | `internal/freproxies/store.go:1186-1225` | The reported number of additions is the growth of the pool before eviction |
| `Submissions.DropBlocked` | `internal/freproxies/country.go:11-25` | Exactly the unblocked proxies are kept, one for one and in their order, and the number of blocked ones is returned |
| `Submissions.PreparedIsExact` | `internal/freproxies/service.go:425-465` | The prepared batch is exactly the items with an address that is not our own listener, one for one, in order and stripped |
| `Submissions.UnblockedIsExact` | `internal/freproxies/country.go:11-25` | What the filter lets through are the items at exactly the unblocked positions, in order |
| `Submissions.BatchIsTheEligible` | `internal/freproxies/service.go:425-469` | A stripped item is in the batch exactly if some item is well-formed, not our own and not blocked |
| `Submissions.ClaimsAreIgnored` | `internal/freproxies/service.go:455-462` | Whatever a submitter claims about score, latency, health or age changes nothing in the stored record |
| `Batches.SelectValidateRaw` | `internal/freproxies/store_validate.go:34-70` | A batch of min(limit, addressed items), in turn, such that nobody left out has waited longer than anybody taken |
| `Batches.BatchesWalkTheQueue` | `internal/freproxies/store_validate.go:18-70` | Every batch shortens the queue of the never tested by its full size |
| `Batches.NobodyStarves` | `internal/freproxies/store_validate.go:18-70` | Over any run of scans, with new arrivals in between, a never tested address is taken before as many batches have passed as have waited at least as long |
| `TwoStrikes.RunMovesStage` | `internal/freproxies/store.go:1300-1348` | Over any interleaving of verdicts on many addresses, the stage of each is a function of its own verdicts |
| `TwoStrikes.AfterRaw` | `internal/freproxies/store.go:1300-1348` | From untested: alive exactly if the first verdict is good and no two in a row are bad; working exactly if also the last is good |
| `TwoStrikes.TwoStrikeLaw` | `internal/freproxies/store.go:1300-1348` | The same law for the pool itself, with the score of a working proxy in [20, 100] |
| `TwoStrikes.OperationsMoveStage` | `internal/freproxies/store.go:1251-1364` | The same among deletions and purges: the stage of an address is a function of what happened to it |
| `TwoStrikes.ScoreNeverDeletes` | `internal/freproxies/store.go:1324-1340` | Deletion on a score of zero or less never happens to a working proxy |
| `RedisStores.RedisStore.MarkValidated` | `internal/freproxies/store.go:411-473` | The keys after a verdict, as a function of the keys before |
| `RedisStores.RedisStore.DeleteMany` | `internal/freproxies/store.go:322-343` | The addresses leave every key, nothing else changes |
| `RedisStores.RedisStore.Delete` | `internal/freproxies/store.go:345-360` | One address leaves every key |
| `RedisStores.RedisStore.PurgeRetry` | `internal/freproxies/store.go:475-484` | Exactly the retrying addresses go, and their number is returned |
| `RedisStores.MarkMirrors` | `internal/freproxies/store.go:411-473` | A verdict takes Redis keys that mirror a pool to keys that mirror the pool after the same verdict |
| `RedisStores.BackendsAgree` | `internal/freproxies/store.go:411-473` | After any sequence of verdicts the two backends still mirror each other |
| `RedisStores.BackendsAgreeOnAll` | `internal/freproxies/store.go:318-484` | So they do after any mixture of verdicts, deletions and purges |
| `RedisStores.FiveKeysMeans` | `internal/freproxies/store.go:318-484` | What the invariant of the backend says: disjoint keys that cover the stored addresses, checked equal to scored, scores in [20, 100], deadlines of first failures |
| `RedisStores.RedisPartition` | `internal/freproxies/store.go:318-484` | In every run of verdicts, deletions and purges the five keys keep that invariant; an address to which only verdicts happen is stored, and scored, exactly by the two-strike law |
| `Sampling.Weight` | `internal/freproxies/pick.go:195-215` | Every weight is at least 0.0001, so no proxy is unreachable |
| `Sampling.BetterIsNoLighter` | `internal/freproxies/pick.go:186-215` | A proxy that is no worse in score, latency, failures and cooldown never weighs less |
| `Sampling.WeightFactors` | `internal/freproxies/pick.go:200-211` | One second of latency halves the weight, so does one failure; the cooldown leaves an eighth |
| `Sampling.FindIndex` | `internal/freproxies/pick.go:242-249` | The loop finds the first index whose running total reaches the target, or the last |
| `Sampling.DrawnByOwnInterval` | `internal/freproxies/pick.go:240-249` | An index is drawn exactly if the target falls into its own interval, which is as long as its weight |
| `Sampling.DrawnGoesByShares` | `internal/freproxies/pick.go:236-269` | Every draw of the sample takes out the item on whose share of the remaining weight its target falls |
| `Sampling.FirstDrawGoesByShare` | `internal/freproxies/pick.go:236-255` | The next item out is the i-th of those left exactly if the target falls on the i-th share; the rest is drawn from what then remains |
| `Sampling.TotalOfSwapDelete` | `internal/freproxies/pick.go:251-255` | Swap-delete leaves the sum of the other weights |
| `Sampling.SwapDeleteTakesOne` | `internal/freproxies/pick.go:253-255` | Swap-delete removes one occurrence of the drawn item and nothing else |
| `Sampling.SortByWeight` | `internal/freproxies/pick.go:222-231` | The same items, best first, and items of equal weight in their former order |
| `Sampling.WeightedSample` | `internal/freproxies/pick.go:222-271` | A part of the items of size min(n, number of items): everything in stable order if nothing is to be chosen, otherwise the items the draws point at, one by one, without replacement |
| `Sampling.WorstNeverWins` | `internal/freproxies/pick.go:298-324` | The strictly worst item is never picked by two-choice sampling, whatever is drawn |
| `Sampling.P2CSample` | `internal/freproxies/pick.go:298-324` | At most 16n rounds; the picks are the winners of these rounds without repeated addresses; fewer than n only after all rounds; at least one if n > 0 |
| `RoundRobin.SortByAddr` | `internal/freproxies/pick.go:280-283` | The same candidates in the order of their addresses |
| `RoundRobin.ShuffleDoesNotMatter` | `internal/freproxies/pick.go:280-283` | Two windows with the same addresses are walked in the same order, however they are shuffled and whatever else their records say |
| `RoundRobin.RemIsRemainder` | `internal/freproxies/pick.go:289-291` | The index is the remainder of the division of the position by the number of candidates |
| `RoundRobin.PickState.NextCursor` | `internal/freproxies/pick.go:174-183` | Returns and advances the position of the channel modulo 2^64; over 1024 cursors the map is dropped first, so it never holds more than 1025 |
| `RoundRobin.PickState.RrSelect` | `internal/freproxies/pick.go:276-293` | The next min(n, m) candidates of the ordered window from the position of the channel, and the cursors after it |
| `RoundRobin.WheelIsFair` | `internal/freproxies/pick.go:289-291` | k consecutive positions modulo m hit every index ⌊k/m⌋ or ⌈k/m⌉ times |
| `RoundRobin.PickState.RecentlyServed` | `internal/freproxies/pick.go:130-146` | Exactly the given addresses that were served within the cooldown, none if it is off |
| `RoundRobin.PickState.MarkServed` | `internal/freproxies/pick.go:149-171` | The memory after serving, with its two ways of forgetting |
| `RoundRobin.MemoryIsBounded` | `internal/freproxies/pick.go:155-170` | At most 8192 addresses are remembered, or just those of the last pick |
| `RoundRobin.CooldownIsRemembered` | `internal/freproxies/pick.go:155-170` | Forgetting changes no later cooldown answer unless more than 8192 addresses are cooling down |
| `RoundRobin.ServedCoolsDown` | `internal/freproxies/pick.go:130-171` | Whoever was handed out is cooling down from then on for exactly the cooldown |
| `Fairness.RoundRobinIsFair` | `internal/freproxies/pick.go:174-293` | Over any run of requests of any sizes on any channels, whose windows on one channel hold the same m addresses with any records: after K proxies were served there, each address was served ⌊K/m⌋ or ⌈K/m⌉ times, if the cursor neither wraps nor is dropped |
| `Fairness.OthersDoNotDisturb` | `internal/freproxies/pick.go:273-293` | A channel is served what it would have been served had it been alone |
| `Fairness.FewChannelsNeverDrop` | `internal/freproxies/pick.go:104-179` | A run over at most 1024 channels never drops the cursors |
| `Candidates.FilteredIsExact` | `internal/freproxies/candidates.go:350-382` | A candidate gets through exactly if it passes every exclusion and requirement |
| `Candidates.FilterCandidates` | `internal/freproxies/candidates.go:350-382` | The loop keeps the usable candidates in order |
| `Candidates.Descend` | `internal/freproxies/candidates.go:240-316` | The usable candidates of the first rung that has any, nothing only if no rung has any; then the last store error, exactly if no page was served |
| `Candidates.EveryRungExcludes` | `internal/freproxies/candidates.go:240-316` | On every rung a candidate passes blacklist, country, source, ban and family checks |
| `Candidates.LadderSpelledOut` | `internal/freproxies/candidates.go:240-316` | The candidates are exactly the usable ones of the first page that has any: hot cache and first page for the whole request, the page of any protocol for all but the protocol if one was given, the narrow page for the whole request, the wide page for the family alone if protocol or region was given |
| `Candidates.ProtocolIsKeptWhileReachable` | `internal/freproxies/candidates.go:249-268` | Another protocol is handed out only if hot cache and first page had nobody for the whole request |
| `Candidates.RegionIsKeptWhileReachable` | `internal/freproxies/candidates.go:249-316` | Another region is handed out only if hot cache, first and narrow page had nobody for the whole request, nor the page of any protocol, if asked, anybody for all but the protocol |
| `Shuffling.Shuffle` | `internal/freproxies/pick.go:345-350` | The loop computes the specified exchanges, a permutation of the items |
| `Shuffling.EveryOrderIsPossible` | `internal/freproxies/pick.go:345-350` | Every rearrangement of the items comes out for some draws |
| `Shuffling.OneDrawPerOrder` | `internal/freproxies/pick.go:345-350` | For distinct items different draws give different orders, so uniform draws give a uniform order |
| `Picking.Draw` | `internal/freproxies/pick.go:344-364` | By default every draw goes by the shares of weight of what is left; two choices never hand out a strictly worst item; either hands out everyone, best first and stable, if there is nothing to choose; random hands out the front of the shuffle; round robin the turn of its channel. Between 1 and min(n, number of items) items, exactly that many unless it is two choices |
| `Picking.ApplyStrategy` | `internal/freproxies/pick.go:327-367` | The same for a whole reduction, with weights cut for exactly the addresses that are really cooling down; exactly what is handed out is remembered as served |
| `Picking.Pick` | `internal/freproxies/candidates.go:190-225` | What is handed out is drawn by the strategy from the candidates that honour the bans of the channel, or, exactly if there are none, from those without the bans; so it passes blacklist, country, source and family; at least one proxy on success; an error exactly if nothing is left either way |
| `Throttle.TokenBucket.TryTake` | `internal/directproxy/throttle.go:37-54` | One pass under the lock: refill up to the burst, admit if there are enough tokens or the write is larger than the burst, otherwise the clamped wait |
| `Throttle.NewThrottle` | `internal/directproxy/throttle.go:21-29` | No bucket for a limit of zero or less, otherwise a full one with one second of burst |
| `Throttle.TokensAreConserved` | `internal/directproxy/throttle.go:33-61` | Over any interleaving of callers: tokens left are at most tokens before plus what was earned minus what passed |
| `Throttle.RateIsBounded` | `internal/directproxy/throttle.go:33-61` | Right after an admission of at most the burst, no more than burst + bps·elapsed bytes have passed since any earlier instant, oversized writes included |
| `Throttle.ExcessIsDebt` | `internal/directproxy/throttle.go:31-61` | Since any instant the bytes exceed the bound by no more than the debt the bucket is left with |
| `Throttle.OrdinaryWriteLeavesNoDebt` | `internal/directproxy/throttle.go:44-48` | A write of at most the burst passes only once every debt has been earned back |
| `Throttle.OversizedWriteExceedsTheBound` | `internal/directproxy/throttle.go:31-46` | Without that last ordinary admission the bound fails: one oversized write breaks it |
| `Throttle.LookingIsFree` | `internal/directproxy/throttle.go:37-42` | Refilling at an extra instant changes no later decision |
| `Throttle.Take` | `internal/directproxy/throttle.go:33-61` | A lone caller gets through, pays exactly n tokens once, and without lags sleeps no longer than it takes to earn what was missing, give or take a millisecond; no bucket or no bytes changes nothing |
| `ViaPool.PopYieldsIffUnexpired` | `internal/directproxy/via_pool.go:101-116` | Pop yields a connection exactly if an unexpired one is idle |
| `ViaPool.PopTakesNewest` | `internal/directproxy/via_pool.go:101-116` | It is the newest, and then nothing is dropped; otherwise all are |
| `ViaPool.Pool.PopIdle` | `internal/directproxy/via_pool.go:101-116` | The loop implements that pop, closes what it drops and counts it; it is the Pop step of the state machine |
| `ViaPool.Pool.PutIdle` | `internal/directproxy/via_pool.go:118-130` | Appends the connection, or closes it exactly if the pool is dead or full; it is the Put step |
| `ViaPool.Pool.ExpireIdle` | `internal/directproxy/via_pool.go:192-206` | Filters the list in place: the unexpired stay in order, the others are closed and counted; it is the Expire step |
| `ViaPool.Pool.CloseAll` | `internal/directproxy/via_pool.go:51-68` | The first Close empties the list and hands over what was on it, a second one does nothing; it is the Close step |
| `ViaPool.Pool.Need` | `internal/directproxy/via_pool.go:175-182` | How many connections warming dials: up to four idle, none once dead |
| `ViaPool.Pool.TakeOne` | `internal/directproxy/via_pool.go:89-99` | A hit exactly if an unexpired connection was idle, otherwise a miss and the dialled one |
| `ViaPool.StepKeepsLinear` | `internal/directproxy/via_pool.go:51-206` | Every critical section and dial keeps each connection with exactly one owner, the list within eight and by age, and nothing idle once dead |
| `ViaPool.EveryRunIsLinear` | `internal/directproxy/via_pool.go:51-206` | So under every interleaving; in particular no connection is handed out twice |
| `ViaPool.NothingLeaks` | `internal/directproxy/via_pool.go:51-130` | Once closed and quiet, every connection ever dialled is closed or in the hands of a caller, not both |
| `ViaPool.ClosedForGood` | `internal/directproxy/via_pool.go:51-130` | After Close the pool stays dead and nothing becomes idle again |

## Left out

- SweepRuns.SweepIsUnobservable: assumes one policy, room under both ceilings, steps strictly later than a sweep, and Unban only where it is safe; for each of the last two a history shows that it is needed.
- SweepEquivalence.JudgedEntriesAlike: being alike is enough for equal answers, not necessary; under a policy that never looks at the window, entries with different windows behave alike too.
- Lives.TableMirrorsBans: asks that the running bans fit at each restart; that this is needed is shown by one family of tables, not as an equivalence, since the order of the rows decides.
- Registries.Registry.Record: calls to the table happen after the lock is released in the source; here they belong to the same step, so two operations that reorder their writes are not captured.
- Restarting: loading and restoring run before other goroutines start, and are modelled in that order only.
- Registry entries and channels are values inside one map, so a reference to an entry held across operations is not captured.
- MemoryStores.MemoryStore.AddRaw: asks its callers for untested proxies (not validated, no failures, never checked), which SubmitRaw establishes; the maps of the store are one record field, reassigned instead of mutated.
- RedisStores.RedisStore.MarkValidated: the keys are one record field; commands are applied together, and a failing command or pipeline is not modelled. Adding and trimming in Redis are left out, since their eviction keys differ and a batch with duplicates is counted twice there.
- Sampling.Weight: real arithmetic, so the rounding of 64-bit floats and the drift it causes in the running total are not captured.
- Sampling.WeightedSample: nothing is said about how often an item is drawn, only which draw picks it.
- LadderHistory.BanLengthRefinesHistory: asks for one policy, since strikes were counted under the window of their time.
- Fairness.RoundRobinIsFair: asks that the cursor stays below 2^64 and that the cursor map is not dropped, and that the windows hold the same addresses, each once.
- Picking.Pick: the strategy is resolved and the configured default is not modelled; the bans are read once, as in the source; letter case is folded for ASCII only, and the family of a proxy is a field instead of being parsed from its host.
- Throttle.Take: the wait is not cut to whole nanoseconds, and the clock does not run backwards.
- ViaPool.EveryRunIsLinear: dialling is one step that succeeds, breaks after connecting, or never yields a connection; the handshake and the ticker are not modelled.
- Custom rule texts, their validation and their storage; rules are given as already normalized values.
- Hooks, outcome logs, statistics, listings, HTTP handlers, the panel and configuration.
- SQL and JSON mechanics: tables are maps and serialization is lossless. The retry flag column is not stored, as in the source.
- Host, channel and address normalization, CIDR expansion, share links, probing, GeoIP and crawlers.
- The hot cache, pagination and filters of the store: whatever they answer is covered by the selection theorems.
- Capacity control of concurrent work in `internal/netload`: the capacity it reports does not bound the work, so there is no guarantee to prove.
