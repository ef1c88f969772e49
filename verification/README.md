# Verified models of a paper-trading monolith

Dafny models of the stateful and arithmetic parts of the repository, with proofs of what they
promise. One module per component:

- `DataRetention`: the nightly archive-then-delete job over a capture table with sparse ids.
- `LeaderLease`: the TTL lease that elects one runner among processes, step by step.
- `BrokerMirror`: the reconciliation of local mirrors with the broker's snapshots.
- `SmartStop`: the ratcheting alert stop of a manual leg.
- `ConfigMerge`: merging, guarding and reading back the runner's configuration.
- `CalibrationFit`, `WeightProjection`: the closed-form calibration and its weight projection.
- `ScaleOutWalk`: the bar-level scale-out walk against every tick path inside the bars.
- `ExitReplay`: first-hit exits against a tick-by-tick simulation.
- `EquityCurve`: the concurrency cap and the two running-peak drawdowns.
- `EvidenceLedger`, `SourceCache`: the append-only evidence store and URL cache under crashes.
- `Reconcile`: conflict grouping over parsed inventories.
- `SignalDispatcher`, `RestThrottle`: the pruned recent-signal registry and the rate limiter.
- `Wrappers`: the option type.

Code that changes state in place is a class whose methods are proved against a specification
function; what the source promises is then proved about that function over all inputs and runs.
Clocks, brokers, uploads, transports and crashes are inputs. Floats are exact reals, or integer
paise in `SmartStop`.

Where a promise does not hold of the code, a lemma gives the input, and the lemma named beside it or
the `Left out` line says when it does hold:
a release that deletes late makes two live leaders (`LateDeleteMakesTwo`, `ExclusiveIffNoClobber`);
a leader that stalls, or that is stopped while it acquires, keeps its `is_leader` flag beside another's
(`StalledLeaderKeepsFlag`, `ReleasedLeaderRaisesFlag`, `OneFlagIffNeverOrphans`);
a night that cannot read the contest file deletes contest rows (`UnreadContestIsDeleted`,
`ContestNightIff`); a token listed twice, or a pass that raises, defeats the mirror's consecutive
confirmations (`RepeatedEntryClosesEarly`, `ConfirmsOnceIff`, `FlatWithoutConsecutiveAbsences`,
`ConsecutiveIff`); merging is not associative in general (`AssociativeIff`) and a saved configuration
is not always read back (`FlippedKindIsNotReadBack`, `GetAfterSetIff`); leg B of the walk can be
flattered (`LegBCanBeFlattered`, `LegBConservativeIff`); a raw file cut short by a crash blocks its
evidence for good (`TornRawIsForever`, `RetrySucceedsIffNotTorn`); a clock that goes back makes the
dispatcher miss a signal (`ClockGoingBackMisses`, `PruningLosesNothingIff`); an entry above T1 books a
losing target (`EntryAboveTarget`, `NoLossOnceHitIff`); drawdown below zero equity is understated
(`RuinIsUnderstated`, `RunningIsMaximalIff`). A row 0, which SQLite never assigns, would make a day file mix
days (`ZeroIdMixesDays`, `WholeDayIff`).

`dafny verify dfyconfig.toml` checks the whole project.

## Model

| member | source | states |
|---|---|---|
| DataRetention.CutoffSplits | backend/scripts/data_retention.py:29-43 | for rows in time order there is exactly one cutoff: the last row older than the limit, None iff no row is older; the ids up to it are exactly the older rows |
| DataRetention.RetentionJob.CutoffId | backend/scripts/data_retention.py:29-43 | the binary search over sparse ids terminates and finds that cutoff; the branch for a missing row is dead |
| DataRetention.RetentionJob.SelectFrom | backend/scripts/data_retention.py:39 | the first row at or after an id |
| DataRetention.WholeDayIff | backend/scripts/data_retention.py:82-86 | one step of the pass takes a whole day, up to a day boundary, iff the day it takes does not end at row 0, whose id reads as no cutoff |
| DataRetention.DayFileIsDay | backend/scripts/data_retention.py:82-86 | with ids from 1, the range found for a day is a whole day and all its remaining rows, starts where the last one ended, ends at or before the cutoff and at a day boundary; `end < start` cannot happen |
| DataRetention.RetentionJob.ExportDay | backend/scripts/data_retention.py:82-89 | the exported file is the one of that range, with all its rows |
| DataRetention.RetentionJob.Put | backend/scripts/data_retention.py:89-94 | a verified copy adds exactly this file; a failed one stops the pass and may leave debris under the tried name only |
| DataRetention.RetentionJob.ArchiveUpto | backend/scripts/data_retention.py:77-95 | the loop uploads exactly the files of the day-by-day pass, in dry runs none, and reports its last safe id, its stop and its number of days |
| DataRetention.PassTiles | backend/scripts/data_retention.py:77-95 | the verified files tile [min id, last_ok] with no gap or overlap, one whole day each, in day order; a dry run always finishes |
| DataRetention.TilesHold | backend/scripts/data_retention.py:77-95 | every row of the tiled range is in a verified file of its day, and no file reaches outside the range |
| DataRetention.PassEnd | backend/scripts/data_retention.py:77-95 | a pass, however it stops, ends between two days and not past the limit |
| DataRetention.RetentionJob.DeleteUpto | backend/scripts/data_retention.py:157-165 | the batched delete terminates, whichever rows a batch picks, having deleted exactly the ids up to the cutoff, and counts them |
| DataRetention.RetentionJob.RunNight | backend/scripts/data_retention.py:135-170 | one night for one table; a shut night (applied, not forced, market open) touches nothing; otherwise each verdict iff its case, and exactly which rows are gone and which whole days are in the archive, in terms of the due days and the answers |
| DataRetention.RetentionJob.Decide | backend/scripts/data_retention.py:135-156 | limit, cutoff, archive pass or fallback: which ids the night may delete, and the uploads |
| DataRetention.VerdictIff | backend/scripts/data_retention.py:136-156 | each verdict iff its case: shut, no due row, no archiver for the table, too little disk, archived |
| DataRetention.NightLeaves | backend/scripts/data_retention.py:135-170 | without the plan: an applied night deletes exactly the due rows (dated before now - keep, and before the contest of a protected table whose start was read) without an archive, on a full disk, at the quota guard and when finished; up to the first day that failed to upload; none on an error or in a dry run |
| DataRetention.PassReaches | backend/scripts/data_retention.py:77-95 | an archive pass uploads the due days one by one, whole, up to the first whose answer is not a verified upload |
| DataRetention.NightPass | backend/scripts/data_retention.py:145-151 | the pass a night runs starts at the least id, and its cutoff splits the table at the night's limit |
| DataRetention.NightDeletesWholeDays | backend/scripts/data_retention.py:135-170 | whatever the exit, QUOTA and DISK_PANIC included, a night deletes whole days only, all older than its limit |
| DataRetention.NightUploads | backend/scripts/data_retention.py:145-165 | a night's uploads have new names, and every row up to the last safe id is in one of them |
| DataRetention.SweepStep | backend/scripts/data_retention.py:135-170 | a night keeps the store sound and conserves every row |
| DataRetention.RunConserves | backend/scripts/data_retention.py:135-170 | over any run of inserts and nights every row ever captured is live, in a verified file, or was shed by a named fallback |
| DataRetention.ArchivingShedsNothing | backend/scripts/data_retention.py:146-156 | a night that archives and meets neither QUOTA nor DISK_PANIC sheds nothing |
| DataRetention.NothingIsLost | backend/scripts/data_retention.py:135-170 | over any run without QUOTA, DISK_PANIC or a missing archiver, every row ever captured is in the table or in a verified upload |
| DataRetention.NothingIsEverLost | backend/scripts/data_retention.py:135-170 | in particular over any such run from an empty table |
| DataRetention.ContestIsProtected | backend/scripts/data_retention.py:137-142 | no exit of any night of any run deletes a row dated on or after the contest start while every night's limit is at most the contest start, as it is for a protected table whenever the start is read |
| DataRetention.ContestNightIff | backend/scripts/data_retention.py:137-165 | a night that deletes spares the contest rows of every table iff its limit is at most the contest start |
| DataRetention.UnreadContestIsDeleted | backend/scripts/data_retention.py:115-142 | a night that cannot read the contest file cuts a protected table by age alone and deletes contest rows that it would keep otherwise |
| DataRetention.ZeroIdMixesDays | backend/scripts/data_retention.py:85 | with a row 0 alone on its day `cutoff_id(..) or cid` falls through to the whole range: the first file mixes two days |
| LeaderLease.AppSettings.AcquireTxn | backend/app/db.py:998-1014 | one atomic step: granted iff the row is absent, unreadable, the caller's own or stale by the time the caller read; a grant writes owner and that time, a refusal nothing |
| LeaderLease.AppSettings.ReleaseSelect | backend/app/db.py:1030-1033 | the release looks whether the row is its own |
| LeaderLease.AppSettings.ReleaseDelete | backend/app/db.py:1034-1035 | the release deletes by key, whoever holds the row by then |
| LeaderLease.AtMostOneLive | backend/app/db.py:988-1039 | in a safe state at most one process has a lease in date |
| LeaderLease.SafeStep | backend/app/db.py:988-1039 | however stale the clock a process read, a step keeps the state safe iff it is not the delete of another process's lease in date |
| LeaderLease.RowNamesHoldersIffNoClobber | backend/app/db.py:988-1039 | over every interleaving: the row names every live holder at every moment iff no release deletes another's lease in date |
| LeaderLease.NoClobberIsExclusive | backend/app/db.py:988-1039 | without such a release at most one process is live at every moment |
| LeaderLease.StaysExclusiveIff | backend/app/db.py:988-1039 | after a step there is at most one live leader however the processes go on iff the step is not a release that deletes another's lease in date |
| LeaderLease.ExclusiveIffNoClobber | backend/app/db.py:988-1039 | over every interleaving: at every moment at most one leader is live, then and however the processes go on, iff no release has deleted another's lease in date |
| LeaderLease.PinnedStep | backend/app/db.py:1026-1039 | while every release is timely, a selected row is still the selected one when it is deleted |
| LeaderLease.TimelyReleasesSuffice | backend/app/db.py:1026-1039 | the atomicity a release needs: if its DELETE comes while the heartbeat its SELECT saw is in date, there is at most one live leader in every reachable state |
| LeaderLease.OwnerChange | backend/app/db.py:1000-1012 | the row changes owner only past the old heartbeat's ttl, and disappears only by a release |
| LeaderLease.HolderUndisturbed | backend/app/db.py:988-1039 | until its last grant is older than the ttl, the row names the holder and nobody else is granted |
| LeaderLease.GrantedIff | backend/app/db.py:1000-1014 | a transaction is refused iff another owner's heartbeat is at most the ttl old; a grant makes the caller the owner with the time it read |
| LeaderLease.HolderRenews | backend/app/db.py:998-1014 | over every interleaving whose releases delete no other's lease in date: a live holder renews whenever it asks, stays the owner, and its flag stays up |
| LeaderLease.SettledIsFlag | backend/app/db.py:998-1023 | the flag follows the answer: raised by a grant, lowered by a refusal or an error |
| LeaderLease.InitialIsSafe | backend/app/db.py:988-1039 | any leftover row is a safe start when nobody holds a grant |
| LeaderLease.LateDeleteMakesTwo | backend/app/db.py:1030-1035 | a late DELETE gives two live leaders: SELECT and DELETE are not atomic |
| LeaderLease.FlagsStep | backend/app/scalper.py:1185-1194 | a step keeps every is_leader flag backed by a lease in date iff it is none of four: time past a flagged holder's ttl, a flagged process renewing with a reading older than that or starting its release, a flag raised for a grant released or outlived |
| LeaderLease.FlagsLiveIffNeverOrphans | backend/app/scalper.py:1185-1194 | over every interleaving: every flag is backed by a lease in date at every moment iff no such step is taken |
| LeaderLease.BackedFlagsAreOne | backend/app/scalper.py:156 | and then at most one process has its flag up at every moment, if no release deletes another's lease in date |
| LeaderLease.StaysOneFlagIff | backend/app/scalper.py:156 | after a step that deletes no other's lease in date at most one flag is up however the processes go on iff the step is none of the four |
| LeaderLease.OneFlagIffNeverOrphans | backend/app/scalper.py:156 | over every interleaving whose releases delete no other's lease in date: at every moment at most one flag is up, then and however the processes go on, iff none of the four has been taken |
| LeaderLease.StalledLeaderKeepsFlag | backend/app/scalper.py:1185-1194 | a leader stalled past its ttl keeps its flag while another is granted |
| LeaderLease.ReleasedLeaderRaisesFlag | backend/app/scalper.py:263-272 | a loop that still waits for its acquire while `stop` releases raises its flag afterwards: two flags without any time passing |
| BrokerMirror.MirrorSync.RoundTurns | backend/app/scalper.py:871-909 | phase 1 with its in-memory confirmations: close the mirror's own row after enough sightings, otherwise book the day's result once; a raising insert ends the pass |
| BrokerMirror.MirrorSync.Vanished | backend/app/scalper.py:912-927 | phase 2: count absences of auto-synced mirrors and close the row flat when they reach the threshold |
| BrokerMirror.MirrorSync.Appeared | backend/app/scalper.py:929-953 | phase 3: open a mirror for every listed token that has none |
| BrokerMirror.MirrorSync.SyncPositions | backend/app/scalper.py:844-953 | one pass over a successful snapshot is the three phases in order, with the configured number of confirmations, 3 for 0; every open row fares as its counts and that number say |
| BrokerMirror.TurnAllRow | backend/app/scalper.py:871-891 | an open row is closed by the closed list iff its entries complete the confirmations, otherwise only its confirmations grow |
| BrokerMirror.TurnAllCounts | backend/app/scalper.py:871-909 | confirmations grow by at most one an entry; a token without a mirror keeps its counts |
| BrokerMirror.TurnAllBooks | backend/app/scalper.py:892-909 | a booked row is closed today, of a token with no mirror, no closed row today and not booked before in the pass |
| BrokerMirror.FlatAllRow | backend/app/scalper.py:912-927 | a row open at the start is closed flat iff it is auto-synced, absent from both lists and has enough absences; else its count is set as the code says |
| BrokerMirror.OpenAllOpens | backend/app/scalper.py:929-953 | a mirror opened by a pass is the only open row of its token |
| BrokerMirror.HandledPrefix | backend/app/scalper.py:871-909 | a raise in phase 1 leaves the state that the entries before it made, whatever the counts and the threshold |
| BrokerMirror.SyncFate | backend/app/scalper.py:844-953 | one pass, raising or not, closes an open mirror BROKER_FLAT iff it is auto-synced, phase 1 finished, the token is in neither list and the counted absences reach the threshold; BROKER_REALISED only after as many round-turned sightings; otherwise the row stays as it was |
| BrokerMirror.SyncOneMirror | backend/app/scalper.py:844-953 | every pass, raising or not, keeps at most one OPEN mirror per token |
| BrokerMirror.SyncBookedOnce | backend/app/scalper.py:856-909 | every pass, raising or not, keeps at most one realised row per token and day, and none for a token that already has a row closed that day |
| BrokerMirror.SyncCounted | backend/app/scalper.py:844-953 | after every pass the counters are what the history of snapshots says |
| BrokerMirror.SyncCovers | backend/app/scalper.py:844-953 | a pass that does not raise leaves every listed position with a mirror and every new round-turned result booked |
| BrokerMirror.SyncExactly | backend/app/scalper.py:871-953 | when a pass raises, and exactly which rows one that does not raise adds: for each token without a mirror or a close that day its first unrecorded result, and a mirror for each listed token without one |
| BrokerMirror.OpenRaiseLeavesPrefix | backend/app/scalper.py:929-953 | a raise in phase 3 leaves the mirrors that the positions before it opened |
| BrokerMirror.SyncRecords | backend/app/scalper.py:871-909 | a close BROKER_REALISED or a booking records the broker's realised figure of a listed entry of that token; every other change keeps a mirror's reason |
| BrokerMirror.SyncKeeps | backend/app/scalper.py:844-953 | every pass over a successful snapshot keeps the whole invariant |
| BrokerMirror.RunKeeps | backend/app/scalper.py:844-953 | so does any run of passes from a fresh process, whatever their thresholds and raises |
| BrokerMirror.MirrorsAreConfirmed | backend/app/scalper.py:844-953 | over any run of successful snapshots, with the number configured at each pass (3 for 0): one open mirror per token, one booking per token and day, closed rows never change, BROKER_FLAT iff the missed count reaches that number, BROKER_REALISED only after as many sightings |
| BrokerMirror.MissedSplits | backend/app/scalper.py:912-925 | the counted absences are those of the current streak plus those a raise kept alive; the consecutive absences are those of the streak plus its raised passes |
| BrokerMirror.SurvivedIff | backend/app/scalper.py:912-925 | absences are kept alive iff a pass raised in phase 1 while listing the token and none has finished listing it since |
| BrokerMirror.ConsecutiveIff | backend/app/scalper.py:848-925 | from any history on: the count is the current streak's iff nothing was kept alive, BROKER_FLAT takes as many consecutive absences iff at most as many were kept alive as passes raised in the streak, and the count equals the consecutive absences iff the two are equal |
| BrokerMirror.FlatIsConsecutive | backend/app/scalper.py:848-925 | over any run, a mirror that goes BROKER_FLAT was absent in the required number of consecutive snapshots, unless more absences were kept alive than passes raised in the streak |
| BrokerMirror.ConfirmsOnceIff | backend/app/scalper.py:878-883 | a pass adds at most one confirmation to an open mirror, for every count and threshold, iff the entries it handles list the token at most once |
| BrokerMirror.SightingsAreSnapshots | backend/app/scalper.py:878-883 | if no snapshot lists a token twice, sightings are consecutive snapshots |
| BrokerMirror.RepeatedEntryClosesEarly | backend/app/scalper.py:871-891 | a token listed twice in one snapshot is confirmed in one pass where two are required |
| BrokerMirror.RaisedPassKeepsAbsences | backend/app/scalper.py:871-909 | a pass that raises in phase 1 leaves the absence counts as they were |
| BrokerMirror.FlatWithoutConsecutiveAbsences | backend/app/scalper.py:848-927 | so a mirror can go BROKER_FLAT although the broker listed it in between |
| SmartStop.RoundedMono | backend/app/scalper.py:603 | rounding to the paise is monotone |
| SmartStop.QuotientIsNearest | backend/app/scalper.py:603 | and to the nearest, halves to even, whatever the sign of the quantity |
| SmartStop.TrailMono | backend/app/scalper.py:601-604 | a higher profit never gives a looser trail, for BUY and SELL |
| SmartStop.NeverLoosens | backend/app/scalper.py:583-609 | over any marks, missing ones included, the stop is never loosened or dropped, whatever the quantity |
| SmartStop.MarkFollowsPeak | backend/app/scalper.py:583-609 | one mark moves the stop from the closed form of the old peak to that of the new one |
| SmartStop.StopFollowsPeak | backend/app/scalper.py:583-609 | after any marks the stop is a closed form of the initial stop, possibly missing, and the peak profit alone |
| SmartStop.PathDoesNotMatter | backend/app/scalper.py:994-999 | two paths with the same peak leave the same stop |
| SmartStop.StopProtects | backend/app/scalper.py:596-608 | after a peak that arms break-even the stop is at least the entry; after one that arms the trail it locks the peak less the give-back, up to half a paisa a unit |
| SmartStop.EveryMarkIsProtected | backend/app/scalper.py:596-608 | so every mark on the way that arms the trail leaves its profit less the give-back locked, up to half a paisa a unit |
| SmartStop.StopIsExactly | backend/app/scalper.py:583-609 | after any marks the stop is exactly: the initial one below the thresholds (400 and 900 rupees by default), then the tightest of it, the entry, and the price that keeps the peak less the give-back (400), to the nearest paisa |
| SmartStop.AnsweredIffMoved | backend/app/scalper.py:605-609 | an answer is given iff the stop moves |
| SmartStop.UnmanagedIsLeft | backend/app/scalper.py:588-593 | the stop of a leg that is not managed, or lacks entry or quantity, is left alone |
| ConfigMerge.CoveredIff | backend/app/scalper.py:112-119 | merging a patch leaves exactly the patch iff the patch covers the base |
| ConfigMerge.Idempotent | backend/app/scalper.py:112-119 | merging the same patch twice is merging it once, for all inputs |
| ConfigMerge.AssociativeIff | backend/app/scalper.py:112-119 | merging is associative iff no key goes from object to non-object and back to an object that does not cover the first |
| ConfigMerge.SavedIsGuarded | backend/app/scalper.py:219-249 | a saved configuration has a known mode and boolean switches; automatic exits imply LIVE; enabled LIVE needs the safeguards |
| ConfigMerge.UpperIff | backend/app/scalper.py:227-230 | a string upper-cases to a mode iff it spells it, each letter in either case |
| ConfigMerge.SavedIff | backend/app/scalper.py:219-249 | a patch is saved, as the merge with the mode in capitals, iff it has no secret and no unknown field and passes the five checks |
| ConfigMerge.BadModeIff | backend/app/scalper.py:223-230 | a mode that spells none of the three is refused as such, unless the patch was refused before |
| ConfigMerge.RefusedEarly | backend/app/scalper.py:220-226 | a secret in the patch is refused first, then an unknown field |
| ConfigMerge.RefusedBy | backend/app/scalper.py:232-247 | a patch that spells a mode is refused by the first of the other four checks it fails |
| ConfigMerge.EnabledKeepsMode | backend/app/scalper.py:238-240 | two configurations saved one after the other and both enabled have the same mode |
| ConfigMerge.ModeChangesThroughDisabled | backend/app/scalper.py:219-249 | over any run of set_config, enabled execution changes its mode only by way of a configuration in which it is disabled |
| ConfigMerge.TwoMergesCoverIff | backend/app/scalper.py:112-119 | the stored object and a patch merged over the defaults still cover them iff no object clashes |
| ConfigMerge.GetAfterSetIff | backend/app/scalper.py:198-249 | what is read after a save is what was saved iff no object of the defaults is stored as something else and patched as an object that does not cover it |
| ConfigMerge.SetKeepsShape | backend/app/scalper.py:198-249 | with patches that keep the defaults' objects, get after set returns exactly what was set |
| ConfigMerge.RunReadsBack | backend/app/scalper.py:198-249 | and so after any run of such patches from an empty store |
| ConfigMerge.FlippedKindIsNotReadBack | backend/app/scalper.py:198-249 | an object once replaced by a number and patched as an object again is not read back as saved |
| ConfigMerge.ConfigStore.GetConfig | backend/app/scalper.py:198-217 | reads the stored object over the defaults and erases a legacy secret that is not null when it can write |
| ConfigMerge.ConfigStore.SetConfig | backend/app/scalper.py:219-249 | saves exactly the checked merge of what get returns with the patch, or refuses and changes at most the legacy secret |
| CalibrationFit.BucketRows | backend/app/tp_calibration.py:191-198 | the bucket loop counts every row exactly once, and up moves are at most the rows of a bucket |
| CalibrationFit.CountsAreRows | backend/app/tp_calibration.py:191-198 | a bucket counts the rows with its key, and those of them that went up |
| CalibrationFit.DenominatorNonNegative | backend/app/tp_calibration.py:211 | n * sxx - sx * sx is never negative |
| CalibrationFit.NormalEquations | backend/app/tp_calibration.py:213-214 | k and b solve the normal equations |
| CalibrationFit.FitIsLeastSquares | backend/app/tp_calibration.py:206-214 | the unclamped (k, b) minimises the squared residuals over all lines, and is the only line that does |
| CalibrationFit.FitIff | backend/app/tp_calibration.py:206-212 | there is a fit iff there are three points or more whose squared distances in x, over all pairs, exceed 1e-9 |
| CalibrationFit.CovarianceBound | backend/app/tp_calibration.py:236-241 | cov * cov <= va * vb for all sequences, about any centre |
| CalibrationFit.CorrBounds | backend/app/tp_calibration.py:231-241 | corr lies in [-1, 1] |
| CalibrationFit.MomentsAreSquares | backend/app/tp_calibration.py:236-240 | va, cov and vb are the coefficients of the squared sum of t times one centred column and the other |
| CalibrationFit.CorrOfProportional | backend/app/tp_calibration.py:231-241 | proportional columns correlate at 1 or -1, with the sign of the factor, and at 0 if one is constant |
| WeightProjection.Project | backend/app/tp_calibration.py:249-253 | the loop is 24 passes of normalise and clamp |
| WeightProjection.PassInBounds | backend/app/tp_calibration.py:253 | every pass puts all weights in [0.02, 0.35] |
| WeightProjection.PassOrder | backend/app/tp_calibration.py:252-253 | a pass keeps the order of the weights when its sum is not negative, and reverses it otherwise |
| WeightProjection.PassContracts | backend/app/tp_calibration.py:252-253 | from inside the bounds sum - 1 keeps its sign; an excess shrinks at least by the factor 8 * 0.02, a deficit at least by 0.88 |
| WeightProjection.FixedPoints | backend/app/tp_calibration.py:249-253 | the fixed points of a pass are exactly the vectors in bounds with sum 1 |
| WeightProjection.PassesConverge | backend/app/tp_calibration.py:251-253 | after the first pass sum - 1 never changes sign and shrinks geometrically |
| WeightProjection.ProjectedWeights | backend/app/tp_calibration.py:249-253 | what is stored after 24 passes is in [0.02, 0.35], and its sum between 0.9555 and 1.000001 |
| WeightProjection.PassesKeepOrder | backend/app/tp_calibration.py:251-253 | order survives every pass |
| WeightProjection.BlendSum | backend/app/tp_calibration.py:245-248 | the blended weights sum to the same mixture of the prior's sum and one, a positive number |
| WeightProjection.BlendAt | backend/app/tp_calibration.py:245-248 | each weight moves a fifth of the way from its own stored value to its own share of the correlations |
| ScaleOutWalk.FindBreak | backend/scripts/high_conviction_runner_research.py:116-133 | the first bar that breaks the mark range |
| ScaleOutWalk.ScanBar | backend/scripts/high_conviction_runner_research.py:141-168 | one bar of the scan in the code's order of checks; what the legs come to is unchanged by scanning it |
| ScaleOutWalk.ScanAll | backend/scripts/high_conviction_runner_research.py:141-174 | the scan and the mark to market give the two legs of the specification |
| ScaleOutWalk.SegmentPicks | backend/scripts/high_conviction_runner_research.py:112-113 | the segment is exactly the bars after the mark and at most 25 minutes past it, each as often as given and in order |
| ScaleOutWalk.OutsideIsIgnored | backend/scripts/high_conviction_runner_research.py:112-113 | bars at or before the mark or past the deadline make no difference, wherever they stand |
| ScaleOutWalk.WalkWithoutTrade | backend/scripts/high_conviction_runner_research.py:108-134 | no result iff there is no range or no bar in the window; NO_TRIGGER iff every bar of it stays strictly inside the range |
| ScaleOutWalk.WalkSide | backend/scripts/high_conviction_runner_research.py:116-137 | the first bar outside the range decides the side, by its direction if it leaves on both, and the legs are walked from there, entered at the broken level |
| ScaleOutWalk.WalkScaleout | backend/scripts/high_conviction_runner_research.py:106-179 | the whole walk over the bars of that window: no result for an empty range or segment, NO_TRIGGER, or the two legs |
| ScaleOutWalk.TickWalk | backend/scripts/high_conviction_runner_research.py:106-179 | on one bar per tick the walk is the tick-level walk |
| ScaleOutWalk.BarsBelowTicks | backend/scripts/high_conviction_runner_research.py:141-174 | from the entry on, leg A on bars is at most leg A on any ticks inside them |
| ScaleOutWalk.NeverFlattersLegA | backend/scripts/high_conviction_runner_research.py:106-175 | on every tick path inside the bars the bar-level leg A is at most the tick-level one, equal unless the deciding bar is in doubt; both agree on NO_TRIGGER |
| ScaleOutWalk.DoubtIsReal | backend/scripts/high_conviction_runner_research.py:149-160 | whenever the deciding bar is in doubt some tick path inside the very same bars does strictly better |
| ScaleOutWalk.LegAExactIffNoDoubt | backend/scripts/high_conviction_runner_research.py:106-175 | leg A is independent of the order of ticks inside the bars iff the walk is not in doubt |
| ScaleOutWalk.LegBounds | backend/scripts/high_conviction_runner_research.py:136-174 | either both legs end alike below the target, or leg A filled and leg B is above -1 and at most +3 |
| ScaleOutWalk.BlendedBounds | backend/scripts/high_conviction_runner_research.py:136-179 | blended R is in [-1, 1.8]; above +0.2 once leg A filled, so a losing trade never had leg A filled |
| ScaleOutWalk.RunnerBelowTicks | backend/scripts/high_conviction_runner_research.py:157-168 | once leg A filled in an earlier bar, leg B on bars is at most leg B on any ticks inside them |
| ScaleOutWalk.NeverFlattersLegB | backend/scripts/high_conviction_runner_research.py:106-175 | leg B on bars is at most leg B on every tick path unless the bar that fills leg A comes back to the entry, opens below +3R and leg B ends in profit |
| ScaleOutWalk.FlatteryIsReal | backend/scripts/high_conviction_runner_research.py:157-174 | in that case some tick path inside the very same bars ends leg B flat where the bars report a profit |
| ScaleOutWalk.LegBConservativeIff | backend/scripts/high_conviction_runner_research.py:106-175 | leg B is conservative for every order of ticks inside the bars iff that case is absent |
| ScaleOutWalk.LegBCanBeFlattered | backend/scripts/high_conviction_runner_research.py:157-168 | a path that comes back to the entry before it runs to +3R ends flat while the bars report +3R |
| EvidenceLedger.EvidenceEngine.Stored | backend/calendar_evidence_acquisition/evidence_engine.py:370-373 | the first ledger entry with the id |
| EvidenceLedger.EvidenceEngine.Prior | backend/calendar_evidence_acquisition/evidence_engine.py:391-394 | the recorded inventories of exactly the entries of the same exchange and trading day, in ledger order, if all of these still hold their files; otherwise the first failure |
| EvidenceLedger.EvidenceEngine.Ingest | backend/calendar_evidence_acquisition/evidence_engine.py:324-425 | one ingest or dry run, write by write, cut off at any of them: the files, the ledger and the answer |
| EvidenceLedger.VerifyAllContents | backend/calendar_evidence_acquisition/evidence_engine.py:249-267 | entries that verify yield the contents their digests name, and entries whose files are there do verify |
| EvidenceLedger.IngestExtends | backend/calendar_evidence_acquisition/evidence_engine.py:324-425 | no ingest, cut off or not, changes a file that exists or an entry that is recorded |
| EvidenceLedger.IngestSound | backend/calendar_evidence_acquisition/evidence_engine.py:324-425 | one ingest, cut off anywhere, keeps the store sound |
| EvidenceLedger.RunSound | backend/calendar_evidence_acquisition/evidence_engine.py:324-425 | so does any run of ingests and crashes; the old ledger is a prefix of the new |
| EvidenceLedger.LedgerIsSound | backend/calendar_evidence_acquisition/evidence_engine.py:324-425 | from an empty store, after any run: entry ids are unique and every entry's raw and inventory files hold the recorded digests |
| EvidenceLedger.LedgerComparesTheDay | backend/calendar_evidence_acquisition/evidence_engine.py:391-395 | after any run: every entry was compared with the recorded inventories of exactly the earlier entries of its exchange and trading day, in ledger order, then its own |
| EvidenceLedger.FreshIffDayIntact | backend/calendar_evidence_acquisition/evidence_engine.py:391-395 | in any store, damaged ones included: new evidence whose own files fit goes through iff every entry of its exchange and day still holds its files; other days play no part |
| EvidenceLedger.InvalidIsRefused | backend/calendar_evidence_acquisition/evidence_engine.py:326-345 | empty or oversized evidence, and bytes that are not the claimed ones, are refused without a trace |
| EvidenceLedger.ForeignIsRefused | backend/calendar_evidence_acquisition/evidence_engine.py:367-369 | a ledger of another schema refuses everything valid |
| EvidenceLedger.KnownIffIntact | backend/calendar_evidence_acquisition/evidence_engine.py:370-373 | known evidence gets its entry back iff its recorded files are intact, and the ledger stays as it is |
| EvidenceLedger.FailureIs | backend/calendar_evidence_acquisition/evidence_engine.py:249-267 | why an entry does not verify: a missing file, other raw bytes, or another inventory, the raw file first |
| EvidenceLedger.KnownIsReturned | backend/calendar_evidence_acquisition/evidence_engine.py:364-373 | re-ingesting returns the stored entry and writes nothing |
| EvidenceLedger.NewIsIngested | backend/calendar_evidence_acquisition/evidence_engine.py:324-425 | new evidence goes through iff its two files are absent or already hold its bytes, and then the new state and the entry are exactly these |
| EvidenceLedger.DryRunAgrees | backend/calendar_evidence_acquisition/evidence_engine.py:364-415 | a dry run yields the entry an ingest would, up to the date |
| EvidenceLedger.AcceptedForGood | backend/calendar_evidence_acquisition/evidence_engine.py:364-373 | accepted evidence gets the same entry back after any later run |
| EvidenceLedger.RetrySucceedsIffNotTorn | backend/calendar_evidence_acquisition/evidence_engine.py:227-236 | a retry after a crash succeeds iff no write was cut short |
| EvidenceLedger.CommitIsAtomic | backend/calendar_evidence_acquisition/evidence_engine.py:277-292 | a crash in the ledger write leaves the old ledger or the new one |
| EvidenceLedger.RejectionIsKept | backend/calendar_evidence_acquisition/evidence_engine.py:416-421 | a rejection is written once and never enters the ledger; a crash in that write leaves it torn or whole |
| EvidenceLedger.TornRawIsForever | backend/calendar_evidence_acquisition/evidence_engine.py:227-236 | a raw file cut short is never repaired: every later ingest of those bytes is refused |
| SourceCache.StepKeeps | backend/calendar_evidence_acquisition/static_archives.py:72-104 | every step of every process, crashes included, keeps the cache consistent |
| SourceCache.FetchedAtMostOnce | backend/calendar_evidence_acquisition/static_archives.py:72-104 | across all crashes and races a URL is fetched at most once, and all successful acquires of it return the same record |
| SourceCache.SettledForever | backend/calendar_evidence_acquisition/static_archives.py:79-104 | a folder nobody is at work in never changes and its URL is never fetched again: complete, it answers every later acquire; incomplete, it refuses them |
| SourceCache.SoloRun | backend/calendar_evidence_acquisition/static_archives.py:79-104 | the steps of an uninterrupted acquire add up to the acquire as one function |
| SourceCache.SourceCache.Acquire | backend/calendar_evidence_acquisition/static_archives.py:79-104 | an existing folder answers from its files or raises; otherwise one fetch, checked for size, then raw bytes before metadata |
| SourceCache.SourceCache.Retain | backend/calendar_evidence_acquisition/static_archives.py:106-113 | importing checks the digest first, and returns a record only of exactly those bytes and status |
| SourceCache.RecordIsServed | backend/calendar_evidence_acquisition/static_archives.py:79-104 | a first acquire records what was fetched; every later one of the URL gets that record for the same specification, a conflict otherwise, and fetches nothing; an oversized source is refused for good |
| SourceCache.DamageIsSeen | backend/calendar_evidence_acquisition/static_archives.py:80-90 | a complete folder is served iff its bytes are the recorded ones |
| SourceCache.CompleteIsServed | backend/calendar_evidence_acquisition/static_archives.py:79-104 | from any reachable state with a complete folder that nobody is about to make, every later acquire of its specification gets its record, whatever happens |
| SourceCache.CrashedAcquire | backend/calendar_evidence_acquisition/static_archives.py:91-104 | an acquire that dies after making the folder leaves the URL incomplete; in the write of the metadata incomplete, corrupt or served |
| Reconcile.Report | backend/calendar_evidence_acquisition/official_eod.py:277-294 | a conflict is reported iff two rows share exchange, segment, day and a non-empty contract but differ in values, with every claim and all its provenance in reading order |
| Reconcile.FiledCollects | backend/calendar_evidence_acquisition/official_eod.py:287-291 | filing one row keeps every group exact |
| Reconcile.SourcesCount | backend/calendar_evidence_acquisition/official_eod.py:290-291 | every row of a key appears in the provenance of its claim exactly as often as it was read |
| Reconcile.OrderDoesNotMatter | backend/calendar_evidence_acquisition/official_eod.py:277-294 | the same rows in any order give the same conflicts and the same provenance |
| Reconcile.InventoriesInAnyOrder | backend/calendar_evidence_acquisition/official_eod.py:284-294 | the inventories in any order give the same conflicts, claims and provenance but for its order |
| Reconcile.InventoriesOnlyAdd | backend/calendar_evidence_acquisition/official_eod.py:284-294 | adding inventories, wherever they are put, removes no conflict |
| Reconcile.RowsInAnyOrder | backend/calendar_evidence_acquisition/official_eod.py:285-291 | the order of rows in an inventory does not matter |
| SignalDispatcher.TelegramDispatcher.Prune | backend/app/telegram_dispatcher.py:132-136 | keeps exactly the entries within the longer window, in order |
| SignalDispatcher.TelegramDispatcher.Dispatch | backend/app/telegram_dispatcher.py:162-211 | suppresses, or sends with the first other engine's agreement; a returned send, successful or not, leaves an entry, a raising one leaves neither entry nor record |
| SignalDispatcher.DispatchFaithful | backend/app/telegram_dispatcher.py:132-211 | a pruned dispatch decides as one over the full history and stays faithful to it |
| SignalDispatcher.PruningLosesNothing | backend/app/telegram_dispatcher.py:132-211 | with readings of which none comes back into the window of an earlier one, the pruned dispatcher answers every run of calls like one that keeps all history |
| SignalDispatcher.InOrderIsSteady | backend/app/telegram_dispatcher.py:132-136 | readings of a clock that never goes back are such |
| SignalDispatcher.PruningLosesNothingIff | backend/app/telegram_dispatcher.py:132-211 | for given readings of calls to one underlying, pruning loses nothing whatever the engines, directions and answers iff no reading comes back into the window of an earlier one |
| SignalDispatcher.ReturningReadingsDiffer | backend/app/telegram_dispatcher.py:132-211 | when one does, there are engines and answers for which the pruned dispatcher sends without the suppression or agreement that the full history gives |
| SignalDispatcher.DispatchByHistory | backend/app/telegram_dispatcher.py:162-211 | a call is suppressed iff an earlier call that left an entry has its key within the repeat window; otherwise the oldest other engine in the agreement window decides the banner |
| SignalDispatcher.RepeatsAreApart | backend/app/telegram_dispatcher.py:166-176 | a dispatch that is not suppressed is more than the repeat window after any dispatch of its key that left an entry |
| SignalDispatcher.RaisedSendDoesNotBlock | backend/app/telegram_dispatcher.py:201-203 | a send that raised leaves nothing: the next call of its key is not suppressed by it |
| SignalDispatcher.ClockGoingBackMisses | backend/app/telegram_dispatcher.py:132-136 | with the standard windows a clock step back loses the agreement of a signal still in the window |
| ExitReplay.FirstAtMost | backend/scripts/hybrid_mp_bias_audit.py:96 | the first tick at or below a level |
| ExitReplay.FirstAtLeast | backend/scripts/hybrid_mp_bias_audit.py:97 | the first tick at or above a level |
| ExitReplay.EvalScaleBe | backend/scripts/hybrid_mp_bias_audit.py:92-107 | the loop over first-hit indices ends after at most four targets with the exit of the tick-by-tick simulation, for every path and all levels |
| ExitReplay.ScaleBeExplained | backend/scripts/hybrid_mp_bias_audit.py:92-107 | for ordered levels the hits are exactly the targets the path reaches up to the exit, and the exit tick is at the stop in force, at T4 or the last |
| ExitReplay.FillsBalance | backend/scripts/hybrid_mp_bias_audit.py:93-107 | the closed fractions add up to one and the profit is theirs |
| ExitReplay.ScaleBeBounds | backend/scripts/hybrid_mp_bias_audit.py:92-107 | a trade loses at most its risk, earns at most all targets, and cannot lose once T1 is hit |
| ExitReplay.OrderMattersIffTies | backend/scripts/hybrid_mp_bias_audit.py:94-107 | checking target or stop first is the same for every path iff no target lies at or below the stop in force |
| ExitReplay.EntryAboveTarget | backend/scripts/hybrid_mp_bias_audit.py:92-107 | an entry filled above T1 books a losing quarter and stops out on the same tick |
| ExitReplay.NoLossOnceHitIff | backend/scripts/hybrid_mp_bias_audit.py:92-107 | with ascending targets, a trade that hit T1 loses on no path iff it was entered at T1 or below |
| ExitReplay.EvalPine | backend/scripts/hybrid_mp_bias_audit.py:82-91 | all or nothing: whichever of stop and T4 comes first, the stop on a tie |
| ExitReplay.PineByFirstHits | backend/scripts/hybrid_mp_bias_audit.py:82-91 | on every path, by first-hit indices: the stop if it is touched no later than T4, T4 if sooner, else the last tick |
| ExitReplay.PineAgrees | backend/scripts/hybrid_mp_bias_audit.py:82-107 | both modes agree when no target or all targets were hit |
| EquityCurve.Pruned | backend/scripts/hybrid_mp_portfolio_math.py:44 | the exits still ahead |
| EquityCurve.OpenListCounts | backend/scripts/hybrid_mp_portfolio_math.py:43-47 | the pruned list of exits counts the taken trades open at any later instant |
| EquityCurve.NeverMoreThanCap | backend/scripts/hybrid_mp_portfolio_math.py:43-47 | with events sorted by entry, or in any other order in which no entry is later than one before and one behind it, at every instant at most cap_conc taken trades are open |
| EquityCurve.SortedIsValley | backend/scripts/hybrid_mp_portfolio_math.py:30-33 | sorted events are in such an order |
| EquityCurve.TakenIffRoom | backend/scripts/hybrid_mp_portfolio_math.py:43-47 | a trade is passed over iff cap_conc taken ones are open at its entry |
| EquityCurve.CapHoldsIff | backend/scripts/hybrid_mp_portfolio_math.py:43-47 | and these are exactly the orders in which the cap is kept for all exits and caps |
| EquityCurve.Equity | backend/scripts/hybrid_mp_portfolio_math.py:38-54 | final equity as the product of one plus the returns, running drawdown, day returns and curve of the taken trades; the drawdown is the pairwise maximum iff equity stays non-negative or falls deepest before it was at another positive value than 1 |
| EquityCurve.CurveIsGrowth | backend/scripts/hybrid_mp_portfolio_math.py:48-49 | equity after any number of taken trades is the product of one plus their returns |
| EquityCurve.RunningIsMaximal | backend/scripts/hybrid_mp_portfolio_math.py:50-51 | the running-peak drawdown is the greatest fall between any two points of a non-negative curve |
| EquityCurve.NoRuin | backend/scripts/hybrid_mp_portfolio_math.py:48-49 | returns of at least -100 % keep equity non-negative |
| EquityCurve.RunningIsMaximalIff | backend/scripts/hybrid_mp_portfolio_math.py:50-51 | on every curve the running-peak drawdown is the greatest fall iff equity is never below zero or falls deepest, for where it fell from, before it was at another positive value than 1 |
| EquityCurve.FirstRuin | backend/scripts/hybrid_mp_portfolio_math.py:50-51 | at the first point below zero the running drawdown is the fall from the peak, and the greatest fall iff equity had been at no other positive value than 1; otherwise some fall exceeds it from then on, whatever follows |
| EquityCurve.RuinIsUnderstated | backend/scripts/hybrid_mp_portfolio_math.py:43-51 | two trades after which the running peak understates the drawdown |
| EquityCurve.LedgerDrawdown | backend/data/autoscalp_reversal_block_ledger.py:56-60 | the running-peak loop finds the least total of any stretch of consecutive trades, the empty one included |
| EquityCurve.WorstRunGrows | backend/data/autoscalp_reversal_block_ledger.py:57-60 | one more trade keeps that |
| RestThrottle.MarketHub.Throttle | backend/app/market_hub.py:56-67 | granted iff the key's time-to-live and the global gap have passed; a grant records both times, a refusal nothing |
| RestThrottle.GrantsAreSpaced | backend/app/market_hub.py:56-67 | consecutive grants are a gap apart, those of one key its time-to-live, even with clock readings out of order |
| RestThrottle.RateBound | backend/app/market_hub.py:56-67 | every window of length W holds at most floor(W / gap) + 1 grants, and at most floor(W / ttl) + 1 for one key |
| RestThrottle.WithinCounts | backend/app/market_hub.py:56-67 | what is counted in a window are the grants in it, both ends included |
| RestThrottle.GrantedIff | backend/app/market_hub.py:56-67 | from a fresh process on, after any calls: granted iff the slice's own time-to-live has passed since the last grant of the key and the gap since the last grant at all |
| RestThrottle.CaptureServes | backend/app/market_hub.py:381-398 | without a live fallback a provider serves from its capture alone, if its alias can be resolved |
| RestThrottle.LiveServes | backend/app/market_hub.py:388-398 | with one, from its capture, or live and granted where it has none or would roll |
| RestThrottle.MarketHub.GetChain | backend/app/market_hub.py:378-419 | the first provider that serves is used; the throttle is asked at most once, only when a capture is missing, and without a grant nothing is fetched |

## Left out

- Rounding of reported figures: the final `round` of k, b, weights, R multiples and drawdowns, and floating-point error throughout.
- SQLite, rclone, the file system, flock and HTTP: only atomic commit, atomic replace, verified upload, exclusive creation and a crash between or inside writes remain.
- Retention: the `ts` kind of time column is compared by its day like the `day` kind, `shrink`, alerts and sizes in bytes are not modelled; a quota answer stands for `used_bytes() + size`.
- DataRetention.PassTiles: ids start at 1, as SQLite assigns them; `ZeroIdMixesDays` shows why. Days never decrease along the id, as the source says of its inserts.
- LeaderLease: one shared clock that never goes back; `lease_acquire` failing on a database error is a refusal. `stop` releases the lease before its loop task has ended; a loop iteration still running then is a new acquire of the same process. Raising a flag between the SELECT and the DELETE of the same process is allowed here, although one event loop runs both.
- BrokerMirror: rows of other strategies, the list limits of 300 and 500, prices and marks, and closes or openings by other code. The list order (newest first) is modelled, timestamps are not.
- BrokerMirror.MirrorsAreConfirmed: BROKER_REALISED closes are an iff only for tokens never listed as open and round-turned at once; the counts start with the process. The row insertion raises where `open_trade` does, for an entry price or quantity that is not positive; other exceptions and timeouts inside a pass are left out.
- SmartStop.StopFollowsPeak: for positive quantities, which is what the callers store; `NeverLoosens` holds for any. Candidates are rounded on the exact quotient, not on its binary approximation.
- ConfigMerge: the keys of the default configuration are a parameter, of which only the execution fields are fixed; JSON text is read back as written; a stored value that is valid JSON but not an object, which makes `get_config` raise, is not modelled. Upper-casing covers the characters that can occur in a mode.
- CalibrationFit: the clamped smoothing of the rate, the logarithm and the minimum bucket size only choose the points; the clamped (k, b) that is stored is not claimed optimal. The square root enters as a number whose square is va * vb.
- WeightProjection.BlendSum: the raw correlations enter already cut at zero, with the positive total the source checks for.
- WeightProjection.PassOrder: order is kept only while the sum is not negative; `BlendSum` shows that the source's first pass divides by a positive sum.
- ScaleOutWalk: the best excursion (mfe) and the other reporting fields.
- ExitReplay.EvalScaleBe: the path is not empty, since the source answers NaN for an empty one before this code; the same for `EvalPine`. Picking entry and end samples and the division by the risk are left out.
- EquityCurve.Equity: CAGR, Sharpe, building and sorting the event stream, win rates and averages. The return of a trade is an input.
- EvidenceLedger: parsing, filename and URL rules, the pandas filter and the other fields of an entry; the parser's inventory and dates are inputs, so nothing here assumes it is deterministic. Dry runs that overlap an ingest in progress see one of its intermediate stores, each of which is a store after a crash.
- EvidenceLedger and SourceCache take SHA-256 to be injective.
- Reconcile: the order of keys and claims in the report, which follows insertion order in the source.
- SignalDispatcher: banner text, structural-break state and message ids. The file's docstring says every send failure is swallowed; the code lets an exception of the send through, and the model follows the code.
- RestThrottle: a grant bounds requests, not calls; one granted chain request may call every provider. What captures and providers answer is an input, the check of an explicit expiry included.
- Routes, WebSocket handling, authentication, broker and Telegram clients, order management, browser acquisition, dashboards and statistics scripts are I/O, presentation or reporting.
