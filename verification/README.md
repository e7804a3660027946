# Verified model of the irrigation backend's claims, ingest and read paths

The backend runs periodic scans and device ingest over shared database rows. Most of its
guarantees rest on one idiom, a conditional UPDATE of a nullable timestamp that at most one
worker wins, and on keeping observability writes and stale snapshots from harming the data
they accompany. This project models that logic in Dafny and proves what it promises.

`dafny verify dfyconfig.toml` checks everything.

## Modules

| file | what it models |
|---|---|
| `stamps.dfy` | instants in microseconds, nullable columns, ordered selection |
| `throttle.dfy` | the grace claim on one row and on a table, any order of references |
| `proactive.dfy` | overlapping proactive scans: read, claim, send, restore |
| `health.dfy` | the device-health scan and runs of it |
| `health_overlap.dfy` | overlapping device-health scans, each one transaction |
| `irrigation.dfy` | scheduled programs, the two-UPDATE claim, overlapping ticks |
| `dispatch.dfy` | alert dispatch, the Django engine and its SQLAlchemy port |
| `history.dfy` | guarded history writes in the caller's Postgres transaction |
| `calibration.dfy` | batch load of calibrations and correction of values and means |
| `sensors.dfy` | device-keyed ownership, the raw and the hourly read surface |
| `compute.dfy` | the hourly upsert by (zone, timestamp) |
| `surfaces.dfy` | what an alert is judged by against what the read path serves |
| `ingest.dfy` | lazy device registration, uplink attribution, Bivocom routing |

Tables are sequences, maps or class fields; each SQL statement is one atomic step. Protocols
that interleave are step machines proved over every run; loops that run alone are methods
proved against specification functions, about which the lemmas are then stated.

## Where the code and its promises differ

- A nudge's reference is spaced from the previous one's only while every attempt finishes
  within the cooldown of its own reference. `Proactive.SpacedExactlyWithinDeadline` gives
  that bound as an if-and-only-if and `Proactive.StalledScanDeliversTwice` the run that
  breaks it. The mails themselves may leave closer together, by exactly the time an attempt
  may take (`Proactive.SendsSpacedExactly`).
- A failed nudge rolls its claim back "so a later tick can retry". Over every run with at
  most `n` attempts in flight that holds exactly when no two attempts overlap and none dies
  between its claim and its outcome (`Proactive.RetriableExactlyAlone`). Two crossed failures
  use up the cooldown with nothing delivered (`Proactive.CrossedFailuresBlockRetry`), and so
  does one scan dying with its claim (`Proactive.AbandonedRun`): nothing ever takes that stamp
  back. Overlap alone does no harm while no scan reads an unsettled claim and attempts finish
  within the cooldown (`Proactive.CleanlyRetriableExactlyWithinDeadline`).
- The device-health scan makes the same promise and is one transaction, so its row lock keeps
  unsettled claims unread: any number of scans may overlap while each ends within the
  cooldown. The price is the other way round: a scan that dies after an email and before its
  commit takes the claim back with it, and the email is repeated at once
  (`HealthOverlap.TruthfulExactlyWithinDeadline`, `HealthOverlap.SpacedExactlyWithinDeadline`).
- `run_due_irrigation_programs` compares the start time with the reference's own date, so it
  never looks back across midnight. On the two-minute beat a program is reached exactly when
  it starts no later than 23:58:00 (`Irrigation.BeatReachesProgram`).
- The history module's documentation says a history failure cannot poison the caller's
  transaction. `History.CallerSurvivesIffNothingAborts` says exactly when that holds: it does
  not when the server rejects SAVEPOINT itself, when the rollback to the savepoint fails on
  an aborted transaction, or when one of the reads of `record_notification_decision`, which
  run under a `best_effort` without a savepoint, fails on the server.
- The alert path says it cannot disagree with the dashboard. It converts to the registry's
  unit and the read path to the stream's: on one unit they always agree
  (`Surfaces.JudgedIsServed`), on two exactly when both come to one map
  (`Surfaces.AgreeIffOneMap`).
- The hourly surface corrects an hour's mean by the calibration of the hour's last row. It
  agrees with the raw surface for every measurement exactly when all rows of the hour have
  that same correction (`Sensors.MixedHourAgreesIffSameMap`).

## Model

| member | source | states |
|---|---|---|
| `Throttle.WinnersAreThrottled` | back/src/fastapp/ingest.py:533-549 | in any order of captured references each win exceeds the stamp it found by more than its own grace, and the row ends at the last winner |
| `Throttle.RowsAreIndependent` | back/src/fastapp/ingest.py:539-549 | any interleaving of workers over many rows is, row by row, the single-row claim on that row's attempts |
| `Throttle.ConcurrentClaimsAreThrottled` | back/src/fastapp/ingest.py:510-549 | over every interleaving stamps strictly increase and n wins span more than (n-1) graces |
| `Throttle.ClaimIsThinning` | back/src/fastapp/ingest.py:533-549 | the claim keeps exactly the earliest allowed reading after each kept one |
| `Throttle.WinningTimesAreLegal` | back/src/fastapp/ingest.py:537-549 | what goes out is a subsequence of the readings with every gap above the grace |
| `Throttle.ThrottleIsOptimal` | back/src/fastapp/ingest.py:537-549 | over time-ordered readings no subsequence respecting the grace is longer |
| `Throttle.OptimalityNeedsOrder` | back/src/fastapp/ingest.py:510-549 | with references out of order a longer legal history can exist |
| `Throttle.StampIsLastWin` | back/src/fastapp/ingest.py:546-546 | the column always holds the last win |
| `Proactive.ClaimKeepsInv` | back/src/fastapp/tasks_scan.py:254-270 | a winning claim excludes any other unsettled claim and a too recent delivery |
| `Proactive.SendKeepsInv` | back/src/fastapp/tasks_scan.py:282-293 | a delivery keeps deliveries spaced and is too recent for every scan already reading |
| `Proactive.RestoreKeepsInv` | back/src/fastapp/tasks_scan.py:294-300 | the restored stamp is no earlier than the last delivered nudge |
| `Proactive.StepKeepsInv` | back/src/fastapp/tasks_scan.py:240-310 | mutual exclusion, covered deliveries and spacing survive every step, including a dying worker |
| `Proactive.NudgesAreSpaced` | back/src/fastapp/tasks_scan.py:240-310 | over every interleaved run with attempts finishing within the cooldown, the references of delivered nudges are more than 24 h apart |
| `Proactive.StalledScanDeliversTwice` | back/src/fastapp/tasks_scan.py:282-300 | with any longer deadline a stalled scan's stale restore lets out two nudges of one reference at one instant |
| `Proactive.SpacedExactlyWithinDeadline` | back/src/fastapp/tasks_scan.py:240-310 | references are spaced over every run if and only if the deadline is at most the cooldown |
| `Proactive.SendsSpacedExactly` | back/src/fastapp/tasks_scan.py:240-310 | over every run any two nudges leave more than a gap apart if and only if deadline and gap together fit in the cooldown |
| `Proactive.SoloAttempt` | back/src/fastapp/tasks_scan.py:240-310 | an attempt alone is a run of the machine; a failed one leaves the ledger as it was |
| `Proactive.RetriableExactlyAlone` | back/src/fastapp/tasks_scan.py:294-300 | over every run with at most n attempts in flight, the settled row holds the last delivered reference or its initial stamp if and only if n = 0, or n = 1 and no worker dies holding its claim |
| `Proactive.CleanlyRetriableExactlyWithinDeadline` | back/src/fastapp/tasks_scan.py:252-300 | with any number of overlapping attempts, none reading an unsettled claim, the same holds if and only if the deadline is at most the cooldown |
| `Proactive.CrossedFailuresBlockRetry` | back/src/fastapp/tasks_scan.py:252-300 | the run that needs n = 2: two crossed failures block every retry for a whole cooldown with nothing delivered |
| `Proactive.AbandonedRun` | back/src/fastapp/tasks_scan.py:254-300 | the run that needs a death: a worker dying with its claim leaves the stamp of a nudge that never went out, alone on the row |
| `Proactive.Scanner.Nudge` | back/src/fastapp/tasks_scan.py:214-310 | one customer: verdict by first applicable reason; only a delivery moves that ledger row and no other |
| `Proactive.Scanner.ScanProactiveInsights` | back/src/fastapp/tasks_scan.py:180-317 | scanned = notified + quiet + skipped, and the whole ledger afterwards, also of users outside the scan |
| `Proactive.VerdictsMean` | back/src/fastapp/tasks_scan.py:214-310 | each verdict as an if-and-only-if over address, advice, stamp and provider: a nudge goes out exactly on advice to irrigate |
| `Proactive.NudgesAreThrottled` | back/src/fastapp/tasks_scan.py:214-300 | over any run of scans a customer is nudged exactly as the throttle lets the deliverable advice to irrigate through, and the ledger ends at the last nudge |
| `Proactive.NudgesAreMaximal` | back/src/fastapp/tasks_scan.py:240-300 | over ordered scans no schedule respecting the cooldown nudges more often |
| `DeviceHealth.ClassifyDeviceHealth` | back/src/fastapp/tasks_scan.py:34-51 | offline exactly when never seen or silent for more than 24 h, low battery exactly when under 3.4 V |
| `DeviceHealth.Latest` | back/src/fastapp/tasks_scan.py:84-90 | the newest uplink of the serial, if it has one |
| `DeviceHealth.Scanner.Claim` | back/src/fastapp/tasks_scan.py:111-124 | the row is stamped exactly when its stamp was null or older than the cutoff |
| `DeviceHealth.Scanner.ScanDevice` | back/src/fastapp/tasks_scan.py:82-164 | one device: verdict, stamp moved only by a delivery, one log row per send |
| `DeviceHealth.Scanner.ScanDeviceHealth` | back/src/fastapp/tasks_scan.py:54-171 | scanned = healthy + notified + skipped, all stamps and the whole delivery log |
| `DeviceHealth.VerdictsMean` | back/src/fastapp/tasks_scan.py:82-155 | each verdict as an if-and-only-if over the latest uplink, its battery, the owner's address, the stamp and the provider |
| `DeviceHealth.LogRowMeans` | back/src/fastapp/tasks_scan.py:137-164 | a log row names the owner and the owner's address, and says sent exactly for a notification |
| `DeviceHealth.LogMatchesCounters` | back/src/fastapp/tasks_scan.py:137-171 | over a scan the sent rows number the notifications and the failed rows the refusals |
| `DeviceHealth.EmailsAreThrottled` | back/src/fastapp/tasks_scan.py:110-155 | over any run the claim-send-rollback is the plain throttle on the deliverable scans |
| `DeviceHealth.StampIsLastEmail` | back/src/fastapp/tasks_scan.py:110-155 | after any run the stamp is the reference of the last delivered email |
| `DeviceHealth.EmailsAreSpaced` | back/src/fastapp/tasks_scan.py:108-124 | the references of emails to a device are more than the cooldown apart |
| `DeviceHealth.EmailsAreMaximal` | back/src/fastapp/tasks_scan.py:108-155 | over ordered scans no schedule respecting the cooldown delivers more |
| `DeviceHealth.FailedSendIsRetriable` | back/src/fastapp/tasks_scan.py:148-155 | after a failed send the next scan that can deliver does |
| `HealthOverlap.ClaimKeepsInv` | back/src/fastapp/tasks_scan.py:110-124 | a winning claim over a row read at the start of the scan still read the settled stamp |
| `HealthOverlap.StepKeepsInv` | back/src/fastapp/tasks_scan.py:62-164 | mutual exclusion, settled stamps and spacing survive every step of overlapping scans |
| `HealthOverlap.TruthfulExactlyWithinDeadline` | back/src/fastapp/tasks_scan.py:62-155 | over every run of overlapping scans the column between scans is the last emailed reference or its initial stamp if and only if scans end within the cooldown and none dies between an email and the commit |
| `HealthOverlap.SpacedExactlyWithinDeadline` | back/src/fastapp/tasks_scan.py:62-155 | the references of emails are more than the cooldown apart over every run under exactly that condition |
| `HealthOverlap.SendsSpacedExactly` | back/src/fastapp/tasks_scan.py:62-155 | the emails leave more than a gap apart over every run if and only if deadline and gap fit in the cooldown and no email is lost |
| `Irrigation.Scheduler.ClaimIfNull` | back/src/fastapp/tasks_scan.py:371-379 | stamps the row exactly when it never ran |
| `Irrigation.Scheduler.ClaimIfOlder` | back/src/fastapp/tasks_scan.py:380-388 | stamps the row exactly when its last run is before the window |
| `Irrigation.Scheduler.RunProgram` | back/src/fastapp/tasks_scan.py:351-420 | one program: at most one stamp and one command, exactly when due and not fired in the window |
| `Irrigation.Scheduler.RunDuePrograms` | back/src/fastapp/tasks_scan.py:327-422 | every row, every command and both counters after one tick, dispatch on or off |
| `Irrigation.TickCommands` | back/src/fastapp/tasks_scan.py:393-415 | a tick commands the zone of each program it fires, for its user, at the reference, in id order |
| `Irrigation.WeekdayIsIso` | back/src/fastapp/tasks_scan.py:340-340 | the weekday of a date is its place in the ISO week that holds it |
| `Irrigation.DueExactly` | back/src/fastapp/tasks_scan.py:349-364 | a program is due at a time of a date exactly when enabled, the ISO weekday is listed, and it started at most fifteen minutes ago |
| `Irrigation.NoCommandOffDays` | back/src/fastapp/tasks_scan.py:349-357 | over any run of ticks no command falls on a date whose ISO weekday is not listed, or of a disabled program |
| `Irrigation.FiresAreThrottled` | back/src/fastapp/tasks_scan.py:359-391 | over ticks in any order a program is throttled by the window on its due ticks |
| `Irrigation.SameDateIffClose` | back/src/fastapp/tasks_scan.py:359-364 | two due instants share a date exactly when at most a window apart |
| `Irrigation.ExactlyOncePerDate` | back/src/fastapp/tasks_scan.py:345-403 | over any ordered run of ticks, from any last run, one command on each date with a due tick finding it older than the window, none on other dates |
| `Irrigation.OnceOnEachFreshDate` | back/src/fastapp/tasks_scan.py:345-403 | when the last run was in the window too, the only due date left out is its own |
| `Irrigation.BeatReachesProgram` | back/src/fastapp/celery_app.py:108-111 | on the even-minute beat a program is reached on an allowed date if and only if it starts by 23:58:00 |
| `Irrigation.StepActsAtomically` | back/src/fastapp/tasks_scan.py:366-391 | each step of overlapping ticks keeps the row equal to one atomic claim per decided attempt |
| `Irrigation.TwoStepClaimIsAtomic` | back/src/fastapp/tasks_scan.py:366-391 | over every interleaving, stale pre-checks and out-of-order references, the two UPDATEs refine one "null or older" claim |
| `Irrigation.OverlappingFiresAreSpaced` | back/src/fastapp/tasks_scan.py:366-391 | successive fires are more than the window apart and the row holds the last one |
| `Dispatch.IndexMatchesConcern` | back/src/fastapp/ingest.py:444-484 | selection through the collected ids and the three-way OR is the per-alert definition |
| `Dispatch.AlertStore.Claim` | back/src/fastapp/ingest.py:539-549 | stamps the one row of the id exactly when null or older than the cutoff |
| `Dispatch.AlertStore.PortOne` | back/src/fastapp/ingest.py:517-596 | one alert of the port: claim, history, channels |
| `Dispatch.AlertStore.DispatchPort` | back/src/fastapp/ingest.py:429-616 | the count returned, the table, the queue and the history after one reading |
| `Dispatch.AlertStore.DjangoOne` | back/src/apps/alerts/engine.py:221-271 | one alert of the Django loop |
| `Dispatch.AlertStore.DispatchDjango` | back/src/apps/alerts/engine.py:156-291 | the count, the table and the queue after one reading, for any row order |
| `Dispatch.StampedExactlyWhenEligible` | back/src/fastapp/ingest.py:475-549 | a row is stamped exactly when its rule concerns the reading, is triggered, has a channel and is past its grace; all others keep their stamps |
| `Dispatch.JudgedByOwnCalibration` | back/src/fastapp/ingest.py:486-508 | a device's reading is judged under its own stored calibration in the registry's unit, any other by its raw value |
| `Dispatch.FiresExactly` | back/src/fastapp/ingest.py:475-549 | a rule fires exactly when every condition of the loop holds, in seconds and fields, and then only its two stamps move |
| `Dispatch.EventsAreSnapshots` | back/src/fastapp/ingest.py:551-577 | one history row per recorded winner, in order, holding the rule, the reading, the judged value, the unit and the channels |
| `Dispatch.ChannelsBiject` | back/src/fastapp/ingest.py:582-595 | WhatsApp and SMS tasks are one per winner that opted in, in order |
| `Dispatch.OneMailForTheWinners` | back/src/fastapp/ingest.py:598-614 | at most one mail task per reading, announcing exactly the winners with email in id order, with the judged value, a digest exactly when there are several |
| `Dispatch.DjangoAgreesWithPort` | back/src/apps/alerts/engine.py:180-291 | on a device-less reading both programs win the same alerts, write the same table and send the same messages up to order |
| `Dispatch.RunIsThrottled` | back/src/fastapp/ingest.py:439-549 | over any run of readings a rule fires exactly as the throttle on its own eligible readings |
| `Dispatch.FiringIsOptimal` | back/src/fastapp/ingest.py:517-549 | on ordered readings no history respecting the grace fires more often |
| `Surfaces.JudgedIsServed` | back/src/fastapp/ingest.py:488-492 | on equal native units the value an alert is judged by is the value the raw surface serves for that reading |
| `Surfaces.AgreeIffOneMap` | back/src/fastapp/sensors.py:642-664 | on any units the two agree on every measurement if and only if both apply one map |
| `History.Session.BestEffortInsert` | back/src/fastapp/history.py:75-99 | raises exactly when the savepoint could not be opened; the transaction after every combination of faults |
| `History.Session.InsertGuarded` | back/src/fastapp/history.py:201-219 | never raises, whatever the probe and the insert do |
| `History.Session.RecordAlertEvent` | back/src/fastapp/history.py:222-239 | never raises, and writes nothing when the row could not be built |
| `History.HarmlessExactlyWhenContained` | back/src/fastapp/history.py:86-99 | the guarded write adds its row or leaves no trace if and only if SAVEPOINT was not rejected and a needed rollback worked |
| `History.CallerSurvivesIffNothingAborts` | back/src/fastapp/history.py:27-39 | over every interleaving the caller can commit with all its writes in order if and only if no operation aborts |
| `History.HistoryGainsExactlyTheLanded` | back/src/fastapp/history.py:201-239 | the history gains exactly the successful inserts, in order, and no savepoint stays open |
| `History.BareReadCostsEarlierWrites` | back/src/fastapp/history.py:444-459 | a read failing outside a savepoint loses what the caller had written, a guarded insert failing the same way does not |
| `Calibration.BatchLoadIsLookup` | back/src/fastapp/calibration.py:78-116 | the two-IN batch load equals a single lookup for every wanted key and is absent for all others |
| `Calibration.CorrectionIsAffine` | back/src/fastapp/calibration.py:119-152 | every branch of the correction is one affine map, and a missing value stays missing |
| `Calibration.CorrectionMeans` | back/src/fastapp/calibration.py:119-152 | raw unless an active calibration is stored; then scale and offset, converted exactly when the units differ and can be converted |
| `Calibration.MeanCommutes` | back/src/fastapp/sensors.py:464-470 | correcting the mean is averaging the corrected values, nulls skipped |
| `Calibration.MeansAgreeIffOneMap` | back/src/fastapp/sensors.py:464-470 | that holds for all values if and only if every row has the map applied to the mean |
| `Sensors.EffectiveOwner` | back/src/fastapp/sensors.py:426-447 | the Python owner resolution is the SQL COALESCE over the device join |
| `Sensors.OwnerIsDeviceThenRow` | back/src/fastapp/sensors.py:426-447 | a known device's owner and zone count, each missing one made up for by the row's own |
| `Sensors.Store.WriteReading` | back/src/fastapp/ingest.py:362-386 | appends one reading under a fresh id, which is the write of the run lemmas, and touches no other |
| `Sensors.Store.Assign` | back/src/fastapp/routers/devices.py:267-279 | is the transfer of the run lemmas: repoints a known device and rewrites no reading |
| `Sensors.BatchServesRow` | back/src/fastapp/sensors.py:642-656 | the batch-loaded map serves each row its own device's calibration |
| `Sensors.Store.RawReadings` | back/src/fastapp/sensors.py:590-666 | the raw surface is the selected rows, each with its resolved owner and its own correction |
| `Sensors.Store.CalibrationsForBuckets` | back/src/fastapp/sensors.py:560-587 | each bucket gets the calibration of the device behind its last row |
| `Sensors.Store.HourlyReadings` | back/src/fastapp/sensors.py:450-557 | the hourly surface, one corrected mean per clock hour with rows |
| `Sensors.HourlyPointsAreClockHours` | back/src/fastapp/sensors.py:535-557 | a point stands at a clock hour and carries the greatest row id of that hour |
| `Sensors.EveryRowHasItsHour` | back/src/fastapp/sensors.py:525-557 | every selected row falls in the hour of a point |
| `Sensors.HourlyReportsTheirSelector` | back/src/fastapp/sensors.py:492-519 | every point reports the client and the zone asked for, or else the zone the first owned row's device is in now |
| `Sensors.HourlyFollowsTransfer` | back/src/fastapp/sensors.py:514-519 | after a device's last transfer the new owner's series that starts with it names its new zone |
| `Sensors.HourlyIsMeanOfRaw` | back/src/fastapp/sensors.py:535-587 | an hour fed by one device has as its point the mean of its corrected raw points |
| `Sensors.MixedHourAgreesIffSameMap` | back/src/fastapp/sensors.py:464-470 | with several devices the surfaces agree on all values exactly when all corrections are the last row's |
| `Sensors.SelectionIsOrdered` | back/src/fastapp/sensors.py:640-640 | the raw surface comes in time order, drops and repeats no selected row, and keeps the stored order within one instant |
| `Sensors.SelectedExactly` | back/src/fastapp/sensors.py:606-641 | a row is served exactly when its resolved owner, its zone and its UTC date were asked for |
| `Sensors.RangesTile` | back/src/fastapp/sensors.py:609-641 | adjacent inclusive date ranges concatenate to the whole range, nothing lost or doubled at midnight |
| `Sensors.RunAppendsReadings` | back/src/fastapp/routers/devices.py:264-279 | over any run of writes and transfers readings are only appended, in order |
| `Sensors.DeviceEndsAtLastTransfer` | back/src/fastapp/routers/devices.py:267-279 | a device ends where its last transfer put it |
| `Sensors.OwnershipFollowsDevice` | back/src/fastapp/sensors.py:607-609 | a transferred device's readings belong to its last assignee, written before or after |
| `Sensors.VisibleToExactlyOneUser` | back/src/fastapp/sensors.py:606-641 | a client sees a reading exactly when it is the resolved owner |
| `Sensors.TransferMovesOnlyItsReadings` | back/src/fastapp/routers/devices.py:264-279 | a transfer changes what any client sees for exactly that device's readings |
| `Sensors.RowsReportTheirSelector` | back/src/fastapp/sensors.py:673-697 | every row reports the user, and the zone when filtered, it was selected by, with its own id and time |
| `Compute.ValueTable.UpsertValue` | back/src/fastapp/tasks_compute.py:40-51 | raises on several matching rows, else overwrites the one or appends |
| `Compute.HourlyJob.ComputeHourly` | back/src/fastapp/tasks_compute.py:54-88 | both tables and the counters after one run |
| `Compute.RunStoresItsResults` | back/src/fastapp/tasks_compute.py:60-83 | after a run each zone with a result holds its own ET0 and its own VPD at its hour, and no other entry changed |
| `Compute.MatchesCountRows` | back/src/fastapp/tasks_compute.py:42-44 | an upsert raises exactly when two rows carry the key |
| `Compute.UpsertUpdatesMap` | back/src/fastapp/tasks_compute.py:40-51 | an upsert is a map update |
| `Compute.UpsertsAreLastWriteWins` | back/src/fastapp/tasks_compute.py:54-83 | any sequence keeps one row per (zone, timestamp) and equals the last-write-wins map |
| `Compute.RerunChangesNothing` | back/src/fastapp/tasks_compute.py:57-58 | rerunning with the same results leaves the table identical |
| `Ingest.Gateway.ResolveDevice` | back/src/fastapp/ingest.py:303-344 | the device id always comes back; owner and zone only when active and assigned |
| `Ingest.Gateway.HandleUplink` | back/src/fastapp/ingest.py:761-805 | every metric is written once under the owner or the catch-all and carries the device id |
| `Ingest.FirstUplinkIsUnassigned` | back/src/fastapp/ingest.py:275-300 | the first uplink of an unknown serial registers it under the placeholder and goes to the catch-all |
| `Ingest.AttributionFollowsLastEdit` | back/src/fastapp/ingest.py:303-344 | over any run of registrations and edits uplinks keep the device id and go to the owner and zone of its last edit when active and in a zone, else to the catch-all |
| `Ingest.IdentityIsStable` | back/src/fastapp/ingest.py:275-300 | over any run of registrations and edits serials stay unique and a device keeps its id |
| `Ingest.RacingRegistrationsAgree` | back/src/fastapp/ingest.py:336-344 | two workers meeting an unknown serial come away with the same id |
| `Ingest.Gateway.RouteAndWrite` | back/src/fastapp/ingest.py:894-918 | one tag is written, or skipped for the first reason that applies |
| `Ingest.Gateway.HandleBivocom` | back/src/fastapp/ingest.py:822-946 | 404 and 422 exactly when they apply; otherwise inserted + skipped = tags, each written once or skipped with its reason |
| `Ingest.SkippedExactlyUnrouted` | back/src/fastapp/ingest.py:892-908 | exactly the unrouted tags are reported, each with its reason |
| `Ingest.SkippedForTheReasonGiven` | back/src/fastapp/ingest.py:892-908 | a tag is reported with a reason exactly when it came and that reason is the one that holds of it |
| `Ingest.SkippedExactlyFor` | back/src/fastapp/ingest.py:893-908 | the four reasons, from the mapping in force, the registry and the zones alone |
| `Ingest.TagOutcome` | back/src/fastapp/ingest.py:893-918 | a tag that is not skipped leaves exactly the row of its mapping: its key, the mapping's zone or else the device's, the tag's value |
| `Ingest.WrittenRowsOfTags` | back/src/fastapp/ingest.py:890-918 | an uplink writes one such row per tag with no reason to be skipped, in tag order |
| `Ingest.ActiveMappingIsLast` | back/src/fastapp/ingest.py:864-876 | the mapping dict holds, per tag, the last active row of the device |
| `Ingest.WrittenRowsAreOwned` | back/src/fastapp/ingest.py:902-917 | every written row has the device's id and owner and a zone that owner holds |
| `Ingest.RoutedIffMappedAndOwned` | back/src/fastapp/ingest.py:894-908 | a tag is written exactly when the mapping in force gives a registered key and an owned zone |

## Left out

- Email, WhatsApp and SMS providers, the broker, HTTP and MQTT routers: a send is an input that succeeds or fails.
- agri-core and agri-db: a `session_scope` is one transaction committed on leaving it, at Postgres's default isolation; the threshold predicate, the hourly aggregate, the COALESCE owner columns and the unit table enter by their documented contract.
- Floating point: values are reals. Message texts, `dispatched_at`, clipping of history strings to column widths and JSON contexts are not modelled.
- Database failures other than those of `history.dfy`: alert dispatch is proved for enqueueing that does not raise and statements that do not fail.
- Sensors.Store.RawReadings: rows of equal timestamps keep their stored order; the query's ORDER BY leaves it to the database.
- DeviceHealth.Scanner.ScanDeviceHealth: runs alone; overlapping scans are the step machine of `health_overlap.dfy`, one device row at a time.
- Irrigation.BeatReachesProgram: ticks are exactly on the beat; a late worker captures a later reference.
- Ingest.Gateway.HandleBivocom: zone owners are read from the whole zone table instead of the prefetched target zones, which hold the same rows; alert dispatch inside the loop is `dispatch.dfy`'s subject.
- First creation of the `lora` user and zone: the catch-all exists.
- Decoding of frames (`decode_ph`, `decode_battery`), the slug-to-key table and the grace table's entries: finite tables and short branches.
- `send_periodic_notifications` and `flag_idle_zones`: further loops around a claim that is never rolled back, which adds no property to `throttle.dfy`.
- The weekday column's comma split: the parsed set is modelled, with blank apart from empty.
