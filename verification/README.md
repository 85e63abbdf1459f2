# Backup alarm — a Dafny model of its decision core

This project models the decision logic of the backup-alarm spike. The cloud
holds a backup for the phone's alarm, and the phone keeps it quiet by checking
in. When the phone goes silent, an ordered list of backup targets is walked
one target at a time until somebody answers. The model covers:

- the alarm record and its copy-on-write transitions: creation, check-in and disarm (`alarm_record.dfy`);
- the bounded retrier that delivers the phone's stop signal over a flaky channel (`stop_retry.dfy`);
- the arming checks: the grace-period rule that decides whether escalation starts, and the missed-check-in warning (`arming.dfy`);
- the cascade walk, which skips unreachable targets and stops at the first stop or snooze. Otherwise it reports exhaustion. Each visited target gets one audit-log entry (`cascade.dfy`);
- the battery-risk classifier. It makes a linear prediction and checks it against thresholds 5 and 20 (`battery.dfy`).

All operations are pure functions over immutable datatypes, except the
retrier, which is a method with a loop. Instants are integer milliseconds, and
the current time is passed in as `now` or `currentTime`. Battery arithmetic
is over `real`. A JavaScript `null` is `Wrappers.Option.None`. Free-text
reasons, nudges and final statuses become enum tags.

Guards the code does not have, and one reading it takes literally:

- An empty cascade is not rejected; it is exhausted at once (`Cascade.EmptyCascadeIsExhausted`).
- There is no terminal-state guard. A check-in re-arms a disarmed, stopped or triggered alarm (`AlarmRecord.CheckInRearmsAnyStatus`), and the cascade runs on any status (`Cascade.CascadeIsReplayable`).
- The missed-check-in check reads `lastCheckIn` by truthiness, so a check-in recorded at instant 0 counts as none. The model keeps this reading (`Arming.SilenceStart`, `Arming.CheckInAtZeroIsIgnored`).
- The stop and exhausted paths copy whatever `resolveReason` the input record already had. Only the snooze path writes it.

## Model

| member | source | states |
|---|---|---|
| AlarmRecord.CreateBackupAlarm | spike/backup-cascade.js:17-28 | a new alarm is armed and registered at `now`; it has no check-in, triggered target, resolver, resolve reason or log; its alarm time, label and cascade are kept as given |
| AlarmRecord.PhoneCheckIn | spike/backup-cascade.js:30-37 | a check-in sets `lastCheckIn` to `now` and the status to armed; no other field changes |
| AlarmRecord.PhoneDisarm | spike/backup-cascade.js:39-45 | disarming sets the status to disarmed and changes nothing else |
| AlarmRecord.CheckInRearmsAnyStatus | spike/backup-cascade.js:30-45 | a check-in re-arms an alarm in any status; disarming and then checking in equals checking in |
| AlarmRecord.TransitionsIdempotent | spike/backup-cascade.js:30-45 | repeating a check-in at the same instant, or repeating a disarm, changes nothing |
| StopRetry.PhoneStopWithRetry | spike/backup-cascade.js:51-71 | delivery succeeds iff some attempt in 1..maxRetries gets through; on success the count is the first such attempt; on failure it is maxRetries; the final status tag matches success |
| StopRetry.OutcomeDependsOnlyOnBudget | spike/backup-cascade.js:55-64 | two channels that agree on attempts 1..maxRetries give the same outcome, so no attempt outside the budget is consulted |
| StopRetry.NoBudgetFails | spike/backup-cascade.js:55-70 | with maxRetries <= 0 delivery fails whatever the channel says, reporting maxRetries attempts |
| StopRetry.NetworkBackOnThirdAttempt | spike/backup-cascade.js:415-418 | a channel that comes back at attempt 3, with the default budget of 5, is delivered on attempt 3 |
| StopRetry.NetworkNeverBack | spike/backup-cascade.js:428-431 | a channel that never comes back fails after 5 attempts |
| Arming.ShouldTriggerCascade | spike/backup-cascade.js:77-112 | escalation is held back iff `currentTime - lastCheckIn < 2*interval` and `currentTime - alarmTime < grace`; the missed-check-ins reason is given exactly when the phone was not healthy |
| Arming.GraceBoundary | spike/backup-cascade.js:84-111 | for a healthy phone the cascade is held back for every instant before `alarmTime + grace` and triggered for every instant from then on |
| Arming.TriggerIsStable | spike/backup-cascade.js:84-105 | once the decision is to trigger, it stays so at every later instant |
| Arming.DecisionIgnoresRecord | spike/backup-cascade.js:77-83 | the alarm record argument makes no difference to the decision |
| Arming.SampleDecisions | spike/backup-cascade.js:441-476 | with check-in 120 s before the alarm: wait at +30 s, trigger at +90 s; with check-in 15 min before: trigger at +5 s for missed check-ins |
| Arming.SilenceStart | spike/backup-cascade.js:118-120 | silence is measured from the last check-in when present and nonzero, and from the registration when absent or recorded at instant 0 |
| Arming.DetectMissedCheckIn | spike/backup-cascade.js:114-132 | a non-armed alarm is never missed; an armed one is missed iff `2*silence > 3*interval`; when missed, the imminent reason is chosen iff `alarmTime - currentTime < 2*interval` |
| Arming.MissedIsStable | spike/backup-cascade.js:118-130 | for an unchanged armed record, a missed check-in stays missed as time goes on |
| Arming.CheckInClearsMissed | spike/backup-cascade.js:114-123 | for a non-negative check-in interval, right after a check-in at a nonzero instant the alarm is not missed; a disarmed alarm is never missed |
| Arming.FreshAlarmMeasuresFromRegistration | spike/backup-cascade.js:118-123 | a freshly created alarm is missed iff `2*(currentTime - registeredAt) > 3*interval` |
| Arming.CheckInAtZeroIsIgnored | spike/backup-cascade.js:118-120 | for any record and instant, a check-in recorded at instant 0 is read as absent: silence is measured from the registration and the missed decision equals that of a record that never checked in |
| Arming.SampleCheckInAtZero | spike/backup-cascade.js:118-123 | an alarm registered 1,000,000 ms before instant 0 that checks in at 0 is still reported as having missed its window |
| Cascade.Visit | spike/backup-cascade.js:157-212 | a visited target fires iff it is reachable; it resolves iff it is reachable and answered stop or snooze; it is marked escalated iff it does not resolve; an unreachable one carries the skip note; the snooze note appears exactly on a snooze resolution; a fired target with no answer carries the escalate note; a stop entry carries no note |
| Cascade.WalkCascade | spike/backup-cascade.js:156-222 | log entry k is the visit of target k; a resolved walk ends exactly at the first answering target; an exhausted walk visited every target and none answered |
| Cascade.PrependKeepsWalk | spike/backup-cascade.js:166-213 | a skipped or silent target, logged in front of a faithful walk of the rest of the list, gives a faithful walk of the whole list |
| Cascade.TriggerCascade | spike/backup-cascade.js:153-223 | only status, triggered target, resolver, log and resolve reason change; the status is stopped (with a named resolver) or triggered (for all, resolver null); the resolve reason changes only to the snooze reason |
| Cascade.FirstResponderWins | spike/backup-cascade.js:156-207 | if `i` is the first answering position: stopped, resolver and triggered target are target i, the log is the visits of 0..i, only a snooze sets the reason and the snooze note |
| Cascade.ExhaustedWhenNobodyAnswers | spike/backup-cascade.js:209-222 | if nobody answers: triggered for all, no resolver, reason untouched, one log entry per target in cascade order |
| Cascade.StoppedIffSomeoneAnswers | spike/backup-cascade.js:156-222 | the cascade ends stopped iff some target is reachable and answered stop or snooze |
| Cascade.OnlineOnlyMembers | spike/backup-cascade.js:170-175 | the list with unreachable targets removed holds exactly the reachable targets of the original |
| Cascade.OnlineOnlyDistributes | spike/backup-cascade.js:156-175 | removing unreachable targets works part by part over a concatenation, so the kept targets keep their original order |
| Cascade.WalkIgnoresOffline | spike/backup-cascade.js:166-175 | removing unreachable targets changes neither who resolves the walk nor how, nor the order of the fired targets |
| Cascade.OfflineTargetsAreTransparent | spike/backup-cascade.js:166-175 | removing unreachable targets leaves status, resolver, triggered target, resolve reason and firing order unchanged |
| Cascade.OfflineTargetIsSkipped | spike/backup-cascade.js:170-175 | an unreachable target never fires, is logged escalated with the skip note, and never resolves |
| Cascade.CascadeIsReplayable | spike/backup-cascade.js:184-221 | the result does not depend on the input status, and running the cascade on its own result returns the same record |
| Cascade.EmptyCascadeIsExhausted | spike/backup-cascade.js:215-222 | an empty cascade is triggered at once with an empty log |
| Cascade.SampleSecondTargetStops | spike/backup-cascade.js:287-299 | silent A, then B and C both stop: B resolves, A is escalated, C is never visited |
| Cascade.SampleOfflineThenStop | spike/backup-cascade.js:393-405 | unreachable A, then B and C both stop: B resolves, A is logged as skipped without firing, and C is never visited |
| Battery.RoundHalfUp | spike/battery-prediction.js:49 | the rounded value lies in `(x - 0.5, x + 0.5]` |
| Battery.PredictAlarmRisk | spike/battery-prediction.js:10-53 | charging: safe, survives, no nudge, level `min(100, level + 20*hours)`; otherwise, with `d = level - drain*hours`: critical iff `d <= 5`, warning iff `5 < d <= 20`, safe iff `d > 20`, survives iff `d > 5`, reported level exactly `max(0, round(d))` with ties rounded up, so non-negative and within rounding of `d`; survives iff not critical, no nudge iff safe; a critical risk comes with the plug-in-now nudge and a warning with the consider-plugging-in nudge |
| Battery.RiskIsMonotone | spike/battery-prediction.js:21-45 | for a non-negative time until the alarm, more battery or less drain never gives a worse risk level |
| Battery.ReportedLevelMatchesRisk | spike/battery-prediction.js:33-49 | for a phone that is not charging, the reported level agrees with the class up to rounding: critical reports at most 5, warning 5..20, safe at least 20 |
| Battery.SamplePredictions | spike/battery-prediction.js:57-98 | 45/5/8 is critical at 5; 55/6/7 is warning at 13; 8/10/0.5 is critical at 3; charging 34 for 6 h is safe at 100; not charging it is critical, reported 0 |

## Left out

- Console output and the scenario scripts of both files: presentation only. Their sample inputs appear as lemmas.
- The system clock: the current instant is a parameter.
- The inert parameters `escalationWindowMs`, `snoozeDurationMs` and `retryDelayMs`. They are only interpolated into text or never read. The real waiting between retries is not performed by the code either.
- Free-text reasons, nudges, final statuses and the interpolated numbers in them: each is an enum tag. A log entry's skip reason, escalate reason and snooze result are one optional `annotation`, since at most one is ever set.
- The alarm time carried by the record is an opaque label, because the timing checks take the alarm instant as a separate argument.
- IEEE-754 behaviour of the source's numbers (NaN, infinities, precision, negative zero): timing is over `int`, battery arithmetic over `real`.
- Optional arguments: the source's defaults become explicit parameters. The defaults are kept as constants: `StopRetry.DefaultMaxRetries` (5), `Arming.DefaultGracePeriodMs` (60000) and `Arming.DefaultCheckInIntervalMs` (300000).
- Non-integer retry budgets: `maxRetries` is an `int`.
- Response values other than stop and snooze are `Response.Other`. Target kinds other than device and person are not modelled.
- StopRetry.PhoneStopWithRetry: the oracle is a pure function. The source's callback could have side effects, and the model says nothing about how many times the oracle is called. `StopRetry.OutcomeDependsOnlyOnBudget` instead states that only attempts 1..maxRetries matter.
