/**
  The arming checks of the backup-alarm engine: whether the cascade should
  start at a given instant, and whether the phone has missed its check-in
  window. All instants and durations are integer milliseconds.
 */
module Arming {
  import opened Wrappers
  import opened AlarmRecord

  /** The default grace period after alarm time. */
  const DefaultGracePeriodMs := 60000
  /** The default interval between two check-ins of a healthy phone. */
  const DefaultCheckInIntervalMs := 300000

  /** Tags standing for the free-text reasons of the trigger decision. */
  datatype TriggerReason = WaitingForStop | MissedCheckIns | GraceExpired

  datatype TriggerDecision = TriggerDecision(trigger: bool, reason: TriggerReason)

  /** The phone checked in within two normal intervals before `currentTime`. */
  predicate PhoneWasHealthy(currentTime: int, lastCheckInMs: int, checkInIntervalMs: int)
  {
    currentTime - lastCheckInMs < checkInIntervalMs * 2
  }

  /** `currentTime` lies before the end of the grace period after the alarm. */
  predicate WithinGracePeriod(currentTime: int, alarmTimeMs: int, gracePeriodMs: int)
  {
    currentTime - alarmTimeMs < gracePeriodMs
  }

  /** Decides whether escalation starts. The cascade is held back only while
      the phone was healthy and the grace period has not run out; an
      unhealthy phone triggers at once, and a healthy one once the grace
      period is over. The alarm record is accepted but never consulted. */
  function ShouldTriggerCascade(backup: Option<BackupAlarm>, currentTime: int, alarmTimeMs: int, lastCheckInMs: int,
                                gracePeriodMs: int, checkInIntervalMs: int): (d: TriggerDecision)
    ensures !d.trigger <==> PhoneWasHealthy(currentTime, lastCheckInMs, checkInIntervalMs)
                            && WithinGracePeriod(currentTime, alarmTimeMs, gracePeriodMs)
    ensures d.reason == WaitingForStop <==> !d.trigger
    ensures d.reason == MissedCheckIns <==> !PhoneWasHealthy(currentTime, lastCheckInMs, checkInIntervalMs)
  {
    var healthy := PhoneWasHealthy(currentTime, lastCheckInMs, checkInIntervalMs);
    var withinGrace := WithinGracePeriod(currentTime, alarmTimeMs, gracePeriodMs);
    if healthy && withinGrace then
      TriggerDecision(false, WaitingForStop)
    else if !healthy then
      TriggerDecision(true, MissedCheckIns)
    else
      TriggerDecision(true, GraceExpired)
  }

  /** Grace monotonicity: while the phone stays healthy, the cascade is held
      back exactly until the grace period after alarm time has passed. */
  lemma GraceBoundary(backup: Option<BackupAlarm>, currentTime: int, alarmTimeMs: int, lastCheckInMs: int,
                      gracePeriodMs: int, checkInIntervalMs: int)
    requires currentTime - lastCheckInMs < 2 * checkInIntervalMs
    ensures currentTime < alarmTimeMs + gracePeriodMs
            ==> !ShouldTriggerCascade(backup, currentTime, alarmTimeMs, lastCheckInMs, gracePeriodMs, checkInIntervalMs).trigger
    ensures currentTime >= alarmTimeMs + gracePeriodMs
            ==> ShouldTriggerCascade(backup, currentTime, alarmTimeMs, lastCheckInMs, gracePeriodMs, checkInIntervalMs).trigger
  {
  }

  /** Once the decision is to trigger, it stays so as time goes on, for the
      same alarm, check-in and configuration. */
  lemma TriggerIsStable(backup: Option<BackupAlarm>, t1: int, t2: int, alarmTimeMs: int, lastCheckInMs: int,
                        gracePeriodMs: int, checkInIntervalMs: int)
    requires t1 <= t2
    requires ShouldTriggerCascade(backup, t1, alarmTimeMs, lastCheckInMs, gracePeriodMs, checkInIntervalMs).trigger
    ensures ShouldTriggerCascade(backup, t2, alarmTimeMs, lastCheckInMs, gracePeriodMs, checkInIntervalMs).trigger
  {
  }

  /** Which alarm record is passed makes no difference to the decision. */
  lemma DecisionIgnoresRecord(b1: Option<BackupAlarm>, b2: Option<BackupAlarm>, currentTime: int, alarmTimeMs: int,
                              lastCheckInMs: int, gracePeriodMs: int, checkInIntervalMs: int)
    ensures ShouldTriggerCascade(b1, currentTime, alarmTimeMs, lastCheckInMs, gracePeriodMs, checkInIntervalMs)
         == ShouldTriggerCascade(b2, currentTime, alarmTimeMs, lastCheckInMs, gracePeriodMs, checkInIntervalMs)
  {
  }

  /** Three sample decisions with the default configuration: the phone
      checked in two minutes before the alarm and the cloud waits at +30s but
      triggers at +90s; a phone silent for fifteen minutes triggers at +5s. */
  lemma SampleDecisions(now: int)
    ensures ShouldTriggerCascade(None, now + 30000, now, now - 120000, DefaultGracePeriodMs, DefaultCheckInIntervalMs)
         == TriggerDecision(false, WaitingForStop)
    ensures ShouldTriggerCascade(None, now + 90000, now, now - 120000, DefaultGracePeriodMs, DefaultCheckInIntervalMs)
         == TriggerDecision(true, GraceExpired)
    ensures ShouldTriggerCascade(None, now + 5000, now, now - 900000, DefaultGracePeriodMs, DefaultCheckInIntervalMs)
         == TriggerDecision(true, MissedCheckIns)
  {
  }

  /** Tags standing for the free-text reasons of the missed-check-in check. */
  datatype MissedReason = NotArmed | SilentAndAlarmImminent | MissedCheckInWindow | CheckedInRecently

  datatype MissedCheck = MissedCheck(missed: bool, reason: MissedReason)

  /** The instant the silence is measured from: the last check-in, or the
      registration when there is none. A check-in at instant 0 counts as none,
      as 0 is falsy where the record is read. */
  function SilenceStart(backup: BackupAlarm): (t: int)
    ensures backup.lastCheckIn.Some? && backup.lastCheckIn.value != 0 ==> t == backup.lastCheckIn.value
    ensures backup.lastCheckIn == None ==> t == backup.registeredAt
    ensures backup.lastCheckIn == Some(0) ==> t == backup.registeredAt
  {
    match backup.lastCheckIn
    case Some(c) => if c != 0 then c else backup.registeredAt
    case None => backup.registeredAt
  }

  /** Advance warning that the phone has gone silent. Only an armed alarm can
      be missed; it is missed when the silence exceeds one and a half
      check-in intervals (`2 * silence > 3 * interval`, exact over integers),
      and the more urgent reason is given when the alarm is less than two
      intervals away. */
  function DetectMissedCheckIn(backup: BackupAlarm, currentTime: int, checkInIntervalMs: int, alarmTimeMs: int): (m: MissedCheck)
    ensures backup.status != Armed ==> m == MissedCheck(false, NotArmed)
    ensures backup.status == Armed ==> (m.missed <==> 2 * (currentTime - SilenceStart(backup)) > 3 * checkInIntervalMs)
    ensures m.missed ==> (m.reason == SilentAndAlarmImminent <==> alarmTimeMs - currentTime < 2 * checkInIntervalMs)
    ensures m.missed ==> m.reason != NotArmed && m.reason != CheckedInRecently
    ensures !m.missed && backup.status == Armed ==> m.reason == CheckedInRecently
  {
    if backup.status != Armed then
      MissedCheck(false, NotArmed)
    else
      var timeSinceCheckIn := currentTime - SilenceStart(backup);
      var alarmIsSoon := alarmTimeMs - currentTime < checkInIntervalMs * 2;
      var checkInOverdue := 2 * timeSinceCheckIn > 3 * checkInIntervalMs;
      if checkInOverdue && alarmIsSoon then
        MissedCheck(true, SilentAndAlarmImminent)
      else if checkInOverdue then
        MissedCheck(true, MissedCheckInWindow)
      else
        MissedCheck(false, CheckedInRecently)
  }

  /** For an armed alarm whose record does not change, a missed check-in stays
      missed as time goes on. */
  lemma MissedIsStable(backup: BackupAlarm, t1: int, t2: int, checkInIntervalMs: int, alarmTimeMs: int)
    requires t1 <= t2
    requires DetectMissedCheckIn(backup, t1, checkInIntervalMs, alarmTimeMs).missed
    ensures DetectMissedCheckIn(backup, t2, checkInIntervalMs, alarmTimeMs).missed
  {
  }

  /** A check-in at `now` clears the warning at that instant, and a disarmed
      alarm is never reported missed. The instant must not be 0, which the
      check reads as "never checked in". */
  lemma CheckInClearsMissed(backup: BackupAlarm, now: int, checkInIntervalMs: int, alarmTimeMs: int, later: int)
    requires now != 0 && checkInIntervalMs >= 0
    ensures !DetectMissedCheckIn(PhoneCheckIn(backup, now), now, checkInIntervalMs, alarmTimeMs).missed
    ensures !DetectMissedCheckIn(PhoneDisarm(backup), later, checkInIntervalMs, alarmTimeMs).missed
  {
  }

  /** A freshly created alarm measures its silence from its registration. */
  lemma FreshAlarmMeasuresFromRegistration(alarmTime: string, alarmLabel: string, cascade: seq<Target>, now: int,
                                           currentTime: int, checkInIntervalMs: int, alarmTimeMs: int)
    ensures DetectMissedCheckIn(CreateBackupAlarm(alarmTime, alarmLabel, cascade, now), currentTime, checkInIntervalMs, alarmTimeMs).missed
        <==> 2 * (currentTime - now) > 3 * checkInIntervalMs
  {
  }

  /** The falsy-zero reading: a check-in recorded at instant 0 is ignored, so
      the missed-check-in decision after it is the one the record would get
      had it never checked in, measured from the registration. */
  lemma CheckInAtZeroIsIgnored(backup: BackupAlarm, currentTime: int, checkInIntervalMs: int, alarmTimeMs: int)
    ensures SilenceStart(PhoneCheckIn(backup, 0)) == backup.registeredAt
    ensures DetectMissedCheckIn(PhoneCheckIn(backup, 0), currentTime, checkInIntervalMs, alarmTimeMs)
         == DetectMissedCheckIn(PhoneCheckIn(backup, 0).(lastCheckIn := None), currentTime, checkInIntervalMs, alarmTimeMs)
  {
  }

  /** One instance of the falsy-zero reading: an alarm registered over
      sixteen minutes before instant 0 checks in at 0 and is still reported
      as having missed its window. */
  lemma SampleCheckInAtZero()
    ensures var a := CreateBackupAlarm("5:00 AM", "standup", [], -1000000);
            DetectMissedCheckIn(PhoneCheckIn(a, 0), 0, 300000, 3600000) == MissedCheck(true, MissedCheckInWindow)
  {
  }
}
