/**
  The alarm record of the backup-alarm engine and its three copy-on-write
  transitions: creation, a phone check-in and a phone disarm.

  Instants are integer milliseconds; the clock is a parameter (`now`) rather
  than a call to the system clock. The scheduled alarm time carried by the
  record is an opaque label: the timing decisions take the alarm instant as a
  separate argument.
 */
module AlarmRecord {
  import opened Wrappers

  /** Lifecycle state of one alarm instance. */
  datatype Status = Armed | Disarmed | Triggered | Stopped

  /** Informational kind of a backup target; it never changes the mechanics. */
  datatype TargetKind = Device | Person

  /** The latest user action on a target. Any value other than stop or
      snooze (`Other`) is treated like no interaction at all. */
  datatype Response = Stop | Snooze | Other(word: string)

  /** One entry of the ordered backup list. `online` means the coordinating
      service can reach the target right now. */
  datatype Target = Target(name: string, kind: TargetKind, online: bool, response: Option<Response>)

  /** The single free-text note a cascade log entry may carry. */
  datatype Annotation =
    | SkippedOffline       // the entry's skip reason: the target was unreachable
    | NoResponseInWindow   // the entry's escalate reason: fired, nobody answered
    | SnoozeWorked         // the entry's snooze result: the user heard the alarm

  /** What the cascade walk records about one visited target. */
  datatype LogEntry = LogEntry(
    target: string,
    kind: TargetKind,
    online: bool,
    alarmFired: bool,
    response: Option<Response>,
    escalated: bool,
    annotation: Option<Annotation>)

  /** Who the cascade reports as triggered: one named target, or the whole
      list when it ran out without a stop or snooze. */
  datatype TriggeredTarget = Named(name: string) | AllExhausted

  /** The reason recorded when a snooze resolves the cascade. */
  datatype ResolveReason = UserSnoozed

  /** One alarm instance. `cascadeLog` and `resolveReason` are absent until a
      cascade run adds them. */
  datatype BackupAlarm = BackupAlarm(
    alarmTime: string,
    alarmLabel: string,
    cascade: seq<Target>,
    status: Status,
    registeredAt: int,
    lastCheckIn: Option<int>,
    triggeredTarget: Option<TriggeredTarget>,
    resolvedBy: Option<string>,
    resolveReason: Option<ResolveReason>,
    cascadeLog: Option<seq<LogEntry>>)

  /** A new alarm is armed, registered at `now`, has never checked in and has
      no resolution; its configuration is kept as given. */
  function CreateBackupAlarm(alarmTime: string, alarmLabel: string, cascade: seq<Target>, now: int): (a: BackupAlarm)
    ensures a.status == Armed
    ensures a.lastCheckIn == None && a.triggeredTarget == None && a.resolvedBy == None
    ensures a.resolveReason == None && a.cascadeLog == None
    ensures a.registeredAt == now
    ensures a.alarmTime == alarmTime && a.alarmLabel == alarmLabel && a.cascade == cascade
  {
    BackupAlarm(alarmTime, alarmLabel, cascade, Armed, now, None, None, None, None, None)
  }

  /** The phone reports it is alive: the check-in instant becomes `now` and
      the alarm is armed again, whatever its previous status. */
  function PhoneCheckIn(a: BackupAlarm, now: int): (r: BackupAlarm)
    ensures r.status == Armed && r.lastCheckIn == Some(now)
    ensures r.(status := a.status, lastCheckIn := a.lastCheckIn) == a
  {
    a.(lastCheckIn := Some(now), status := Armed)
  }

  /** The phone's own alarm fired: only the status changes, to disarmed. */
  function PhoneDisarm(a: BackupAlarm): (r: BackupAlarm)
    ensures r.status == Disarmed
    ensures r.(status := a.status) == a
  {
    a.(status := Disarmed)
  }

  /** No terminal-state guard: a check-in re-arms even a disarmed, stopped
      or triggered alarm. */
  lemma CheckInRearmsAnyStatus(a: BackupAlarm, now: int)
    ensures PhoneCheckIn(a, now).status == Armed
    ensures PhoneCheckIn(PhoneDisarm(a), now) == PhoneCheckIn(a, now)
  {
  }

  /** Both transitions are idempotent: repeating them changes nothing. */
  lemma TransitionsIdempotent(a: BackupAlarm, now: int)
    ensures PhoneCheckIn(PhoneCheckIn(a, now), now) == PhoneCheckIn(a, now)
    ensures PhoneDisarm(PhoneDisarm(a)) == PhoneDisarm(a)
  {
  }
}
