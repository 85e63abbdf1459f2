/**
  The cascade walk: the ordered backup list is visited one target at a time.
  An unreachable target is skipped, a reachable one fires; the first fired
  target whose user answered stop or snooze resolves the cascade and the walk
  ends there. When nobody answers, the cascade is exhausted. Every visited
  target leaves one entry in the audit log, in list order.
 */
module Cascade {
  import opened Wrappers
  import opened AlarmRecord

  /** A target resolves the cascade when it fires and its user answered with
      stop or snooze. */
  predicate Answers(t: Target)
  {
    t.online && (t.response == Some(Stop) || t.response == Some(Snooze))
  }

  /** Position `i` holds the first target of `ts` that answers. */
  ghost predicate FirstAnswer(ts: seq<Target>, i: int)
  {
    0 <= i < |ts| && Answers(ts[i]) && forall j :: 0 <= j < i ==> !Answers(ts[j])
  }

  /** No target of `ts` answers. */
  ghost predicate NoAnswer(ts: seq<Target>)
  {
    forall j :: 0 <= j < |ts| ==> !Answers(ts[j])
  }

  /** How a resolving target ended the cascade. */
  datatype Resolution = ByStop | BySnooze

  /** The outcome of visiting one target: either the walk goes on, or the
      target ended it. */
  datatype Step = Continue(entry: LogEntry) | Resolve(entry: LogEntry, how: Resolution)

  /** Visits one target. An unreachable target is skipped without firing and
      marked escalated; a reachable one fires and records its response, which
      either resolves the cascade (stop, snooze) or escalates it. */
  function Visit(t: Target): (s: Step)
    ensures s.entry.target == t.name && s.entry.kind == t.kind && s.entry.online == t.online
    ensures s.entry.alarmFired == t.online
    ensures s.Resolve? <==> Answers(t)
    ensures s.entry.escalated <==> !Answers(t)
    ensures !t.online ==> s.entry.response == None && s.entry.annotation == Some(SkippedOffline)
    ensures t.online ==> s.entry.response == t.response
    ensures s.entry.annotation == Some(SnoozeWorked) <==> s == Resolve(s.entry, BySnooze)
    ensures s.Resolve? ==> (s.how == BySnooze <==> t.response == Some(Snooze))
    ensures t.online && !Answers(t) ==> s.entry.annotation == Some(NoResponseInWindow)
    ensures s.Resolve? && s.how == ByStop ==> s.entry.annotation == None
  {
    var blank := LogEntry(t.name, t.kind, t.online, false, None, false, None);
    if !t.online then
      Continue(blank.(escalated := true, annotation := Some(SkippedOffline)))
    else
      var fired := blank.(alarmFired := true, response := t.response);
      if t.response == Some(Stop) then
        Resolve(fired, ByStop)
      else if t.response == Some(Snooze) then
        Resolve(fired.(annotation := Some(SnoozeWorked)), BySnooze)
      else
        Continue(fired.(escalated := true, annotation := Some(NoResponseInWindow)))
  }

  /** The end of a walk: resolved by a named target, or exhausted. */
  datatype Walk =
    | Resolved(resolver: string, how: Resolution, log: seq<LogEntry>)
    | Exhausted(log: seq<LogEntry>)

  /** `w` is a faithful walk of `ts`: log entry k is the visit of target k;
      a resolved walk stops exactly at the first answering target, which it
      names; an exhausted walk visited every target and none answered. */
  ghost predicate IsWalkOf(ts: seq<Target>, w: Walk)
  {
    && |w.log| <= |ts|
    && (forall k :: 0 <= k < |w.log| ==> w.log[k] == Visit(ts[k]).entry)
    && (w.Resolved? ==>
          && |w.log| > 0
          && FirstAnswer(ts, |w.log| - 1)
          && w.resolver == ts[|w.log| - 1].name
          && w.how == Visit(ts[|w.log| - 1]).how)
    && (w.Exhausted? ==> |w.log| == |ts| && NoAnswer(ts))
  }

  /** Puts the entry of a target that did not end the walk in front of a walk. */
  function Prepend(entry: LogEntry, w: Walk): Walk
  {
    match w
    case Resolved(who, how, log) => Resolved(who, how, [entry] + log)
    case Exhausted(log) => Exhausted([entry] + log)
  }

  /** A target that does not answer, put in front of a faithful walk of the
      rest of the list, gives a faithful walk of the whole list. */
  lemma PrependKeepsWalk(ts: seq<Target>, w: Walk)
    requires |ts| > 0 && !Answers(ts[0])
    requires IsWalkOf(ts[1..], w)
    ensures IsWalkOf(ts, Prepend(Visit(ts[0]).entry, w))
  {
    var w' := Prepend(Visit(ts[0]).entry, w);
    assert |w'.log| == |w.log| + 1;
    forall k | 0 < k < |w'.log|
      ensures w'.log[k] == Visit(ts[k]).entry
    {
      assert w'.log[k] == w.log[k - 1];
      assert ts[1..][k - 1] == ts[k];
    }
    if w.Resolved? {
      forall j | 0 < j < |w'.log| - 1
        ensures !Answers(ts[j])
      {
        assert ts[1..][j - 1] == ts[j];
      }
    }
    if w.Exhausted? {
      forall j | 0 < j < |ts|
        ensures !Answers(ts[j])
      {
        assert ts[1..][j - 1] == ts[j];
      }
    }
  }

  /** Walks `ts` in order, short-circuiting at the first answering target. */
  function WalkCascade(ts: seq<Target>): (w: Walk)
    ensures IsWalkOf(ts, w)
    decreases |ts|
  {
    if |ts| == 0 then
      Exhausted([])
    else
      match Visit(ts[0])
      case Resolve(entry, how) => Resolved(ts[0].name, how, [entry])
      case Continue(entry) =>
        var rest := WalkCascade(ts[1..]);
        PrependKeepsWalk(ts, rest);
        Prepend(entry, rest)
  }

  /** Runs the cascade on an alarm record, whatever its status, and returns
      the resolved copy. Only the status, the triggered target, the resolver,
      the log and (on a snooze) the resolve reason are written; every other
      field is copied unchanged. */
  function TriggerCascade(backup: BackupAlarm): (r: BackupAlarm)
    ensures r == backup.(status := r.status, triggeredTarget := r.triggeredTarget, resolvedBy := r.resolvedBy,
                         resolveReason := r.resolveReason, cascadeLog := r.cascadeLog)
    ensures r.status == Stopped || r.status == Triggered
    ensures r.cascadeLog.Some? && |r.cascadeLog.value| <= |backup.cascade|
    ensures r.status == Stopped ==> r.resolvedBy.Some? && r.triggeredTarget == Some(Named(r.resolvedBy.value))
    ensures r.status == Triggered ==> r.resolvedBy == None && r.triggeredTarget == Some(AllExhausted)
    ensures r.resolveReason != backup.resolveReason ==> r.status == Stopped && r.resolveReason == Some(UserSnoozed)
  {
    match WalkCascade(backup.cascade)
    case Resolved(who, how, log) =>
      backup.(status := Stopped, triggeredTarget := Some(Named(who)), resolvedBy := Some(who),
              resolveReason := if how == BySnooze then Some(UserSnoozed) else backup.resolveReason,
              cascadeLog := Some(log))
    case Exhausted(log) =>
      backup.(status := Triggered, triggeredTarget := Some(AllExhausted), resolvedBy := None,
              cascadeLog := Some(log))
  }

  /** First responder wins: when position `i` holds the first answering
      target, the cascade is stopped by that target, the log holds exactly
      the entries of positions 0..i in order, and nothing after `i` was
      visited. Only a snooze sets the resolve reason and only its entry
      carries the snooze note. */
  lemma FirstResponderWins(backup: BackupAlarm, i: int)
    requires FirstAnswer(backup.cascade, i)
    ensures var r := TriggerCascade(backup);
            && r.status == Stopped
            && r.resolvedBy == Some(backup.cascade[i].name)
            && r.triggeredTarget == Some(Named(backup.cascade[i].name))
            && r.cascadeLog.Some? && |r.cascadeLog.value| == i + 1
            && (forall k :: 0 <= k <= i ==> r.cascadeLog.value[k] == Visit(backup.cascade[k]).entry)
            && (forall k :: 0 <= k < i ==> r.cascadeLog.value[k].annotation != Some(SnoozeWorked))
            && r.cascadeLog.value[i].alarmFired
            && (r.cascadeLog.value[i].annotation == Some(SnoozeWorked) <==> backup.cascade[i].response == Some(Snooze))
            && r.resolveReason == (if backup.cascade[i].response == Some(Snooze) then Some(UserSnoozed) else backup.resolveReason)
  {
  }

  /** Exhaustion: when no target answers, the cascade is triggered for the
      whole list, nobody resolved it, and the log holds one entry per target
      in list order (so an empty list gives an empty log). */
  lemma ExhaustedWhenNobodyAnswers(backup: BackupAlarm)
    requires NoAnswer(backup.cascade)
    ensures var r := TriggerCascade(backup);
            && r.status == Triggered
            && r.triggeredTarget == Some(AllExhausted)
            && r.resolvedBy == None
            && r.resolveReason == backup.resolveReason
            && r.cascadeLog.Some? && |r.cascadeLog.value| == |backup.cascade|
            && (forall k :: 0 <= k < |backup.cascade| ==> r.cascadeLog.value[k] == Visit(backup.cascade[k]).entry)
  {
  }

  /** The cascade resolves (is stopped) exactly when some target answers. */
  lemma StoppedIffSomeoneAnswers(backup: BackupAlarm)
    ensures TriggerCascade(backup).status == Stopped <==> exists i :: 0 <= i < |backup.cascade| && Answers(backup.cascade[i])
  {
  }

  /** The reachable targets of `ts`, in their original order. */
  function OnlineOnly(ts: seq<Target>): (os: seq<Target>)
    ensures |os| <= |ts|
    ensures forall k :: 0 <= k < |os| ==> os[k].online
    ensures (forall k :: 0 <= k < |ts| ==> ts[k].online) ==> os == ts
  {
    if |ts| == 0 then []
    else if ts[0].online then [ts[0]] + OnlineOnly(ts[1..])
    else OnlineOnly(ts[1..])
  }

  /** `OnlineOnly` keeps exactly the reachable targets. */
  lemma {:induction false} OnlineOnlyMembers(ts: seq<Target>, t: Target)
    ensures t in OnlineOnly(ts) <==> t in ts && t.online
    decreases |ts|
  {
    if |ts| > 0 {
      OnlineOnlyMembers(ts[1..], t);
      assert ts == [ts[0]] + ts[1..];
    }
  }

  /** `OnlineOnly` filters each part of a list independently, so the kept
      targets stay in their original order. */
  lemma {:induction false} OnlineOnlyDistributes(ts1: seq<Target>, ts2: seq<Target>)
    ensures OnlineOnly(ts1 + ts2) == OnlineOnly(ts1) + OnlineOnly(ts2)
    decreases |ts1|
  {
    if |ts1| == 0 {
      assert ts1 + ts2 == ts2;
    } else {
      OnlineOnlyDistributes(ts1[1..], ts2);
      assert (ts1 + ts2)[0] == ts1[0];
      assert (ts1 + ts2)[1..] == ts1[1..] + ts2;
    }
  }

  /** The names of the targets that fired, in log order. */
  function FiredTargets(log: seq<LogEntry>): (names: seq<string>)
    ensures |names| <= |log|
    ensures forall n :: n in names <==> exists k :: 0 <= k < |log| && log[k].alarmFired && log[k].target == n
  {
    if |log| == 0 then []
    else if log[0].alarmFired then [log[0].target] + FiredTargets(log[1..])
    else FiredTargets(log[1..])
  }

  /** What a walk decides, leaving aside the log. */
  function Verdict(w: Walk): Option<(string, Resolution)>
  {
    match w
    case Resolved(who, how, _) => Some((who, how))
    case Exhausted(_) => None
  }

  /** Dropping the unreachable targets changes neither who resolves the walk
      nor how, nor the order in which targets fire. */
  lemma {:induction false} WalkIgnoresOffline(ts: seq<Target>)
    ensures Verdict(WalkCascade(OnlineOnly(ts))) == Verdict(WalkCascade(ts))
    ensures FiredTargets(WalkCascade(OnlineOnly(ts)).log) == FiredTargets(WalkCascade(ts).log)
    decreases |ts|
  {
    if |ts| == 0 {
    } else {
      var t := ts[0];
      var rest := ts[1..];
      WalkIgnoresOffline(rest);
      var e := Visit(t).entry;
      if !t.online {
        assert OnlineOnly(ts) == OnlineOnly(rest);
        assert !e.alarmFired;
        var w := WalkCascade(rest);
        assert WalkCascade(ts).log == [e] + w.log;
        assert ([e] + w.log)[1..] == w.log;
      } else {
        assert OnlineOnly(ts) == [t] + OnlineOnly(rest);
        assert ([t] + OnlineOnly(rest))[0] == t;
        assert ([t] + OnlineOnly(rest))[1..] == OnlineOnly(rest);
        if !Answers(t) {
          var w := WalkCascade(rest);
          var w' := WalkCascade(OnlineOnly(rest));
          assert WalkCascade(ts).log == [e] + w.log;
          assert WalkCascade(OnlineOnly(ts)).log == [e] + w'.log;
          assert ([e] + w.log)[1..] == w.log;
          assert ([e] + w'.log)[1..] == w'.log;
        }
      }
    }
  }

  /** Unreachable targets are transparent: removing them from the list does
      not change the status, the resolver, the triggered target or the
      resolve reason, nor the order in which the remaining targets fire. */
  lemma OfflineTargetsAreTransparent(backup: BackupAlarm)
    ensures var r := TriggerCascade(backup);
            var r' := TriggerCascade(backup.(cascade := OnlineOnly(backup.cascade)));
            && r'.status == r.status
            && r'.resolvedBy == r.resolvedBy
            && r'.triggeredTarget == r.triggeredTarget
            && r'.resolveReason == r.resolveReason
            && FiredTargets(r'.cascadeLog.value) == FiredTargets(r.cascadeLog.value)
  {
    WalkIgnoresOffline(backup.cascade);
  }

  /** An unreachable target never fires, is logged as skipped and escalated,
      and never resolves the cascade. */
  lemma OfflineTargetIsSkipped(t: Target)
    requires !t.online
    ensures Visit(t).Continue?
    ensures var e := Visit(t).entry;
            !e.alarmFired && e.escalated && e.annotation == Some(SkippedOffline)
  {
  }

  /** The walk runs whatever the status of the record, and replaying it on
      its own result gives the same record back. */
  lemma CascadeIsReplayable(backup: BackupAlarm, s: Status)
    ensures TriggerCascade(backup.(status := s)) == TriggerCascade(backup)
    ensures TriggerCascade(TriggerCascade(backup)) == TriggerCascade(backup)
  {
  }

  /** An empty list is not rejected: it is exhausted at once with an empty log. */
  lemma EmptyCascadeIsExhausted(backup: BackupAlarm)
    requires backup.cascade == []
    ensures TriggerCascade(backup).status == Triggered
    ensures TriggerCascade(backup).cascadeLog == Some([])
  {
  }

  /** A sample list: A stays silent, B and C both stop. B resolves; A is
      logged as escalated, B as fired, and C is never visited. */
  lemma SampleSecondTargetStops(backup: BackupAlarm)
    requires backup.cascade == [Target("A", Device, true, None), Target("B", Device, true, Some(Stop)),
                                Target("C", Person, true, Some(Stop))]
    ensures var r := TriggerCascade(backup);
            && r.status == Stopped && r.resolvedBy == Some("B")
            && r.cascadeLog.Some? && |r.cascadeLog.value| == 2
            && r.cascadeLog.value[0].escalated && r.cascadeLog.value[0].annotation == Some(NoResponseInWindow)
            && r.cascadeLog.value[1].alarmFired && r.cascadeLog.value[1].target == "B"
  {
    FirstResponderWins(backup, 1);
  }

  /** A sample list: A is unreachable, B and C both stop. B resolves, A is
      logged as skipped, not as silent, and C is never visited. */
  lemma SampleOfflineThenStop(backup: BackupAlarm)
    requires backup.cascade == [Target("A", Device, false, None), Target("B", Device, true, Some(Stop)),
                                Target("C", Person, true, Some(Stop))]
    ensures var r := TriggerCascade(backup);
            && r.status == Stopped && r.resolvedBy == Some("B")
            && r.cascadeLog.Some? && |r.cascadeLog.value| == 2
            && !r.cascadeLog.value[0].alarmFired && r.cascadeLog.value[0].annotation == Some(SkippedOffline)
  {
    FirstResponderWins(backup, 1);
  }
}
