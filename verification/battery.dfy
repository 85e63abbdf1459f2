/**
  The battery-risk classifier: a linear prediction of the battery level at
  alarm time, classified against a critical and a warning threshold.
  Battery arithmetic is over `real`, standing for the source's numbers.
 */
module Battery {
  import opened Wrappers

  /** At or below this predicted level the phone may shut down before the alarm. */
  const CriticalThreshold: real := 5.0
  /** At or below this predicted level the alarm should fire, but narrowly. */
  const WarningThreshold: real := 20.0
  /** Percentage points per hour gained while charging. */
  const ChargeRatePerHour: real := 20.0

  datatype RiskLevel = Safe | Warning | Critical

  /** Tags standing for the two free-text nudges. */
  datatype Nudge = PlugInNow | ConsiderPluggingIn

  datatype Prediction = Prediction(riskLevel: RiskLevel, predictedBattery: real, willSurvive: bool, nudge: Option<Nudge>)

  /** The predicted level at alarm time when not charging. */
  function Drained(batteryLevel: real, drainRatePerHour: real, hoursUntilAlarm: real): real
  {
    batteryLevel - drainRatePerHour * hoursUntilAlarm
  }

  /** Rounding half up to an integer, as the source's rounding does. */
  function RoundHalfUp(x: real): (n: int)
    ensures x - 0.5 < n as real <= x + 0.5
  {
    (x + 0.5).Floor
  }

  /** Predicts the risk that the phone dies before the alarm. A charging
      phone is always safe and its prediction is capped at 100. Otherwise the
      drained level is classified: critical at or below 5, warning up to 20,
      safe above; the reported level is that prediction rounded and never
      below 0. The phone survives exactly when the level stays above the
      critical threshold, and a nudge comes with every risk but `Safe`. */
  function PredictAlarmRisk(batteryLevel: real, drainRatePerHour: real, hoursUntilAlarm: real, isCharging: bool): (p: Prediction)
    ensures isCharging ==> p.riskLevel == Safe && p.willSurvive && p.nudge == None
    ensures isCharging ==> p.predictedBattery <= 100.0
    ensures isCharging ==> (p.predictedBattery == 100.0 || p.predictedBattery == batteryLevel + ChargeRatePerHour * hoursUntilAlarm)
    ensures isCharging ==> p.predictedBattery <= batteryLevel + ChargeRatePerHour * hoursUntilAlarm
    ensures !isCharging ==>
              var d := Drained(batteryLevel, drainRatePerHour, hoursUntilAlarm);
              && (p.riskLevel == Critical <==> d <= CriticalThreshold)
              && (p.riskLevel == Warning <==> CriticalThreshold < d <= WarningThreshold)
              && (p.riskLevel == Safe <==> d > WarningThreshold)
              && (p.willSurvive <==> d > CriticalThreshold)
              && p.predictedBattery >= 0.0
              && p.predictedBattery > d - 0.5
              && (p.predictedBattery == 0.0 || p.predictedBattery <= d + 0.5)
              && p.predictedBattery == (if RoundHalfUp(d) < 0 then 0.0 else RoundHalfUp(d) as real)
    ensures p.willSurvive <==> p.riskLevel != Critical
    ensures p.nudge == None <==> p.riskLevel == Safe
    ensures p.riskLevel == Critical ==> p.nudge == Some(PlugInNow)
    ensures p.riskLevel == Warning ==> p.nudge == Some(ConsiderPluggingIn)
  {
    if isCharging then
      var charged := batteryLevel + hoursUntilAlarm * ChargeRatePerHour;
      Prediction(Safe, if charged < 100.0 then charged else 100.0, true, None)
    else
      var predicted := Drained(batteryLevel, drainRatePerHour, hoursUntilAlarm);
      var risk := if predicted <= CriticalThreshold then Critical
                  else if predicted <= WarningThreshold then Warning
                  else Safe;
      var nudge := match risk
                   case Critical => Some(PlugInNow)
                   case Warning => Some(ConsiderPluggingIn)
                   case Safe => None;
      var rounded := RoundHalfUp(predicted);
      Prediction(risk, if rounded < 0 then 0.0 else rounded as real, predicted > CriticalThreshold, nudge)
  }

  /** Orders risk levels from best (0) to worst (2). */
  function Severity(r: RiskLevel): nat
  {
    match r
    case Safe => 0
    case Warning => 1
    case Critical => 2
  }

  /** More battery never makes the risk worse, and neither does a lower
      drain rate, for the same time until the alarm. */
  lemma RiskIsMonotone(level1: real, level2: real, drain1: real, drain2: real, hours: real, isCharging: bool)
    requires level1 <= level2 && drain2 <= drain1 && hours >= 0.0
    ensures Severity(PredictAlarmRisk(level2, drain2, hours, isCharging).riskLevel)
         <= Severity(PredictAlarmRisk(level1, drain1, hours, isCharging).riskLevel)
  {
    if !isCharging {
      assert drain2 * hours <= drain1 * hours by {
        assert (drain1 - drain2) * hours >= 0.0;
      }
    }
  }

  /** The reported level agrees with the classification up to rounding:
      a critical prediction reports at most 5, a warning one between 5 and
      20, a safe one not charging at least 20. */
  lemma ReportedLevelMatchesRisk(batteryLevel: real, drainRatePerHour: real, hoursUntilAlarm: real)
    ensures var p := PredictAlarmRisk(batteryLevel, drainRatePerHour, hoursUntilAlarm, false);
            && (p.riskLevel == Critical ==> p.predictedBattery <= CriticalThreshold)
            && (p.riskLevel == Warning ==> CriticalThreshold <= p.predictedBattery <= WarningThreshold)
            && (p.riskLevel == Safe ==> p.predictedBattery >= WarningThreshold)
  {
  }

  /** Sample predictions: exactly at the critical threshold (45%, 5%/h, 8h),
      a narrow warning (55%, 6%/h, 7h), half an hour on a low battery
      (8%, 10%/h, 0.5h), and a charging phone capped at 100 (34%, 6h). */
  lemma SamplePredictions()
    ensures PredictAlarmRisk(45.0, 5.0, 8.0, false) == Prediction(Critical, 5.0, false, Some(PlugInNow))
    ensures PredictAlarmRisk(55.0, 6.0, 7.0, false) == Prediction(Warning, 13.0, true, Some(ConsiderPluggingIn))
    ensures PredictAlarmRisk(8.0, 10.0, 0.5, false) == Prediction(Critical, 3.0, false, Some(PlugInNow))
    ensures PredictAlarmRisk(34.0, 8.0, 6.0, true) == Prediction(Safe, 100.0, true, None)
    ensures PredictAlarmRisk(34.0, 8.0, 6.0, false) == Prediction(Critical, 0.0, false, Some(PlugInNow))
  {
  }
}
