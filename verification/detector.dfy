/**
 * The anomaly detector (AnomalyDetector): each run compares one metric snapshot with
 * four thresholds, collects an alert per threshold exceeded, in a fixed order, and
 * sends the collected alerts only when the "general" alert type is out of its
 * cooldown. Times are whole seconds on the detector's clock.
 */
module Detector {
  import opened JavaInt
  import opened Metrics

  /** The configured thresholds: CPU %, memory %, the slowest response in ms, pool usage %, and the cooldown. */
  datatype Thresholds = Thresholds(
    cpuUsage: real,
    memoryUsage: real,
    responseTime: real,
    dbConnection: real,
    cooldownMinutes: Int32)

  /** The defaults used when the configuration gives no value. */
  const DefaultThresholds: Thresholds := Thresholds(80.0, 85.0, 1000.0, 90.0, 15)

  /** One alert, with the figures its message reports (the message text itself is not modelled). */
  datatype Alert =
    | CpuAlert(usage: real, threshold: real)
    | MemoryAlert(usage: real, threshold: real)
    | ResponseTimeAlert(maxTime: real, threshold: real)
    | DbConnectionAlert(active: Int32, max: Int32, usage: real, threshold: real)

  /** The order in which the checks run. */
  function Rank(a: Alert): nat {
    match a
    case CpuAlert(_, _) => 0
    case MemoryAlert(_, _) => 1
    case ResponseTimeAlert(_, _) => 2
    case DbConnectionAlert(_, _, _, _) => 3
  }

  /** The share of the pool in use, in percent; only asked for a pool with connections. */
  function DbUsage(active: Int32, max: Int32): real
    requires max > 0
  {
    active as real / max as real * 100.0
  }

  predicate DbAlertDue(m: SystemMetrics, t: Thresholds) {
    m.dbConnectionMax > 0 && DbUsage(m.dbConnectionActive, m.dbConnectionMax) > t.dbConnection
  }

  function DbAlertOf(m: SystemMetrics, t: Thresholds): Alert
    requires m.dbConnectionMax > 0
  {
    DbConnectionAlert(m.dbConnectionActive, m.dbConnectionMax, DbUsage(m.dbConnectionActive, m.dbConnectionMax), t.dbConnection)
  }

  /**
   * The alerts one run collects: the checks run in the order CPU, memory, slowest
   * response, pool, each appending its alert when its threshold is strictly
   * exceeded; a pool without connections is not checked at all.
   */
  function Alerts(m: SystemMetrics, t: Thresholds): seq<Alert> {
    var afterCpu := if m.cpuUsage > t.cpuUsage then [CpuAlert(m.cpuUsage, t.cpuUsage)] else [];
    var afterMemory := if m.memoryUsagePercent > t.memoryUsage
      then afterCpu + [MemoryAlert(m.memoryUsagePercent, t.memoryUsage)] else afterCpu;
    var afterResponse := if m.httpRequestMaxTime > t.responseTime
      then afterMemory + [ResponseTimeAlert(m.httpRequestMaxTime, t.responseTime)] else afterMemory;
    if DbAlertDue(m, t) then afterResponse + [DbAlertOf(m, t)] else afterResponse
  }

  /** The alerts raised on `m`, one check at a time: each carries the figures it was raised on. */
  predicate RaisedOn(a: Alert, m: SystemMetrics, t: Thresholds) {
    a == CpuAlert(m.cpuUsage, t.cpuUsage) || a == MemoryAlert(m.memoryUsagePercent, t.memoryUsage) ||
    a == ResponseTimeAlert(m.httpRequestMaxTime, t.responseTime) || (m.dbConnectionMax > 0 && a == DbAlertOf(m, t))
  }

  /**
   * Each alert is raised exactly when its threshold is strictly exceeded, the pool's
   * only for a pool with connections, and nothing else is ever in the list.
   */
  lemma AlertsRaisedExactlyWhenExceeded(m: SystemMetrics, t: Thresholds)
    ensures CpuAlert(m.cpuUsage, t.cpuUsage) in Alerts(m, t) <==> m.cpuUsage > t.cpuUsage
    ensures MemoryAlert(m.memoryUsagePercent, t.memoryUsage) in Alerts(m, t) <==> m.memoryUsagePercent > t.memoryUsage
    ensures ResponseTimeAlert(m.httpRequestMaxTime, t.responseTime) in Alerts(m, t) <==> m.httpRequestMaxTime > t.responseTime
    ensures (exists a :: a in Alerts(m, t) && a.DbConnectionAlert?) <==> DbAlertDue(m, t)
    ensures forall a :: a in Alerts(m, t) ==> RaisedOn(a, m, t)
  {
    if DbAlertDue(m, t) {
      assert DbAlertOf(m, t) in Alerts(m, t);
    }
  }

  /** No two alerts of one kind, and the kinds in the order the checks run. */
  predicate InCheckOrder(alerts: seq<Alert>) {
    forall i, j :: 0 <= i < j < |alerts| ==> Rank(alerts[i]) < Rank(alerts[j])
  }

  lemma InCheckOrderAppend(alerts: seq<Alert>, a: Alert)
    requires InCheckOrder(alerts) && forall b :: b in alerts ==> Rank(b) < Rank(a)
    ensures InCheckOrder(alerts + [a])
  {
    var s := alerts + [a];
    forall i, j | 0 <= i < j < |s| ensures Rank(s[i]) < Rank(s[j]) {
      assert s[i] == alerts[i];
      if j < |alerts| {
        assert s[j] == alerts[j];
      } else {
        assert s[i] in alerts;
      }
    }
  }

  /** The alerts come in the order CPU, memory, slowest response, pool, at most one of each. */
  lemma AlertsInCheckOrder(m: SystemMetrics, t: Thresholds)
    ensures InCheckOrder(Alerts(m, t)) && |Alerts(m, t)| <= 4
  {
    var afterCpu := if m.cpuUsage > t.cpuUsage then [CpuAlert(m.cpuUsage, t.cpuUsage)] else [];
    var afterMemory := if m.memoryUsagePercent > t.memoryUsage
      then afterCpu + [MemoryAlert(m.memoryUsagePercent, t.memoryUsage)] else afterCpu;
    var afterResponse := if m.httpRequestMaxTime > t.responseTime
      then afterMemory + [ResponseTimeAlert(m.httpRequestMaxTime, t.responseTime)] else afterMemory;
    assert forall b :: b in afterCpu ==> Rank(b) < 1;
    if m.memoryUsagePercent > t.memoryUsage {
      InCheckOrderAppend(afterCpu, MemoryAlert(m.memoryUsagePercent, t.memoryUsage));
    }
    assert forall b :: b in afterMemory ==> Rank(b) < 2;
    if m.httpRequestMaxTime > t.responseTime {
      InCheckOrderAppend(afterMemory, ResponseTimeAlert(m.httpRequestMaxTime, t.responseTime));
    }
    assert forall b :: b in afterResponse ==> Rank(b) < 3;
    if DbAlertDue(m, t) {
      InCheckOrderAppend(afterResponse, DbAlertOf(m, t));
    }
  }

  /**
   * An alert type is held back while it was last sent fewer whole minutes ago than
   * the cooldown; `Duration.toMinutes` truncates toward zero.
   */
  predicate CooldownActive(cooldowns: map<string, int>, alertType: string, now: int, minutes: int) {
    alertType in cooldowns && JavaDiv(now - cooldowns[alertType], 60) < minutes
  }

  /**
   * After a send at `sentAt`, a later request is held back exactly while less than
   * `minutes` full minutes have passed; a clock that reads earlier than the send
   * holds it back whenever there is a cooldown at all.
   */
  lemma CooldownAfterSend(cooldowns: map<string, int>, alertType: string, sentAt: int, now: int, minutes: int)
    ensures sentAt <= now ==>
      (CooldownActive(cooldowns[alertType := sentAt], alertType, now, minutes) <==> now < sentAt + 60 * minutes)
    ensures now < sentAt && minutes > 0 ==> CooldownActive(cooldowns[alertType := sentAt], alertType, now, minutes)
  {
    var q := JavaDiv(now - sentAt, 60);
    if sentAt <= now {
      if q < minutes {
        assert q + 1 <= minutes;
        assert now - sentAt < 60 * (q + 1) <= 60 * minutes;
      } else {
        assert now - sentAt >= 60 * q >= 60 * minutes;
      }
    }
  }

  /** A send for one alert type leaves the cooldown of every other type as it was. */
  lemma CooldownsAreSeparate(cooldowns: map<string, int>, alertType: string, sentAt: int, other: string, now: int, minutes: int)
    requires other != alertType
    ensures CooldownActive(cooldowns[alertType := sentAt], other, now, minutes) == CooldownActive(cooldowns, other, now, minutes)
  {
  }

  class AnomalyDetector {
    const thresholds: Thresholds
    /** When each alert type was last sent. */
    var alertCooldowns: map<string, int>

    constructor (thresholds: Thresholds)
      ensures this.thresholds == thresholds && alertCooldowns == map[]
    {
      this.thresholds := thresholds;
      alertCooldowns := map[];
    }

    /**
     * `canSendAlert`: false while the type is in its cooldown, the record unchanged;
     * otherwise true, with `now` recorded as the type's last send.
     */
    method CanSendAlert(alertType: string, now: int) returns (ok: bool)
      modifies this
      ensures ok <==> !CooldownActive(old(alertCooldowns), alertType, now, thresholds.cooldownMinutes)
      ensures alertCooldowns == if ok then old(alertCooldowns)[alertType := now] else old(alertCooldowns)
    {
      if alertType in alertCooldowns {
        var minutesSinceLastAlert := JavaDiv(now - alertCooldowns[alertType], 60);
        if minutesSinceLastAlert < thresholds.cooldownMinutes {
          return false;
        }
      }
      alertCooldowns := alertCooldowns[alertType := now];
      return true;
    }

    /**
     * `detectAnomalies`: the alerts are collected check by check; when there is at
     * least one, the "general" cooldown is consulted and, if it lets them through,
     * refreshed and the alerts sent. With no alert the cooldown is not touched.
     */
    method DetectAnomalies(m: SystemMetrics, now: int) returns (alerts: seq<Alert>, sent: bool)
      modifies this
      ensures alerts == Alerts(m, thresholds)
      ensures sent <==> alerts != [] && !CooldownActive(old(alertCooldowns), "general", now, thresholds.cooldownMinutes)
      ensures alertCooldowns == if sent then old(alertCooldowns)["general" := now] else old(alertCooldowns)
    {
      alerts := [];
      if m.cpuUsage > thresholds.cpuUsage {
        alerts := alerts + [CpuAlert(m.cpuUsage, thresholds.cpuUsage)];
      }
      if m.memoryUsagePercent > thresholds.memoryUsage {
        alerts := alerts + [MemoryAlert(m.memoryUsagePercent, thresholds.memoryUsage)];
      }
      if m.httpRequestMaxTime > thresholds.responseTime {
        alerts := alerts + [ResponseTimeAlert(m.httpRequestMaxTime, thresholds.responseTime)];
      }
      if m.dbConnectionMax > 0 {
        var connectionUsage := DbUsage(m.dbConnectionActive, m.dbConnectionMax);
        if connectionUsage > thresholds.dbConnection {
          alerts := alerts + [DbConnectionAlert(m.dbConnectionActive, m.dbConnectionMax, connectionUsage, thresholds.dbConnection)];
        }
      }
      sent := false;
      if alerts != [] {
        sent := CanSendAlert("general", now);
      }
    }
  }

  /**
   * With the default configuration and a CPU that stays hot, the alert goes out at
   * the first run, is held back 14 minutes 59 seconds later, and goes out again at
   * the fifteenth minute.
   */
  method HotCpuEveryFifteenMinutes(m: SystemMetrics) returns (first: bool, second: bool, third: bool)
    requires m.cpuUsage > 80.0
    ensures first && !second && third
  {
    var detector := new AnomalyDetector(DefaultThresholds);
    var alerts;
    alerts, first := detector.DetectAnomalies(m, 0);
    alerts, second := detector.DetectAnomalies(m, 899);
    alerts, third := detector.DetectAnomalies(m, 900);
  }
}
