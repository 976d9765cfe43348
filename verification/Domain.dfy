/** The vocabulary the modules share: time, options, monitors, check results, incidents. */
module Domain {

  /** A point in time, in nanoseconds. */
  type Time = int

  const DAY: int := 86_400_000_000_000

  datatype Option<+T> = None | Some(value: T)

  datatype MonitorType = Http | Ssl

  /** The part of a monitor's configuration the alerting engine reads. */
  datatype Monitor = Monitor(typ: MonitorType, failureThreshold: int)

  datatype CheckResult = CheckResult(
    region: string,
    checkedAt: Time,
    healthy: bool,
    failureReason: Option<string>,
    certExpiresAt: Option<Time>)

  datatype CloseReason = Recovered | Manual

  datatype Incident = Incident(
    id: int,
    startedAt: Time,
    endedAt: Option<Time>,
    cause: string,
    closeReason: Option<CloseReason>,
    firstResultId: int)

  /** What the engine reads before a check: the counters, the open incident and the
      expiry level last warned about. */
  datatype AlertState = AlertState(
    consecutiveFails: int,
    firstFailAt: Option<Time>,
    openIncident: Option<Incident>,
    sslWarnedDays: Option<int>)

  datatype MonitorId = MonitorId(org: int, id: int)

  /** A message on the results stream: a result of some monitor, or bytes that do not parse. */
  datatype Record = Malformed | Result(monitor: MonitorId, result: CheckResult)

  /** A number above every element of a finite set, so outside it. */
  lemma {:induction false} Beyond(xs: set<int>) returns (x: int)
    ensures forall y :: y in xs ==> y < x
  {
    x := 0;
    if y :| y in xs {
      var z := Beyond(xs - {y});
      x := if z <= y then y + 1 else z;
      forall w | w in xs ensures w < x {
        assert w == y || w in xs - {y};
      }
    }
  }
}
