/** The rows alerting keeps per monitor and the transactions that change them
    (internal/store/incidents.go). */
module AlertStore {
  import opened Domain
  import opened Engine

  /** One monitor's alert columns and its incident rows, oldest first. */
  datatype Db = Db(
    consecutiveFails: int,
    firstFailAt: Option<Time>,
    watermark: Option<int>,
    sslWarnedDays: Option<int>,
    incidents: seq<Incident>)

  const EMPTY_DB := Db(0, None, None, None, [])

  /** The open incident. A row is inserted only when none is open, so an open row is the
      newest one; `Tidy` in module History is that invariant. */
  function Open(db: Db): Option<Incident> {
    if |db.incidents| > 0 && db.incidents[|db.incidents| - 1].endedAt.None?
    then Some(db.incidents[|db.incidents| - 1]) else None
  }

  function GetAlertState(db: Db): AlertState {
    AlertState(db.consecutiveFails, db.firstFailAt, Open(db), db.sslWarnedDays)
  }

  function CloseNewest(db: Db, at: Time, reason: CloseReason): Db
    requires Open(db).Some?
  {
    var n := |db.incidents| - 1;
    db.(incidents := db.incidents[n := db.incidents[n].(endedAt := Some(at), closeReason := Some(reason))])
  }

  datatype Applied = Applied(applied: bool, skipped: bool, incident: Option<Incident>)

  /** One alerting round in one transaction: the watermark check, the incident action,
      then the counters and the new watermark. */
  function ApplyAlertDecision(db: Db, resultId: int, newIncidentId: int, d: Decision): (Db, Applied) {
    if db.watermark.Some? && resultId <= db.watermark.value then
      (db, Applied(false, true, None))
    else
      var open := Open(db);
      var incident := Incident(newIncidentId, d.startedAt, None, d.cause, None, resultId);
      var (db1, a1) :=
        if d.action == OpenIncident && open.None? then
          (db.(incidents := db.incidents + [incident]), Applied(true, false, Some(incident)))
        else if d.action == CloseIncident && open.Some? then
          (CloseNewest(db, d.endedAt, Recovered),
           Applied(true, false, Some(open.value.(endedAt := Some(d.endedAt), closeReason := Some(Recovered)))))
        else (db, Applied(false, false, None));
      var a2 := if d.renotify && open.Some? then Applied(true, false, open) else a1;
      (db1.(consecutiveFails := d.newConsecutive, firstFailAt := d.newFirstFailAt,
            watermark := Some(resultId), sslWarnedDays := d.newSslWarnedDays), a2)
  }

  /** An operator closes one incident by hand; unless it is the open one nothing changes. */
  function ManualClose(db: Db, incidentId: int, at: Time): Db {
    if Open(db).Some? && Open(db).value.id == incidentId then CloseNewest(db, at, Manual) else db
  }
}
