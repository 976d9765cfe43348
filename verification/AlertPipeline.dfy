/** The alerting service behind the consumer group (internal/alerting/service.go): every
    store call, the commit, the emit and the acknowledgement is its own step, any of them can
    fail or lose its reply, the process can crash between any two, and operators close
    incidents, edit and delete monitors in between. */
module AlertPipeline {
  import opened Domain
  import opened Engine
  import opened AlertStore
  import opened History
  import opened Streams

  datatype ResultKey = ResultKey(region: string, checkedAt: Time)

  /** A monitor's row with its alert columns, incidents and result rows. */
  datatype MonitorRow = MonitorRow(config: Monitor, db: Db, results: map<ResultKey, int>)

  /** How far the handler is with the record it holds. */
  datatype Hand =
    | NoHand
    | Started
    | Upserted(resultId: int)
    | Configured(resultId: int, config: Monitor)
    | Judged(resultId: int, config: Monitor, state: AlertState)
    | Committed(notice: Option<Notice>)

  datatype Emission = Emission(monitor: MonitorId, notice: Notice)

  /** `logs` is history only: per monitor, the order in which checks and closes took effect. */
  datatype Sys = Sys(
    bus: Streams.State,
    monitors: map<MonitorId, MonitorRow>,
    nextResult: int,
    nextIncident: int,
    hand: Hand,
    emitted: seq<Emission>,
    logs: map<MonitorId, seq<Effect>>)

  datatype Event =
    | Bus(e: Streams.Event)
    | Parse
    | Upsert(reply: Reply)
    | LoadMonitor(ok: bool)
    | LoadState(ok: bool)
    | Commit(reply: Reply)
    | Emit(ok: bool)
    | OperatorClose(monitor: MonitorId, incidentId: int, at: Time)
    | Edit(monitor: MonitorId, config: Monitor)
    | Delete(monitor: MonitorId)

  function KeyOf(r: CheckResult): ResultKey {
    ResultKey(r.region, r.checkedAt)
  }

  /** The handler returns: success moves on to the acknowledgement, an error ends the poll. */
  function Return(s: Sys, ok: bool): Option<Sys> {
    var bus := Streams.Step(s.bus, if ok then HandlerOk else HandlerErr);
    if bus.Some? then Some(s.(bus := bus.value, hand := NoHand)) else None
  }

  /** The record inside the handler. */
  function Held(s: Sys): Option<Record> {
    if s.bus.phase.Handling? && s.bus.phase.queue != []
       && s.bus.phase.queue[0].topic < |s.bus.topics|
       && 0 <= s.bus.phase.queue[0].entry < |s.bus.topics[s.bus.phase.queue[0].topic].entries|
    then Some(s.bus.topics[s.bus.phase.queue[0].topic].entries[s.bus.phase.queue[0].entry])
    else None
  }

  /** The result row: an existing key keeps its id, a new one takes the next. */
  function WithResult(s: Sys, m: MonitorId, r: CheckResult): Sys
    requires m in s.monitors
  {
    var row := s.monitors[m];
    if KeyOf(r) in row.results then s
    else s.(monitors := s.monitors[m := row.(results := row.results[KeyOf(r) := s.nextResult])],
            nextResult := s.nextResult + 1)
  }

  /** The insert names the monitor, so it fails once that monitor is gone. */
  function OnUpsert(s: Sys, m: MonitorId, r: CheckResult, reply: Reply): Option<Sys> {
    if m !in s.monitors || reply == Failed then Return(s, false)
    else
      var s1 := WithResult(s, m, r);
      if reply == Lost then Return(s1, false)
      else Some(s1.(hand := Upserted(s1.monitors[m].results[KeyOf(r)])))
  }

  /** Where a committed check belongs in the order of effects: a failing check judged while
      the incident was still open comes before the close that overtook it. */
  function Append(log: seq<Effect>, db: Db, c: Check, state: AlertState): seq<Effect> {
    if !c.result.healthy && state.openIncident.Some? && Open(db).None? && |log| > 0
    then log[..|log| - 1] + [Checked(c), log[|log| - 1]]
    else log + [Checked(c)]
  }

  /** The rows and logs right after a commit that was not skipped. */
  function AfterCommit(s: Sys, m: MonitorId, c: Check, state: AlertState): Sys
    requires m in s.monitors && m in s.logs
  {
    var row := s.monitors[m];
    s.(monitors := s.monitors[m := row.(db := History.Commit(row.db, c, Apply(c.config, c.result, state)).0)],
       nextIncident := s.nextIncident + 1,
       logs := s.logs[m := Append(s.logs[m], row.db, c, state)])
  }

  function OnCommit(s: Sys, m: MonitorId, r: CheckResult, reply: Reply): Option<Sys>
    requires s.hand.Judged?
  {
    if m !in s.monitors || m !in s.logs || reply == Failed then Return(s, false)
    else
      var row := s.monitors[m];
      var c := Check(s.hand.config, r, s.hand.resultId, s.nextIncident);
      var d := Apply(c.config, r, s.hand.state);
      var a := History.Commit(row.db, c, d).1;
      if a.skipped then Return(s, reply == Done)
      else
        var s1 := AfterCommit(s, m, c, s.hand.state);
        if reply == Lost then Return(s1, false)
        else Some(s1.(hand := Committed(NoticeFor(c, d, a))))
  }

  function OnEmit(s: Sys, m: MonitorId, ok: bool): Option<Sys>
    requires s.hand.Committed?
  {
    if s.hand.notice.Some? && ok
    then Return(s.(emitted := s.emitted + [Emission(m, s.hand.notice.value)]), true)
    else Return(s, true)
  }

  /** The handler's own steps, on the record it holds. */
  function OnHandler(s: Sys, e: Event, rec: Record): Option<Sys> {
    match (e, s.hand)
    case (Parse, Started) =>
      if rec.Malformed? then Return(s, true) else None
    case (Upsert(reply), Started) =>
      if rec.Malformed? then None else OnUpsert(s, rec.monitor, rec.result, reply)
    case (LoadMonitor(ok), Upserted(id)) =>
      if rec.Malformed? then None
      else if !ok then Return(s, false)
      else if rec.monitor !in s.monitors then Return(s, true)
      else Some(s.(hand := Configured(id, s.monitors[rec.monitor].config)))
    case (LoadState(ok), Configured(id, config)) =>
      if rec.Malformed? then None
      else if !ok then Return(s, false)
      else if rec.monitor !in s.monitors then Return(s, true)
      else Some(s.(hand := Judged(id, config, GetAlertState(s.monitors[rec.monitor].db))))
    case (Commit(reply), Judged(_, _, _)) =>
      if rec.Malformed? then None else OnCommit(s, rec.monitor, rec.result, reply)
    case (Emit(ok), Committed(_)) =>
      if rec.Malformed? then None else OnEmit(s, rec.monitor, ok)
    case _ => None
  }

  function OnBus(s: Sys, e: Streams.Event): Option<Sys> {
    if e.HandlerOk? || e.HandlerErr? then None
    else
      var bus := Streams.Step(s.bus, e);
      if bus.None? then None
      else Some(s.(bus := bus.value,
                   hand := if e.Deliver? then Started else if e.Crash? then NoHand else s.hand))
  }

  function OnClose(s: Sys, m: MonitorId, id: int, at: Time): Sys {
    if m in s.monitors && m in s.logs && Open(s.monitors[m].db).Some? && Open(s.monitors[m].db).value.id == id then
      var row := s.monitors[m];
      s.(monitors := s.monitors[m := row.(db := ManualClose(row.db, id, at))],
         logs := s.logs[m := s.logs[m] + [Closed(id, at)]])
    else s
  }

  function Step(s: Sys, e: Event): Option<Sys> {
    match e
    case Bus(b) => OnBus(s, b)
    case OperatorClose(m, id, at) => Some(OnClose(s, m, id, at))
    case Edit(m, config) =>
      if m in s.monitors then Some(s.(monitors := s.monitors[m := s.monitors[m].(config := config)])) else Some(s)
    case Delete(m) => Some(s.(monitors := s.monitors - {m}))
    case _ => if Held(s).Some? then OnHandler(s, e, Held(s).value) else None
  }

  /** One results stream with whatever it holds, and monitors nothing was applied to yet. */
  function Init(stream: seq<Record>, configs: map<MonitorId, Monitor>): Sys {
    Sys(Streams.State([Topic(stream, 0, [], {}, {})], Idle),
        map m | m in configs :: MonitorRow(configs[m], EMPTY_DB, map[]),
        1, 1, NoHand, [],
        map m | m in configs :: [])
  }

  function Exec(s: Sys, run: seq<Event>): Option<Sys> {
    if |run| == 0 then Some(s)
    else
      var before := Exec(s, run[..|run| - 1]);
      if before.None? then None else Step(before.value, run[|run| - 1])
  }

  // ---------- the reference: first occurrences in stream order ----------

  /** Some result of the list is of the region and the check time of the key. */
  ghost predicate HasKey(rs: seq<CheckResult>, k: ResultKey) {
    exists i :: 0 <= i < |rs| && rs[i].region == k.region && rs[i].checkedAt == k.checkedAt
  }

  /** Some result of the list is of the same region and check time. */
  ghost predicate Seen(rs: seq<CheckResult>, r: CheckResult) {
    exists i :: 0 <= i < |rs| && rs[i].region == r.region && rs[i].checkedAt == r.checkedAt
  }

  /** A monitor's results in stream order, each region and check time once, the first payload
      winning. */
  ghost function Distinct(m: MonitorId, recs: seq<Record>): seq<CheckResult> {
    if |recs| == 0 then []
    else
      var p, last := Distinct(m, recs[..|recs| - 1]), recs[|recs| - 1];
      if last.Result? && last.monitor == m && !Seen(p, last.result) then p + [last.result] else p
  }

  function Results(h: seq<Check>): (rs: seq<CheckResult>)
    ensures |rs| == |h| && forall i :: 0 <= i < |h| ==> rs[i] == h[i].result
  {
    seq(|h|, i requires 0 <= i < |h| => h[i].result)
  }

  // ---------- a stale decision still takes effect in some order ----------

  /** The state a handler loaded is the current one, or the one just before the close that
      has since taken the open incident away. */
  ghost predicate Loaded(state: AlertState, log: seq<Effect>) {
    || state == GetAlertState(Replay(log))
    || (&& |log| > 0 && log[|log| - 1].Closed? && Open(Replay(log)).None?
        && state == GetAlertState(Replay(log[..|log| - 1])) && state.openIncident.Some?)
  }

  /** Closing the incident does not change what a healthy check leaves behind. */
  lemma HealthyAfterClose(db: Db, id: int, at: Time, c: Check)
    requires Open(db).Some? && Open(db).value.id == id && c.result.healthy && Newer(db, c)
    ensures var closed := ManualClose(db, id, at);
      var r := History.Commit(closed, c, Apply(c.config, c.result, GetAlertState(db)));
      && Newer(closed, c) && r.0 == NextCheck(closed, c) && !r.1.skipped && !r.1.applied
  {}

  /** Closing the incident commutes with a failing check that saw it open. */
  lemma FailingBeforeClose(db: Db, id: int, at: Time, c: Check)
    requires Open(db).Some? && Open(db).value.id == id && !c.result.healthy && Newer(db, c)
    ensures var closed := ManualClose(db, id, at);
      var r := History.Commit(closed, c, Apply(c.config, c.result, GetAlertState(db)));
      && Newer(closed, c) && r.0 == ManualClose(NextCheck(db, c), id, at) && !r.1.skipped && !r.1.applied
  {}

  lemma CloseIsEffective(log: seq<Effect>)
    requires |log| > 0 && log[|log| - 1].Closed? && Open(Replay(log)).None?
    requires Open(Replay(log[..|log| - 1])).Some?
    ensures Open(Replay(log[..|log| - 1])).value.id == log[|log| - 1].incidentId
    ensures Replay(log) == ManualClose(Replay(log[..|log| - 1]), log[|log| - 1].incidentId, log[|log| - 1].at)
  {
    Unfold(log, log[..|log| - 1], log[|log| - 1]);
  }

  /** A commit, even of a decision made before an operator closed the incident, leaves exactly
      the rows of a history in which each check and each close took effect at one moment. */
  lemma {:induction false} Linearise(log: seq<Effect>, c: Check, state: AlertState)
    requires Loaded(state, log) && Newer(Replay(log), c)
    ensures var d := Apply(c.config, c.result, state);
      var r := History.Commit(Replay(log), c, d);
      var log' := Append(log, Replay(log), c, state);
      && !r.1.skipped
      && r.0 == Replay(log')
      && Checks(log') == Checks(log) + [c]
      && (NoticeFor(c, d, r.1).Some? ==> NoticeFor(c, d, r.1).value in Notices(log'))
      && forall n :: n in Notices(log) ==> n in Notices(log')
  {
    var db := Replay(log);
    if state == GetAlertState(db) {
      Unfold(log + [Checked(c)], log, Checked(c));
    } else {
      var p, e := log[..|log| - 1], log[|log| - 1];
      Unfold(log, p, e);
      CloseIsEffective(log);
      if c.result.healthy {
        HealthyAfterClose(Replay(p), e.incidentId, e.at, c);
        Unfold(log + [Checked(c)], log, Checked(c));
      } else {
        FailingBeforeClose(Replay(p), e.incidentId, e.at, c);
        Unfold(p + [Checked(c)], p, Checked(c));
        Unfold(p + [Checked(c)] + [e], p + [Checked(c)], e);
        assert p + [Checked(c), e] == p + [Checked(c)] + [e];
      }
      hide NextCheck, NoticeAt, History.Commit, ManualClose, Apply;
    }
  }
}
