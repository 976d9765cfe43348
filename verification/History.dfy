/** Alert rows as a fold over a monitor's history of checks and operator closes. */
module History {
  import opened Domain
  import opened Engine
  import opened AlertStore

  /** One check: the configuration it was judged under, the result, its row id, and the
      incident id it takes if it opens an incident. */
  datatype Check = Check(config: Monitor, result: CheckResult, resultId: int, incidentId: int)

  /** One thing that happened to a monitor. */
  datatype Effect = Checked(c: Check) | Closed(incidentId: int, at: Time)

  /** A notification, tagged with the result that caused it. */
  datatype Notice = Notice(
    resultId: int,
    incidentId: int,
    kind: EventKind,
    warnDays: Option<int>,
    startedAt: Time,
    endedAt: Option<Time>)

  function Decide(db: Db, c: Check): Decision {
    Apply(c.config, c.result, GetAlertState(db))
  }

  function Commit(db: Db, c: Check, d: Decision): (Db, Applied) {
    ApplyAlertDecision(db, c.resultId, c.incidentId, d)
  }

  function NextCheck(db: Db, c: Check): Db {
    Commit(db, c, Decide(db, c)).0
  }

  function Next(db: Db, e: Effect): Db {
    match e
    case Checked(c) => NextCheck(db, c)
    case Closed(id, at) => ManualClose(db, id, at)
  }

  function Replay(evs: seq<Effect>): Db {
    if |evs| == 0 then EMPTY_DB else Next(Replay(evs[..|evs| - 1]), evs[|evs| - 1])
  }

  /** The emit guard: a notification needs an incident change that really happened. */
  function NoticeFor(c: Check, d: Decision, a: Applied): Option<Notice> {
    if d.notify.Some? && a.applied && a.incident.Some? then
      Some(Notice(c.resultId, a.incident.value.id, d.notify.value.kind, d.notify.value.warnDays,
                  a.incident.value.startedAt, a.incident.value.endedAt))
    else None
  }

  function NoticeAt(db: Db, c: Check): Option<Notice> {
    NoticeFor(c, Decide(db, c), Commit(db, c, Decide(db, c)).1)
  }

  function Announce(ns: seq<Notice>, db: Db, e: Effect): seq<Notice> {
    if e.Checked? && NoticeAt(db, e.c).Some? then ns + [NoticeAt(db, e.c).value] else ns
  }

  function Notices(evs: seq<Effect>): seq<Notice> {
    if |evs| == 0 then []
    else Announce(Notices(evs[..|evs| - 1]), Replay(evs[..|evs| - 1]), evs[|evs| - 1])
  }

  function Checks(evs: seq<Effect>): seq<Check> {
    if |evs| == 0 then []
    else if evs[|evs| - 1].Checked? then Checks(evs[..|evs| - 1]) + [evs[|evs| - 1].c]
    else Checks(evs[..|evs| - 1])
  }

  /** Row ids and offered incident ids grow along the history. */
  ghost predicate Ordered(h: seq<Check>) {
    forall i, j :: 0 <= i < j < |h| ==>
      h[i].resultId < h[j].resultId && h[i].incidentId < h[j].incidentId
  }

  /** The length of the run of failing checks that ends the history. */
  function Trailing(h: seq<Check>): (k: nat)
    ensures k <= |h|
  {
    if |h| == 0 || h[|h| - 1].result.healthy then 0 else 1 + Trailing(h[..|h| - 1])
  }

  lemma {:induction false} TrailingSnoc(h: seq<Check>, c: Check)
    ensures Trailing(h + [c]) == if c.result.healthy then 0 else 1 + Trailing(h)
  {
    assert (h + [c])[..|h|] == h;
  }

  /** An induction step over histories: everything is determined by the last event. */
  lemma {:induction false} Unfold(evs: seq<Effect>, p: seq<Effect>, e: Effect)
    requires evs == p + [e]
    ensures Replay(evs) == Next(Replay(p), e)
    ensures Checks(evs) == if e.Checked? then Checks(p) + [e.c] else Checks(p)
    ensures Notices(evs) == Announce(Notices(p), Replay(p), e)
  {
    assert evs[..|evs| - 1] == p;
  }

  lemma OrderedPrefix(h: seq<Check>, c: Check)
    requires Ordered(h + [c])
    ensures Ordered(h)
    ensures |h| > 0 ==> h[|h| - 1].resultId < c.resultId && h[|h| - 1].incidentId < c.incidentId
  {
    var g := h + [c];
    assert forall i :: 0 <= i < |h| ==> g[i] == h[i];
    assert g[|h|] == c;
  }

  // ---------- the counters ----------

  /** The stored watermark lets this check through. */
  predicate Newer(db: Db, c: Check) {
    db.watermark.None? || db.watermark.value < c.resultId
  }

  /** What holds of the counters after any history, whatever was closed or reconfigured. */
  ghost predicate CountersMatch(h: seq<Check>, db: Db) {
    && db.consecutiveFails == Trailing(h)
    && (Trailing(h) == 0 ==> db.firstFailAt == None)
    && (Trailing(h) > 0 ==> db.firstFailAt == Some(h[|h| - Trailing(h)].result.checkedAt))
    && db.watermark == (if |h| > 0 then Some(h[|h| - 1].resultId) else None)
  }

  /** One applied check moves the counters by its health alone. */
  lemma NextCounters(db: Db, c: Check)
    requires Newer(db, c)
    ensures var d := NextCheck(db, c);
      && d.watermark == Some(c.resultId)
      && d.consecutiveFails == (if c.result.healthy then 0 else db.consecutiveFails + 1)
      && d.firstFailAt == (if c.result.healthy then None
                           else if db.consecutiveFails == 0 then Some(c.result.checkedAt)
                           else db.firstFailAt)
  {}

  lemma {:induction false} CountersStep(h: seq<Check>, db: Db, c: Check)
    requires CountersMatch(h, db) && Newer(db, c)
    ensures CountersMatch(h + [c], NextCheck(db, c))
  {
    NextCounters(db, c);
    TrailingSnoc(h, c);
    hide NextCheck, Trailing;
    if !c.result.healthy {
      var g := h + [c];
      assert g[|g| - (Trailing(h) + 1)] == if Trailing(h) == 0 then c else h[|h| - Trailing(h)];
    }
  }

  /** The persisted counters are a function of the checks alone: the fail count is the
      length of the trailing failing run and the first-fail time is that run's first check. */
  lemma {:induction false} CountersFollowHistory(evs: seq<Effect>)
    requires Ordered(Checks(evs))
    ensures CountersMatch(Checks(evs), Replay(evs))
  {
    if |evs| > 0 {
      var p, e := evs[..|evs| - 1], evs[|evs| - 1];
      Unfold(evs, p, e);
      if e.Checked? {
        OrderedPrefix(Checks(p), e.c);
        CountersFollowHistory(p);
        CountersStep(Checks(p), Replay(p), e.c);
      } else {
        CountersFollowHistory(p);
      }
    }
  }

  /** The next check of an ordered history always passes the watermark. */
  lemma NextIsNewer(evs: seq<Effect>, c: Check)
    requires Ordered(Checks(evs) + [c])
    ensures Ordered(Checks(evs)) && Newer(Replay(evs), c)
  {
    OrderedPrefix(Checks(evs), c);
    CountersFollowHistory(evs);
  }

  /** Whenever a failing check is judged the run's first-fail time is known, so the
      engine's fallback to the current check's time is never used. */
  lemma FirstFailKnown(evs: seq<Effect>, c: Check)
    requires Ordered(Checks(evs)) && !c.result.healthy
    ensures Decide(Replay(evs), c).newFirstFailAt.Some?
  {
    CountersFollowHistory(evs);
  }

  // ---------- incidents as maximal failing runs ----------

  function CauseOf(res: CheckResult): string {
    if res.failureReason.Some? then res.failureReason.value else ""
  }

  function IncidentOf(h: seq<Check>, start: nat, threshold: nat, healed: Option<Time>): Incident
    requires threshold >= 1 && start + threshold <= |h|
  {
    var opener := h[start + threshold - 1];
    Incident(opener.incidentId, h[start].result.checkedAt, healed, CauseOf(opener.result),
             if healed.Some? then Some(Recovered) else None, opener.resultId)
  }

  /** The reference: cut the history into maximal failing runs; each run at least as long as
      the threshold is one incident, ended by the healthy check that follows the run. */
  function Outages(h: seq<Check>, threshold: nat): seq<Incident>
    requires threshold >= 1
    decreases |h|
  {
    var n, k := |h|, Trailing(h);
    if n == 0 then []
    else if k > 0 then
      var before := Outages(h[..n - k], threshold);
      if k >= threshold then before + [IncidentOf(h, n - k, threshold, None)] else before
    else
      var j := Trailing(h[..n - 1]);
      var before := Outages(h[..n - 1 - j], threshold);
      if j >= threshold
      then before + [IncidentOf(h, n - 1 - j, threshold, Some(h[n - 1].result.checkedAt))]
      else before
  }

  /** What the reference says of a history that ends in a failing run of length j. */
  lemma {:induction false} OutagesRun(p: seq<Check>, threshold: nat)
    requires threshold >= 1
    ensures var j := Trailing(p);
      var before := Outages(p[..|p| - j], threshold);
      Outages(p, threshold) ==
        if j >= threshold then before + [IncidentOf(p, |p| - j, threshold, None)] else before
  {
    if Trailing(p) == 0 {
      assert p[..|p| - 0] == p;
    }
  }

  /** Ending a run: the run's incident, if it has one, is the only thing that changes. */
  lemma {:induction false} OutagesHealthy(p: seq<Check>, c: Check, threshold: nat)
    requires threshold >= 1 && c.result.healthy
    ensures var j := Trailing(p);
      var before := Outages(p[..|p| - j], threshold);
      Outages(p + [c], threshold) ==
        if j >= threshold then before + [IncidentOf(p, |p| - j, threshold, Some(c.result.checkedAt))]
        else before
  {
    var h, j := p + [c], Trailing(p);
    TrailingSnoc(p, c);
    assert h[..|h| - 1] == p && h[..|p| - j] == p[..|p| - j];
  }

  /** Lengthening a run: what came before the run is untouched. */
  lemma {:induction false} OutagesFailing(p: seq<Check>, c: Check, threshold: nat)
    requires threshold >= 1 && !c.result.healthy
    ensures var j := Trailing(p);
      var before := Outages(p[..|p| - j], threshold);
      Outages(p + [c], threshold) ==
        if j + 1 >= threshold then before + [IncidentOf(p + [c], |p| - j, threshold, None)] else before
  {
    var h, j := p + [c], Trailing(p);
    TrailingSnoc(p, c);
    assert h[..|p| - j] == p[..|p| - j];
  }

  /** What one applied check does to the incident rows. */
  lemma NextIncidents(db: Db, c: Check)
    requires Newer(db, c)
    ensures var d := NextCheck(db, c);
      var n := |db.incidents|;
      if c.result.healthy then
        if Open(db).None? then d.incidents == db.incidents && Open(d).None?
        else d.incidents == db.incidents[n - 1 :=
               db.incidents[n - 1].(endedAt := Some(c.result.checkedAt), closeReason := Some(Recovered))]
      else if Open(db).Some? || db.consecutiveFails + 1 < c.config.failureThreshold then
        d.incidents == db.incidents
      else
        d.incidents == db.incidents + [Incident(c.incidentId,
          if db.consecutiveFails == 0 then c.result.checkedAt
          else if db.firstFailAt.Some? then db.firstFailAt.value else c.result.checkedAt,
          None, CauseOf(c.result), None, c.resultId)]
  {}

  lemma NextOpen(db: Db, c: Check)
    requires Newer(db, c)
    ensures Open(NextCheck(db, c)).Some? <==>
      !c.result.healthy && (Open(db).Some? || db.consecutiveFails + 1 >= c.config.failureThreshold)
  {}

  lemma UpdateLast<T>(s: seq<T>, x: T, y: T)
    ensures (s + [x])[|s| := y] == s + [y]
  {}

  /** The stored rows agree with the reference history. */
  ghost predicate Agrees(h: seq<Check>, threshold: nat, db: Db)
    requires threshold >= 1
  {
    && db.incidents == Outages(h, threshold)
    && (Open(db).Some? <==> Trailing(h) >= threshold)
  }

  lemma {:induction false} AgreesHealthy(p: seq<Check>, c: Check, db: Db)
    requires c.result.healthy && c.config.failureThreshold >= 1 && Newer(db, c)
    requires Agrees(p, c.config.failureThreshold, db)
    ensures Agrees(p + [c], c.config.failureThreshold, NextCheck(db, c))
  {
    NextIncidents(db, c);
    NextOpen(db, c);
    OutagesRun(p, c.config.failureThreshold);
    OutagesHealthy(p, c, c.config.failureThreshold);
    TrailingSnoc(p, c);
    var j, t := Trailing(p), c.config.failureThreshold;
    if j >= t {
      var open := IncidentOf(p, |p| - j, t, None);
      var healed := open.(endedAt := Some(c.result.checkedAt), closeReason := Some(Recovered));
      assert healed == IncidentOf(p, |p| - j, t, Some(c.result.checkedAt));
      UpdateLast(Outages(p[..|p| - j], t), open, healed);
    }
    hide NextCheck, Outages, Trailing, Open, IncidentOf;
  }

  /** Appending a check leaves an incident opened earlier as it was. */
  lemma IncidentOfOlder(p: seq<Check>, c: Check, start: nat, threshold: nat)
    requires threshold >= 1 && start + threshold <= |p|
    ensures IncidentOf(p + [c], start, threshold, None) == IncidentOf(p, start, threshold, None)
  {}

  /** The incident a threshold-th failure opens, in terms of the stored counters. */
  lemma {:induction false} IncidentOfNewest(p: seq<Check>, c: Check, db: Db, j: nat)
    requires j <= |p| && db.consecutiveFails == j
    requires j > 0 ==> db.firstFailAt == Some(p[|p| - j].result.checkedAt)
    ensures IncidentOf(p + [c], |p| - j, j + 1, None) == Incident(c.incidentId,
      if db.consecutiveFails == 0 then c.result.checkedAt
      else if db.firstFailAt.Some? then db.firstFailAt.value else c.result.checkedAt,
      None, CauseOf(c.result), None, c.resultId)
  {
    var h := p + [c];
    assert h[|p|] == c;
    assert j > 0 ==> h[|p| - j] == p[|p| - j];
  }

  lemma {:induction false} AgreesFailing(p: seq<Check>, c: Check, db: Db)
    requires !c.result.healthy && c.config.failureThreshold >= 1 && Newer(db, c)
    requires CountersMatch(p, db)
    requires Agrees(p, c.config.failureThreshold, db)
    ensures Agrees(p + [c], c.config.failureThreshold, NextCheck(db, c))
  {
    NextIncidents(db, c);
    NextOpen(db, c);
    OutagesRun(p, c.config.failureThreshold);
    OutagesFailing(p, c, c.config.failureThreshold);
    TrailingSnoc(p, c);
    hide NextCheck, Outages, Trailing, IncidentOf, CauseOf, Open;
    var j, t := Trailing(p), c.config.failureThreshold;
    if j >= t {
      IncidentOfOlder(p, c, |p| - j, t);
    } else if j + 1 == t {
      IncidentOfNewest(p, c, db, j);
    }
  }

  ghost predicate OnlyChecksUnder(evs: seq<Effect>, m: Monitor) {
    forall e :: e in evs ==> e.Checked? && e.c.config == m
  }

  /** The incremental engine, run one check at a time over its own stored state, keeps
      exactly the incidents a reader would cut out of the whole history, and an incident is
      open exactly while the trailing failing run has reached the threshold. */
  lemma {:induction false} EngineRefinesHistory(evs: seq<Effect>, m: Monitor)
    requires m.failureThreshold >= 1 && OnlyChecksUnder(evs, m) && Ordered(Checks(evs))
    ensures Replay(evs).incidents == Outages(Checks(evs), m.failureThreshold)
    ensures Open(Replay(evs)).Some? <==> Trailing(Checks(evs)) >= m.failureThreshold
  {
    if |evs| > 0 {
      var p, e := evs[..|evs| - 1], evs[|evs| - 1];
      Unfold(evs, p, e);
      NextIsNewer(p, e.c);
      EngineRefinesHistory(p, m);
      CountersFollowHistory(p);
      hide NextCheck, Outages, Trailing, Announce;
      if e.c.result.healthy {
        AgreesHealthy(Checks(p), e.c, Replay(p));
      } else {
        AgreesFailing(Checks(p), e.c, Replay(p));
      }
    }
  }
}
