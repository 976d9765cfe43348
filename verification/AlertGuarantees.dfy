/** What an operator may rely on, for every run of the alerting pipeline. */
module AlertGuarantees {
  import opened Domain
  import opened Engine
  import opened AlertStore
  import opened History
  import opened AlertPipeline
  import Streams
  import Notifications
  import DedupKey
  import opened ExactlyOnce

  ghost predicate Reaches(stream: seq<Record>, configs: map<MonitorId, Monitor>, run: seq<Event>, s: Sys) {
    Exec(Init(stream, configs), run) == Some(s)
  }

  /** How many entries of the results stream have been handled. */
  function Handled(s: Sys): int
    requires |s.bus.topics| == 1
  {
    ViewOf(s).handled
  }

  /** Handled entries form a prefix of the stream. */
  lemma HandledPrefix(t: Streams.Topic)
    requires Streams.TopicInv(t)
    ensures var n := ViewOfTopic(t).handled;
      0 <= n <= |t.entries| && forall i :: i in t.succeeded <==> 0 <= i < n
  {}

  /** Exactly-once effect. After any run, with failures, lost replies, duplicates, crashes,
      operator closes, edits and deletions anywhere, the handled entries are a prefix of the
      stream, and every monitor's rows are the replay of a history whose checks are the
      distinct results of that prefix, each once and in stream order, or of that prefix and
      the one entry being retried. */
  lemma ExactlyOnceEffect(stream: seq<Record>, configs: map<MonitorId, Monitor>, run: seq<Event>, s: Sys, m: MonitorId)
    requires Reaches(stream, configs, run, s)
    ensures |s.bus.topics| == 1
    ensures var n, t := Handled(s), s.bus.topics[0];
      && 0 <= n <= |t.entries| && (forall i :: i in t.succeeded <==> 0 <= i < n)
      && (m in s.monitors ==>
            && m in s.logs && s.monitors[m].db == Replay(s.logs[m]) && Ordered(Checks(s.logs[m]))
            && var results := Results(Checks(s.logs[m]));
               || results == Distinct(m, t.entries[..n])
               || (n < |t.entries| && results == Distinct(m, t.entries[..n + 1])))
  {
    ReachableInv(stream, configs, run);
    HandledPrefix(s.bus.topics[0]);
    hide Distinct, Replay, Checks, Exec, Init, Streams.TopicInv, Stored, ViewOfTopic, EmittedOk, HandOk;
  }

  /** Emission is at most once: no two emissions stem from the same result, each is a
      notification of its monitor's history, and a monitor's emissions come in that order. */
  lemma EmittedAtMostOnce(stream: seq<Record>, configs: map<MonitorId, Monitor>, run: seq<Event>, s: Sys)
    requires Reaches(stream, configs, run, s)
    ensures forall i :: 0 <= i < |s.emitted| ==>
      s.emitted[i].monitor in s.logs && s.emitted[i].notice in Notices(s.logs[s.emitted[i].monitor])
    ensures forall i, j :: 0 <= i < j < |s.emitted| ==>
      s.emitted[i].notice.resultId < s.emitted[j].notice.resultId
  {
    ReachableInv(stream, configs, run);
    hide Notices, Streams.Inv, AllMons;
  }

  // ---------- which steps touch a monitor's history ----------

  /** One step leaves a monitor's history alone, appends an operator's close, or adds the
      check being committed. */
  ghost predicate Logged(s: Sys, e: Event, s': Sys, m: MonitorId)
    requires m in s.logs && m in s'.logs
  {
    || s'.logs[m] == s.logs[m]
    || (e.OperatorClose? && e.monitor == m && s'.logs[m] == s.logs[m] + [Closed(e.incidentId, e.at)])
    || (&& e.Commit? && s.hand.Judged? && Held(s).Some? && Held(s).value.Result? && Held(s).value.monitor == m
        && m in s.monitors && s'.nextIncident == s.nextIncident + 1
        && s'.logs[m] == Append(s.logs[m], s.monitors[m].db,
             Check(s.hand.config, Held(s).value.result, s.hand.resultId, s.nextIncident), s.hand.state))
  }

  lemma {:induction false} StepLogs(s: Sys, e: Event)
    requires Step(s, e).Some?
    ensures var s' := Step(s, e).value;
      && s.nextIncident <= s'.nextIncident && s'.logs.Keys == s.logs.Keys
      && forall m :: m in s.logs ==> Logged(s, e, s', m)
  {
    hide Append, Streams.Step, Apply, NoticeFor, GetAlertState, ManualClose;
  }

  /** A monitor that is gone after a step has the history it had before it. */
  lemma {:induction false} DeletedLog(s: Sys, e: Event, m: MonitorId)
    requires Step(s, e).Some? && m in s.logs && m !in Step(s, e).value.monitors
    ensures m in Step(s, e).value.logs && Step(s, e).value.logs[m] == s.logs[m]
  {
    hide Append, Streams.Step, Apply, NoticeFor, GetAlertState, ManualClose, History.Commit;
  }

  /** Every monitor's history, of those deleted since too, has its checks in the order of their
      result ids, and histories belong to the monitors there were at the start. */
  lemma {:induction false} LogsOrdered(stream: seq<Record>, configs: map<MonitorId, Monitor>, run: seq<Event>, s: Sys, m: MonitorId)
    requires Reaches(stream, configs, run, s) && m in s.logs
    ensures Ordered(Checks(s.logs[m])) && m in configs
    decreases |run|
  {
    if |run| > 0 {
      var p, e := run[..|run| - 1], run[|run| - 1];
      var q := Exec(Init(stream, configs), p).value;
      StepLogs(q, e);
      hide Init, Step, Logged;
      LogsOrdered(stream, configs, p, q, m);
      if m in s.monitors {
        ExactlyOnceEffect(stream, configs, run, s, m);
      } else {
        DeletedLog(q, e, m);
      }
      hide Exec, Checks, Handled;
    }
  }

  /** Two emissions of one monitor appear in the order its history announces them, also when
      the monitor has been deleted since. */
  lemma EmittedInOrder(stream: seq<Record>, configs: map<MonitorId, Monitor>, run: seq<Event>, s: Sys,
                       i: nat, j: nat, a: nat, b: nat)
    requires Reaches(stream, configs, run, s)
    requires i < j < |s.emitted| && s.emitted[i].monitor == s.emitted[j].monitor && s.emitted[i].monitor in s.logs
    requires var ns := Notices(s.logs[s.emitted[i].monitor]);
      a < |ns| && b < |ns| && ns[a] == s.emitted[i].notice && ns[b] == s.emitted[j].notice
    ensures a < b
  {
    hide Notices, Distinct, Replay, Checks, Reaches, Handled;
    EmittedAtMostOnce(stream, configs, run, s);
    LogsOrdered(stream, configs, run, s, s.emitted[i].monitor);
    Notifications.HistoryTidy(s.logs[s.emitted[i].monitor]);
    hide Notifications.Tidy, Notifications.RecoveriesMatch;
  }

  /** Adding a check to a history adds it to the checks and nothing else. */
  lemma {:induction false} AppendChecks(log: seq<Effect>, db: Db, c: Check, state: AlertState)
    ensures forall x :: x in Checks(Append(log, db, c, state)) ==> x == c || x in Checks(log)
    ensures forall x :: x in Append(log, db, c, state) ==> x == Checked(c) || x in log
  {
    if Append(log, db, c, state) == log + [Checked(c)] {
      Unfold(log + [Checked(c)], log, Checked(c));
    } else {
      InsertedCheck(log, c);
    }
    hide Checks;
  }

  lemma {:induction false} InsertedCheck(log: seq<Effect>, c: Check)
    requires |log| > 0
    ensures var log' := log[..|log| - 1] + [Checked(c), log[|log| - 1]];
      && (forall x :: x in Checks(log') ==> x == c || x in Checks(log))
      && (forall x :: x in log' ==> x == Checked(c) || x in log)
  {
    var p, e := log[..|log| - 1], log[|log| - 1];
    Unfold(log, p, e);
    Unfold(p + [Checked(c)], p, Checked(c));
    Unfold(p + [Checked(c)] + [e], p + [Checked(c)], e);
    hide Checks, Replay, Notices, Announce, Next;
    assert p + [Checked(c), e] == p + [Checked(c)] + [e];
  }

  /** What a step adds to a monitor's checks. */
  lemma {:induction false} LoggedChecks(s: Sys, e: Event, s': Sys, m: MonitorId)
    requires m in s.logs && m in s'.logs && Logged(s, e, s', m)
    ensures forall c :: c in Checks(s'.logs[m]) ==>
      || c in Checks(s.logs[m])
      || (&& s.hand.Judged? && Held(s).Some? && Held(s).value.Result? && Held(s).value.monitor == m
          && c == Check(s.hand.config, Held(s).value.result, s.hand.resultId, s.nextIncident)
          && s'.nextIncident == s.nextIncident + 1)
    ensures forall x :: x in s'.logs[m] ==> x in s.logs[m] || x.Checked? || (e.OperatorClose? && e.monitor == m)
  {
    if s'.logs[m] != s.logs[m] {
      if e.OperatorClose? {
        Unfold(s'.logs[m], s.logs[m], Closed(e.incidentId, e.at));
      } else {
        AppendChecks(s.logs[m], s.monitors[m].db,
          Check(s.hand.config, Held(s).value.result, s.hand.resultId, s.nextIncident), s.hand.state);
      }
    }
    hide Append, Checks;
  }

  // ---------- what edits leave alone ----------

  /** Every edit of the monitor sets a configuration with the given property. */
  ghost predicate EditsKeep(run: seq<Event>, m: MonitorId, keep: Monitor -> bool) {
    forall i :: 0 <= i < |run| && run[i].Edit? && run[i].monitor == m ==> keep(run[i].config)
  }

  ghost predicate NoEdit(run: seq<Event>, m: MonitorId) {
    forall i :: 0 <= i < |run| ==> !(run[i].Edit? && run[i].monitor == m)
  }

  /** Edits may change a monitor's threshold but not its type. */
  ghost predicate NoTypeEdit(run: seq<Event>, m: MonitorId, typ: MonitorType) {
    forall i :: 0 <= i < |run| && run[i].Edit? && run[i].monitor == m ==> run[i].config.typ == typ
  }

  ghost predicate NoClose(run: seq<Event>, m: MonitorId) {
    forall i :: 0 <= i < |run| ==> !(run[i].OperatorClose? && run[i].monitor == m)
  }

  /** The configuration the handler has loaded for a monitor. */
  function ConfigInHand(s: Sys, m: MonitorId): Option<Monitor> {
    if Held(s).Some? && Held(s).value.Result? && Held(s).value.monitor == m && (s.hand.Configured? || s.hand.Judged?)
    then Some(s.hand.config) else None
  }

  /** Stored, loaded or already judged under: every configuration has the property. */
  ghost predicate Throughout(s: Sys, m: MonitorId, keep: Monitor -> bool) {
    && (m in s.monitors ==> keep(s.monitors[m].config))
    && (ConfigInHand(s, m).Some? ==> keep(ConfigInHand(s, m).value))
    && (m in s.logs ==> forall c :: c in Checks(s.logs[m]) ==> keep(c.config))
  }

  /** Polling does not change what is loaded. */
  lemma {:induction false} BusConfig(s: Sys, e: Streams.Event, m: MonitorId)
    requires Inv(s) && OnBus(s, e).Some?
    ensures var s' := OnBus(s, e).value;
      s'.monitors == s.monitors && (ConfigInHand(s', m).Some? ==> ConfigInHand(s', m) == ConfigInHand(s, m))
  {
    var s' := OnBus(s, e).value;
    BusPhase(s, e);
    if s'.bus.phase.Handling? && !e.Deliver? {
      HeldIsOldest(s);
      BusView(s, e);
      SameHeld(s, s');
    }
    hide Streams.Step, Streams.Inv, AllMons, EmittedOk, HandOk;
  }

  /** Only an edit changes a stored configuration. */
  lemma {:induction false} StoredConfig(s: Sys, e: Event, m: MonitorId)
    requires Step(s, e).Some? && !(e.Edit? && e.monitor == m) && m in Step(s, e).value.monitors
    ensures m in s.monitors && Step(s, e).value.monitors[m].config == s.monitors[m].config
  {
    hide Streams.Step, Append, Apply, NoticeFor, ManualClose, GetAlertState, History.Commit;
  }

  /** The loaded configuration is the stored one at the time of the load. */
  lemma {:induction false} LoadedConfig(s: Sys, e: Event, m: MonitorId)
    requires Inv(s) && Step(s, e).Some? && ConfigInHand(Step(s, e).value, m).Some?
    ensures var s' := Step(s, e).value;
      || ConfigInHand(s', m) == ConfigInHand(s, m)
      || (m in s.monitors && ConfigInHand(s', m).value == s.monitors[m].config)
  {
    if e.Bus? {
      BusConfig(s, e.e, m);
    }
    hide Inv, OnBus, WithResult, AfterCommit;
    hide Streams.Step, Append, Apply, NoticeFor, ManualClose, GetAlertState, History.Commit;
  }

  lemma {:induction false} ConfigsKeep(stream: seq<Record>, configs: map<MonitorId, Monitor>, run: seq<Event>, s: Sys,
                                       m: MonitorId, keep: Monitor -> bool)
    requires Reaches(stream, configs, run, s) && m in configs && keep(configs[m]) && EditsKeep(run, m, keep)
    ensures Throughout(s, m, keep)
    decreases |run|
  {
    if |run| > 0 {
      var p, e := run[..|run| - 1], run[|run| - 1];
      var q := Exec(Init(stream, configs), p).value;
      assert forall i :: 0 <= i < |p| ==> p[i] == run[i];
      ConfigsKeep(stream, configs, p, q, m, keep);
      ReachableInv(stream, configs, p);
      ConfigsKeepStep(q, e, s, m, keep);
    }
  }

  lemma {:induction false} ConfigsKeepStep(q: Sys, e: Event, s: Sys, m: MonitorId, keep: Monitor -> bool)
    requires Inv(q) && Step(q, e) == Some(s) && Throughout(q, m, keep)
    requires e.Edit? && e.monitor == m ==> keep(e.config)
    ensures Throughout(s, m, keep)
  {
    if m in s.monitors && !(e.Edit? && e.monitor == m) {
      StoredConfig(q, e, m);
    }
    if ConfigInHand(s, m).Some? {
      LoadedConfig(q, e, m);
    }
    StepLogs(q, e);
    hide Inv, OnBus, OnHandler, OnClose, Append, ConfigInHand;
    if m in q.logs {
      LoggedChecks(q, e, s, m);
    }
  }

  lemma {:induction false} OnlyChecksKept(stream: seq<Record>, configs: map<MonitorId, Monitor>, run: seq<Event>, s: Sys, m: MonitorId)
    requires Reaches(stream, configs, run, s) && m in configs && NoClose(run, m)
    ensures m in s.logs && forall x :: x in s.logs[m] ==> x.Checked?
    decreases |run|
  {
    if |run| > 0 {
      var p, e := run[..|run| - 1], run[|run| - 1];
      var q := Exec(Init(stream, configs), p).value;
      assert forall i :: 0 <= i < |p| ==> p[i] == run[i];
      OnlyChecksKept(stream, configs, p, q, m);
      StepLogs(q, e);
      LoggedChecks(q, e, s, m);
      hide Init, Step, Logged;
    }
  }

  lemma {:induction false} CheckedInChecks(evs: seq<Effect>, x: Effect)
    requires x in evs && x.Checked?
    ensures x.c in Checks(evs)
  {
    var p, e := evs[..|evs| - 1], evs[|evs| - 1];
    Unfold(evs, p, e);
    if x != e {
      CheckedInChecks(p, x);
    }
  }

  /** End to end. If nobody edits a monitor or closes its incidents by hand, then after any
      run its stored incidents are the maximal failing runs, at least the threshold long, of
      its distinct results in the handled prefix of the stream, whatever was redelivered,
      lost or crashed on the way. */
  lemma IncidentsAreOutages(stream: seq<Record>, configs: map<MonitorId, Monitor>, run: seq<Event>, s: Sys, m: MonitorId)
    requires Reaches(stream, configs, run, s) && m in s.monitors && m in configs
    requires configs[m].failureThreshold >= 1 && NoEdit(run, m) && NoClose(run, m)
    ensures m in s.logs && s.monitors[m].db.incidents == Outages(Checks(s.logs[m]), configs[m].failureThreshold)
    ensures Open(s.monitors[m].db).Some? <==> Trailing(Checks(s.logs[m])) >= configs[m].failureThreshold
    ensures s.monitors[m].db.consecutiveFails == Trailing(Checks(s.logs[m]))
    ensures |s.bus.topics| == 1 && Ordered(Checks(s.logs[m]))
    ensures var n, entries, results := Handled(s), s.bus.topics[0].entries, Results(Checks(s.logs[m]));
      && 0 <= n <= |entries|
      && (results == Distinct(m, entries[..n]) || (n < |entries| && results == Distinct(m, entries[..n + 1])))
  {
    ExactlyOnceEffect(stream, configs, run, s, m);
    ConfigsKeep(stream, configs, run, s, m, (config: Monitor) => config == configs[m]);
    OnlyChecksKept(stream, configs, run, s, m);
    hide Exec, Init, Outages, Trailing, Replay, Checks, Open, Distinct;
    var log := s.logs[m];
    forall x | x in log ensures x.Checked? && x.c.config == configs[m] {
      CheckedInChecks(log, x);
    }
    EngineRefinesHistory(log, configs[m]);
    CountersFollowHistory(log);
  }

  // ---------- no two emitted events share a dedup key ----------

  /** Incident ids are offered to one monitor only. */
  ghost predicate IdsApart(s: Sys) {
    && (forall m, c :: m in s.logs && c in Checks(s.logs[m]) ==> c.incidentId < s.nextIncident)
    && (forall m, n, c, d :: m in s.logs && n in s.logs && m != n && c in Checks(s.logs[m]) && d in Checks(s.logs[n]) ==>
          c.incidentId != d.incidentId)
  }

  /** The checks a step adds to a monitor's history offer the next incident id. */
  ghost predicate Grew(s: Sys, s': Sys, m: MonitorId)
    requires m in s.logs && m in s'.logs
  {
    forall c :: c in Checks(s'.logs[m]) ==>
      || c in Checks(s.logs[m])
      || (Held(s).Some? && Held(s).value.Result? && Held(s).value.monitor == m
          && c.incidentId == s.nextIncident && s'.nextIncident == s.nextIncident + 1)
  }

  lemma {:induction false} IdsApartStep(s: Sys, s': Sys)
    requires IdsApart(s) && s'.logs.Keys == s.logs.Keys && s.nextIncident <= s'.nextIncident
    requires forall m :: m in s.logs ==> Grew(s, s', m)
    ensures IdsApart(s')
  {
    hide Checks, Held;
  }

  lemma {:induction false} IdsApartKept(stream: seq<Record>, configs: map<MonitorId, Monitor>, run: seq<Event>, s: Sys)
    requires Reaches(stream, configs, run, s)
    ensures IdsApart(s)
    decreases |run|
  {
    if |run| > 0 {
      var p, e := run[..|run| - 1], run[|run| - 1];
      var q := Exec(Init(stream, configs), p).value;
      IdsApartKept(stream, configs, p, q);
      StepLogs(q, e);
      hide Init, Step, Logged, Checks, Held, IdsApart;
      forall m | m in q.logs ensures Grew(q, s, m) {
        LoggedChecks(q, e, s, m);
      }
      IdsApartStep(q, s);
    }
  }

  /** Every incident row and every notice goes back to a check of the same history. */
  ghost predicate Rooted(h: seq<Check>, db: Db, ns: seq<Notice>) {
    && (forall k :: 0 <= k < |db.incidents| ==> exists c :: c in h && c.incidentId == db.incidents[k].id)
    && (forall n :: n in ns ==> exists c :: c in h && c.incidentId == n.incidentId)
  }

  lemma {:induction false} RootedStep(h: seq<Check>, db: Db, ns: seq<Notice>, c: Check)
    requires Rooted(h, db, ns) && Newer(db, c)
    ensures Rooted(h + [c], NextCheck(db, c), Announce(ns, db, Checked(c)))
  {
    NextIncidents(db, c);
    Notifications.NextNotice(db, c);
    var g, db', ns' := h + [c], NextCheck(db, c), Announce(ns, db, Checked(c));
    hide NextCheck, NoticeAt;
    assert c in g && forall x :: x in h ==> x in g;
    forall k | 0 <= k < |db'.incidents| ensures exists x :: x in g && x.incidentId == db'.incidents[k].id {
      if k < |db.incidents| {
        assert db'.incidents[k].id == db.incidents[k].id;
      }
    }
    forall n | n in ns' ensures exists x :: x in g && x.incidentId == n.incidentId {
      if n !in ns && n.incidentId != c.incidentId {
        assert n.incidentId == db.incidents[|db.incidents| - 1].id;
      }
    }
  }

  lemma {:induction false} HistoryRooted(evs: seq<Effect>)
    requires Ordered(Checks(evs))
    ensures Rooted(Checks(evs), Replay(evs), Notices(evs))
  {
    if |evs| > 0 {
      var p, e := evs[..|evs| - 1], evs[|evs| - 1];
      Unfold(evs, p, e);
      hide NextCheck, NoticeAt;
      if e.Checked? {
        NextIsNewer(p, e.c);
        HistoryRooted(p);
        RootedStep(Checks(p), Replay(p), Notices(p), e.c);
      } else {
        HistoryRooted(p);
      }
    }
  }

  /** While edits leave the type alone, every check was judged as that type. */
  lemma TypesKeep(stream: seq<Record>, configs: map<MonitorId, Monitor>, run: seq<Event>, s: Sys, m: MonitorId)
    requires Reaches(stream, configs, run, s) && m in configs && m in s.logs && NoTypeEdit(run, m, configs[m].typ)
    ensures Notifications.AllOfType(Checks(s.logs[m]), configs[m].typ)
  {
    ConfigsKeep(stream, configs, run, s, m, (config: Monitor) => config.typ == configs[m].typ);
    hide Reaches, Checks;
  }

  /** Two emitted events never hash the same text, across all monitors whose type was not
      edited, deleted ones included, whatever operators closed and whatever thresholds changed. */
  lemma {:induction false} EmittedKeysDistinct(stream: seq<Record>, configs: map<MonitorId, Monitor>, run: seq<Event>, s: Sys, i: nat, j: nat)
    requires Reaches(stream, configs, run, s) && i < j < |s.emitted|
    requires forall k :: k == i || k == j ==>
      var m := s.emitted[k].monitor; m in configs ==> NoTypeEdit(run, m, configs[m].typ)
    ensures DedupKey.Preimage(Notifications.KeyOf(s.emitted[i].notice)) !=
            DedupKey.Preimage(Notifications.KeyOf(s.emitted[j].notice))
  {
    var a, b := s.emitted[i], s.emitted[j];
    EmittedAtMostOnce(stream, configs, run, s);
    LogsOrdered(stream, configs, run, s, a.monitor);
    LogsOrdered(stream, configs, run, s, b.monitor);
    hide Reaches, Handled, Replay, Checks, Distinct, Notices, DedupKey.Preimage;
    if a.monitor == b.monitor {
      TypesKeep(stream, configs, run, s, a.monitor);
      Notifications.DedupKeysDistinct(s.logs[a.monitor], configs[a.monitor].typ);
    } else {
      IdsApartKept(stream, configs, run, s);
      HistoryRooted(s.logs[a.monitor]);
      HistoryRooted(s.logs[b.monitor]);
    }
    assert Notifications.KeyOf(a.notice) != Notifications.KeyOf(b.notice);
    if DedupKey.Preimage(Notifications.KeyOf(a.notice)) == DedupKey.Preimage(Notifications.KeyOf(b.notice)) {
      DedupKey.PreimageInjective(Notifications.KeyOf(a.notice), Notifications.KeyOf(b.notice));
    }
  }

  // ---------- how often an incident is announced ----------

  /** What was emitted for one monitor, in order. */
  function EmittedFor(emitted: seq<Emission>, m: MonitorId): seq<Notice> {
    if |emitted| == 0 then []
    else
      var p, e := EmittedFor(emitted[..|emitted| - 1], m), emitted[|emitted| - 1];
      if e.monitor == m then p + [e.notice] else p
  }

  ghost predicate Increasing(ns: seq<Notice>) {
    forall i, j :: 0 <= i < j < |ns| ==> ns[i].resultId < ns[j].resultId
  }

  lemma {:induction false} EmittedForIncreases(emitted: seq<Emission>, m: MonitorId, ns: seq<Notice>)
    requires forall i, j :: 0 <= i < j < |emitted| ==> emitted[i].notice.resultId < emitted[j].notice.resultId
    requires forall i :: 0 <= i < |emitted| && emitted[i].monitor == m ==> emitted[i].notice in ns
    ensures Increasing(EmittedFor(emitted, m)) && forall n :: n in EmittedFor(emitted, m) ==> n in ns
    ensures |emitted| > 0 ==> forall n :: n in EmittedFor(emitted, m) ==> n.resultId <= emitted[|emitted| - 1].notice.resultId
  {
    if |emitted| > 0 {
      var p := emitted[..|emitted| - 1];
      assert forall i :: 0 <= i < |p| ==> p[i] == emitted[i];
      EmittedForIncreases(p, m, ns);
      var es := EmittedFor(p, m);
      forall i | 0 <= i < |es| ensures es[i].resultId < emitted[|emitted| - 1].notice.resultId {
        assert es[i] in es;
      }
    }
  }

  lemma {:induction false} CountPrefix(ns: seq<Notice>, k: nat, id: int, kind: EventKind)
    requires k <= |ns|
    ensures Notifications.Count(ns[..k], id, kind) <= Notifications.Count(ns, id, kind)
  {
    if k < |ns| {
      CountPrefix(ns[..|ns| - 1], k, id, kind);
      assert ns[..|ns| - 1][..k] == ns[..k];
    } else {
      assert ns[..k] == ns;
    }
  }

  /** A repeat-free selection has no more of anything than what it was selected from. */
  lemma {:induction false} SelectionCounts(es: seq<Notice>, ns: seq<Notice>, id: int, kind: EventKind)
    requires Increasing(es) && Increasing(ns) && forall n :: n in es ==> n in ns
    ensures Notifications.Count(es, id, kind) <= Notifications.Count(ns, id, kind)
  {
    if |es| > 0 {
      var p, e := es[..|es| - 1], es[|es| - 1];
      assert e in es;
      var a :| 0 <= a < |ns| && ns[a] == e;
      forall n | n in p ensures n in ns[..a] {
        var i :| 0 <= i < |p| && p[i] == n;
        assert es[i] in es;
        var b :| 0 <= b < |ns| && ns[b] == n;
        assert ns[..a][b] == n;
      }
      SelectionCounts(p, ns[..a], id, kind);
      assert ns[..a + 1] == ns[..a] + [e] && es == p + [e];
      Notifications.CountSnoc(ns[..a], e, id, kind);
      Notifications.CountSnoc(p, e, id, kind);
      CountPrefix(ns, a + 1, id, kind);
    }
  }

  /** Notification discipline, for every run. Of an http monitor whose type was not edited no
      incident is announced down twice or recovered twice, and an incident that is open or
      that an operator closed, even between the handler's load and its commit, is never
      announced as recovered. The incidents are those of the monitor's history, which for a
      monitor that still exists are its rows. */
  lemma {:induction false} HttpEmissions(stream: seq<Record>, configs: map<MonitorId, Monitor>, run: seq<Event>, s: Sys,
                                         m: MonitorId, k: nat)
    requires Reaches(stream, configs, run, s) && m in configs && m in s.logs
    requires configs[m].typ == Http && NoTypeEdit(run, m, Http) && k < |Replay(s.logs[m]).incidents|
    ensures m in s.monitors ==> s.monitors[m].db == Replay(s.logs[m])
    ensures var inc, es := Replay(s.logs[m]).incidents[k], EmittedFor(s.emitted, m);
      && Notifications.Count(es, inc.id, Down) <= 1
      && Notifications.Count(es, inc.id, Recovery) <= if inc.closeReason == Some(Recovered) then 1 else 0
  {
    EmittedAtMostOnce(stream, configs, run, s);
    ExactlyOnceEffect(stream, configs, run, s, m);
    LogsOrdered(stream, configs, run, s, m);
    TypesKeep(stream, configs, run, s, m);
    hide Reaches, Handled, Replay, Checks, Distinct, Notices, EmittedFor, Notifications.Count, Notifications.Tidy;
    var ns, inc := Notices(s.logs[m]), Replay(s.logs[m]).incidents[k];
    Notifications.HistoryTidy(s.logs[m]);
    Notifications.HttpDiscipline(s.logs[m]);
    EmittedForIncreases(s.emitted, m, ns);
    SelectionCounts(EmittedFor(s.emitted, m), ns, inc.id, Down);
    SelectionCounts(EmittedFor(s.emitted, m), ns, inc.id, Recovery);
  }

  // ---------- a result of a deleted monitor ----------

  /** The oldest unhandled entry is a result of a monitor that no longer exists. */
  ghost predicate Orphaned(s: Sys, m: MonitorId) {
    && |s.bus.topics| == 1 && m !in s.monitors
    && var v := ViewOf(s);
    && 0 <= v.handled < |v.entries| && v.entries[v.handled].Result? && v.entries[v.handled].monitor == m
  }

  /** The handler holds that entry and is past its insert, and has not judged it or has already
      committed it. */
  ghost predicate Passing(s: Sys)
    requires |s.bus.topics| == 1
  {
    ViewOf(s).due && (s.hand.Upserted? || s.hand.Configured? || s.hand.Committed?)
  }

  /** Some continuation gets the oldest unhandled entry handled. */
  ghost predicate CanAdvance(s: Sys)
    requires |s.bus.topics| == 1
  {
    exists more, s' :: Exec(s, more) == Some(s') && |s'.bus.topics| == 1 && Handled(s) < Handled(s')
  }

  lemma FailView(s: Sys)
    requires |s.bus.topics| == 1 && Return(s, false).Some?
    ensures Return(s, false).value.bus.topics == s.bus.topics && Return(s, false).value.hand == NoHand
  {}

  lemma {:induction false} ProduceView(s: Sys, e: Streams.Event)
    requires |s.bus.topics| == 1 && Streams.Inv(s.bus) && e.Produce? && OnBus(s, e).Some?
    ensures |OnBus(s, e).value.bus.topics| == 1 && ViewOf(OnBus(s, e).value).due == ViewOf(s).due
  {
    hide Streams.Inv;
  }

  lemma {:induction false} OrphanBus(s: Sys, e: Streams.Event, m: MonitorId)
    requires Inv(s) && Orphaned(s, m) && !Passing(s) && OnBus(s, e).Some?
    ensures var s' := OnBus(s, e).value; Orphaned(s', m) && !Passing(s') && Handled(s') == Handled(s)
  {
    var s' := OnBus(s, e).value;
    BusView(s, e);
    BusPhase(s, e);
    BusKeepsInv(s, e);
    if e.Produce? {
      ProduceView(s, e);
    }
    hide Streams.Inv, Streams.Step, AllMons, EmittedOk, HandOk, ViewOf;
  }

  /** The handler's own steps, on the orphaned entry or on an older one that was redelivered. */
  lemma {:induction false} OrphanHandler(s: Sys, e: Event, m: MonitorId)
    requires Inv(s) && Orphaned(s, m) && !Passing(s) && Held(s).Some? && OnHandler(s, e, Held(s).value).Some?
    ensures var s' := OnHandler(s, e, Held(s).value).value;
      Orphaned(s', m) && !Passing(s') && Handled(s') == Handled(s)
  {
    HeldIsOldest(s);
    SuccessView(s);
    hide Streams.Inv, AllMons, EmittedOk, HandOk, Streams.Step;
    if ViewOf(s).due {
      DueHandler(s, e, m);
    } else {
      RedeliveredHandler(s, e);
    }
  }

  lemma {:induction false} DueHandler(s: Sys, e: Event, m: MonitorId)
    requires |s.bus.topics| == 1 && Held(s).Some? && Held(s).value.Result? && Held(s).value.monitor == m && m !in s.monitors
    requires s.hand.NoHand? || s.hand.Started? || s.hand.Judged?
    requires OnHandler(s, e, Held(s).value).Some?
    ensures var s' := OnHandler(s, e, Held(s).value).value;
      s'.bus.topics == s.bus.topics && s'.hand == NoHand && s'.monitors == s.monitors
  {
    if Return(s, false).Some? {
      FailView(s);
    }
    hide Streams.Step, Return;
    assert OnHandler(s, e, Held(s).value) == Return(s, false);
  }

  lemma {:induction false} RedeliveredHandler(s: Sys, e: Event)
    requires |s.bus.topics| == 1 && Streams.Inv(s.bus) && s.bus.phase.Handling? && !ViewOf(s).due
    requires Held(s).Some? && OnHandler(s, e, Held(s).value).Some?
    ensures var s' := OnHandler(s, e, Held(s).value).value;
      && |s'.bus.topics| == 1 && ViewOf(s') == ViewOf(s) && s'.monitors.Keys == s.monitors.Keys
  {
    var s' := OnHandler(s, e, Held(s).value).value;
    SuccessView(s);
    HandlerShape(s, e);
    hide Streams.Step, Streams.Inv, OnHandler;
  }

  /** A handler step keeps the stream, or returns and leaves it as a success or an error does;
      it adds and removes no monitor. */
  lemma {:induction false} HandlerShape(s: Sys, e: Event)
    requires |s.bus.topics| == 1 && Held(s).Some? && OnHandler(s, e, Held(s).value).Some?
    ensures var s' := OnHandler(s, e, Held(s).value).value;
      && s'.monitors.Keys == s.monitors.Keys
      && (s'.bus.topics == s.bus.topics || (Return(s, true).Some? && s'.bus == Return(s, true).value.bus))
  {
    hide Append, Apply, NoticeFor, GetAlertState, History.Commit, Streams.OnHandlerOk;
  }

  lemma {:induction false} OrphanStep(s: Sys, e: Event, m: MonitorId)
    requires Inv(s) && Orphaned(s, m) && !Passing(s) && Step(s, e).Some?
    ensures var s' := Step(s, e).value; Orphaned(s', m) && !Passing(s') && Handled(s') == Handled(s)
  {
    if e.Bus? {
      OrphanBus(s, e.e, m);
    } else if e.OperatorClose? || e.Edit? || e.Delete? {
      hide Inv, ManualClose;
    } else {
      OrphanHandler(s, e, m);
    }
    hide Inv, OnBus, OnHandler, ViewOf;
  }

  lemma {:induction false} OrphanBlocked(s: Sys, m: MonitorId, more: seq<Event>)
    requires Inv(s) && Orphaned(s, m) && !Passing(s) && Exec(s, more).Some?
    ensures var s' := Exec(s, more).value; Inv(s') && Orphaned(s', m) && !Passing(s') && Handled(s') == Handled(s)
    decreases |more|
  {
    hide Inv, Orphaned, Handled, Step, Passing;
    if |more| > 0 {
      var p, e := more[..|more| - 1], more[|more| - 1];
      OrphanBlocked(s, m, p);
      OrphanStep(Exec(s, p).value, e, m);
      StepKeepsInv(Exec(s, p).value, e);
    }
  }

  /** The step that gets a passing entry handled: the load finds no monitor and the handler
      drops the entry, or the commit came before the deletion. */
  lemma {:induction false} PassingAdvances(s: Sys, m: MonitorId) returns (e: Event)
    requires Inv(s) && Orphaned(s, m) && Passing(s)
    ensures Step(s, e).Some? && |Step(s, e).value.bus.topics| == 1 && Handled(Step(s, e).value) == Handled(s) + 1
  {
    HeldIsOldest(s);
    SuccessView(s);
    e := if s.hand.Upserted? then LoadMonitor(true) else if s.hand.Configured? then LoadState(true) else Emit(false);
    hide Streams.Step, Streams.Inv, AllMons, EmittedOk, Return, GetAlertState;
    assert Step(s, e) == Return(s, true);
  }

  /** The program means to drop a result whose monitor was deleted, but the insert that comes
      first refers to the monitor. In every reachable state whose oldest unhandled entry is such
      a result, some continuation gets it handled if and only if the handler already holds it
      past its insert and short of its judgement, or past its commit. Otherwise it is retried
      for ever, and no later entry of the stream is ever handled. */
  lemma {:induction false} OrphanHandledIff(stream: seq<Record>, configs: map<MonitorId, Monitor>, run: seq<Event>, s: Sys, m: MonitorId)
    requires Reaches(stream, configs, run, s) && Orphaned(s, m)
    ensures CanAdvance(s) <==> Passing(s)
    ensures !Passing(s) ==> forall more :: Exec(s, more).Some? ==>
      |Exec(s, more).value.bus.topics| == 1 && Handled(Exec(s, more).value) == Handled(s)
  {
    ReachableInv(stream, configs, run);
    if Passing(s) {
      var e := PassingAdvances(s, m);
      var s' := Step(s, e).value;
      assert [e][..0] == [] && Exec(s, []) == Some(s) && Exec(s, [e]) == Some(s');
    } else {
      hide Inv, Orphaned, Handled, Step, Passing;
      forall more | Exec(s, more).Some?
        ensures |Exec(s, more).value.bus.topics| == 1 && Handled(Exec(s, more).value) == Handled(s)
      {
        OrphanBlocked(s, m, more);
        OneStream(Exec(s, more).value);
      }
    }
  }

  lemma OneStream(s: Sys)
    requires Inv(s)
    ensures |s.bus.topics| == 1
  {}

  /** Deleting a monitor whose result is waiting is enough. */
  lemma DeletionBlocksStream(m: MonitorId, c: Monitor, r: CheckResult) returns (s: Sys)
    ensures Reaches([Result(m, r)], map[m := c], [Delete(m)], s) && Orphaned(s, m) && !Passing(s) && !CanAdvance(s)
  {
    var start := Init([Result(m, r)], map[m := c]);
    s := start.(monitors := start.monitors - {m});
    assert [Delete(m)][..0] == [] && Exec(start, []) == Some(start) && Exec(start, [Delete(m)]) == Some(s);
    hide Exec, CanAdvance;
    OrphanHandledIff([Result(m, r)], map[m := c], [Delete(m)], s, m);
  }
}
