/** At-least-once delivery and a watermark give exactly-once incidents: the invariant of the
    alerting pipeline and what follows from it for every run. */
module ExactlyOnce {
  import opened Domain
  import opened Engine
  import opened AlertStore
  import opened History
  import Streams
  import opened AlertPipeline

  /** What the proof needs of the stream: its entries, how many have succeeded, and whether
      the oldest pending entry still has to. */
  datatype View = View(entries: seq<Record>, handled: int, due: bool)

  function Low(t: Streams.Topic): int {
    t.delivered - |t.pending|
  }

  function ViewOfTopic(t: Streams.Topic): View {
    if Low(t) in t.succeeded then View(t.entries, Low(t) + 1, false) else View(t.entries, Low(t), true)
  }

  function ViewOf(s: Sys): View
    requires |s.bus.topics| == 1
  {
    ViewOfTopic(s.bus.topics[0])
  }

  /** The counters and emissions a monitor's invariant refers to. */
  datatype Ctx = Ctx(v: View, nextResult: int, nextIncident: int, emitted: seq<Emission>)

  function CtxOf(s: Sys): Ctx
    requires |s.bus.topics| == 1
  {
    Ctx(ViewOf(s), s.nextResult, s.nextIncident, s.emitted)
  }

  // ---------- the invariant ----------

  /** The rows are the replay of the log, whose ids were handed out in order and are the ids
      of the stored results. */
  ghost predicate Replayed(row: MonitorRow, log: seq<Effect>, x: Ctx) {
    var h := Checks(log);
    && row.db == Replay(log)
    && Ordered(h)
    && forall j :: 0 <= j < |h| ==>
      && h[j].resultId < x.nextResult && h[j].incidentId < x.nextIncident
      && KeyOf(h[j].result) in row.results && row.results[KeyOf(h[j].result)] == h[j].resultId
  }

  /** The checks of the log are the distinct results of the handled prefix, or of that prefix
      and the entry after it. */
  ghost predicate Reflects(m: MonitorId, h: seq<Check>, v: View) {
    && 0 <= v.handled <= |v.entries|
    && (|| Results(h) == Distinct(m, v.entries[..v.handled])
        || (v.handled < |v.entries| && Results(h) == Distinct(m, v.entries[..v.handled + 1])))
  }

  /** A stored result not in the log belongs to the entry being handled, and is the newest. */
  ghost predicate Upcoming(m: MonitorId, k: ResultKey, id: int, h: seq<Check>, x: Ctx) {
    && x.v.due && 0 <= x.v.handled < |x.v.entries|
    && x.v.entries[x.v.handled].Result?
    && x.v.entries[x.v.handled].monitor == m && KeyOf(x.v.entries[x.v.handled].result) == k
    && (forall j :: 0 <= j < |h| ==> h[j].resultId < id)
    && (forall j :: 0 <= j < |x.emitted| ==> x.emitted[j].notice.resultId < id)
  }

  ghost predicate Stored(m: MonitorId, results: map<ResultKey, int>, h: seq<Check>, x: Ctx) {
    forall k :: k in results ==>
      results[k] < x.nextResult && (HasKey(Results(h), k) || Upcoming(m, k, results[k], h, x))
  }

  ghost predicate MonOk(m: MonitorId, row: MonitorRow, log: seq<Effect>, x: Ctx) {
    && Replayed(row, log, x)
    && Reflects(m, Checks(log), x.v)
    && Stored(m, row.results, Checks(log), x)
  }

  ghost predicate AllMons(monitors: map<MonitorId, MonitorRow>, logs: map<MonitorId, seq<Effect>>, x: Ctx) {
    forall m :: m in monitors ==> m in logs && MonOk(m, monitors[m], logs[m], x)
  }

  /** Emissions carry growing result ids and each is a notification of its monitor's log. */
  ghost predicate EmittedOk(emitted: seq<Emission>, logs: map<MonitorId, seq<Effect>>, nextResult: int) {
    && (forall i, j :: 0 <= i < j < |emitted| ==> emitted[i].notice.resultId < emitted[j].notice.resultId)
    && forall i :: 0 <= i < |emitted| ==>
      && emitted[i].monitor in logs && emitted[i].notice in Notices(logs[emitted[i].monitor])
      && emitted[i].notice.resultId < nextResult
  }

  ghost predicate RowId(monitors: map<MonitorId, MonitorRow>, rec: Record, id: int) {
    && rec.Result?
    && (rec.monitor in monitors ==>
          && KeyOf(rec.result) in monitors[rec.monitor].results
          && monitors[rec.monitor].results[KeyOf(rec.result)] == id)
  }

  /** Nothing is left to do for this record. */
  ghost predicate Settled(monitors: map<MonitorId, MonitorRow>, logs: map<MonitorId, seq<Effect>>, rec: Record) {
    rec.Result? && rec.monitor in monitors ==>
      rec.monitor in logs && HasKey(Results(Checks(logs[rec.monitor])), KeyOf(rec.result))
  }

  ghost predicate HandOk(s: Sys, rec: Record) {
    match s.hand
    case NoHand => false
    case Started => true
    case Upserted(id) => RowId(s.monitors, rec, id)
    case Configured(id, _) => RowId(s.monitors, rec, id)
    case Judged(id, _, state) =>
      && RowId(s.monitors, rec, id)
      && (rec.monitor in s.monitors ==> rec.monitor in s.logs && Loaded(state, s.logs[rec.monitor]))
    case Committed(n) =>
      && rec.Result? && Settled(s.monitors, s.logs, rec)
      && (n.Some? ==> EmittedOk(s.emitted + [Emission(rec.monitor, n.value)], s.logs, s.nextResult))
  }

  /** Everything but the handler's own memory. */
  ghost predicate Persisted(s: Sys) {
    && |s.bus.topics| == 1 && Streams.Inv(s.bus)
    && AllMons(s.monitors, s.logs, CtxOf(s))
    && EmittedOk(s.emitted, s.logs, s.nextResult)
  }

  ghost predicate Inv(s: Sys) {
    && Persisted(s)
    && (!s.bus.phase.Handling? ==> s.hand.NoHand?)
    && (s.bus.phase.Handling? ==> Held(s).Some? && HandOk(s, Held(s).value))
  }

  lemma PersistedHand(s: Sys, hand: Hand)
    requires Persisted(s)
    ensures Persisted(s.(hand := hand)) && Held(s.(hand := hand)) == Held(s)
  {
    hide Streams.Inv, AllMons, EmittedOk;
  }

  // ---------- the stream seen from the pipeline ----------

  lemma HeldIsOldest(s: Sys)
    requires |s.bus.topics| == 1 && Streams.Inv(s.bus) && s.bus.phase.Handling?
    ensures var t := s.bus.topics[0];
      && s.bus.phase.queue[0] == Streams.Ref(0, Low(t))
      && 0 <= Low(t) < |t.entries| && Held(s) == Some(t.entries[Low(t)])
  {
    Streams.PendingHead(s.bus.topics, Streams.Upto(s.bus, s.bus.phase.resume));
  }

  /** What the pipeline sees only grows. */
  ghost predicate Extends(v: View, w: View) {
    v.entries <= w.entries && v.handled == w.handled && (v.due ==> w.due)
  }

  lemma AckTopicView(t: Streams.Topic)
    requires Streams.TopicInv(t) && t.pending != [] && t.pending[0] in t.succeeded
    ensures Extends(ViewOfTopic(t), ViewOfTopic(Streams.Acknowledge(t, t.pending[0])))
  {
    Streams.AcknowledgeFirst(t);
  }

  lemma DeliverTopicView(t: Streams.Topic)
    requires Streams.TopicInv(t) && t.pending == []
    ensures Extends(ViewOfTopic(t), ViewOfTopic(Streams.DeliverNew(t)))
  {}

  /** Polling, reading, acknowledging and crashing never change which entries have succeeded
      nor what they hold. */
  lemma {:induction false} BusView(s: Sys, e: Streams.Event)
    requires |s.bus.topics| == 1 && Streams.Inv(s.bus) && OnBus(s, e).Some?
    ensures var s' := OnBus(s, e).value; |s'.bus.topics| == 1 && Extends(ViewOf(s), ViewOf(s'))
  {
    match e
    case Ack(_) =>
      Streams.PendingHead(s.bus.topics, Streams.Upto(s.bus, s.bus.phase.resume));
      AckTopicView(s.bus.topics[0]);
      hide Streams.TopicInv, Streams.Acknowledge, Streams.Pending, ViewOfTopic;
    case ReadNew(_) =>
      Streams.PendingEmpty(s.bus.topics, 1);
      DeliverTopicView(s.bus.topics[0]);
      hide Streams.TopicInv, Streams.DeliverNew, Streams.Pending, ViewOfTopic;
    case _ =>
      hide Streams.TopicInv, Streams.Pending;
  }

  lemma BusPhase(s: Sys, e: Streams.Event)
    requires |s.bus.topics| == 1 && Streams.Inv(s.bus) && OnBus(s, e).Some?
    ensures var s' := OnBus(s, e).value;
      s'.bus.phase.Handling? ==> e.Deliver? || (e.Produce? && s'.bus.phase == s.bus.phase)
    ensures e.Deliver? ==> OnBus(s, e).value.bus.phase.Handling?
  {
    hide Streams.TopicInv, Streams.Pending, Streams.AllTopics;
  }

  // ---------- the invariant of one monitor ----------

  lemma {:induction false} DistinctStep(m: MonitorId, recs: seq<Record>, d: nat)
    requires d < |recs|
    ensures var p := Distinct(m, recs[..d]);
      Distinct(m, recs[..d + 1]) ==
        if recs[d].Result? && recs[d].monitor == m && !HasKey(p, KeyOf(recs[d].result))
        then p + [recs[d].result] else p
  {
    assert recs[..d + 1][..d] == recs[..d];
  }

  lemma KeyAppended(rs: seq<CheckResult>, r: CheckResult, k: ResultKey)
    ensures HasKey(rs + [r], k) <==> HasKey(rs, k) || KeyOf(r) == k
  {
    var rs' := rs + [r];
    assert rs'[|rs|] == r;
    if HasKey(rs, k) {
      var i :| 0 <= i < |rs| && KeyOf(rs[i]) == k;
      assert KeyOf(rs'[i]) == k;
    }
  }

  /** Nothing about a monitor changes when the stream grows or counters advance. */
  lemma MonOkGrows(m: MonitorId, row: MonitorRow, log: seq<Effect>, x: Ctx, y: Ctx)
    requires MonOk(m, row, log, x)
    requires Extends(x.v, y.v)
    requires x.nextResult <= y.nextResult && x.nextIncident <= y.nextIncident && x.emitted == y.emitted
    ensures MonOk(m, row, log, y)
  {
    var d := x.v.handled;
    assert x.v.entries[..d] == y.v.entries[..d];
    if d < |x.v.entries| {
      assert x.v.entries[..d + 1] == y.v.entries[..d + 1];
      assert x.v.entries[d] == y.v.entries[d];
    }
    hide Distinct;
  }

  lemma AllMonsGrow(monitors: map<MonitorId, MonitorRow>, logs: map<MonitorId, seq<Effect>>, x: Ctx, y: Ctx)
    requires AllMons(monitors, logs, x)
    requires Extends(x.v, y.v)
    requires x.nextResult <= y.nextResult && x.nextIncident <= y.nextIncident && x.emitted == y.emitted
    ensures AllMons(monitors, logs, y)
  {
    forall m | m in monitors ensures m in logs && MonOk(m, monitors[m], logs[m], y) {
      MonOkGrows(m, monitors[m], logs[m], x, y);
    }
  }

  /** Once the oldest pending entry is settled for a monitor, it counts as handled. */
  lemma {:induction false} MonOkAdvances(m: MonitorId, row: MonitorRow, log: seq<Effect>, x: Ctx, y: Ctx)
    requires MonOk(m, row, log, x)
    requires x.v.due && 0 <= x.v.handled < |x.v.entries|
    requires y == x.(v := View(x.v.entries, x.v.handled + 1, false))
    requires var rec := x.v.entries[x.v.handled];
      rec.Result? && rec.monitor == m ==> HasKey(Results(Checks(log)), KeyOf(rec.result))
    ensures MonOk(m, row, log, y)
  {
    DistinctStep(m, x.v.entries, x.v.handled);
    hide Distinct, HasKey, Replayed;
  }

  // ---------- every step keeps the invariant ----------

  lemma {:induction false} BusKeepsInv(s: Sys, e: Streams.Event)
    requires Inv(s) && OnBus(s, e).Some?
    ensures Inv(OnBus(s, e).value)
  {
    var s' := OnBus(s, e).value;
    BusView(s, e);
    BusPhase(s, e);
    Streams.StepKeepsInv(s.bus, e);
    AllMonsGrow(s.monitors, s.logs, CtxOf(s), CtxOf(s'));
    if s'.bus.phase.Handling? {
      HeldIsOldest(s');
      if !e.Deliver? {
        HeldIsOldest(s);
        SameHeld(s, s');
      }
    }
    hide Streams.Step, Streams.Inv, AllMons, EmittedOk, ViewOf, RowId, Loaded, Settled;
  }

  /** The held record does not change while producers append. */
  lemma SameHeld(s: Sys, s': Sys)
    requires |s.bus.topics| == 1 && |s'.bus.topics| == 1 && s.bus.phase == s'.bus.phase
    requires s.bus.topics[0].entries <= s'.bus.topics[0].entries && Held(s).Some?
    ensures Held(s') == Held(s)
  {}

  /** A handler error, or a crash of its reply, leaves everything else as it was. */
  lemma FailKeepsInv(s: Sys)
    requires Persisted(s) && s.bus.phase.Handling?
    ensures Return(s, false).Some? && Inv(Return(s, false).value)
  {
    Streams.StepKeepsInv(s.bus, Streams.HandlerErr);
    hide Streams.Inv, AllMons, EmittedOk;
  }

  /** A handler success makes the oldest pending entry a handled one. */
  lemma {:induction false} SuccessView(s: Sys)
    requires |s.bus.topics| == 1 && Streams.Inv(s.bus) && s.bus.phase.Handling?
    ensures Return(s, true).Some?
    ensures var s' := Return(s, true).value; var t := s.bus.topics[0];
      && |s'.bus.topics| == 1 && Streams.Inv(s'.bus) && !s'.bus.phase.Handling? && s'.hand == NoHand
      && s' == s.(bus := s'.bus, hand := NoHand)
      && ViewOf(s') == View(t.entries, Low(t) + 1, false)
  {
    HeldIsOldest(s);
    Streams.StepKeepsInv(s.bus, Streams.HandlerOk);
    hide Streams.Inv;
  }

  lemma {:induction false} SuccessKeepsInv(s: Sys)
    requires Persisted(s) && s.bus.phase.Handling? && Held(s).Some?
    requires Settled(s.monitors, s.logs, Held(s).value)
    ensures Return(s, true).Some? && Inv(Return(s, true).value)
  {
    HeldIsOldest(s);
    SuccessView(s);
    var s' := Return(s, true).value;
    var x, y := CtxOf(s), CtxOf(s');
    var rec := Held(s).value;
    hide Return, Streams.Inv, EmittedOk;
    if x.v.due {
      forall m | m in s.monitors ensures m in s.logs && MonOk(m, s.monitors[m], s.logs[m], y) {
        hide MonOk;
        MonOkAdvances(m, s.monitors[m], s.logs[m], x, y);
      }
    } else {
      assert x == y;
    }
  }

  /** One monitor's row or log changed; the others are untouched. */
  lemma AllMonsUpdate(monitors: map<MonitorId, MonitorRow>, logs: map<MonitorId, seq<Effect>>, x: Ctx,
                      m: MonitorId, row: MonitorRow, log: seq<Effect>)
    requires AllMons(monitors, logs, x) && MonOk(m, row, log, x)
    ensures AllMons(monitors[m := row], logs[m := log], x)
  {
    hide MonOk;
  }

  /** The id of a new result row is newer than everything the monitor and the notifier know. */
  lemma {:induction false} UpsertMonOk(m: MonitorId, row: MonitorRow, log: seq<Effect>, x: Ctx, r: CheckResult, y: Ctx)
    requires MonOk(m, row, log, x) && KeyOf(r) !in row.results
    requires 0 <= x.v.handled < |x.v.entries| && x.v.due && x.v.entries[x.v.handled] == Result(m, r)
    requires y == x.(nextResult := x.nextResult + 1)
    requires forall j :: 0 <= j < |x.emitted| ==> x.emitted[j].notice.resultId < x.nextResult
    ensures MonOk(m, row.(results := row.results[KeyOf(r) := x.nextResult]), log, y)
  {
    var row' := row.(results := row.results[KeyOf(r) := x.nextResult]);
    var h := Checks(log);
    assert Upcoming(m, KeyOf(r), x.nextResult, h, y);
    forall k | k in row'.results
      ensures row'.results[k] < y.nextResult && (HasKey(Results(h), k) || Upcoming(m, k, row'.results[k], h, y))
    {
      if k != KeyOf(r) {
        assert k in row.results;
      }
    }
    hide Distinct, HasKey, Upcoming;
  }

  /** A record whose entry was handled before has its key in the log already. */
  lemma {:induction false} HandledHasKey(m: MonitorId, log: seq<Effect>, v: View, i: nat)
    requires Reflects(m, Checks(log), v) && i < v.handled
    requires v.entries[i].Result? && v.entries[i].monitor == m
    ensures HasKey(Results(Checks(log)), KeyOf(v.entries[i].result))
  {
    PrefixHasKey(m, v.entries, v.handled, i);
    if v.handled < |v.entries| {
      PrefixHasKey(m, v.entries, v.handled + 1, i);
    }
  }

  lemma {:induction false} PrefixHasKey(m: MonitorId, recs: seq<Record>, n: nat, i: nat)
    requires i < n <= |recs| && recs[i].Result? && recs[i].monitor == m
    ensures HasKey(Distinct(m, recs[..n]), KeyOf(recs[i].result))
  {
    var d := n - 1;
    DistinctStep(m, recs, d);
    var p := Distinct(m, recs[..d]);
    var k := KeyOf(recs[i].result);
    if i < d {
      PrefixHasKey(m, recs, d, i);
    }
    if recs[d].Result? {
      KeyAppended(p, recs[d].result, k);
    }
    hide Distinct, HasKey;
  }

  lemma EmittedOlder(emitted: seq<Emission>, logs: map<MonitorId, seq<Effect>>, nextResult: int)
    requires EmittedOk(emitted, logs, nextResult)
    ensures forall j :: 0 <= j < |emitted| ==> emitted[j].notice.resultId < nextResult
    ensures EmittedOk(emitted, logs, nextResult + 1)
  {}

  /** A record whose key is not stored yet has never been handled. */
  lemma NewKeyIsDue(s: Sys)
    requires Inv(s) && s.bus.phase.Handling? && Held(s).value.Result?
    requires var rec := Held(s).value;
      rec.monitor in s.monitors && KeyOf(rec.result) !in s.monitors[rec.monitor].results
    ensures var v := ViewOf(s);
      v.due && 0 <= v.handled < |v.entries| && v.entries[v.handled] == Held(s).value
  {
    HeldIsOldest(s);
    var rec, v := Held(s).value, ViewOf(s);
    if !v.due {
      var m := rec.monitor;
      HandledHasKey(m, s.logs[m], v, v.handled - 1);
      hide Streams.Inv, Distinct, HandOk;
    }
  }

  /** Storing the held result keeps everything but the hand. */
  lemma {:induction false} WithResultKeeps(s: Sys)
    requires Inv(s) && s.bus.phase.Handling? && Held(s).value.Result? && Held(s).value.monitor in s.monitors
    ensures var rec := Held(s).value; var s1 := WithResult(s, rec.monitor, rec.result);
      && s1 == s.(monitors := s1.monitors, nextResult := s1.nextResult)
      && rec.monitor in s1.monitors && KeyOf(rec.result) in s1.monitors[rec.monitor].results
      && Persisted(s1) && Held(s1) == Held(s)
  {
    var rec := Held(s).value;
    var m, r := rec.monitor, rec.result;
    if KeyOf(r) !in s.monitors[m].results {
      NewKeyIsDue(s);
      NewRowKeeps(s, m, r);
    }
    hide Streams.Inv, EmittedOk, HandOk, ViewOf, AllMons;
  }

  lemma {:induction false} NewRowKeeps(s: Sys, m: MonitorId, r: CheckResult)
    requires Persisted(s) && m in s.monitors && KeyOf(r) !in s.monitors[m].results
    requires ViewOf(s).due && 0 <= ViewOf(s).handled < |ViewOf(s).entries| && ViewOf(s).entries[ViewOf(s).handled] == Result(m, r)
    ensures Persisted(WithResult(s, m, r))
  {
    hide AllMons, MonOk, EmittedOk, Streams.Inv, ViewOf;
    EmittedOlder(s.emitted, s.logs, s.nextResult);
    MonOkOf(s.monitors, s.logs, CtxOf(s), m);
    var s1 := WithResult(s, m, r);
    SameView(s, s1);
    var x, y := CtxOf(s), CtxOf(s1);
    UpsertMonOk(m, s.monitors[m], s.logs[m], x, r, y);
    AllMonsGrow(s.monitors, s.logs, x, y);
    AllMonsUpdate(s.monitors, s.logs, y, m, s1.monitors[m], s.logs[m]);
    assert s.logs[m := s.logs[m]] == s.logs;
  }

  lemma SameView(s: Sys, s': Sys)
    requires s.bus == s'.bus && |s.bus.topics| == 1
    ensures ViewOf(s') == ViewOf(s)
  {}

  lemma {:induction false} UpsertKeepsInv(s: Sys, reply: Streams.Reply)
    requires Inv(s) && s.bus.phase.Handling? && Held(s).value.Result?
    requires OnUpsert(s, Held(s).value.monitor, Held(s).value.result, reply).Some?
    ensures Inv(OnUpsert(s, Held(s).value.monitor, Held(s).value.result, reply).value)
  {
    var rec := Held(s).value;
    if rec.monitor !in s.monitors || reply == Streams.Failed {
      FailKeepsInv(s);
    } else {
      hide Persisted, WithResult, Return;
      WithResultKeeps(s);
      var s1 := WithResult(s, rec.monitor, rec.result);
      if reply == Streams.Lost {
        FailKeepsInv(s1);
      } else {
        PersistedHand(s1, Upserted(s1.monitors[rec.monitor].results[KeyOf(rec.result)]));
      }
      hide Held;
    }
  }

  /** Reading the monitor and its alert state: a monitor that is gone settles the record. */
  lemma {:induction false} LoadKeepsInv(s: Sys, e: Event)
    requires e.LoadMonitor? || e.LoadState?
    requires Inv(s) && s.bus.phase.Handling? && OnHandler(s, e, Held(s).value).Some?
    ensures Inv(OnHandler(s, e, Held(s).value).value)
  {
    var rec := Held(s).value;
    hide Streams.Inv, EmittedOk, Return, Reflects, Stored, OnUpsert, OnCommit, OnEmit, AllMons;
    if !e.ok {
      FailKeepsInv(s);
    } else if rec.monitor !in s.monitors {
      SuccessKeepsInv(s);
    } else {
      LoadedHand(s, e);
    }
  }

  lemma {:induction false} LoadedHand(s: Sys, e: Event)
    requires Inv(s) && s.bus.phase.Handling? && Held(s).value.Result? && Held(s).value.monitor in s.monitors
    requires (e.LoadMonitor? && s.hand.Upserted? && e.ok) || (e.LoadState? && s.hand.Configured? && e.ok)
    ensures Inv(OnHandler(s, e, Held(s).value).value)
  {
    var m := Held(s).value.monitor;
    var s' := OnHandler(s, e, Held(s).value).value;
    assert MonOk(m, s.monitors[m], s.logs[m], CtxOf(s));
    PersistedHand(s, s'.hand);
    hide Streams.Inv, EmittedOk, Return, Reflects, Stored, AllMons, Persisted, Held;
  }

  /** The watermark lets a stored result through exactly when its key is not in the log. */
  lemma {:induction false} WatermarkIsExact(m: MonitorId, row: MonitorRow, log: seq<Effect>, x: Ctx, c: Check)
    requires MonOk(m, row, log, x)
    requires KeyOf(c.result) in row.results && row.results[KeyOf(c.result)] == c.resultId
    ensures Newer(row.db, c) <==> !HasKey(Results(Checks(log)), KeyOf(c.result))
  {
    CountersFollowHistory(log);
    var h := Checks(log);
    hide Replay, Trailing, Distinct, Reflects;
    if HasKey(Results(h), KeyOf(c.result)) {
      var j :| 0 <= j < |h| && KeyOf(Results(h)[j]) == KeyOf(c.result);
      assert h[j].resultId == c.resultId;
    }
  }

  /** The log gains the held result, which completes the prefix up to and including it. */
  lemma {:induction false} ReflectsCommit(m: MonitorId, h: seq<Check>, v: View, c: Check)
    requires Reflects(m, h, v) && v.handled < |v.entries| && v.entries[v.handled] == Result(m, c.result)
    requires !HasKey(Results(h), KeyOf(c.result))
    ensures Reflects(m, h + [c], v)
  {
    DistinctStep(m, v.entries, v.handled);
    PrefixHasKey(m, v.entries, v.handled + 1, v.handled);
    hide Distinct, HasKey;
    assert Results(h + [c]) == Results(h) + [c.result];
  }

  lemma {:induction false} StoredCommit(m: MonitorId, results: map<ResultKey, int>, h: seq<Check>, x: Ctx, c: Check, y: Ctx)
    requires Stored(m, results, h, x) && y == x.(nextIncident := x.nextIncident + 1)
    requires x.v.due ==> 0 <= x.v.handled < |x.v.entries| && x.v.entries[x.v.handled] == Result(m, c.result)
    ensures Stored(m, results, h + [c], y)
  {
    assert Results(h + [c]) == Results(h) + [c.result];
    forall k | k in results
      ensures results[k] < y.nextResult && HasKey(Results(h + [c]), k)
    {
      KeyAppended(Results(h), c.result, k);
    }
  }

  lemma {:induction false} ReplayedCommit(row: MonitorRow, log: seq<Effect>, x: Ctx, c: Check, db: Db, log': seq<Effect>, y: Ctx)
    requires Replayed(row, log, x) && y == x.(nextIncident := x.nextIncident + 1)
    requires db == Replay(log') && Checks(log') == Checks(log) + [c]
    requires c.incidentId == x.nextIncident && c.resultId < x.nextResult
    requires KeyOf(c.result) in row.results && row.results[KeyOf(c.result)] == c.resultId
    requires forall j :: 0 <= j < |Checks(log)| ==> Checks(log)[j].resultId < c.resultId
    ensures Replayed(row.(db := db), log', y)
  {
    hide Replay, Checks;
  }

  /** A result the watermark lets through is the newest the monitor and the notifier know. */
  lemma {:induction false} PassedIsNewest(m: MonitorId, row: MonitorRow, log: seq<Effect>, x: Ctx, c: Check)
    requires MonOk(m, row, log, x) && Newer(row.db, c)
    requires KeyOf(c.result) in row.results && row.results[KeyOf(c.result)] == c.resultId
    ensures !HasKey(Results(Checks(log)), KeyOf(c.result)) && c.resultId < x.nextResult
    ensures Upcoming(m, KeyOf(c.result), c.resultId, Checks(log), x)
  {
    WatermarkIsExact(m, row, log, x, c);
    hide Replay, Checks, HasKey, Newer, Replayed, Reflects;
  }

  /** Committing the held result, however stale the state it was judged on. */
  lemma {:induction false} CommitMonOk(m: MonitorId, row: MonitorRow, log: seq<Effect>, x: Ctx, c: Check,
                                       db: Db, log': seq<Effect>, y: Ctx)
    requires MonOk(m, row, log, x) && Newer(row.db, c)
    requires KeyOf(c.result) in row.results && row.results[KeyOf(c.result)] == c.resultId
    requires x.v.due ==> 0 <= x.v.handled < |x.v.entries| && x.v.entries[x.v.handled] == Result(m, c.result)
    requires c.incidentId == x.nextIncident && y == x.(nextIncident := x.nextIncident + 1)
    requires db == Replay(log') && Checks(log') == Checks(log) + [c]
    ensures MonOk(m, row.(db := db), log', y)
    ensures HasKey(Results(Checks(log')), KeyOf(c.result))
  {
    PassedIsNewest(m, row, log, x, c);
    hide Replay, Checks, Newer, HasKey;
    var h := Checks(log);
    ReflectsCommit(m, h, x.v, c);
    StoredCommit(m, row.results, h, x, c, y);
    ReplayedCommit(row, log, x, c, db, log', y);
    hide Reflects, Stored, Replayed, Upcoming;
    assert Results(h + [c]) == Results(h) + [c.result];
    KeyAppended(Results(h), c.result, KeyOf(c.result));
  }

  /** Emissions stay notifications of the log when a log is extended. */
  lemma EmittedGrows(emitted: seq<Emission>, logs: map<MonitorId, seq<Effect>>, nextResult: int, m: MonitorId, log': seq<Effect>)
    requires EmittedOk(emitted, logs, nextResult)
    requires m in logs && forall n :: n in Notices(logs[m]) ==> n in Notices(log')
    ensures EmittedOk(emitted, logs[m := log'], nextResult)
  {}

  lemma EmittedNext(emitted: seq<Emission>, logs: map<MonitorId, seq<Effect>>, nextResult: int, e: Emission)
    requires EmittedOk(emitted, logs, nextResult)
    requires e.monitor in logs && e.notice in Notices(logs[e.monitor]) && e.notice.resultId < nextResult
    requires forall j :: 0 <= j < |emitted| ==> emitted[j].notice.resultId < e.notice.resultId
    ensures EmittedOk(emitted + [e], logs, nextResult)
  {
    hide Notices;
  }

  /** What a commit that was not skipped establishes, apart from the hand. */
  lemma {:induction false} AfterCommitOk(s: Sys, c: Check)
    requires Inv(s) && s.bus.phase.Handling? && s.hand.Judged? && Held(s).value.Result?
    requires var rec := Held(s).value;
      && rec.monitor in s.monitors && c == Check(s.hand.config, rec.result, s.hand.resultId, s.nextIncident)
      && Newer(s.monitors[rec.monitor].db, c)
    ensures var m := Held(s).value.monitor; var state := s.hand.state;
      && m in s.logs
      && var s1 := AfterCommit(s, m, c, state);
      var d := Apply(c.config, c.result, state);
      var a := History.Commit(s.monitors[m].db, c, d).1;
      && !a.skipped
      && Persisted(s1)
      && Settled(s1.monitors, s1.logs, Held(s).value)
      && (NoticeFor(c, d, a).Some? ==>
            EmittedOk(s1.emitted + [Emission(m, NoticeFor(c, d, a).value)], s1.logs, s1.nextResult))
  {
    hide Streams.Inv, AllMons, EmittedOk, MonOk, Replay, Checks, Append, History.Commit, Apply, Newer, Loaded, HasKey, ViewOf, Distinct;
    HeldIsOldest(s);
    HeldIsDue(s);
    var m, r, state := Held(s).value.monitor, Held(s).value.result, s.hand.state;
    MonOkOf(s.monitors, s.logs, CtxOf(s), m);
    var row, log, x := s.monitors[m], s.logs[m], CtxOf(s);
    var s1 := AfterCommit(s, m, c, state);
    SameView(s, s1);
    var log', y := s1.logs[m], CtxOf(s1);
    Linearise(log, c, state);
    PassedIsNewest(m, row, log, x, c);
    CommitMonOk(m, row, log, x, c, s1.monitors[m].db, log', y);
    AllMonsGrow(s.monitors, s.logs, x, y);
    AllMonsUpdate(s.monitors, s.logs, y, m, s1.monitors[m], log');
    EmittedGrows(s.emitted, s.logs, s.nextResult, m, log');
    var n := NoticeFor(c, Apply(c.config, c.result, state), History.Commit(row.db, c, Apply(c.config, c.result, state)).1);
    if n.Some? {
      EmittedNext(s.emitted, s1.logs, s.nextResult, Emission(m, n.value));
    }
  }

  /** An entry that is due is the one in the handler's hand. */
  lemma HeldIsDue(s: Sys)
    requires |s.bus.topics| == 1 && Streams.Inv(s.bus) && s.bus.phase.Handling?
    ensures var v := ViewOf(s);
      v.due ==> 0 <= v.handled < |v.entries| && Held(s) == Some(v.entries[v.handled])
  {
    HeldIsOldest(s);
    hide Streams.Inv;
  }

  lemma {:induction false} CommitKeepsInv(s: Sys, reply: Streams.Reply)
    requires Inv(s) && s.bus.phase.Handling? && s.hand.Judged? && Held(s).value.Result?
    requires OnCommit(s, Held(s).value.monitor, Held(s).value.result, reply).Some?
    ensures Inv(OnCommit(s, Held(s).value.monitor, Held(s).value.result, reply).value)
  {
    hide Inv, Persisted, Return, AfterCommit, Apply, NoticeFor, Held, History.Commit, HandOk;
    InHand(s);
    var rec := Held(s).value;
    var m, r := rec.monitor, rec.result;
    if m !in s.monitors || m !in s.logs || reply == Streams.Failed {
      FailKeepsInv(s);
    } else {
      var c := Check(s.hand.config, r, s.hand.resultId, s.nextIncident);
      SkippedIff(s.monitors[m].db, c, Apply(c.config, r, s.hand.state));
      if Newer(s.monitors[m].db, c) {
        AppliedKeepsInv(s, c);
      } else {
        SkipKeepsInv(s, c, reply == Streams.Done);
      }
    }
  }

  lemma SkippedIff(db: Db, c: Check, d: Decision)
    ensures History.Commit(db, c, d).1.skipped <==> !Newer(db, c)
  {}

  /** A commit that was not skipped, with and without its reply arriving. */
  lemma {:induction false} AppliedKeepsInv(s: Sys, c: Check)
    requires Inv(s) && s.bus.phase.Handling? && s.hand.Judged? && Held(s).value.Result?
    requires var rec := Held(s).value;
      && rec.monitor in s.monitors && c == Check(s.hand.config, rec.result, s.hand.resultId, s.nextIncident)
      && Newer(s.monitors[rec.monitor].db, c)
    ensures var m := Held(s).value.monitor; var state := s.hand.state;
      && m in s.logs
      && var s1 := AfterCommit(s, m, c, state);
      var d := Apply(c.config, c.result, state);
      var a := History.Commit(s.monitors[m].db, c, d).1;
      && Return(s1, false).Some? && Inv(Return(s1, false).value)
      && Inv(s1.(hand := Committed(NoticeFor(c, d, a))))
  {
    hide Inv, Persisted, EmittedOk, Settled, AfterCommit, Apply, NoticeFor, Return, History.Commit, Held;
    InHand(s);
    var m := Held(s).value.monitor;
    AfterCommitOk(s, c);
    AfterCommitFrame(s, m, c, s.hand.state);
    var s1 := AfterCommit(s, m, c, s.hand.state);
    FailKeepsInv(s1);
    var d := Apply(c.config, c.result, s.hand.state);
    CommittedHand(s1, Held(s).value, NoticeFor(c, d, History.Commit(s.monitors[m].db, c, d).1));
  }

  lemma InHand(s: Sys)
    requires Inv(s) && s.bus.phase.Handling?
    ensures Persisted(s) && Held(s).Some? && HandOk(s, Held(s).value)
  {
    hide Persisted, HandOk;
  }

  lemma CommittedHand(s: Sys, rec: Record, n: Option<Notice>)
    requires Persisted(s) && s.bus.phase.Handling? && Held(s) == Some(rec) && rec.Result?
    requires Settled(s.monitors, s.logs, rec)
    requires n.Some? ==> EmittedOk(s.emitted + [Emission(rec.monitor, n.value)], s.logs, s.nextResult)
    ensures Inv(s.(hand := Committed(n)))
  {
    hide Persisted, EmittedOk, Settled, Held;
    PersistedHand(s, Committed(n));
  }

  lemma AfterCommitFrame(s: Sys, m: MonitorId, c: Check, state: AlertState)
    requires m in s.monitors && m in s.logs
    ensures var s1 := AfterCommit(s, m, c, state); s1.bus == s.bus && Held(s1) == Held(s)
  {}

  /** A skipped record changes nothing and is settled. */
  lemma {:induction false} SkipKeepsInv(s: Sys, c: Check, ok: bool)
    requires Inv(s) && s.bus.phase.Handling? && s.hand.Judged? && Held(s).value.Result?
    requires var rec := Held(s).value;
      && rec.monitor in s.monitors && c == Check(s.hand.config, rec.result, s.hand.resultId, s.nextIncident)
      && !Newer(s.monitors[rec.monitor].db, c)
    ensures Return(s, ok).Some? && Inv(Return(s, ok).value)
  {
    var m := Held(s).value.monitor;
    hide Streams.Inv, EmittedOk;
    if ok {
      WatermarkIsExact(m, s.monitors[m], s.logs[m], CtxOf(s), c);
      hide MonOk, HasKey;
      SuccessKeepsInv(s);
    } else {
      FailKeepsInv(s);
    }
  }

  /** Once nothing is due, what has been emitted no longer matters to the stored results. */
  lemma AllMonsEmit(monitors: map<MonitorId, MonitorRow>, logs: map<MonitorId, seq<Effect>>, x: Ctx, y: Ctx)
    requires AllMons(monitors, logs, x) && !x.v.due && y == x.(emitted := y.emitted)
    ensures AllMons(monitors, logs, y)
  {
    forall m | m in monitors ensures m in logs && MonOk(m, monitors[m], logs[m], y) {
      assert MonOk(m, monitors[m], logs[m], x);
    }
  }

  lemma {:induction false} EmitKeepsInv(s: Sys, ok: bool)
    requires Inv(s) && s.bus.phase.Handling? && OnHandler(s, Emit(ok), Held(s).value).Some?
    ensures Inv(OnHandler(s, Emit(ok), Held(s).value).value)
  {
    var n := s.hand.notice;
    SuccessKeepsInv(s);
    SuccessView(s);
    var s1 := Return(s, true).value;
    if n.Some? && ok {
      var emitted := s.emitted + [Emission(Held(s).value.monitor, n.value)];
      AllMonsEmit(s1.monitors, s1.logs, CtxOf(s1), CtxOf(s1.(emitted := emitted)));
    }
    hide Streams.Inv, AllMons, EmittedOk, Settled;
  }

  // ---------- operators ----------

  lemma CloseLoaded(state: AlertState, log: seq<Effect>, id: int, at: Time)
    requires Loaded(state, log) && Open(Replay(log)).Some? && Open(Replay(log)).value.id == id
    ensures Loaded(state, log + [Closed(id, at)])
  {
    Unfold(log + [Closed(id, at)], log, Closed(id, at));
    assert (log + [Closed(id, at)])[..|log|] == log;
  }

  lemma {:induction false} CloseKeepsInv(s: Sys, m: MonitorId, id: int, at: Time)
    requires Inv(s)
    ensures Inv(OnClose(s, m, id, at))
  {
    hide AllMons, EmittedOk, HandOk, MonOk, Notices, Streams.Inv, Checks, Replay, ManualClose;
    var s' := OnClose(s, m, id, at);
    if s' != s {
      var row, log, x := s.monitors[m], s.logs[m], CtxOf(s);
      var log' := log + [Closed(id, at)];
      MonOkOf(s.monitors, s.logs, x, m);
      CloseMonOk(m, row, log, x, id, at);
      AllMonsUpdate(s.monitors, s.logs, x, m, s'.monitors[m], log');
      EmittedGrows(s.emitted, s.logs, s.nextResult, m, log');
      if s.bus.phase.Handling? {
        CloseHand(s, m, id, at);
      }
    }
  }

  lemma MonOkOf(monitors: map<MonitorId, MonitorRow>, logs: map<MonitorId, seq<Effect>>, x: Ctx, m: MonitorId)
    requires AllMons(monitors, logs, x) && m in monitors
    ensures m in logs && MonOk(m, monitors[m], logs[m], x) && monitors[m].db == Replay(logs[m])
  {
    hide Replay, Reflects, Stored;
  }

  lemma CloseMonOk(m: MonitorId, row: MonitorRow, log: seq<Effect>, x: Ctx, id: int, at: Time)
    requires MonOk(m, row, log, x)
    ensures MonOk(m, row.(db := ManualClose(row.db, id, at)), log + [Closed(id, at)], x)
    ensures forall n :: n in Notices(log) ==> n in Notices(log + [Closed(id, at)])
  {
    hide Checks, Replay, Notices, ManualClose, Reflects, Stored;
    Unfold(log + [Closed(id, at)], log, Closed(id, at));
  }

  /** What the handler holds stays good when an operator closes an incident under it. */
  lemma {:induction false} CloseHand(s: Sys, m: MonitorId, id: int, at: Time)
    requires Held(s).Some? && HandOk(s, Held(s).value) && m in s.monitors && m in s.logs
    requires s.monitors[m].db == Replay(s.logs[m])
    requires Open(s.monitors[m].db).Some? && Open(s.monitors[m].db).value.id == id
    ensures HandOk(OnClose(s, m, id, at), Held(s).value)
  {
    var log := s.logs[m];
    var log' := log + [Closed(id, at)];
    Unfold(log', log, Closed(id, at));
    hide Checks, Replay, Notices;
    match s.hand
    case Judged(_, _, state) =>
      if Held(s).value.Result? && Held(s).value.monitor == m {
        CloseLoaded(state, log, id, at);
      }
    case Committed(n) =>
      if n.Some? {
        EmittedGrows(s.emitted + [Emission(Held(s).value.monitor, n.value)], s.logs, s.nextResult, m, log');
      }
    case _ =>
  }

  lemma {:induction false} EditKeepsInv(s: Sys, m: MonitorId, config: Monitor)
    requires Inv(s) && m in s.monitors
    ensures Inv(s.(monitors := s.monitors[m := s.monitors[m].(config := config)]))
  {
    var s' := s.(monitors := s.monitors[m := s.monitors[m].(config := config)]);
    EditMonOk(m, s.monitors[m], config, s.logs[m], CtxOf(s));
    AllMonsUpdate(s.monitors, s.logs, CtxOf(s), m, s'.monitors[m], s.logs[m]);
    assert s.logs[m := s.logs[m]] == s.logs;
    hide AllMons, MonOk, Streams.Inv, EmittedOk;
    if s.bus.phase.Handling? {
      EditHand(s, m, config);
    }
    hide HandOk;
  }

  lemma EditMonOk(m: MonitorId, row: MonitorRow, config: Monitor, log: seq<Effect>, x: Ctx)
    requires MonOk(m, row, log, x)
    ensures MonOk(m, row.(config := config), log, x)
  {
    hide Reflects, Stored, Checks;
  }

  lemma EditHand(s: Sys, m: MonitorId, config: Monitor)
    requires Held(s).Some? && HandOk(s, Held(s).value) && m in s.monitors
    ensures var s' := s.(monitors := s.monitors[m := s.monitors[m].(config := config)]);
      Held(s') == Held(s) && HandOk(s', Held(s).value)
  {
    hide EmittedOk, Loaded, Checks, HasKey;
  }

  lemma {:induction false} DeleteKeepsInv(s: Sys, m: MonitorId)
    requires Inv(s)
    ensures Inv(s.(monitors := s.monitors - {m}))
  {
    hide Streams.Inv, EmittedOk, Checks, Loaded, MonOk;
  }

  lemma {:induction false} HandlerKeepsInv(s: Sys, e: Event)
    requires Inv(s) && s.bus.phase.Handling? && OnHandler(s, e, Held(s).value).Some?
    ensures Inv(OnHandler(s, e, Held(s).value).value)
  {
    match e
    case Upsert(reply) => UpsertKeepsInv(s, reply);
    case LoadMonitor(_) => LoadKeepsInv(s, e);
    case LoadState(_) => LoadKeepsInv(s, e);
    case Commit(reply) => CommitKeepsInv(s, reply);
    case Emit(ok) => EmitKeepsInv(s, ok);
    case _ => SuccessKeepsInv(s);
    hide Inv;
  }

  lemma {:induction false} StepKeepsInv(s: Sys, e: Event)
    requires Inv(s) && Step(s, e).Some?
    ensures Inv(Step(s, e).value)
  {
    match e
    case Bus(b) => BusKeepsInv(s, b);
    case OperatorClose(m, id, at) => CloseKeepsInv(s, m, id, at);
    case Edit(m, config) =>
      if m in s.monitors {
        EditKeepsInv(s, m, config);
      }
    case Delete(m) => DeleteKeepsInv(s, m);
    case _ => HandlerKeepsInv(s, e);
    hide Inv;
  }

  lemma {:induction false} InitInv(stream: seq<Record>, configs: map<MonitorId, Monitor>)
    ensures Inv(Init(stream, configs))
  {
    var s := Init(stream, configs);
    assert s.bus.topics[0].entries[..0] == [];
  }

  lemma {:induction false} ReachableInv(stream: seq<Record>, configs: map<MonitorId, Monitor>, run: seq<Event>)
    requires Exec(Init(stream, configs), run).Some?
    ensures Inv(Exec(Init(stream, configs), run).value)
  {
    hide Inv, Init;
    if |run| == 0 {
      InitInv(stream, configs);
    } else {
      var p := run[..|run| - 1];
      ReachableInv(stream, configs, p);
      StepKeepsInv(Exec(Init(stream, configs), p).value, run[|run| - 1]);
    }
  }
}
