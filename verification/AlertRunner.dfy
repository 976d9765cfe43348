/** The handler itself (internal/alerting/service.go): the sequence of store calls it makes
    for one record, as a method over the stored rows. Its contract is that whatever fails and
    whatever operators do meanwhile, it only ever takes steps of the pipeline machine, so the
    guarantees proved for every run of that machine hold of the rows it leaves. */
module AlertRunner {
  import opened Domain
  import opened Engine
  import opened AlertStore
  import opened History
  import opened AlertPipeline
  import Streams

  lemma {:induction false} Extend(start: Sys, run: seq<Event>, s: Sys, e: Event)
    requires Exec(start, run) == Some(s)
    ensures Exec(start, run + [e]) == Step(s, e)
  {
    assert (run + [e])[..|run|] == run;
  }

  /** The record was given back: only the poll loop has moved. */
  ghost predicate GivenBack(s: Sys, s': Sys, ok: bool) {
    && s.bus.phase.Handling?
    && s' == s.(bus := s'.bus, hand := NoHand)
    && s'.bus.phase == if ok then Streams.Acking(s.bus.phase.queue, s.bus.phase.resume) else Streams.Idle
  }

  lemma ReturnShape(s: Sys, ok: bool)
    requires Held(s).Some?
    ensures Return(s, ok).Some? && GivenBack(s, Return(s, ok).value, ok)
  {}

  lemma HandlerStep(s: Sys, e: Event, rec: Record)
    requires Held(s) == Some(rec) && !e.Bus? && !e.OperatorClose? && !e.Edit? && !e.Delete?
    ensures Step(s, e) == OnHandler(s, e, rec)
  {}

  lemma UpsertStep(s: Sys, m: MonitorId, r: CheckResult, reply: Streams.Reply)
    requires s.hand.Started? && Held(s) == Some(Result(m, r))
    ensures Step(s, Upsert(reply)).Some?
    ensures var s' := Step(s, Upsert(reply)).value;
      if m !in s.monitors || reply == Streams.Failed then GivenBack(s, s', false)
      else if reply == Streams.Lost then GivenBack(WithResult(s, m, r), s', false)
      else
        var s1 := WithResult(s, m, r);
        s' == s1.(hand := Upserted(s1.monitors[m].results[KeyOf(r)]))
  {
    HandlerStep(s, Upsert(reply), Result(m, r));
    ReturnShape(s, false);
    if m in s.monitors {
      ReturnShape(WithResult(s, m, r), false);
    }
    hide Step, Return, GivenBack;
  }

  /** The two loads: an error, a monitor that is gone, or the value found. */
  lemma LoadStep(s: Sys, e: Event, m: MonitorId, r: CheckResult)
    requires Held(s) == Some(Result(m, r))
    requires (e.LoadMonitor? && s.hand.Upserted?) || (e.LoadState? && s.hand.Configured?)
    ensures Step(s, e).Some?
    ensures var s' := Step(s, e).value;
      if !e.ok then GivenBack(s, s', false)
      else if m !in s.monitors then GivenBack(s, s', true)
      else if e.LoadMonitor? then s' == s.(hand := Configured(s.hand.resultId, s.monitors[m].config))
      else s' == s.(hand := Judged(s.hand.resultId, s.hand.config, GetAlertState(s.monitors[m].db)))
  {
    HandlerStep(s, e, Result(m, r));
    ReturnShape(s, e.ok);
    hide Step, Return, GivenBack, OnUpsert, OnCommit, OnEmit;
  }

  lemma ParseStep(s: Sys)
    requires s.hand.Started? && Held(s) == Some(Malformed)
    ensures Step(s, Parse).Some? && GivenBack(s, Step(s, Parse).value, true)
  {
    HandlerStep(s, Parse, Malformed);
    ReturnShape(s, true);
    hide Step, Return, GivenBack, OnUpsert, OnCommit, OnEmit;
  }

  lemma EmitStep(s: Sys, e: Event, m: MonitorId, r: CheckResult)
    requires Held(s) == Some(Result(m, r)) && e.Emit? && s.hand.Committed?
    ensures Step(s, e).Some?
    ensures var s' := Step(s, e).value;
      if s.hand.notice.Some? && e.ok
      then GivenBack(s.(emitted := s.emitted + [Emission(m, s.hand.notice.value)]), s', true)
      else GivenBack(s, s', true)
  {
    HandlerStep(s, e, Result(m, r));
    ReturnShape(s, true);
    if s.hand.notice.Some? {
      ReturnShape(s.(emitted := s.emitted + [Emission(m, s.hand.notice.value)]), true);
    }
    hide Step, Return, GivenBack, OnUpsert, OnCommit;
  }

  lemma CommitStep(s: Sys, m: MonitorId, c: Check, reply: Streams.Reply)
    requires s.hand.Judged? && Held(s) == Some(Result(m, c.result)) && (m in s.monitors ==> m in s.logs)
    requires c == Check(s.hand.config, c.result, s.hand.resultId, s.nextIncident)
    ensures Step(s, Event.Commit(reply)).Some?
    ensures var s' := Step(s, Event.Commit(reply)).value;
      if m !in s.monitors || reply == Streams.Failed then GivenBack(s, s', false)
      else
        var d := Apply(c.config, c.result, s.hand.state);
        var a := ApplyAlertDecision(s.monitors[m].db, c.resultId, c.incidentId, d).1;
        if a.skipped then GivenBack(s, s', reply == Streams.Done)
        else if reply == Streams.Lost then GivenBack(AfterCommit(s, m, c, s.hand.state), s', false)
        else s' == AfterCommit(s, m, c, s.hand.state).(hand := Committed(NoticeFor(c, d, a)))
  {
    HandlerStep(s, Event.Commit(reply), Result(m, c.result));
    ReturnShape(s, false);
    ReturnShape(s, reply == Streams.Done);
    if m in s.monitors {
      ReturnShape(AfterCommit(s, m, c, s.hand.state), false);
    }
    hide Step, Return, GivenBack, AfterCommit, Apply, NoticeFor, ApplyAlertDecision;
  }

  /** What a commit that was not refused or skipped leaves, with and without its reply. */
  lemma CommittedRows(s: Sys, m: MonitorId, c: Check, reply: Streams.Reply)
    requires s.hand.Judged? && Held(s) == Some(Result(m, c.result)) && m in s.monitors && m in s.logs
    requires c == Check(s.hand.config, c.result, s.hand.resultId, s.nextIncident) && reply != Streams.Failed
    requires var d := Apply(c.config, c.result, s.hand.state);
      !ApplyAlertDecision(s.monitors[m].db, c.resultId, c.incidentId, d).1.skipped
    ensures Step(s, Event.Commit(reply)).Some? && s.bus.phase.Handling?
    ensures var s' := Step(s, Event.Commit(reply)).value;
      var d := Apply(c.config, c.result, s.hand.state);
      var (db, a) := ApplyAlertDecision(s.monitors[m].db, c.resultId, c.incidentId, d);
      && RowsCommitted(s, s', m, db)
      && (reply == Streams.Lost ==> s'.hand == NoHand && s'.bus.phase == Streams.Idle)
      && (reply == Streams.Done ==> s'.hand == Committed(NoticeFor(c, d, a)) && s'.bus == s.bus)
  {
    CommitStep(s, m, c, reply);
    assert s.bus.phase.Handling?;
    hide Step, Append, Apply, ApplyAlertDecision, NoticeFor, Held;
  }

  ghost predicate RowsCommitted(s: Sys, s': Sys, m: MonitorId, db: Db)
    requires m in s.monitors
  {
    && s' == s.(monitors := s.monitors[m := s.monitors[m].(db := db)], nextIncident := s.nextIncident + 1,
                logs := s'.logs, bus := s'.bus, hand := s'.hand)
    && s'.logs.Keys == s.logs.Keys
  }

  datatype Fetched<T> = Found(value: T) | Gone | Broken

  /** How one record ends: with success, with an error, or with the process. */
  datatype Outcome = Succeeded | Errored | Died

  /** What goes wrong while one record is handled: the fate of each store call and of the
      notification, and before which of the five calls the process dies, if it does. */
  datatype Faults = Faults(upsert: Streams.Reply, load: bool, state: bool, commit: Streams.Reply, emit: bool, diesBefore: int)

  /** Nothing goes wrong, the notification aside. */
  predicate Calm(f: Faults) {
    f.upsert == Streams.Done && f.load && f.state && f.commit == Streams.Done && !(0 <= f.diesBefore <= 5)
  }

  /** The row of a result: a result of the monitor with the same region and check time keeps
      its id, and any other takes the next. */
  ghost predicate ResultStored(before: map<MonitorId, MonitorRow>, next: int, after: map<MonitorId, MonitorRow>, next': int,
                               m: MonitorId, r: CheckResult)
    requires m in before
  {
    var k := ResultKey(r.region, r.checkedAt);
    if k in before[m].results then after == before && next' == next
    else next' == next + 1 && after == before[m := before[m].(results := before[m].results[k := next])]
  }

  /** The open incident with this id is closed by hand; otherwise nothing changes. */
  ghost predicate ClosedByHand(before: Db, after: Db, id: int, at: Time) {
    var n := |before.incidents|;
    if n > 0 && before.incidents[n - 1].endedAt.None? && before.incidents[n - 1].id == id
    then after == before.(incidents := before.incidents[n - 1 :=
           before.incidents[n - 1].(endedAt := Some(at), closeReason := Some(Manual))])
    else after == before
  }

  class Runner {
    var monitors: map<MonitorId, MonitorRow>
    var nextResult: int
    var nextIncident: int
    var emitted: seq<Emission>

    ghost const start: Sys
    ghost var bus: Streams.State
    ghost var hand: Hand
    ghost var logs: map<MonitorId, seq<Effect>>
    ghost var run: seq<Event>

    ghost function Now(): Sys reads this {
      Sys(bus, monitors, nextResult, nextIncident, hand, emitted, logs)
    }

    ghost predicate Valid() reads this {
      Exec(start, run) == Some(Now()) && monitors.Keys <= logs.Keys
    }

    /** The record being handled. */
    ghost predicate Holds(rec: Record) reads this {
      Held(Now()) == Some(rec)
    }

    constructor (stream: seq<Record>, configs: map<MonitorId, Monitor>)
      ensures Valid() && start == Init(stream, configs) && run == []
    {
      start := Init(stream, configs);
      monitors := map m | m in configs :: MonitorRow(configs[m], EMPTY_DB, map[]);
      nextResult, nextIncident, emitted := 1, 1, [];
      bus := Streams.State([Streams.Topic(stream, 0, [], {}, {})], Streams.Idle);
      hand, run := NoHand, [];
      logs := map m | m in configs :: [];
    }

    /** Operators close incidents and edit or delete monitors at any time. */
    method Interfere()
      requires Valid()
      modifies this`monitors, this`logs, this`run
      ensures Valid() && old(run) <= run && Held(Now()) == old(Held(Now())) && monitors.Keys <= old(monitors).Keys
    {
      var count: int := *;
      while 0 < count
        invariant Valid() && old(run) <= run && monitors.Keys <= old(monitors).Keys
      {
        count := count - 1;
        OperatorAct();
      }
    }

    method OperatorAct()
      requires Valid()
      modifies this`monitors, this`logs, this`run
      ensures Valid() && old(run) <= run && monitors.Keys <= old(monitors).Keys
    {
      hide Exec;
      var m: MonitorId, id: int, at: Time, config: Monitor, choice: int := *, *, *, *, *;
      if m in monitors {
        if choice == 0 {
          CloseIncident(m, id, at);
        } else if choice == 1 {
          EditMonitor(m, config);
        } else {
          DeleteMonitor(m);
        }
      }
    }

    method CloseIncident(m: MonitorId, id: int, at: Time)
      requires Valid() && m in monitors
      modifies this`monitors, this`logs, this`run
      ensures Valid() && run == old(run) + [OperatorClose(m, id, at)]
      ensures monitors.Keys == old(monitors).Keys && ClosedByHand(old(monitors)[m].db, monitors[m].db, id, at)
      ensures monitors == old(monitors)[m := old(monitors)[m].(db := monitors[m].db)]
    {
      Extend(start, run, Now(), OperatorClose(m, id, at));
      run := run + [OperatorClose(m, id, at)];
      var db := monitors[m].db;
      CloseByHand(db, id, at);
      if Open(db).Some? && Open(db).value.id == id {
        logs := logs[m := logs[m] + [Closed(id, at)]];
        monitors := monitors[m := monitors[m].(db := ManualClose(db, id, at))];
      }
      hide Exec, ManualClose, Open;
    }

    method EditMonitor(m: MonitorId, config: Monitor)
      requires Valid() && m in monitors
      modifies this`monitors, this`run
      ensures Valid() && run == old(run) + [Edit(m, config)]
      ensures monitors == old(monitors)[m := old(monitors)[m].(config := config)]
    {
      Extend(start, run, Now(), Edit(m, config));
      run := run + [Edit(m, config)];
      monitors := monitors[m := monitors[m].(config := config)];
      hide Exec;
    }

    method DeleteMonitor(m: MonitorId)
      requires Valid()
      modifies this`monitors, this`run
      ensures Valid() && run == old(run) + [Delete(m)] && monitors == old(monitors) - {m}
    {
      Extend(start, run, Now(), Delete(m));
      run := run + [Delete(m)];
      monitors := monitors - {m};
      hide Exec;
    }

    /** The handler gave the record back: with success it goes on to be acknowledged, with an
        error it stays pending. */
    twostate predicate Returned(ok: bool) reads this {
      && hand == NoHand
      && old(bus).phase.Handling?
      && bus.phase == if ok then Streams.Acking(old(bus).phase.queue, old(bus).phase.resume) else Streams.Idle
    }

    /** The record was given back, or the process died with it in hand; either way it is
        pending unless the handler succeeded. */
    twostate predicate Ended(o: Outcome) reads this {
      match o
      case Succeeded => Returned(true)
      case Errored => Returned(false)
      case Died => hand == NoHand && bus == old(bus).(phase := Streams.Idle)
    }

    /** The process may die here, taking the handler's memory and the poll loop's place with it
        and nothing else. */
    method MayDie(dies: bool) returns (died: bool)
      requires Valid()
      modifies this`bus, this`hand, this`run
      ensures Valid() && old(run) <= run && died == dies
      ensures if died then hand == NoHand && bus == old(bus).(phase := Streams.Idle)
              else hand == old(hand) && bus == old(bus)
    {
      died := dies;
      if died {
        Extend(start, run, Now(), Bus(Streams.Crash));
        hide Exec;
        run, hand, bus := run + [Bus(Streams.Crash)], NoHand, bus.(phase := Streams.Idle);
      }
    }

    /** A step that gives the record back and changes nothing else. */
    method GiveBack(ghost e: Event, ghost ok: bool)
      requires Valid() && Step(Now(), e).Some? && GivenBack(Now(), Step(Now(), e).value, ok)
      modifies this`bus, this`hand, this`run
      ensures Valid() && run == old(run) + [e] && Returned(ok)
    {
      hide Exec, Step;
      ghost var s := Step(Now(), e).value;
      Extend(start, run, Now(), e);
      run, bus, hand := run + [e], s.bus, s.hand;
    }

    /** Store the result row; an error or a lost reply gives the record back. The row keeps its
        id if and only if one of the same region and check time was stored; a monitor that is gone
        is an error. */
    method UpsertCheckResult(m: MonitorId, r: CheckResult, reply: Streams.Reply) returns (id: Option<int>)
      requires Valid() && hand == Started && Holds(Result(m, r))
      modifies this`monitors, this`nextResult, this`bus, this`hand, this`run
      ensures Valid() && old(run) <= run
      ensures id.Some? ==> hand == Upserted(id.value) && bus == old(bus)
      ensures id.None? ==> Returned(false)
      ensures id.Some? <==> m in old(monitors) && reply == Streams.Done
      ensures if m !in old(monitors) || reply == Streams.Failed
        then monitors == old(monitors) && nextResult == old(nextResult)
        else ResultStored(old(monitors), old(nextResult), monitors, nextResult, m, r)
      ensures id.Some? ==> m in monitors && ResultKey(r.region, r.checkedAt) in monitors[m].results
      ensures id.Some? ==> id.value == monitors[m].results[ResultKey(r.region, r.checkedAt)]
    {
      hide Exec, Step, Held;
      UpsertStep(Now(), m, r, reply);
      ghost var e, s := Upsert(reply), Step(Now(), Upsert(reply)).value;
      if m !in monitors || reply == Streams.Failed {
        GiveBack(e, false);
        return None;
      }
      Extend(start, run, Now(), e);
      run, bus, hand := run + [e], s.bus, s.hand;
      if KeyOf(r) !in monitors[m].results {
        monitors := monitors[m := monitors[m].(results := monitors[m].results[KeyOf(r) := nextResult])];
        nextResult := nextResult + 1;
      }
      id := if reply == Streams.Lost then None else Some(monitors[m].results[KeyOf(r)]);
    }

    /** Load the monitor; one that is gone settles the record. */
    method GetMonitor(m: MonitorId, ghost r: CheckResult, ok: bool) returns (f: Fetched<Monitor>)
      requires Valid() && hand.Upserted? && Holds(Result(m, r))
      modifies this`bus, this`hand, this`run
      ensures Valid() && old(run) <= run
      ensures f.Found? ==> hand == Configured(old(hand).resultId, f.value) && bus == old(bus)
      ensures !f.Found? ==> Returned(f.Gone?)
      ensures f == if !ok then Broken else if m in monitors then Found(monitors[m].config) else Gone
    {
      Extend(start, run, Now(), LoadMonitor(ok));
      LoadStep(Now(), LoadMonitor(ok), m, r);
      hide Exec, Step, GetAlertState;
      ghost var s := Step(Now(), LoadMonitor(ok)).value;
      run, bus, hand := run + [LoadMonitor(ok)], s.bus, s.hand;
      f := if !ok then Broken else if m !in monitors then Gone else Found(monitors[m].config);
    }

    /** Load the counters, the open incident and the level last warned about. */
    method LoadAlertState(m: MonitorId, ghost r: CheckResult, ok: bool) returns (f: Fetched<AlertState>)
      requires Valid() && hand.Configured? && Holds(Result(m, r))
      modifies this`bus, this`hand, this`run
      ensures Valid() && old(run) <= run
      ensures f.Found? ==> hand == Judged(old(hand).resultId, old(hand).config, f.value) && bus == old(bus)
      ensures !f.Found? ==> Returned(f.Gone?)
      ensures f.Broken? <==> !ok
      ensures ok ==> (f.Found? <==> m in monitors)
      ensures f.Found? ==> var db, s := monitors[m].db, f.value;
        && s.consecutiveFails == db.consecutiveFails && s.firstFailAt == db.firstFailAt && s.sslWarnedDays == db.sslWarnedDays
        && (s.openIncident.Some? ==> |db.incidents| > 0 && s.openIncident.value == db.incidents[|db.incidents| - 1])
        && (s.openIncident.Some? <==> |db.incidents| > 0 && db.incidents[|db.incidents| - 1].endedAt.None?)
    {
      Extend(start, run, Now(), LoadState(ok));
      LoadStep(Now(), LoadState(ok), m, r);
      hide Exec, Step;
      ghost var s := Step(Now(), LoadState(ok)).value;
      run, bus, hand := run + [LoadState(ok)], s.bus, s.hand;
      f := if !ok then Broken else if m !in monitors then Gone else Found(GetAlertState(monitors[m].db));
    }

    /** Commit the decision in one transaction. A skipped round is a success with nothing to
        emit; an error or a lost reply gives the record back. */
    method CommitDecision(m: MonitorId, c: Check, d: Decision, ghost state: AlertState, reply: Streams.Reply)
      returns (a: Option<Applied>)
      requires Valid() && hand == Judged(c.resultId, c.config, state) && Holds(Result(m, c.result))
      requires c.incidentId == nextIncident && d == Apply(c.config, c.result, state)
      modifies this`monitors, this`nextIncident, this`logs, this`bus, this`hand, this`run
      ensures Valid() && old(run) <= run
      ensures a.None? ==> Returned(false)
      ensures a.Some? && a.value.skipped ==> Returned(true)
      ensures a.Some? && !a.value.skipped ==> hand == Committed(NoticeFor(c, d, a.value)) && bus == old(bus)
      ensures a.Some? <==> m in old(monitors) && reply == Streams.Done
      ensures m in old(monitors) && reply != Streams.Failed ==>
        var watermark := old(monitors)[m].db.watermark;
        var skip := watermark.Some? && c.resultId <= watermark.value;
        && (a.Some? ==> a.value.skipped == skip)
        && monitors.Keys == old(monitors).Keys
        && if skip then monitors == old(monitors)
           else monitors[m].db.watermark == Some(c.resultId) && monitors[m].db.consecutiveFails == d.newConsecutive
                && monitors[m].db.firstFailAt == d.newFirstFailAt && monitors[m].db.sslWarnedDays == d.newSslWarnedDays
      ensures m !in old(monitors) || reply == Streams.Failed ==> monitors == old(monitors)
    {
      hide Exec, Step, AfterCommit, Apply, NoticeFor, ApplyAlertDecision, Held;
      CommitStep(Now(), m, c, reply);
      ghost var e := Event.Commit(reply);
      if m !in monitors || reply == Streams.Failed {
        GiveBack(e, false);
        return None;
      }
      var (db, applied) := ApplyAlertDecision(monitors[m].db, c.resultId, c.incidentId, d);
      DecisionShape(monitors[m].db, c.resultId, c.incidentId, d);
      a := if reply == Streams.Lost then None else Some(applied);
      if applied.skipped {
        GiveBack(e, reply == Streams.Done);
        return;
      }
      CommittedRows(Now(), m, c, reply);
      StoreRows(e, m, db);
    }

    method StoreRows(ghost e: Event, m: MonitorId, db: Db)
      requires Valid() && m in monitors && Step(Now(), e).Some? && RowsCommitted(Now(), Step(Now(), e).value, m, db)
      modifies this`monitors, this`nextIncident, this`logs, this`bus, this`hand, this`run
      ensures Valid() && run == old(run) + [e] && Now() == Step(old(Now()), e).value
    {
      hide Exec, Step;
      ghost var s := Step(Now(), e).value;
      Extend(start, run, Now(), e);
      run, bus, hand, logs := run + [e], s.bus, s.hand, s.logs;
      monitors, nextIncident := monitors[m := monitors[m].(db := db)], nextIncident + 1;
    }

    /** Produce the notification, if there is one; a failure to do so is not an error. */
    method Emit(m: MonitorId, n: Option<Notice>, ghost r: CheckResult, ok: bool)
      requires Valid() && hand == Committed(n) && Holds(Result(m, r))
      modifies this`emitted, this`bus, this`hand, this`run
      ensures Valid() && old(run) <= run && Returned(true)
      ensures emitted == if n.Some? && ok then old(emitted) + [Emission(m, n.value)] else old(emitted)
    {
      Extend(start, run, Now(), Event.Emit(ok));
      EmitStep(Now(), Event.Emit(ok), m, r);
      hide Exec, Step;
      ghost var s := Step(Now(), Event.Emit(ok)).value;
      run, bus, hand := run + [Event.Emit(ok)], s.bus, s.hand;
      if n.Some? && ok {
        emitted := emitted + [Emission(m, n.value)];
      }
    }

    /** One record. The handler ends by giving the record back or dies on the way, and
        everything it did is a run of the pipeline machine. It dies only where the process does,
        and when nothing goes wrong it succeeds, unless the monitor is gone. */
    method Handle(rec: Record, f: Faults) returns (o: Outcome)
      requires Valid() && hand == Started && Holds(rec)
      modifies this
      ensures Valid() && old(run) <= run && Ended(o)
      ensures Calm(f) ==> o == Succeeded || (o == Errored && rec.Result? && rec.monitor !in monitors)
      ensures rec.Malformed? && f.diesBefore != 0 ==> o == Succeeded
    {
      var died := MayDie(f.diesBefore == 0);
      if died {
        return Died;
      }
      if rec.Malformed? {
        Drop();
        return Succeeded;
      }
      o := HandleResult(rec.monitor, rec.result, f);
    }

    /** Bytes that do not parse are dropped. */
    method Drop()
      requires Valid() && hand == Started && Holds(Malformed)
      modifies this`bus, this`hand, this`run
      ensures Valid() && old(run) <= run && Returned(true)
    {
      hide Exec, Step, Held;
      ParseStep(Now());
      GiveBack(Parse, true);
    }

    /** What happens between two store calls: operators act, and the process may die. */
    method Meanwhile(dies: bool) returns (died: bool)
      requires Valid()
      modifies this`monitors, this`logs, this`run, this`bus, this`hand
      ensures Valid() && old(run) <= run && died == dies && monitors.Keys <= old(monitors).Keys
      ensures if died then hand == NoHand && bus == old(bus).(phase := Streams.Idle)
              else hand == old(hand) && bus == old(bus)
    {
      hide Exec;
      Interfere();
      died := MayDie(dies);
    }

    method HandleResult(m: MonitorId, r: CheckResult, f: Faults) returns (o: Outcome)
      requires Valid() && hand == Started && Holds(Result(m, r))
      modifies this
      ensures Valid() && old(run) <= run && Ended(o)
      ensures Calm(f) ==> o == Succeeded || (o == Errored && m !in monitors)
    {
      hide Exec, Held, ResultStored;
      var died := Meanwhile(f.diesBefore == 1);
      if died {
        return Died;
      }
      SameBus(old(Now()), Now());
      var id := UpsertCheckResult(m, r, f.upsert);
      if id.None? {
        return Errored;
      }
      died := Meanwhile(f.diesBefore == 2);
      if died {
        return Died;
      }
      SameBus(old(Now()), Now());
      o := HandleStored(m, r, id.value, f);
    }

    /** The result has its row: load the monitor and its state. */
    method HandleStored(m: MonitorId, r: CheckResult, id: int, f: Faults) returns (o: Outcome)
      requires Valid() && hand == Upserted(id) && Holds(Result(m, r))
      modifies this
      ensures Valid() && old(run) <= run && Ended(o)
      ensures Calm(f) ==> o == Succeeded || (o == Errored && m !in monitors)
    {
      hide Exec, Held;
      var config := GetMonitor(m, r, f.load);
      if !config.Found? {
        return if config.Gone? then Succeeded else Errored;
      }
      var died := Meanwhile(f.diesBefore == 3);
      if died {
        return Died;
      }
      SameBus(old(Now()), Now());
      o := HandleConfigured(m, r, id, config.value, f);
    }

    method HandleConfigured(m: MonitorId, r: CheckResult, id: int, config: Monitor, f: Faults) returns (o: Outcome)
      requires Valid() && hand == Configured(id, config) && Holds(Result(m, r))
      modifies this
      ensures Valid() && old(run) <= run && Ended(o)
      ensures Calm(f) ==> o == Succeeded || (o == Errored && m !in monitors)
    {
      hide Exec, Held;
      var state := LoadAlertState(m, r, f.state);
      if !state.Found? {
        return if state.Gone? then Succeeded else Errored;
      }
      var died := Meanwhile(f.diesBefore == 4);
      if died {
        return Died;
      }
      SameBus(old(Now()), Now());
      o := Judge(m, r, id, config, state.value, f);
    }

    /** Judge the result, commit the decision and announce it. */
    method Judge(m: MonitorId, r: CheckResult, id: int, config: Monitor, state: AlertState, f: Faults) returns (o: Outcome)
      requires Valid() && hand == Judged(id, config, state) && Holds(Result(m, r))
      modifies this
      ensures Valid() && old(run) <= run && Ended(o)
      ensures Calm(f) ==> o == Succeeded || (o == Errored && m !in monitors)
    {
      hide Exec, Held, Apply;
      var d := Apply(config, r, state);
      var c := Check(config, r, id, nextIncident);
      var a := CommitDecision(m, c, d, state, f.commit);
      if a.None? || a.value.skipped {
        return if a.Some? then Succeeded else Errored;
      }
      var died := Meanwhile(f.diesBefore == 5);
      if died {
        return Died;
      }
      SameBus(old(Now()), Now());
      Emit(m, NoticeFor(c, d, a.value), r, f.emit);
      o := Succeeded;
    }
  }

  lemma CloseByHand(db: Db, id: int, at: Time)
    ensures ClosedByHand(db, ManualClose(db, id, at), id, at)
  {}

  /** A decision is skipped exactly at or below the watermark, and otherwise writes its counters. */
  lemma DecisionShape(db: Db, resultId: int, incidentId: int, d: Decision)
    ensures var (after, a) := ApplyAlertDecision(db, resultId, incidentId, d);
      && a.skipped == (db.watermark.Some? && resultId <= db.watermark.value)
      && (a.skipped ==> after == db)
      && (!a.skipped ==>
            && after.watermark == Some(resultId) && after.consecutiveFails == d.newConsecutive
            && after.firstFailAt == d.newFirstFailAt && after.sslWarnedDays == d.newSslWarnedDays)
  {}

  lemma SameBus(s: Sys, s': Sys)
    requires s.bus == s'.bus
    ensures Held(s) == Held(s')
  {}
}
