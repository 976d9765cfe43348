/** Which notifications a monitor's history produces. */
module Notifications {
  import opened Domain
  import opened Engine
  import opened AlertStore
  import opened History

  /** The notification one applied check causes, and the expiry level it leaves stored. */
  lemma NextNotice(db: Db, c: Check)
    requires Newer(db, c)
    ensures NoticeAt(db, c) ==
      if c.result.healthy then
        if Open(db).None? then None
        else Some(Notice(c.resultId, Open(db).value.id, Recovery, None,
                         Open(db).value.startedAt, Some(c.result.checkedAt)))
      else if Open(db).Some? then
        if c.config.typ == Ssl && (db.sslWarnedDays.None? || SslLevel(c.result) < db.sslWarnedDays.value)
        then Some(Notice(c.resultId, Open(db).value.id, Down, Some(SslLevel(c.result)),
                         Open(db).value.startedAt, None))
        else None
      else if db.consecutiveFails + 1 < c.config.failureThreshold then None
      else Some(Notice(c.resultId, c.incidentId, Down,
                       if c.config.typ == Ssl then Some(SslLevel(c.result)) else None,
                       if db.consecutiveFails == 0 then c.result.checkedAt
                       else if db.firstFailAt.Some? then db.firstFailAt.value else c.result.checkedAt, None))
    ensures NextCheck(db, c).sslWarnedDays ==
      if c.result.healthy || c.config.typ == Http then None
      else if NoticeAt(db, c).Some? then Some(SslLevel(c.result))
      else db.sslWarnedDays
  {}

  // ---------- counting notices ----------

  function Count(ns: seq<Notice>, id: int, kind: EventKind): nat {
    if |ns| == 0 then 0
    else Count(ns[..|ns| - 1], id, kind) +
         if ns[|ns| - 1].incidentId == id && ns[|ns| - 1].kind == kind then 1 else 0
  }

  lemma {:induction false} CountSnoc(ns: seq<Notice>, n: Notice, id: int, kind: EventKind)
    ensures Count(ns + [n], id, kind) ==
            Count(ns, id, kind) + if n.incidentId == id && n.kind == kind then 1 else 0
  {
    assert (ns + [n])[..|ns|] == ns;
  }

  lemma {:induction false} CountZero(ns: seq<Notice>, id: int, kind: EventKind)
    ensures Count(ns, id, kind) == 0 <==> forall n :: n in ns ==> n.incidentId != id || n.kind != kind
  {
    if |ns| > 0 {
      CountZero(ns[..|ns| - 1], id, kind);
      assert ns == ns[..|ns| - 1] + [ns[|ns| - 1]];
    }
  }

  // ---------- incident rows over any history ----------

  /** Every row but the newest is closed, an open row has no close reason, ids grow, and
      every row was opened by an applied check. */
  ghost predicate Tidy(h: seq<Check>, db: Db) {
    var incs := db.incidents;
    && (forall k :: 0 <= k < |incs| - 1 ==> incs[k].endedAt.Some?)
    && (forall k :: 0 <= k < |incs| ==> (incs[k].endedAt.None? <==> incs[k].closeReason.None?))
    && (forall k, l :: 0 <= k < l < |incs| ==> incs[k].id < incs[l].id)
    && (|incs| > 0 ==> |h| > 0 && incs[|incs| - 1].id <= h[|h| - 1].incidentId
                       && incs[|incs| - 1].firstResultId <= h[|h| - 1].resultId)
  }

  /** Notices carry growing result ids and speak of stored incidents. */
  ghost predicate NoticesKnown(h: seq<Check>, ns: seq<Notice>) {
    && (forall n :: n in ns ==> |h| > 0 && n.incidentId <= h[|h| - 1].incidentId && n.resultId <= h[|h| - 1].resultId)
    && (forall i, j :: 0 <= i < j < |ns| ==> ns[i].resultId < ns[j].resultId)
  }

  /** Each stored incident has exactly one recovery notice if it ended by recovery, and none
      if it is open or an operator closed it. */
  ghost predicate RecoveriesMatch(db: Db, ns: seq<Notice>) {
    forall k :: 0 <= k < |db.incidents| ==>
      Count(ns, db.incidents[k].id, Recovery) == if db.incidents[k].closeReason == Some(Recovered) then 1 else 0
  }

  lemma TidyClose(h: seq<Check>, db: Db, id: int, at: Time)
    requires Tidy(h, db)
    ensures Tidy(h, ManualClose(db, id, at))
  {}

  lemma RecoveriesClose(h: seq<Check>, ns: seq<Notice>, db: Db, id: int, at: Time)
    requires Tidy(h, db) && RecoveriesMatch(db, ns)
    ensures RecoveriesMatch(ManualClose(db, id, at), ns)
  {}

  lemma TidyStep(h: seq<Check>, db: Db, c: Check)
    requires Tidy(h, db) && Newer(db, c)
    requires |h| > 0 ==> h[|h| - 1].incidentId < c.incidentId && h[|h| - 1].resultId < c.resultId
    ensures Tidy(h + [c], NextCheck(db, c))
  {
    NextIncidents(db, c);
    hide NextCheck;
  }

  lemma {:induction false} KnownStep(h: seq<Check>, ns: seq<Notice>, db: Db, c: Check)
    requires Tidy(h, db) && NoticesKnown(h, ns) && Newer(db, c)
    requires |h| > 0 ==> h[|h| - 1].incidentId < c.incidentId && h[|h| - 1].resultId < c.resultId
    ensures NoticesKnown(h + [c], Announce(ns, db, Checked(c)))
  {
    NextNotice(db, c);
    hide NoticeAt, NextCheck;
  }

  lemma {:induction false} RecoveriesStep(h: seq<Check>, ns: seq<Notice>, db: Db, c: Check)
    requires Tidy(h, db) && NoticesKnown(h, ns) && RecoveriesMatch(db, ns) && Newer(db, c)
    requires |h| > 0 ==> h[|h| - 1].incidentId < c.incidentId
    ensures RecoveriesMatch(NextCheck(db, c), Announce(ns, db, Checked(c)))
  {
    NextNotice(db, c);
    NextIncidents(db, c);
    var d, ns' := NextCheck(db, c), Announce(ns, db, Checked(c));
    var fired := NoticeAt(db, c);
    hide NextCheck, NoticeAt;
    CountZero(ns, c.incidentId, Recovery);
    forall k | 0 <= k < |d.incidents|
      ensures Count(ns', d.incidents[k].id, Recovery) ==
              if d.incidents[k].closeReason == Some(Recovered) then 1 else 0
    {
      if fired.Some? {
        CountSnoc(ns, fired.value, d.incidents[k].id, Recovery);
      }
      if k < |db.incidents| {
        assert d.incidents[k].id == db.incidents[k].id;
      }
    }
  }

  lemma {:induction false} HistoryTidy(evs: seq<Effect>)
    requires Ordered(Checks(evs))
    ensures Tidy(Checks(evs), Replay(evs)) && NoticesKnown(Checks(evs), Notices(evs))
    ensures RecoveriesMatch(Replay(evs), Notices(evs))
  {
    if |evs| > 0 {
      var p, e := evs[..|evs| - 1], evs[|evs| - 1];
      Unfold(evs, p, e);
      hide NextCheck, NoticeAt, Tidy, NoticesKnown, RecoveriesMatch;
      if e.Checked? {
        NextIsNewer(p, e.c);
        OrderedPrefix(Checks(p), e.c);
        HistoryTidy(p);
        TidyStep(Checks(p), Replay(p), e.c);
        KnownStep(Checks(p), Notices(p), Replay(p), e.c);
        RecoveriesStep(Checks(p), Notices(p), Replay(p), e.c);
      } else {
        HistoryTidy(p);
        TidyClose(Checks(p), Replay(p), e.incidentId, e.at);
        RecoveriesClose(Checks(p), Notices(p), Replay(p), e.incidentId, e.at);
      }
    }
  }

  // ---------- one down and one recovery per http incident ----------

  ghost predicate AllOfType(h: seq<Check>, typ: MonitorType) {
    forall i :: 0 <= i < |h| ==> h[i].config.typ == typ
  }

  ghost predicate DownsMatch(db: Db, ns: seq<Notice>) {
    forall k :: 0 <= k < |db.incidents| ==> Count(ns, db.incidents[k].id, Down) == 1
  }

  lemma {:induction false} DownsStep(h: seq<Check>, ns: seq<Notice>, db: Db, c: Check)
    requires Tidy(h, db) && NoticesKnown(h, ns) && DownsMatch(db, ns) && Newer(db, c) && c.config.typ == Http
    requires |h| > 0 ==> h[|h| - 1].incidentId < c.incidentId
    ensures DownsMatch(NextCheck(db, c), Announce(ns, db, Checked(c)))
  {
    NextNotice(db, c);
    NextIncidents(db, c);
    var d, ns' := NextCheck(db, c), Announce(ns, db, Checked(c));
    var fired := NoticeAt(db, c);
    hide NextCheck, NoticeAt;
    CountZero(ns, c.incidentId, Down);
    forall k | 0 <= k < |d.incidents| ensures Count(ns', d.incidents[k].id, Down) == 1 {
      if fired.Some? {
        CountSnoc(ns, fired.value, d.incidents[k].id, Down);
      }
      if k < |db.incidents| {
        assert d.incidents[k].id == db.incidents[k].id;
      }
    }
  }

  /** Over any history of an http monitor, with any operator closes and threshold changes,
      every incident has exactly one down notice; it has exactly one recovery notice if it
      ended by recovery and none if it is open or an operator closed it. */
  lemma {:induction false} HttpDiscipline(evs: seq<Effect>)
    requires Ordered(Checks(evs)) && AllOfType(Checks(evs), Http)
    ensures DownsMatch(Replay(evs), Notices(evs)) && RecoveriesMatch(Replay(evs), Notices(evs))
  {
    HistoryTidy(evs);
    if |evs| > 0 {
      var p, e := evs[..|evs| - 1], evs[|evs| - 1];
      Unfold(evs, p, e);
      hide NextCheck, NoticeAt, Tidy, NoticesKnown, RecoveriesMatch;
      if e.Checked? {
        NextIsNewer(p, e.c);
        OrderedPrefix(Checks(p), e.c);
        OfTypePrefix(Checks(p), e.c, Http);
        HistoryTidy(p);
        HttpDiscipline(p);
        DownsStep(Checks(p), Notices(p), Replay(p), e.c);
      } else {
        HttpDiscipline(p);
      }
    }
  }

  lemma OfTypePrefix(h: seq<Check>, c: Check, typ: MonitorType)
    requires AllOfType(h + [c], typ)
    ensures AllOfType(h, typ) && c.config.typ == typ
  {
    var g := h + [c];
    assert forall i :: 0 <= i < |h| ==> g[i] == h[i];
    assert g[|h|] == c;
  }

  // ---------- ssl escalation ----------

  ghost predicate Decreasing(s: seq<int>) {
    forall i, j :: 0 <= i < j < |s| ==> s[i] > s[j]
  }

  /** The elements smaller than everything before them. */
  function RecordMinima(s: seq<int>): seq<int> {
    if |s| == 0 then []
    else
      var p, x := s[..|s| - 1], s[|s| - 1];
      if forall y :: y in p ==> x < y then RecordMinima(p) + [x] else RecordMinima(p)
  }

  predicate IsMinimum(x: int, s: seq<int>) {
    x in s && forall y :: y in s ==> x <= y
  }

  /** Adding a level to a sequence whose minimum is known. */
  lemma {:induction false} RecordMinimaSnoc(s: seq<int>, m: int, x: int)
    requires IsMinimum(m, s)
    ensures RecordMinima(s + [x]) == if x < m then RecordMinima(s) + [x] else RecordMinima(s)
    ensures IsMinimum(if x < m then x else m, s + [x])
  {
    assert (s + [x])[..|s|] == s;
  }

  lemma {:induction false} RecordMinimaDecrease(s: seq<int>)
    ensures Decreasing(RecordMinima(s)) && forall y :: y in RecordMinima(s) ==> y in s
  {
    if |s| > 0 {
      var p, x := s[..|s| - 1], s[|s| - 1];
      RecordMinimaDecrease(p);
      if forall y :: y in p ==> x < y {
        var r := RecordMinima(p);
        assert RecordMinima(s) == r + [x];
        forall i | 0 <= i < |r| ensures x < r[i] {
          assert r[i] in r;
        }
      }
    }
  }

  /** The levels of the failing checks from a given result on. */
  function Levels(h: seq<Check>, fromResult: int): seq<int> {
    if |h| == 0 then []
    else
      var c := h[|h| - 1];
      if !c.result.healthy && fromResult <= c.resultId
      then Levels(h[..|h| - 1], fromResult) + [SslLevel(c.result)]
      else Levels(h[..|h| - 1], fromResult)
  }

  lemma {:induction false} LevelsSnoc(h: seq<Check>, c: Check, fromResult: int)
    ensures Levels(h + [c], fromResult) ==
      if !c.result.healthy && fromResult <= c.resultId
      then Levels(h, fromResult) + [SslLevel(c.result)] else Levels(h, fromResult)
  {
    assert (h + [c])[..|h|] == h;
  }

  lemma {:induction false} LevelsFresh(h: seq<Check>, fromResult: int)
    requires forall i :: 0 <= i < |h| ==> h[i].resultId < fromResult
    ensures Levels(h, fromResult) == []
  {
    if |h| > 0 {
      LevelsFresh(h[..|h| - 1], fromResult);
    }
  }

  /** The levels an incident's down notices warned about, in order. */
  function Warned(ns: seq<Notice>, id: int): seq<int> {
    if |ns| == 0 then []
    else
      var n := ns[|ns| - 1];
      if n.incidentId == id && n.kind == Down && n.warnDays.Some?
      then Warned(ns[..|ns| - 1], id) + [n.warnDays.value]
      else Warned(ns[..|ns| - 1], id)
  }

  lemma {:induction false} WarnedSnoc(ns: seq<Notice>, n: Notice, id: int)
    ensures Warned(ns + [n], id) ==
      if n.incidentId == id && n.kind == Down && n.warnDays.Some?
      then Warned(ns, id) + [n.warnDays.value] else Warned(ns, id)
  {
    assert (ns + [n])[..|ns|] == ns;
  }

  lemma {:induction false} WarnedFresh(ns: seq<Notice>, id: int)
    requires forall n :: n in ns ==> n.incidentId != id
    ensures Warned(ns, id) == []
  {
    if |ns| > 0 {
      assert forall n :: n in ns[..|ns| - 1] ==> n in ns;
      WarnedFresh(ns[..|ns| - 1], id);
      assert ns[|ns| - 1] in ns;
    }
  }

  /** While an incident is open, the stored level is the minimum over its failing checks and
      its warnings are the record minima of their levels. */
  ghost predicate Escalates(h: seq<Check>, ns: seq<Notice>, db: Db) {
    Open(db).Some? ==>
      var levels := Levels(h, Open(db).value.firstResultId);
      && db.sslWarnedDays.Some?
      && IsMinimum(db.sslWarnedDays.value, levels)
      && Warned(ns, Open(db).value.id) == RecordMinima(levels)
  }

  /** A failing check on an open incident warns exactly at a strict new minimum. */
  lemma {:induction false} EscalatesOpen(h: seq<Check>, ns: seq<Notice>, db: Db, c: Check)
    requires Tidy(h, db) && Newer(db, c) && c.config.typ == Ssl && Ordered(h + [c])
    requires Open(db).Some? && !c.result.healthy && Escalates(h, ns, db)
    ensures NoticeAt(db, c).Some? <==> SslLevel(c.result) < db.sslWarnedDays.value
    ensures Escalates(h + [c], Announce(ns, db, Checked(c)), NextCheck(db, c))
  {
    NextNotice(db, c);
    NextIncidents(db, c);
    OrderedPrefix(h, c);
    assert Open(NextCheck(db, c)) == Open(db);
    var fired := NoticeAt(db, c);
    var id, r, level := Open(db).value.id, Open(db).value.firstResultId, SslLevel(c.result);
    LevelsSnoc(h, c, r);
    RecordMinimaSnoc(Levels(h, r), db.sslWarnedDays.value, level);
    if fired.Some? {
      WarnedSnoc(ns, fired.value, id);
    }
    hide NextCheck, NoticeAt, Levels, Warned, RecordMinima, SslLevel, Open, IsMinimum;
  }

  /** A failing check with nothing open either stays silent or starts a fresh ladder. */
  lemma {:induction false} EscalatesClosed(h: seq<Check>, ns: seq<Notice>, db: Db, c: Check)
    requires NoticesKnown(h, ns) && Newer(db, c) && c.config.typ == Ssl && Ordered(h + [c])
    requires Open(db).None? && !c.result.healthy
    ensures Escalates(h + [c], Announce(ns, db, Checked(c)), NextCheck(db, c))
  {
    NextNotice(db, c);
    NextIncidents(db, c);
    var d, fired := NextCheck(db, c), NoticeAt(db, c);
    if Open(d).Some? {
      assert Open(d).value.id == c.incidentId && Open(d).value.firstResultId == c.resultId;
      EscalatesFresh(h, ns, c);
      LevelsSnoc(h, c, c.resultId);
      WarnedSnoc(ns, fired.value, c.incidentId);
      hide NextCheck, NoticeAt, Levels, Warned, RecordMinima, SslLevel, Open, IsMinimum;
    }
  }

  lemma {:induction false} EscalatesStep(h: seq<Check>, ns: seq<Notice>, db: Db, c: Check)
    requires Tidy(h, db) && NoticesKnown(h, ns) && Newer(db, c) && c.config.typ == Ssl && Ordered(h + [c])
    requires Escalates(h, ns, db)
    ensures Escalates(h + [c], Announce(ns, db, Checked(c)), NextCheck(db, c))
  {
    if c.result.healthy {
      NextIncidents(db, c);
    } else if Open(db).Some? {
      EscalatesOpen(h, ns, db, c);
    } else {
      EscalatesClosed(h, ns, db, c);
    }
  }

  /** The first warning of an incident that a check opens. */
  lemma {:induction false} EscalatesFresh(h: seq<Check>, ns: seq<Notice>, c: Check)
    requires NoticesKnown(h, ns) && Ordered(h + [c])
    ensures Levels(h, c.resultId) == [] && Warned(ns, c.incidentId) == []
    ensures forall x :: RecordMinima([x]) == [x] && IsMinimum(x, [x])
  {
    var g := h + [c];
    assert forall i :: 0 <= i < |h| ==> g[i] == h[i];
    assert g[|h|] == c;
    LevelsFresh(h, c.resultId);
    WarnedFresh(ns, c.incidentId);
    forall x ensures RecordMinima([x]) == [x] && IsMinimum(x, [x]) {
      assert [x][..0] == [];
      assert RecordMinima([]) == [];
    }
  }

  /** For a monitor of type ssl, with any thresholds and operator closes: the stored level
      and the warnings of the open incident are determined by the levels since it opened. */
  lemma {:induction false} SslEscalation(evs: seq<Effect>)
    requires Ordered(Checks(evs)) && AllOfType(Checks(evs), Ssl)
    ensures Escalates(Checks(evs), Notices(evs), Replay(evs))
  {
    if |evs| > 0 {
      var p, e := evs[..|evs| - 1], evs[|evs| - 1];
      Unfold(evs, p, e);
      if e.Checked? {
        NextIsNewer(p, e.c);
        OrderedPrefix(Checks(p), e.c);
        OfTypePrefix(Checks(p), e.c, Ssl);
        HistoryTidy(p);
        SslEscalation(p);
        hide NextCheck, NoticeAt, Tidy, NoticesKnown, Escalates;
        EscalatesStep(Checks(p), Notices(p), Replay(p), e.c);
      } else {
        SslEscalation(p);
      }
    }
  }

  /** A down notice is always about the incident that is open once its check is applied. */
  lemma DownIsForOpen(h: seq<Check>, db: Db, c: Check)
    requires Newer(db, c) && NoticeAt(db, c).Some? && NoticeAt(db, c).value.kind == Down
    ensures Open(NextCheck(db, c)).Some?
    ensures NoticeAt(db, c).value.incidentId == Open(NextCheck(db, c)).value.id
  {
    NextNotice(db, c);
    NextIncidents(db, c);
  }

  /** The position of a level on the ladder 7, 3, 1, 0, -1. */
  function Rung(level: int): int {
    if level == 7 then 0 else if level == 3 then 1 else if level == 1 then 2 else if level == 0 then 3 else 4
  }

  lemma {:induction false} LadderDescends(s: seq<int>, k: nat)
    requires Decreasing(s) && k < |s| && forall x :: x in s ==> x in {-1, 0, 1, 3, 7}
    ensures k <= Rung(s[k])
  {
    if k > 0 {
      LadderDescends(s, k - 1);
      assert s[k - 1] in s && s[k] in s;
    }
  }

  lemma LadderIsShort(s: seq<int>)
    requires Decreasing(s) && forall x :: x in s ==> x in {-1, 0, 1, 3, 7}
    ensures |s| <= 5
  {
    if |s| > 0 {
      LadderDescends(s, |s| - 1);
    }
  }

  lemma {:induction false} LevelsBounded(h: seq<Check>, fromResult: int)
    ensures forall x :: x in Levels(h, fromResult) ==> x in {-1, 0, 1, 3, 7}
  {
    if |h| > 0 {
      LevelsBounded(h[..|h| - 1], fromResult);
    }
  }

  /** Every incident of an ssl monitor, open or closed, warns at strictly decreasing levels,
      hence at most five times. */
  lemma {:induction false} SslWarningsBounded(evs: seq<Effect>, id: int)
    requires Ordered(Checks(evs)) && AllOfType(Checks(evs), Ssl)
    ensures Decreasing(Warned(Notices(evs), id)) && |Warned(Notices(evs), id)| <= 5
  {
    SslEscalation(evs);
    var d := Replay(evs);
    if Open(d).Some? && Open(d).value.id == id {
      var levels := Levels(Checks(evs), Open(d).value.firstResultId);
      LevelsBounded(Checks(evs), Open(d).value.firstResultId);
      RecordMinimaDecrease(levels);
      LadderIsShort(RecordMinima(levels));
    } else if |evs| > 0 {
      var p, e := evs[..|evs| - 1], evs[|evs| - 1];
      Unfold(evs, p, e);
      hide NextCheck, NoticeAt, Escalates, Levels;
      if e.Checked? {
        NextIsNewer(p, e.c);
        OfTypePrefix(Checks(p), e.c, Ssl);
        SslWarningsBounded(p, id);
        var fired := NoticeAt(Replay(p), e.c);
        if fired.Some? {
          WarnedSnoc(Notices(p), fired.value, id);
          if fired.value.kind == Down {
            DownIsForOpen(Checks(p), Replay(p), e.c);
          }
        }
      } else {
        SslWarningsBounded(p, id);
      }
    }
  }

  // ---------- dedup keys ----------

  /** What the notifier deduplicates on. */
  datatype Key = Key(incidentId: int, kind: EventKind, warnDays: Option<int>)

  function KeyOf(n: Notice): Key {
    Key(n.incidentId, n.kind, n.warnDays)
  }

  ghost predicate KeysDistinct(ns: seq<Notice>) {
    forall i, j :: 0 <= i < j < |ns| ==> KeyOf(ns[i]) != KeyOf(ns[j])
  }

  lemma {:induction false} WarnedMember(ns: seq<Notice>, n: Notice)
    requires n in ns && n.kind == Down && n.warnDays.Some?
    ensures n.warnDays.value in Warned(ns, n.incidentId)
  {
    if n in ns[..|ns| - 1] {
      WarnedMember(ns[..|ns| - 1], n);
    }
  }

  lemma {:induction false} WarnedWitness(ns: seq<Notice>, id: int, level: int) returns (i: nat)
    requires level in Warned(ns, id)
    ensures i < |ns| && KeyOf(ns[i]) == Key(id, Down, Some(level))
  {
    if level in Warned(ns[..|ns| - 1], id) {
      i := WarnedWitness(ns[..|ns| - 1], id, level);
    } else {
      i := |ns| - 1;
    }
  }

  // ---------- which checks of an incident warn ----------

  /** Before position n, the failing ssl checks of the incident that began with result r0 have
      not reached the level, or some check judged as http came after those that have. */
  ghost predicate NotReached(h: seq<Check>, r0: int, n: nat, level: int)
    requires n <= |h|
  {
    forall j :: 0 <= j < n && Reaches(h[j], r0, level) ==> HttpBetween(h, j, n)
  }

  /** An ssl check of the incident at the level or a tighter one. */
  predicate Reaches(c: Check, r0: int, level: int) {
    r0 <= c.resultId && c.config.typ == Ssl && SslLevel(c.result) <= level
  }

  ghost predicate HttpBetween(h: seq<Check>, j: int, n: nat)
    requires n <= |h|
  {
    exists k :: 0 <= k && j < k < n && h[k].config.typ == Http
  }

  /** The check at position i is an ssl check of the incident whose level had not been reached. */
  ghost predicate FirstAt(h: seq<Check>, r0: int, i: nat, level: int)
    requires i < |h|
  {
    r0 <= h[i].resultId && h[i].config.typ == Ssl && SslLevel(h[i].result) == level && NotReached(h, r0, i, level)
  }

  ghost predicate SomeFirstAt(h: seq<Check>, r0: int, level: int) {
    exists i: nat :: i < |h| && FirstAt(h, r0, i, level)
  }

  /** A failing ssl check of the open incident reaches a level for the first time since a check
      judged as http, and an earlier check had reached it for the first time before that. */
  ghost predicate Repeats(h: seq<Check>, open: Incident, c: Check) {
    && !c.result.healthy && c.config.typ == Ssl
    && NotReached(h, open.firstResultId, |h|, SslLevel(c.result))
    && SomeFirstAt(h, open.firstResultId, SslLevel(c.result))
  }

  lemma {:induction false} NotReachedSnoc(h: seq<Check>, r0: int, c: Check, level: int)
    requires r0 <= c.resultId
    ensures NotReached(h + [c], r0, |h|, level) <==> NotReached(h, r0, |h|, level)
    ensures NotReached(h + [c], r0, |h| + 1, level) <==>
      c.config.typ == Http || (NotReached(h, r0, |h|, level) && level < SslLevel(c.result))
  {
    var g, n := h + [c], |h|;
    assert g[n] == c && forall i :: 0 <= i < n ==> g[i] == h[i];
    hide SslLevel;
    forall j | 0 <= j < n
      ensures HttpBetween(g, j, n) <==> HttpBetween(h, j, n)
      ensures HttpBetween(g, j, n + 1) <==> HttpBetween(h, j, n) || c.config.typ == Http
    {
      if HttpBetween(h, j, n) {
        var k :| 0 <= k && j < k < n && h[k].config.typ == Http;
        assert g[k].config.typ == Http;
      }
      if c.config.typ == Http {
        assert g[n].config.typ == Http;
      }
    }
    assert !HttpBetween(g, n, n + 1);
  }

  lemma {:induction false} NotReachedPrefix(h: seq<Check>, r0: int, c: Check, i: nat, level: int)
    requires i <= |h|
    ensures NotReached(h + [c], r0, i, level) <==> NotReached(h, r0, i, level)
  {
    var g := h + [c];
    assert forall j :: 0 <= j < i ==> g[j] == h[j];
    hide SslLevel;
    forall j | 0 <= j < i ensures HttpBetween(g, j, i) <==> HttpBetween(h, j, i) {}
  }

  lemma {:induction false} SomeFirstSnoc(h: seq<Check>, r0: int, c: Check, level: int)
    requires r0 <= c.resultId
    ensures SomeFirstAt(h + [c], r0, level) <==>
      (SomeFirstAt(h, r0, level) || (c.config.typ == Ssl && SslLevel(c.result) == level && NotReached(h, r0, |h|, level)))
  {
    var g := h + [c];
    assert g[|h|] == c;
    NotReachedSnoc(h, r0, c, level);
    hide SslLevel, NotReached;
    forall i: nat | i < |h| ensures FirstAt(g, r0, i, level) <==> FirstAt(h, r0, i, level) {
      assert g[i] == h[i];
      NotReachedPrefix(h, r0, c, i, level);
    }
    assert FirstAt(g, r0, |h|, level) <==>
      (c.config.typ == Ssl && SslLevel(c.result) == level && NotReached(h, r0, |h|, level));
    if SomeFirstAt(h, r0, level) {
      var i: nat :| i < |h| && FirstAt(h, r0, i, level);
      assert FirstAt(g, r0, i, level);
    }
  }

  /** While an incident is open, the stored level says which levels have not been reached, and
      its warnings are the levels of the checks that reached one for the first time. */
  ghost predicate LevelsMean(h: seq<Check>, ns: seq<Notice>, db: Db) {
    Open(db).Some? ==>
      var inc := Open(db).value;
      && (forall level :: NotReached(h, inc.firstResultId, |h|, level) <==> StoredAbove(db, level))
      && (forall level :: SomeFirstAt(h, inc.firstResultId, level) <==> level in Warned(ns, inc.id))
  }

  /** The stored level lets a warning at this level through. */
  predicate StoredAbove(db: Db, level: int) {
    db.sslWarnedDays.None? || level < db.sslWarnedDays.value
  }

  lemma {:induction false} LevelsMeanOpen(h: seq<Check>, ns: seq<Notice>, db: Db, c: Check)
    requires Newer(db, c) && LevelsMean(h, ns, db) && Open(db).Some? && !c.result.healthy
    requires Open(db).value.firstResultId <= c.resultId
    ensures LevelsMean(h + [c], Announce(ns, db, Checked(c)), NextCheck(db, c))
  {
    NextNotice(db, c);
    NextIncidents(db, c);
    assert Open(NextCheck(db, c)) == Open(db);
    var inc, fired, ns' := Open(db).value, NoticeAt(db, c), Announce(ns, db, Checked(c));
    if fired.Some? {
      WarnedSnoc(ns, fired.value, inc.id);
    }
    hide NextCheck, NoticeAt, Warned, Open, SslLevel;
    forall level
      ensures NotReached(h + [c], inc.firstResultId, |h + [c]|, level) <==> StoredAbove(NextCheck(db, c), level)
      ensures SomeFirstAt(h + [c], inc.firstResultId, level) <==> level in Warned(ns', inc.id)
    {
      NotReachedSnoc(h, inc.firstResultId, c, level);
      NotReachedSnoc(h, inc.firstResultId, c, SslLevel(c.result));
      SomeFirstSnoc(h, inc.firstResultId, c, level);
      hide NotReached, SomeFirstAt;
    }
  }

  /** A check that opens an incident starts from nothing reached. */
  lemma {:induction false} LevelsMeanFresh(h: seq<Check>, ns: seq<Notice>, db: Db, c: Check)
    requires NoticesKnown(h, ns) && Newer(db, c) && Ordered(h + [c]) && Open(db).None? && !c.result.healthy
    ensures LevelsMean(h + [c], Announce(ns, db, Checked(c)), NextCheck(db, c))
  {
    hide NextCheck, NoticeAt, Warned, SslLevel, NotReached, SomeFirstAt;
    var d, ns' := NextCheck(db, c), Announce(ns, db, Checked(c));
    if Open(d).Some? {
      OpenedBy(h, ns, db, c);
      BeforeOpening(h, c);
      forall level
        ensures NotReached(h + [c], c.resultId, |h + [c]|, level) <==> StoredAbove(d, level)
        ensures SomeFirstAt(h + [c], c.resultId, level) <==> level in Warned(ns', c.incidentId)
      {
        NotReachedSnoc(h, c.resultId, c, level);
        SomeFirstSnoc(h, c.resultId, c, level);
      }
    }
  }

  /** What a check that opens an incident stores and announces. */
  lemma {:induction false} OpenedBy(h: seq<Check>, ns: seq<Notice>, db: Db, c: Check)
    requires NoticesKnown(h, ns) && Newer(db, c) && Ordered(h + [c]) && Open(db).None? && !c.result.healthy
    requires Open(NextCheck(db, c)).Some?
    ensures var d := NextCheck(db, c);
      && Open(d).value.id == c.incidentId && Open(d).value.firstResultId == c.resultId
      && d.sslWarnedDays == (if c.config.typ == Ssl then Some(SslLevel(c.result)) else None)
      && Warned(Announce(ns, db, Checked(c)), c.incidentId) == if c.config.typ == Ssl then [SslLevel(c.result)] else []
  {
    NextNotice(db, c);
    NextIncidents(db, c);
    OrderedPrefix(h, c);
    WarnedFresh(ns, c.incidentId);
    WarnedSnoc(ns, NoticeAt(db, c).value, c.incidentId);
    hide NextCheck, NoticeAt, Warned, SslLevel;
  }

  lemma BeforeOpening(h: seq<Check>, c: Check)
    requires Ordered(h + [c])
    ensures forall level :: NotReached(h, c.resultId, |h|, level) && !SomeFirstAt(h, c.resultId, level)
  {
    var g := h + [c];
    assert g[|h|] == c;
    forall i | 0 <= i < |h| ensures h[i].resultId < c.resultId {
      assert g[i] == h[i];
    }
    hide SslLevel;
  }

  /** Over any history, with any edits of type and threshold and any operator closes. */
  lemma {:induction false} LevelsMeanHistory(evs: seq<Effect>)
    requires Ordered(Checks(evs))
    ensures LevelsMean(Checks(evs), Notices(evs), Replay(evs))
  {
    if |evs| > 0 {
      var p, e := evs[..|evs| - 1], evs[|evs| - 1];
      Unfold(evs, p, e);
      hide LevelsMean, NextCheck, NoticeAt;
      if e.Checked? {
        NextIsNewer(p, e.c);
        OrderedPrefix(Checks(p), e.c);
        LevelsMeanHistory(p);
        HistoryTidy(p);
        LevelsMeanStep(Checks(p), Notices(p), Replay(p), e.c);
      } else {
        LevelsMeanHistory(p);
        LevelsMeanClose(Checks(p), Notices(p), Replay(p), e.incidentId, e.at);
      }
    }
  }

  lemma LevelsMeanClose(h: seq<Check>, ns: seq<Notice>, db: Db, id: int, at: Time)
    requires LevelsMean(h, ns, db)
    ensures LevelsMean(h, ns, ManualClose(db, id, at))
  {
    hide NotReached, SomeFirstAt, Warned;
  }

  lemma {:induction false} LevelsMeanStep(h: seq<Check>, ns: seq<Notice>, db: Db, c: Check)
    requires LevelsMean(h, ns, db) && Tidy(h, db) && NoticesKnown(h, ns) && Newer(db, c) && Ordered(h + [c])
    ensures LevelsMean(h + [c], Announce(ns, db, Checked(c)), NextCheck(db, c))
  {
    OrderedPrefix(h, c);
    if c.result.healthy {
      NextOpen(db, c);
    } else if Open(db).Some? {
      LevelsMeanOpen(h, ns, db, c);
    } else {
      LevelsMeanFresh(h, ns, db, c);
    }
    hide NextCheck, NotReached, SomeFirstAt;
  }

  /** The check passes the escalation test although the open incident has already warned at
      its level. */
  predicate Rewarns(db: Db, ns: seq<Notice>, c: Check) {
    && !c.result.healthy && c.config.typ == Ssl && Open(db).Some?
    && (db.sslWarnedDays.None? || SslLevel(c.result) < db.sslWarnedDays.value)
    && SslLevel(c.result) in Warned(ns, Open(db).value.id)
  }

  /** Unless it warns again, a check announces a key that was never announced before. */
  lemma {:induction false} FreshKey(p: seq<Effect>, c: Check, prior: Notice)
    requires Ordered(Checks(p) + [c]) && !Rewarns(Replay(p), Notices(p), c)
    requires NoticeAt(Replay(p), c).Some? && prior in Notices(p)
    ensures KeyOf(prior) != KeyOf(NoticeAt(Replay(p), c).value)
  {
    var db, ns := Replay(p), Notices(p);
    NextIsNewer(p, c);
    OrderedPrefix(Checks(p), c);
    HistoryTidy(p);
    NextNotice(db, c);
    var n := NoticeAt(db, c).value;
    hide NoticeAt, NextCheck, SslLevel, Warned;
    if n.kind == Recovery {
      assert db.incidents[|db.incidents| - 1] == Open(db).value;
      CountZero(ns, n.incidentId, Recovery);
    } else if Open(db).Some? && KeyOf(prior) == KeyOf(n) {
      WarnedMember(ns, prior);
    }
  }

  lemma RewarnsIff(p: seq<Effect>, c: Check)
    requires Ordered(Checks(p))
    ensures Rewarns(Replay(p), Notices(p), c) <==>
      Open(Replay(p)).Some? && Repeats(Checks(p), Open(Replay(p)).value, c)
  {
    LevelsMeanHistory(p);
    hide NotReached, SomeFirstAt, Warned, Replay, Notices, Checks;
  }

  /** Exactly when the next check of any history keeps the dedup keys distinct, whatever edits
      of type and threshold and whatever operator closes came before: unless it is an ssl check
      of the open incident that reaches a level an earlier check of the incident had reached,
      with a check judged as http since, and no check after that has reached it. */
  lemma {:induction false} KeysStayDistinctIff(p: seq<Effect>, c: Check)
    requires Ordered(Checks(p) + [c]) && KeysDistinct(Notices(p))
    ensures KeysDistinct(Announce(Notices(p), Replay(p), Checked(c))) <==>
      !(Open(Replay(p)).Some? && Repeats(Checks(p), Open(Replay(p)).value, c))
  {
    NextIsNewer(p, c);
    RewarnsIff(p, c);
    KeysDistinctIff(p, c);
    hide Repeats, Rewarns, Replay, Notices, Checks;
  }

  lemma {:induction false} KeysDistinctIff(p: seq<Effect>, c: Check)
    requires Ordered(Checks(p) + [c]) && KeysDistinct(Notices(p))
    ensures KeysDistinct(Announce(Notices(p), Replay(p), Checked(c))) <==> !Rewarns(Replay(p), Notices(p), c)
  {
    var db, ns := Replay(p), Notices(p);
    NextIsNewer(p, c);
    NextNotice(db, c);
    var ns' := Announce(ns, db, Checked(c));
    if Rewarns(db, ns, c) {
      var i := WarnedWitness(ns, Open(db).value.id, SslLevel(c.result));
      hide NoticeAt, NextCheck, SslLevel, Warned;
      assert KeyOf(ns'[i]) == KeyOf(ns'[|ns|]);
    } else if NoticeAt(db, c).Some? {
      forall prior | prior in ns ensures KeyOf(prior) != KeyOf(NoticeAt(db, c).value) {
        FreshKey(p, c, prior);
      }
    }
  }

  /** A monitor whose type does not change never repeats a level: nothing is judged as http
      between two of its ssl checks. */
  lemma {:induction false} FixedTypeNeverRepeats(h: seq<Check>, open: Incident, c: Check, typ: MonitorType)
    requires AllOfType(h + [c], typ)
    ensures !Repeats(h, open, c)
  {
    OfTypePrefix(h, c, typ);
    if Repeats(h, open, c) {
      var i: nat :| i < |h| && FirstAt(h, open.firstResultId, i, SslLevel(c.result));
      assert Reaches(h[i], open.firstResultId, SslLevel(c.result));
    }
  }

  /** For a monitor whose type does not change, no two notifications of its whole history
      share a dedup key. */
  lemma {:induction false} DedupKeysDistinct(evs: seq<Effect>, typ: MonitorType)
    requires Ordered(Checks(evs)) && AllOfType(Checks(evs), typ)
    ensures KeysDistinct(Notices(evs))
  {
    if |evs| > 0 {
      var p, e := evs[..|evs| - 1], evs[|evs| - 1];
      Unfold(evs, p, e);
      hide NextCheck, NoticeAt;
      if e.Checked? {
        NextIsNewer(p, e.c);
        if Open(Replay(p)).Some? {
          FixedTypeNeverRepeats(Checks(p), Open(Replay(p)).value, e.c, typ);
        }
        OfTypePrefix(Checks(p), e.c, typ);
        DedupKeysDistinct(p, typ);
        KeysStayDistinctIff(p, e.c);
      } else {
        DedupKeysDistinct(p, typ);
      }
    }
  }

  /** The restriction to a fixed type is needed: an ssl warning, a failing check after the
      monitor was edited to http (which clears the stored level), and an ssl check again
      announce the same key twice on one incident. */
  lemma TypeEditRepeatsKey() returns (evs: seq<Effect>)
    ensures Ordered(Checks(evs)) && !KeysDistinct(Notices(evs))
  {
    var ssl, http := Monitor(Ssl, 1), Monitor(Http, 1);
    var r1 := CheckResult("eu", 1, false, None, Some(1));
    var r2 := CheckResult("eu", 2, false, None, None);
    var r3 := CheckResult("eu", 3, false, None, Some(1));
    var c1, c2, c3 := Check(ssl, r1, 1, 1), Check(http, r2, 2, 2), Check(ssl, r3, 3, 3);
    var e1, e2, e3 := [Checked(c1)], [Checked(c1), Checked(c2)], [Checked(c1), Checked(c2), Checked(c3)];
    evs := e3;
    Unfold(e1, [], Checked(c1));
    Unfold(e2, e1, Checked(c2));
    Unfold(e3, e2, Checked(c3));
    NextNotice(Replay([]), c1);
    NextIncidents(Replay([]), c1);
    NextCounters(Replay([]), c1);
    NextNotice(Replay(e1), c2);
    NextIncidents(Replay(e1), c2);
    NextCounters(Replay(e1), c2);
    NextNotice(Replay(e2), c3);
    hide NextCheck, NoticeAt;
    var ns := Notices(e3);
    assert ns == [NoticeAt(Replay([]), c1).value, NoticeAt(Replay(e2), c3).value];
    assert KeyOf(ns[0]) == KeyOf(ns[1]);
  }
}
