/** What follows for tokens and logins: chains and single live tokens without overlap, when a
    revocation is final, when a token can still be rotated, and runs in which overlapping
    transactions break each of them. */
module RefreshGuarantees {
  import opened Domain
  import opened RefreshTokens
  import opened RefreshSafety

  // ---------- without overlap ----------

  /** The ids of a family among the first n rows, in order. */
  function Members(rows: seq<Row>, f: int, n: nat): seq<int>
    requires n <= |rows|
  {
    if n == 0 then []
    else if rows[n - 1].family == f then Members(rows, f, n - 1) + [n - 1]
    else Members(rows, f, n - 1)
  }

  lemma {:induction false} MembersExact(rows: seq<Row>, f: int, n: nat)
    requires n <= |rows|
    ensures forall k :: 0 <= k < |Members(rows, f, n)| ==>
      0 <= Members(rows, f, n)[k] < n && rows[Members(rows, f, n)[k]].family == f
    ensures forall k, l :: 0 <= k < l < |Members(rows, f, n)| ==> Members(rows, f, n)[k] < Members(rows, f, n)[l]
    ensures forall i :: 0 <= i < n && rows[i].family == f ==> i in Members(rows, f, n)
  {
    if n > 0 {
      MembersExact(rows, f, n - 1);
      assert rows[n - 1].family == f ==> Members(rows, f, n)[|Members(rows, f, n - 1)|] == n - 1;
    }
  }

  /** Without overlap a family is a single chain: read in order of creation its tokens start at
      the root, each has been replaced by the next and by nothing else, and the newest has not
      been replaced. */
  lemma {:induction false} FamilyIsChain(s: State, f: int)
    requires Reachable(s) && IsFamily(s.rows, f) && NoOverlap(s, f)
    ensures var ms := Members(s.rows, f, |s.rows|);
      && |ms| > 0 && ms[0] == f
      && (forall k :: 0 <= k < |ms| ==> 0 <= ms[k] < |s.rows| && (k > 0 ==> ms[k - 1] < ms[k]))
      && (forall k :: 0 <= k < |ms| - 1 ==> s.rows[ms[k]].replacedBy == Some(ms[k + 1]))
      && s.rows[ms[|ms| - 1]].replacedBy == None
  {
    hide Members, Reachable, NoOverlap, Sound, NextOk, Inv;
    NoOverlapIsSound(s, f);
    var rows, ms := s.rows, Members(s.rows, f, |s.rows|);
    MembersExact(rows, f, |rows|);
    assert f in ms;
    ChainEnds(s, ms, f);
    forall k | 0 <= k < |ms| - 1 ensures rows[ms[k]].replacedBy == Some(ms[k + 1]) {
      ChainNext(rows, ms, k, f);
    }
  }

  lemma {:induction false} ChainEnds(s: State, ms: seq<int>, f: int)
    requires Inv(s) && Sound(s.rows, f) && |ms| > 0 && IsFamily(s.rows, f) && f in ms
    requires forall j :: 0 <= j < |ms| ==> 0 <= ms[j] < |s.rows| && s.rows[ms[j]].family == f
    requires forall j, l :: 0 <= j < l < |ms| ==> ms[j] < ms[l]
    requires forall i :: 0 <= i < |s.rows| && s.rows[i].family == f ==> i in ms
    ensures ms[0] == f && s.rows[ms[|ms| - 1]].replacedBy == None
  {
    hide Inv, NextOk;
    FamilyUser(s, f, ms[0]);
    var last := ms[|ms| - 1];
    EndsInOrder(ms, f);
    if s.rows[last].replacedBy.Some? {
      PointsLater(s.rows, last);
      EndsInOrder(ms, s.rows[last].replacedBy.value);
    }
  }

  lemma EndsInOrder(ms: seq<int>, x: int)
    requires x in ms && forall j, l :: 0 <= j < l < |ms| ==> ms[j] < ms[l]
    ensures ms[0] <= x <= ms[|ms| - 1]
  {
    var l :| 0 <= l < |ms| && ms[l] == x;
  }

  lemma PointsLater(rows: seq<Row>, i: int)
    requires 0 <= i < |rows| && NextOk(rows, i) && rows[i].replacedBy.Some?
    ensures var j := rows[i].replacedBy.value; i < j < |rows| && rows[j].family == rows[i].family
  {}

  /** In a growing sequence what is larger than one element is at least the next. */
  lemma NextInOrder(ms: seq<int>, k: nat, x: int)
    requires k < |ms| - 1 && x in ms && ms[k] < x
    requires forall j, l :: 0 <= j < l < |ms| ==> ms[j] < ms[l]
    ensures ms[k + 1] <= x
  {
    var l :| 0 <= l < |ms| && ms[l] == x;
  }

  lemma PointsToNext(rows: seq<Row>, i: int, next: int)
    requires 0 <= i < next < |rows| && rows[next].family == rows[i].family && NextOk(rows, i)
    ensures rows[i].replacedBy.Some?
    ensures var j := rows[i].replacedBy.value; i < j <= next && rows[j].family == rows[i].family
  {}

  lemma {:induction false} ChainNext(rows: seq<Row>, ms: seq<int>, k: nat, f: int)
    requires IsFamily(rows, f) && Sound(rows, f) && k < |ms| - 1
    requires forall j :: 0 <= j < |ms| ==> 0 <= ms[j] < |rows| && rows[ms[j]].family == f
    requires forall j, l :: 0 <= j < l < |ms| ==> ms[j] < ms[l]
    requires forall i :: 0 <= i < |rows| && rows[i].family == f ==> i in ms
    ensures rows[ms[k]].replacedBy == Some(ms[k + 1])
  {
    hide NextOk;
    PointsToNext(rows, ms[k], ms[k + 1]);
    NextInOrder(ms, k, rows[ms[k]].replacedBy.value);
  }

  /** Without overlap at most one token of a family is neither replaced nor revoked. */
  lemma AtMostOneLive(s: State, i: int, k: int)
    requires Reachable(s) && 0 <= i < |s.rows| && 0 <= k < |s.rows| && IsFamily(s.rows, s.rows[i].family)
    requires s.rows[i].family == s.rows[k].family && NoOverlap(s, s.rows[i].family) && Live(s.rows[i]) && Live(s.rows[k])
    ensures i == k
  {
    NoOverlapIsSound(s, s.rows[i].family);
    assert NextOk(s.rows, i) && NextOk(s.rows, k);
    hide Inv, NoOverlap, Reachable;
  }

  /** Without overlap each token has at most one successor, however many calls presented it,
      and points to it. */
  lemma AtMostOneSuccessor(s: State, n: nat, m: nat)
    requires Reachable(s) && n < |s.rotations| && m < |s.rotations| && n != m
    requires NoOverlap(s, s.rotations[n].family)
    ensures s.rotations[n].parent != s.rotations[m].parent
    ensures var r := s.rotations[n];
      && 0 <= r.parent < r.child < |s.rows| && s.rows[r.parent].replacedBy == Some(r.child)
      && s.rows[r.child].user == s.rows[r.parent].user
  {
    ReachableHasInv(s);
    var r := s.rotations[n];
    assert RotationOk(s.rows, r, s.clock) && RowOk(s.rows, r.parent, s.clock) && RowOk(s.rows, r.child, s.clock);
    forall k: nat | k < |s.rotations| && k != n ensures s.rotations[k].parent != r.parent {
      RotatedOnce(s, n, k);
    }
    assert Rotated(s.rotations, r.parent, s.rows[r.parent].replacedBy.value);
    hide NoOverlap, Reachable, RowsOk, RotationsOk, CallsOk, PendingFresh, HashesDistinct;
  }

  lemma RotatedOnce(s: State, n: nat, m: nat)
    requires Inv(s) && n < |s.rotations| && m < |s.rotations| && n != m && NoOverlap(s, s.rotations[n].family)
    ensures s.rotations[n].parent != s.rotations[m].parent
  {
    var a, b, f := s.rotations[if n < m then n else m], s.rotations[if n < m then m else n], s.rotations[n].family;
    assert RotationOk(s.rows, a, s.clock) && RotationOk(s.rows, b, s.clock) && PairOk(a, b);
    assert RotateSame(a, b, f) <==> a.parent == b.parent;
  }

  // ---------- when a revocation is final ----------

  ghost predicate AllRevoked(rows: seq<Row>, f: int) {
    forall i :: 0 <= i < |rows| && rows[i].family == f ==> rows[i].revoked.Some?
  }

  /** Some transaction has selected a token of the family and not yet committed. */
  ghost predicate InFlight(s: State, f: int) {
    exists c :: c in s.calls && Adding(s.calls[c]) == Some(f)
  }

  /** Whatever runs next, no rotation in the family succeeds and no token of it is usable. */
  ghost predicate Permanent(s: State, f: int) {
    forall more :: Exec(s, more).Some? ==> Ended(s, Exec(s, more).value, f)
  }

  ghost predicate Ended(s: State, s': State, f: int) {
    AllRevoked(s'.rows, f) && NoneOf(s.rotations, s'.rotations, f)
  }

  lemma {:induction false} RevokedStays(s: State, e: Event, f: int)
    requires Inv(s) && Step(s, e).Some? && AllRevoked(s.rows, f) && e.RevokeWrite?
    ensures Ended(s, Step(s, e).value, f)
  {
    hide Inv, Step;
    RevokeShape(s, e);
    var c, rows' := s.calls[e.call], Step(s, e).value.rows;
    forall i | 0 <= i < |rows'| && rows'[i].family == f ensures rows'[i].revoked.Some? {
      assert s.rows[i].family == f;
    }
  }

  lemma SameRevoked(rows: seq<Row>, rows': seq<Row>, f: int)
    requires SameFamily(rows, rows', f) && AllRevoked(rows, f)
    ensures AllRevoked(rows', f)
  {}

  lemma {:induction false} EndedStep(s: State, e: Event, f: int)
    requires Inv(s) && Step(s, e).Some? && IsFamily(s.rows, f) && AllRevoked(s.rows, f) && !InFlight(s, f)
    ensures var s' := Step(s, e).value;
      IsFamily(s'.rows, f) && Ended(s, s', f) && !InFlight(s', f)
  {
    var s' := Step(s, e).value;
    hide Inv, Step, NoneOf, SameFamily;
    RootRevoked(s, e, f);
    if e.RevokeWrite? {
      RevokedStays(s, e, f);
    } else {
      NotTouched(s, e, f);
      UntouchedFamily(s, e, f);
      SameRevoked(s.rows, s'.rows, f);
    }
    forall c | c in s'.calls && Adding(s'.calls[c]) == Some(f) ensures false {
      AddingStep(s, e, c, f);
    }
  }

  /** Nothing in flight on the family commits in it, and a family is rooted once. */
  lemma NotTouched(s: State, e: Event, f: int)
    requires Step(s, e).Some? && IsFamily(s.rows, f) && !InFlight(s, f) && !e.RevokeWrite?
    ensures !Touches(s, e, f)
  {
    if e.RotateCommit? && e.call in s.calls && s.calls[e.call].Inserted? {
      assert Adding(s.calls[e.call]) == Some(s.calls[e.call].row.family);
    }
    hide Lookup, Fresh, Succeed;
  }

  lemma {:induction false} EndedForGood(s: State, f: int, more: seq<Event>)
    requires Inv(s) && IsFamily(s.rows, f) && AllRevoked(s.rows, f) && !InFlight(s, f) && Exec(s, more).Some?
    ensures var s' := Exec(s, more).value;
      Inv(s') && IsFamily(s'.rows, f) && Ended(s, s', f) && !InFlight(s', f)
    decreases |more|
  {
    hide Inv, Step, InFlight;
    if |more| > 0 {
      var q, e := Exec(s, more[..|more| - 1]).value, more[|more| - 1];
      EndedForGood(s, f, more[..|more| - 1]);
      StepKeepsInv(q, e);
      EndedStep(q, e, f);
      hide AllRevoked;
    }
  }

  lemma FreshHash(s: State) returns (h: Hash)
    ensures Fresh(s, h)
  {
    var used := set i | 0 <= i < |s.rows| :: s.rows[i].hash;
    var pending := set c | c in s.calls && s.calls[c].Inserted? :: s.calls[c].row.hash;
    h := Beyond(used + pending);
    forall i | 0 <= i < |s.rows| ensures s.rows[i].hash != h {
      assert s.rows[i].hash in used + pending;
    }
    forall c | c in s.calls && s.calls[c].Inserted? ensures s.calls[c].row.hash != h {
      assert s.calls[c].row.hash in used + pending;
    }
    hide Lookup;
  }

  /** A transaction past its select can always go on to commit. */
  lemma {:induction false} CanInsert(s: State, c: int) returns (e: Event)
    requires Inv(s) && c in s.calls && s.calls[c].Selected?
    ensures Step(s, e).Some?
    ensures var s' := Step(s, e).value;
      && Inv(s') && s'.rows == s.rows && s'.rotations == s.rotations && c in s'.calls && s'.calls[c].Inserted?
      && s'.calls[c].hash == s.calls[c].hash && s'.calls[c].checkedAt == s.calls[c].checkedAt
      && s'.calls[c].row.family == s.calls[c].family
  {
    hide Inv, Lookup, Fresh, After, Presents, Step;
    CallPresents(s, c);
    var h := FreshHash(s);
    e := RotateInsert(c, h);
    InsertShape(s, c, h);
    StepKeepsInv(s, e);
  }

  lemma InsertShape(s: State, c: int, h: Hash)
    requires c in s.calls && s.calls[c].Selected? && Lookup(s.rows, s.calls[c].hash).Some? && Fresh(s, h)
    ensures Step(s, RotateInsert(c, h)).Some?
    ensures var s' := Step(s, RotateInsert(c, h)).value;
      && s'.rows == s.rows && s'.rotations == s.rotations && c in s'.calls && s'.calls[c].Inserted?
      && s'.calls[c].hash == s.calls[c].hash && s'.calls[c].checkedAt == s.calls[c].checkedAt
      && s'.calls[c].row.family == s.calls[c].family
  {
    hide Lookup, Fresh;
  }

  lemma {:induction false} CanCommit(s: State, c: int, f: int, now: Time) returns (more: seq<Event>)
    requires Inv(s) && c in s.calls && Adding(s.calls[c]) == Some(f)
    ensures Exec(s, more).Some?
    ensures var s' := Exec(s, more).value;
      && |s'.rotations| == |s.rotations| + 1
      && var r := s'.rotations[|s.rotations|];
      && r.family == f && r.checkedAt == s.calls[c].checkedAt && r.writtenAt == now
      && Lookup(s.rows, s.calls[c].hash) == Some(r.parent)
  {
    var go, q := [], s;
    if s.calls[c].Selected? {
      var e := CanInsert(s, c);
      Extend(s, [], s, e);
      q, go := Step(s, e).value, [] + [e];
    }
    hide Exec, Step;
    var e := RotateCommit(c, now);
    CommitsAt(q, c, now);
    Extend(s, go, q, e);
    more := go + [e];
    hide Inv;
  }

  lemma {:induction false} CommitsAt(s: State, c: int, now: Time)
    requires Inv(s) && c in s.calls && s.calls[c].Inserted?
    ensures Step(s, RotateCommit(c, now)).Some?
    ensures var s' := Step(s, RotateCommit(c, now)).value;
      && |s'.rotations| == |s.rotations| + 1
      && var r := s'.rotations[|s.rotations|];
      && r.family == s.calls[c].row.family && r.checkedAt == s.calls[c].checkedAt && r.writtenAt == now
      && Lookup(s.rows, s.calls[c].hash) == Some(r.parent)
  {
    hide Inv, Lookup, After, Presents, Step;
    CallPresents(s, c);
    CommitAdds(s, c, now);
  }

  lemma CommitAdds(s: State, c: int, now: Time)
    requires c in s.calls && s.calls[c].Inserted? && Lookup(s.rows, s.calls[c].hash).Some?
    ensures Step(s, RotateCommit(c, now)).Some?
    ensures var s', p := Step(s, RotateCommit(c, now)).value, Lookup(s.rows, s.calls[c].hash).value;
      s'.rotations == s.rotations +
        [Rotation(p, |s.rows|, s.calls[c].row.family, s.calls[c].checkedAt, now, Span(s.calls[c].since, s.clock))]
  {
    hide Lookup, Succeed;
  }

  /** A family whose tokens are all revoked stays that way, whatever runs next, if and only if
      no transaction has already selected one of them. */
  lemma {:induction false} PermanentIff(s: State, f: int)
    requires Reachable(s) && IsFamily(s.rows, f) && AllRevoked(s.rows, f)
    ensures Permanent(s, f) <==> !InFlight(s, f)
  {
    ReachableHasInv(s);
    hide Inv, Reachable;
    if InFlight(s, f) {
      var c :| c in s.calls && Adding(s.calls[c]) == Some(f);
      var more := CanCommit(s, c, f, 0);
      assert !Ended(s, Exec(s, more).value, f);
    } else {
      forall more | Exec(s, more).Some? ensures Ended(s, Exec(s, more).value, f) {
        EndedForGood(s, f, more);
      }
    }
  }

  /** The statement that reuse detection, logout and log-out-all come down to: the scan of f's
      rows and their revocation. */
  ghost predicate StartsRevoking(s: State, e: Event, f: int) {
    && IsFamily(s.rows, f)
    && (|| (e.RevokeScan? && e.call in s.calls && s.calls[e.call] == Revoking(f))
        || (e.RevokeAllScan? && e.call !in s.calls && e.user == s.rows[f].user))
  }

  lemma ScanShape(s: State, e: Event, f: int)
    requires StartsRevoking(s, e, f)
    ensures Step(s, e).Some?
    ensures var q := Step(s, e).value;
      && q.rows == s.rows && q.rotations == s.rotations && e.call in q.calls && q.calls[e.call].Scanned?
      && q.calls[e.call].visible == |s.rows|
      && (q.calls[e.call].scope == OfFamily(f) || q.calls[e.call].scope == OfUser(s.rows[f].user))
      && q.calls - {e.call} == s.calls - {e.call} && (e.call in s.calls ==> Adding(s.calls[e.call]) == None)
  {}

  /** A write that sees every row revokes the whole family. */
  lemma {:induction false} WritesAll(s: State, q: State, call: int, f: int)
    requires Inv(s) && IsFamily(s.rows, f) && q.rows == s.rows && call in q.calls && q.calls[call].Scanned?
    requires q.calls[call].visible == |s.rows|
    requires q.calls[call].scope == OfFamily(f) || q.calls[call].scope == OfUser(s.rows[f].user)
    ensures Step(q, RevokeWrite(call)).Some?
    ensures var s' := Step(q, RevokeWrite(call)).value;
      AllRevoked(s'.rows, f) && IsFamily(s'.rows, f) && s'.calls == q.calls - {call} && s'.rotations == q.rotations
  {
    hide Inv;
    forall i | 0 <= i < |s.rows| && s.rows[i].family == f ensures s.rows[i].user == s.rows[f].user {
      FamilyUser(s, f, i);
    }
  }

  lemma {:induction false} RevokeRun(s: State, e: Event, f: int) returns (s': State)
    requires Inv(s) && StartsRevoking(s, e, f)
    ensures Exec(s, [e, RevokeWrite(e.call)]) == Some(s')
    ensures IsFamily(s'.rows, f) && AllRevoked(s'.rows, f) && (InFlight(s', f) <==> InFlight(s, f))
    ensures s'.rotations == s.rotations
  {
    hide Inv, Step, AllRevoked;
    ScanShape(s, e, f);
    var q, w := Step(s, e).value, RevokeWrite(e.call);
    WritesAll(s, q, e.call, f);
    s' := Step(q, w).value;
    Extend(s, [], s, e);
    assert [] + [e] == [e];
    Extend(s, [e], q, w);
    assert [e] + [w] == [e, w];
    hide Exec;
    assert s'.calls == s.calls - {e.call};
    if InFlight(s, f) {
      var c :| c in s.calls && Adding(s.calls[c]) == Some(f);
      assert c in s'.calls;
    }
  }

  lemma {:induction false} ReachableThen(s: State, more: seq<Event>, s': State)
    requires Reachable(s) && Exec(s, more) == Some(s')
    ensures Reachable(s')
    decreases |more|
  {
    if |more| > 0 {
      var q := Exec(s, more[..|more| - 1]).value;
      ReachableThen(s, more[..|more| - 1], q);
      var run :| Exec(EMPTY, run) == Some(q);
      Extend(EMPTY, run, q, more[|more| - 1]);
    }
  }

  /** A revocation is final if and only if no transaction has selected a token of the family
      and not yet committed when it runs. */
  lemma {:induction false} RevocationIsFinalIff(s: State, e: Event, f: int)
    requires Reachable(s) && StartsRevoking(s, e, f)
    ensures Exec(s, [e, RevokeWrite(e.call)]).Some?
    ensures var s' := Exec(s, [e, RevokeWrite(e.call)]).value;
      AllRevoked(s'.rows, f) && (Permanent(s', f) <==> !InFlight(s, f))
  {
    ReachableHasInv(s);
    var s' := RevokeRun(s, e, f);
    ReachableThen(s, [e, RevokeWrite(e.call)], s');
    PermanentIff(s', f);
    hide Reachable, Inv, Exec, Permanent, InFlight;
  }

  /** A revocation touches nothing else: a row of another family, or of another user for
      log-out-everywhere, is left as it is, and no row is changed but by stamping it. */
  lemma RevocationSparesOthers(s: State, e: Event, i: int)
    requires Step(s, e).Some? && e.RevokeWrite? && 0 <= i < |s.rows|
    ensures var s' := Step(s, e).value;
      && s'.rotations == s.rotations && |s'.rows| == |s.rows|
      && (match s.calls[e.call].scope
          case OfFamily(f) => s.rows[i].family != f ==> s'.rows[i] == s.rows[i]
          case OfUser(u) => s.rows[i].user != u ==> s'.rows[i] == s.rows[i])
      && s'.rows[i] == s.rows[i].(revoked := s'.rows[i].revoked)
  {}

  // ---------- when a token can still be rotated ----------

  /** Some continuation rotates row i, with its check and its commit at the given times. */
  ghost predicate Rotatable(s: State, i: int, check: Time, write: Time) {
    exists more :: Exec(s, more).Some? && RotatedAt(s, Exec(s, more).value, i, check, write)
  }

  ghost predicate RotatedAt(s: State, s': State, i: int, check: Time, write: Time) {
    exists n :: |s.rotations| <= n < |s'.rotations|
      && s'.rotations[n].parent == i && s'.rotations[n].checkedAt == check && s'.rotations[n].writtenAt == write
  }

  lemma {:induction false} CanRead(s: State, i: int, now: Time) returns (call: int, s': State)
    requires Inv(s) && 0 <= i < |s.rows| && s.rows[i].family != UNROOTED && Live(s.rows[i])
    requires now < s.rows[i].issuedAt + REFRESH_TTL
    ensures call !in s.calls && Step(s, RotateRead(call, s.rows[i].hash, now)) == Some(s')
    ensures s' == s.(calls := s.calls[call := Ready(s.rows[i].hash, s.rows[i].family, now)], clock := s.clock + 1)
  {
    call := Beyond(s.calls.Keys);
    LookupIs(s.rows, i);
    assert RowOk(s.rows, i, s.clock);
    hide Inv, Lookup;
    s' := Step(s, RotateRead(call, s.rows[i].hash, now)).value;
  }

  lemma {:induction false} CanSelect(s: State, i: int, call: int) returns (s': State)
    requires Inv(s) && 0 <= i < |s.rows| && Live(s.rows[i])
    requires call in s.calls && s.calls[call].Ready? && s.calls[call].hash == s.rows[i].hash
    ensures Step(s, RotateSelect(call)) == Some(s') && s'.rows == s.rows && s'.rotations == s.rotations
    ensures call in s'.calls && Adding(s'.calls[call]) == Some(s.rows[i].family)
    ensures s'.calls[call].hash == s.rows[i].hash && s'.calls[call].checkedAt == s.calls[call].checkedAt
  {
    LookupIs(s.rows, i);
    hide Inv, Lookup;
    s' := Step(s, RotateSelect(call)).value;
  }

  lemma {:induction false} Concat(s: State, a: seq<Event>, q: State, b: seq<Event>)
    requires Exec(s, a) == Some(q)
    ensures Exec(s, a + b) == Exec(q, b)
    decreases |b|
  {
    if |b| == 0 {
      assert a + b == a;
    } else {
      Concat(s, a, q, b[..|b| - 1]);
      assert (a + b)[..|a + b| - 1] == a + b[..|b| - 1];
    }
  }

  lemma {:induction false} RotatesIfChecked(s: State, i: int, check: Time, write: Time) returns (more: seq<Event>)
    requires Reachable(s) && 0 <= i < |s.rows| && s.rows[i].family != UNROOTED && Live(s.rows[i])
    requires check < s.rows[i].issuedAt + REFRESH_TTL
    ensures Exec(s, more).Some? && RotatedAt(s, Exec(s, more).value, i, check, write)
  {
    ReachableHasInv(s);
    var call, s1 := CanRead(s, i, check);
    var e1, e2 := RotateRead(call, s.rows[i].hash, check), RotateSelect(call);
    StepKeepsInv(s, e1);
    var s2 := CanSelect(s1, i, call);
    StepKeepsInv(s1, e2);
    LookupIs(s2.rows, i);
    hide Step, Inv, Lookup;
    Extend(s, [], s, e1);
    Extend(s, [] + [e1], s1, e2);
    var rest := CanCommit(s2, call, s.rows[i].family, write);
    Concat(s, [] + [e1] + [e2], s2, rest);
    more := [] + [e1] + [e2] + rest;
    hide Exec;
    var s' := Exec(s2, rest).value;
    assert s'.rotations[|s.rotations|].parent == i;
  }

  /** The expiry bounds the check and not the commit: a live token can still be rotated with a
      given check and commit time if and only if the check comes before the login plus 30
      days. */
  lemma {:induction false} RotatableIff(s: State, i: int, check: Time, write: Time)
    requires Reachable(s) && 0 <= i < |s.rows| && s.rows[i].family != UNROOTED && Live(s.rows[i])
    ensures Rotatable(s, i, check, write) <==> check < s.rows[i].issuedAt + REFRESH_TTL
  {
    if check < s.rows[i].issuedAt + REFRESH_TTL {
      var more := RotatesIfChecked(s, i, check, write);
    }
    if Rotatable(s, i, check, write) {
      var more :| Exec(s, more).Some? && RotatedAt(s, Exec(s, more).value, i, check, write);
      var s' := Exec(s, more).value;
      var n :| |s.rotations| <= n < |s'.rotations| && s'.rotations[n].parent == i && s'.rotations[n].checkedAt == check;
      ReachableThen(s, more, s');
      RotationsBeforeExpiry(s', n);
      RowsKept(s, more, s');
      ReachableHasInv(s');
      assert RotationOk(s'.rows, s'.rotations[n], s'.clock) && RowOk(s'.rows, i, s'.clock);
      hide Inv, Exec, Reachable;
    }
  }

  lemma {:induction false} StepExtends(s: State, e: Event)
    requires Inv(s) && Step(s, e).Some?
    ensures Extends(s.rows, Step(s, e).value.rows)
  {
    hide Inv, Step, Extends, RowsOk, HashesDistinct, SamePointers, Succeed, RevokeRows, Unused, Fresh, After;
    if !Writes(e) {
      ReadOnly(s, e);
      SameExtends(s.rows);
    } else {
      InvRows(s);
      if e.RotateCommit? {
        var p, r := CommitShape(s, e);
        PendingUnused(s, e.call);
        CommitRows(s, p, s.calls[e.call].row);
      } else if e.RevokeWrite? {
        RevokeShape(s, e);
        ScannedOk(s, e.call);
        var c := s.calls[e.call];
        RowsAfterRevoke(s.rows, c.scope, c.visible, Span(c.since, s.clock), s.clock);
      } else if e.IssueRoot? {
        RootShape(s, e);
        RowsAfterRoot(s.rows, e.id, s.clock);
      } else {
        IssueShape(s, e);
        RowsAfterIssue(s.rows, Row(e.user, e.hash, UNROOTED, e.now + REFRESH_TTL, None, None, e.now), s.clock);
      }
    }
  }

  lemma SameExtends(rows: seq<Row>)
    ensures Extends(rows, rows)
  {}

  /** Rows stay, with their owner and login time. */
  lemma {:induction false} RowsKept(s: State, more: seq<Event>, s': State)
    requires Reachable(s) && Exec(s, more) == Some(s')
    ensures Extends(s.rows, s'.rows)
    decreases |more|
  {
    if |more| > 0 {
      var p, e := more[..|more| - 1], more[|more| - 1];
      var q := Exec(s, p).value;
      RowsKept(s, p, q);
      ReachableThen(s, p, q);
      ReachableHasInv(q);
      StepExtends(q, e);
      hide Inv, Step, Reachable;
      ExtendsTwice(s.rows, q.rows, s'.rows);
    }
  }

  // ---------- runs that break the guarantees ----------

  /** One login at time 0, with token 1. */
  const LOGIN: State := State([Row(7, 1, 0, REFRESH_TTL, None, None, 0)], map[], [], 2)
  const LOGGING_IN: seq<Event> := [] + [IssueInsert(7, 1, 0)] + [IssueRoot(0)]

  lemma LoggedIn()
    ensures Exec(EMPTY, LOGGING_IN) == Some(LOGIN) && Reachable(LOGIN)
  {
    var e1, e2 := IssueInsert(7, 1, 0), IssueRoot(0);
    var s1 := State([Row(7, 1, UNROOTED, REFRESH_TTL, None, None, 0)], map[], [], 1);
    Unknown([], 1);
    hide Lookup;
    assert EMPTY.rows + s1.rows == s1.rows;
    Extend(EMPTY, [], EMPTY, e1);
    Extend(EMPTY, [] + [e1], s1, e2);
    assert s1.rows[0 := s1.rows[0].(family := 0)] == LOGIN.rows;
    hide Exec;
  }

  /** A call that passes its check just before the expiry and is then delayed rotates after it. */
  lemma LateWriteStillRotates() returns (run: seq<Event>)
    ensures Exec(EMPTY, run).Some?
    ensures var s := Exec(EMPTY, run).value;
      exists n :: 0 <= n < |s.rotations| && IsFamily(s.rows, s.rotations[n].family)
        && s.rotations[n].writtenAt >= s.rows[s.rotations[n].family].issuedAt + REFRESH_TTL
  {
    LoggedIn();
    var more := RotatesIfChecked(LOGIN, 0, REFRESH_TTL - 1, REFRESH_TTL);
    var s := Exec(LOGIN, more).value;
    Concat(EMPTY, LOGGING_IN, LOGIN, more);
    run := LOGGING_IN + more;
    RowsKept(LOGIN, more, s);
    ReachableThen(LOGIN, more, s);
    hide Exec, Reachable;
    var n :| 0 <= n < |s.rotations| && s.rotations[n].parent == 0 && s.rotations[n].writtenAt == REFRESH_TTL;
    ReachableHasInv(s);
    assert RotationOk(s.rows, s.rotations[n], s.clock) && Succeeds(LOGIN.rows[0], s.rows[0]);
  }

  lemma Unknown(rows: seq<Row>, hash: Hash)
    requires Unused(rows, hash)
    ensures Lookup(rows, hash).None?
  {
    hide Lookup;
  }

  function Token(hash: Hash): Row {
    Row(7, hash, 0, REFRESH_TTL, None, None, 0)
  }

  /** A call has selected token 1. */
  const ONE_SELECTED: State := State([Token(1)], map[5 := Selected(1, 7, 0, 0, 3)], [], 4)

  lemma OneSelects() returns (run: seq<Event>)
    ensures Exec(EMPTY, run) == Some(ONE_SELECTED)
  {
    LoggedIn();
    var e1, e2 := RotateRead(5, 1, 0), RotateSelect(5);
    var s1 := LOGIN.(calls := LOGIN.calls[5 := Ready(1, 0, 0)], clock := 3);
    LookupIs(LOGIN.rows, 0);
    hide Lookup, Exec;
    Extend(EMPTY, LOGGING_IN, LOGIN, e1);
    Extend(EMPTY, LOGGING_IN + [e1], s1, e2);
    assert s1.calls[5 := Selected(1, 7, 0, 0, 3)] == ONE_SELECTED.calls;
    run := LOGGING_IN + [e1] + [e2];
  }

  /** Two calls have selected token 1. */
  const BOTH_SELECTED: State :=
    State([Token(1)], map[5 := Selected(1, 7, 0, 0, 3), 6 := Selected(1, 7, 0, 0, 5)], [], 6)

  lemma BothSelect() returns (run: seq<Event>)
    ensures Exec(EMPTY, run) == Some(BOTH_SELECTED)
  {
    run := OneSelects();
    var s, e1, e2 := ONE_SELECTED, RotateRead(6, 1, 0), RotateSelect(6);
    var s1 := s.(calls := s.calls[6 := Ready(1, 0, 0)], clock := 5);
    LookupIs(s.rows, 0);
    hide Lookup, Exec;
    Extend(EMPTY, run, s, e1);
    Extend(EMPTY, run + [e1], s1, e2);
    assert s1.calls[6 := Selected(1, 7, 0, 0, 5)] == BOTH_SELECTED.calls;
    run := run + [e1] + [e2];
  }

  lemma BothInsert() returns (run: seq<Event>, s: State)
    ensures Exec(BOTH_SELECTED, run) == Some(s)
    ensures s == State([Token(1)], map[5 := Inserted(1, Token(2), 0, 3), 6 := Inserted(1, Token(3), 0, 5)], [], 8)
  {
    var e1, e2, b := RotateInsert(5, 2), RotateInsert(6, 3), BOTH_SELECTED;
    var s1 := b.(calls := b.calls[5 := Inserted(1, Token(2), 0, 3)], clock := 7);
    s := s1.(calls := s1.calls[6 := Inserted(1, Token(3), 0, 5)], clock := 8);
    LookupIs(b.rows, 0);
    Unknown(b.rows, 2);
    Unknown(b.rows, 3);
    Extend(b, [], b, e1);
    hide Lookup, Exec;
    Extend(b, [] + [e1], s1, e2);
    run := [] + [e1] + [e2];
  }

  /** Two requests present one token, and both select before either commits: the family forks
      into two usable tokens, and no reuse is detected. */
  lemma OverlapForksFamily() returns (run: seq<Event>, s: State)
    ensures Exec(EMPTY, run) == Some(s)
    ensures |s.rows| == 3 && IsFamily(s.rows, 0) && s.rows[1].family == s.rows[2].family == 0
    ensures Live(s.rows[1]) && Live(s.rows[2]) && s.calls == map[]
  {
    run := BothSelect();
    var more, q := BothInsert();
    var e1, e2 := RotateCommit(5, 0), RotateCommit(6, 0);
    var a, b := Rotation(0, 1, 0, 0, 0, Span(3, 8)), Rotation(0, 2, 0, 0, 0, Span(5, 9));
    var s1 := State(Succeed(q.rows, 0, Token(2)), q.calls - {5}, q.rotations + [a], 9);
    s := State(Succeed(s1.rows, 0, Token(3)), s1.calls - {6}, s1.rotations + [b], 10);
    LookupIs(q.rows, 0);
    LookupIs(s1.rows, 0);
    hide Lookup, Exec;
    Concat(EMPTY, run, BOTH_SELECTED, more);
    Extend(EMPTY, run + more, q, e1);
    Extend(EMPTY, run + more + [e1], s1, e2);
    run := run + more + [e1] + [e2];
  }

  /** A call has selected token 1, and the logout of another has revoked it. */
  const REVOKED_UNDER: State :=
    State([Token(1).(revoked := Some(Span(5, 6)))], map[5 := Selected(1, 7, 0, 0, 3)], [], 7)

  lemma RevokedUnder() returns (run: seq<Event>)
    ensures Exec(EMPTY, run) == Some(REVOKED_UNDER)
  {
    run := OneSelects();
    var s, e1, e2, e3 := ONE_SELECTED, LogoutRead(6, 1), RevokeScan(6), RevokeWrite(6);
    var s1 := s.(calls := s.calls[6 := Revoking(0)], clock := 5);
    var s2 := s1.(calls := s1.calls[6 := Scanned(OfFamily(0), 1, 5)], clock := 6);
    LookupIs(s.rows, 0);
    assert RevokeRows(s.rows, OfFamily(0), 1, Span(5, 6)) == REVOKED_UNDER.rows;
    assert s2.calls - {6} == REVOKED_UNDER.calls;
    hide Lookup, Exec, RevokeRows;
    Extend(EMPTY, run, s, e1);
    Extend(EMPTY, run + [e1], s1, e2);
    Extend(EMPTY, run + [e1] + [e2], s2, e3);
    run := run + [e1] + [e2] + [e3];
  }

  /** A logout that runs between a rotation's select and its commit revokes what it sees, and
      the successor is usable afterwards. */
  lemma RevocationMissesSuccessor() returns (run: seq<Event>, s: State)
    ensures Exec(EMPTY, run) == Some(s)
    ensures |s.rows| == 2 && IsFamily(s.rows, 0) && s.rows[0].revoked.Some?
    ensures s.rows[1].family == 0 && Live(s.rows[1]) && s.calls == map[]
  {
    run := RevokedUnder();
    var q, e1, e2 := REVOKED_UNDER, RotateInsert(5, 2), RotateCommit(5, 0);
    var s1 := q.(calls := q.calls[5 := Inserted(1, Token(2), 0, 3)], clock := 8);
    s := State(Succeed(q.rows, 0, Token(2)), s1.calls - {5}, q.rotations + [Rotation(0, 1, 0, 0, 0, Span(3, 8))], 9);
    LookupIs(q.rows, 0);
    Unknown(q.rows, 2);
    hide Lookup, Exec;
    Extend(EMPTY, run, q, e1);
    Extend(EMPTY, run + [e1], s1, e2);
    run := run + [e1] + [e2];
  }
}
