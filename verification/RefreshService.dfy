/** The service's methods (internal/authn/refresh.go), statement by statement over the token
    table, with other requests acting between any two statements. */
module RefreshService {
  import opened Domain
  import opened RefreshTokens
  import opened RefreshSafety
  import opened RefreshGuarantees

  datatype RotateResult =
    | Rotated(hash: Hash, user: int, family: int, expires: Time)
    | Invalid
    | ReuseDetected
    | StoreError

  /** What goes wrong during one call: its lookup, the first, second or third step of its
      transaction, the reply to its commit, its revoking statement. */
  datatype Faults = Faults(lookup: bool, transaction: int, commitReply: bool, revoke: bool)

  predicate TransactionFails(f: Faults) {
    1 <= f.transaction <= 3 || f.commitReply
  }

  /** The newest rotation replaced the presented token by a new one with the same user,
      family, expiry and login time, and passed its expiry check. */
  ghost predicate HasRotated(s: State, presented: Hash, newHash: Hash, now: Time, r: RotateResult)
    requires r.Rotated?
  {
    && |s.rotations| > 0
    && var made := s.rotations[|s.rotations| - 1];
    && 0 <= made.parent < made.child < |s.rows| && made.checkedAt == now < r.expires
    && s.rows[made.parent].hash == presented && s.rows[made.parent].replacedBy == Some(made.child)
    && s.rows[made.child] == Row(r.user, newHash, r.family, r.expires, None, None, s.rows[made.parent].issuedAt)
    && s.rows[made.parent].user == r.user && s.rows[made.parent].family == r.family
    && s.rows[made.parent].expires == r.expires && r.hash == newHash
  }

  /** The lookup found a token that is not to be rotated and was not rotated before either. */
  predicate Unusable(rows: seq<Row>, presented: Hash, now: Time) {
    var found := Lookup(rows, presented);
    found.None? || (rows[found.value].replacedBy.None? && (rows[found.value].revoked.Some? || rows[found.value].expires <= now))
  }

  /** The presented token has been replaced or revoked. */
  ghost predicate Spent(rows: seq<Row>, presented: Hash) {
    exists i :: Holds(rows, i, presented) && !Live(rows[i])
  }

  ghost predicate Holds(rows: seq<Row>, id: int, hash: Hash) {
    0 <= id < |rows| && rows[id].hash == hash && rows[id].family != UNROOTED
  }

  /** Every token of the family that was stored before is revoked, and the whole family is if
      no rotation of it overlapped another or the revocation. */
  ghost predicate FamilyRevoked(before: seq<Row>, s: State, f: int) {
    && (forall i :: 0 <= i < |before| && before[i].family == f ==> i < |s.rows| && s.rows[i].revoked.Some?)
    && (NoOverlap(s, f) ==> AllRevoked(s.rows, f))
  }

  class Service {
    var db: State
    ghost var run: seq<Event>

    /** The table is in a state the interleaving machine reaches by the recorded run. */
    ghost predicate Valid() reads this {
      Exec(EMPTY, run) == Some(db)
    }

    constructor ()
      ensures Valid() && db == EMPTY
    {
      db := EMPTY;
      run := [];
    }

    /** Any number of steps of other requests: they have their own calls and root their own rows, and
        never mint the token of this one. */
    method Others(call: int, row: int, mint: Hash)
      requires Valid()
      modifies this
      ensures Valid() && old(run) <= run && Untouched(old(db), db, call, row)
      ensures old(Fresh(db, mint)) ==> Fresh(db, mint)
    {
      var count: int := *;
      while 0 < count
        invariant Valid() && old(run) <= run && Untouched(old(db), db, call, row)
        invariant old(Fresh(db, mint)) ==> Fresh(db, mint)
      {
        count := count - 1;
        var e: Event := *;
        var next := Step(db, e);
        if next.Some? && Foreign(e, call, row) && !Mints(e, mint) {
          ForeignStep(run, db, e, call, row);
          ForeignMint(db, e, mint);
          UntouchedTwice(old(db), db, next.value, call, row);
          Extend(EMPTY, run, db, e);
          run, db := run + [e], next.value;
          hide Exec, Step, Untouched, Fresh;
        }
      }
    }

    /** Take one step of this request. */
    method Do(e: Event) returns (taken: bool)
      requires Valid()
      modifies this
      ensures Valid() && taken == Step(old(db), e).Some?
      ensures if taken then db == Step(old(db), e).value && run == old(run) + [e]
              else db == old(db) && run == old(run)
    {
      var next := Step(db, e);
      taken := next.Some?;
      if taken {
        Extend(EMPTY, run, db, e);
        run, db := run + [e], next.value;
      }
    }

    /** A login: insert the token, then root its family at the new row. Either statement can
        fail, and then the token is not handed out. */
    method Issue(user: int, hash: Hash, now: Time, insertFails: bool, rootFails: bool) returns (family: Option<int>)
      requires Valid() && Fresh(db, hash)
      modifies this
      ensures Valid() && old(run) <= run
      ensures family.Some? <==> !insertFails && !rootFails
      ensures family.Some? ==>
        && IsFamily(db.rows, family.value)
        && db.rows[family.value].hash == hash && db.rows[family.value].user == user
        && db.rows[family.value].issuedAt == now && db.rows[family.value].expires == now + 30 * DAY
        && db.rows[family.value].replacedBy.None?
    {
      if insertFails {
        return None;
      }
      var id := |db.rows|;
      var inserted := Do(IssueInsert(user, hash, now));
      Others(-1, id, hash);
      if rootFails {
        return None;
      }
      UnrootedIsNew(run, db, id);
      var rooted := Do(IssueRoot(id));
      hide Exec;
      family := Some(id);
    }

    /** The one statement that revokes a family: it collects the rows it sees, waits for those
        that are locked, and writes them. */
    method RevokeStatement(call: int, family: int, fails: bool) returns (revoked: bool)
      requires Valid() && call in db.calls && db.calls[call] == Revoking(family) && IsFamily(db.rows, family)
      modifies this
      ensures Valid() && old(run) <= run && Extends(old(db).rows, db.rows)
      ensures revoked == !fails && (revoked ==> FamilyRevoked(old(db).rows, db, family))
    {
      Others(call, -1, 0);
      if fails {
        var ended := Do(Abandon(call));
        return false;
      }
      ghost var before := old(db).rows;
      CallFacts(run, db, call);
      var scanned := Do(RevokeScan(call));
      hide Step, Exec;
      ScanFacts(run, db, call);
      Others(call, -1, 0);
      ScanFacts(run, db, call);
      WriteRevokes(run, db, call, before, family);
      ExtendsTwice(before, db.rows, Step(db, RevokeWrite(call)).value.rows);
      var written := Do(RevokeWrite(call));
      revoked := true;
    }

    /** Consume a presented token: look it up, check it, then rotate it in a transaction.
        Success means the presented token now points to the new one. Exactly the unknown,
        revoked and expired tokens are invalid, and they change nothing. A token already
        replaced never succeeds; reuse is reported only of a token that is no longer live, and
        its family is revoked exactly unless that write fails. Without a fault the answer is never
        an error, so a live token is rotated unless another call came first. */
    method Rotate(call: int, presented: Hash, newHash: Hash, now: Time, later: Time, f: Faults)
      returns (r: RotateResult, revoked: bool)
      requires Valid() && call !in db.calls && Fresh(db, newHash)
      requires forall i :: 0 <= i < |db.rows| && db.rows[i].hash == presented ==> db.rows[i].family != UNROOTED
      modifies this
      ensures Valid() && old(run) <= run
      ensures r.StoreError? ==> f.lookup || TransactionFails(f)
      ensures r.Rotated? ==> HasRotated(db, presented, newHash, now, r)
      ensures revoked <==> r.ReuseDetected? && !f.revoke
      ensures revoked ==> exists i :: Holds(db.rows, i, presented) && FamilyRevoked(old(db).rows, db, db.rows[i].family)
      ensures r.Invalid? ==> db == old(db) && Unusable(old(db).rows, presented, now)
      ensures Unusable(old(db).rows, presented, now) ==> r == if f.lookup then StoreError else Invalid
      ensures var found := Lookup(old(db).rows, presented);
        found.Some? && old(db).rows[found.value].replacedBy.Some? ==> r == if f.lookup then StoreError else ReuseDetected
      ensures r.ReuseDetected? ==> Spent(db.rows, presented)
    {
      hide FamilyRevoked, Fresh;
      revoked := false;
      if f.lookup {
        return StoreError, false;
      }
      var found := Lookup(db.rows, presented);
      if found.None? {
        return Invalid, false;
      }
      ghost var id := found.value;
      var row := db.rows[found.value];
      TokenFacts(run, db, id);
      if row.replacedBy.None? && (row.revoked.Some? || row.expires <= now) {
        return Invalid, false;
      }
      ReadFacts(db, call, presented, now, newHash);
      var read := Do(RotateRead(call, presented, now));
      assert Holds(db.rows, id, presented);
      hide Exec, Step, Lookup;
      if row.replacedBy.Some? {
        revoked := RevokeStatement(call, row.family, f.revoke);
        HoldsStill(old(db).rows, db.rows, id, presented);
        return ReuseDetected, revoked;
      }
      r, revoked := FinishRotate(call, presented, newHash, now, later, row, id, f);
    }

    /** The rotating transaction, and the revocation that follows when its select finds the
        token replaced or revoked by now. */
    method FinishRotate(call: int, presented: Hash, newHash: Hash, now: Time, later: Time, existing: Row, ghost id: int, f: Faults)
      returns (r: RotateResult, revoked: bool)
      requires Valid() && call in db.calls && Holds(db.rows, id, presented) && existing == db.rows[id] && Fresh(db, newHash)
      requires db.calls[call] == Ready(presented, existing.family, now) && now < existing.expires
      modifies this
      ensures Valid() && old(run) <= run && !r.Invalid?
      ensures r.StoreError? ==> TransactionFails(f)
      ensures r.Rotated? ==> HasRotated(db, presented, newHash, now, r)
      ensures revoked <==> r.ReuseDetected? && !f.revoke
      ensures revoked ==> FamilyRevoked(old(db).rows, db, existing.family)
      ensures r.ReuseDetected? ==>
        Holds(db.rows, id, presented) && db.rows[id].family == existing.family && !Live(db.rows[id])
    {
      hide Exec, Step, Lookup, FamilyRevoked, Extends, Live, Fresh;
      revoked := false;
      ghost var start := db.rows;
      Others(call, -1, newHash);
      HoldsStill(start, db.rows, id, presented);
      TokenFacts(run, db, id);
      if f.transaction == 1 {
        var ended := Do(Abandon(call));
        return StoreError, false;
      }
      SelectFacts(run, db, call, id);
      SelectMints(db, call, newHash);
      ghost var rows := db.rows;
      var selected := Do(RotateSelect(call));
      if db.calls[call].Selected? {
        r := CommitSuccessor(call, presented, newHash, now, later, existing, id, f);
      } else {
        revoked := RevokeStatement(call, existing.family, f.revoke);
        HoldsStill(rows, db.rows, id, presented);
        if revoked {
          FamilyRevokedFrom(start, rows, db, existing.family);
        }
        r := ReuseDetected;
      }
    }

    /** Insert, update and commit; the reply to the commit can be lost. */
    method CommitSuccessor(call: int, presented: Hash, newHash: Hash, now: Time, later: Time, existing: Row, ghost id: int, f: Faults)
      returns (r: RotateResult)
      requires Valid() && call in db.calls && db.calls[call].Selected? && Holds(db.rows, id, presented) && Fresh(db, newHash)
      requires db.calls[call].hash == presented && db.calls[call].checkedAt == now < existing.expires
      requires Succeeds(existing, db.rows[id]) && existing.family != UNROOTED
      modifies this
      ensures Valid() && old(run) <= run && (r.Rotated? || (r.StoreError? && TransactionFails(f)))
      ensures r.Rotated? ==> HasRotated(db, presented, newHash, now, r)
    {
      hide Exec, Step, Lookup, Fresh, Extends;
      ghost var start := db.rows;
      Others(call, -1, newHash);
      HoldsStill(start, db.rows, id, presented);
      if f.transaction == 2 {
        var ended := Do(Abandon(call));
        return StoreError;
      }
      InsertGives(run, db, call, newHash, id);
      var inserted := Do(RotateInsert(call, newHash));
      ghost var rows := db.rows;
      Others(call, -1, newHash);
      HoldsStill(rows, db.rows, id, presented);
      if f.transaction == 3 {
        var ended := Do(Abandon(call));
        return StoreError;
      }
      CommitGives(run, db, call, later, id);
      var committed := Do(RotateCommit(call, later));
      if f.commitReply {
        return StoreError;
      }
      r := Rotated(newHash, existing.user, existing.family, existing.expires);
    }

    /** Sign-out on this device: an unknown token is a success that changes nothing; a known one
        is a success exactly if its family was revoked. */
    method RevokeFamily(call: int, presented: Hash, f: Faults) returns (ok: bool, revoked: bool)
      requires Valid() && call !in db.calls
      requires forall i :: 0 <= i < |db.rows| && db.rows[i].hash == presented ==> db.rows[i].family != UNROOTED
      modifies this
      ensures Valid() && old(run) <= run
      ensures var known := Lookup(old(db).rows, presented).Some?;
        && (ok <==> !f.lookup && (known ==> !f.revoke))
        && (revoked <==> ok && known)
        && (!known ==> db == old(db))
      ensures revoked ==> exists i :: Holds(db.rows, i, presented) && FamilyRevoked(old(db).rows, db, db.rows[i].family)
    {
      revoked := false;
      ok := !f.lookup;
      if !ok {
        return;
      }
      var found := Lookup(db.rows, presented);
      if found.None? {
        return;
      }
      ghost var id := found.value;
      var family := db.rows[found.value].family;
      TokenFacts(run, db, id);
      var read := Do(LogoutRead(call, presented));
      assert Holds(db.rows, id, presented);
      hide Exec, Step, Lookup, FamilyRevoked;
      revoked := RevokeStatement(call, family, f.revoke);
      HoldsStill(old(db).rows, db.rows, id, presented);
      ok := revoked;
    }

    /** Log out everywhere: afterwards every token the user had before is revoked, and every
        family he had then as a whole unless rotations overlapped. */
    method RevokeAllOf(call: int, user: int, fails: bool) returns (ok: bool)
      requires Valid() && call !in db.calls
      modifies this
      ensures Valid() && old(run) <= run && ok == !fails
      ensures ok ==> forall f :: IsFamily(old(db).rows, f) && old(db).rows[f].user == user ==>
        FamilyRevoked(old(db).rows, db, f)
    {
      ok := !fails;
      if !ok {
        return;
      }
      ghost var before := db.rows;
      ScanAll(db, call, user);
      var scanned := Do(RevokeAllScan(call, user));
      hide Exec, Step, FamilyRevoked;
      Others(call, -1, 0);
      forall f | IsFamily(before, f) && before[f].user == user
        ensures Step(db, RevokeWrite(call)).Some? && FamilyRevoked(before, Step(db, RevokeWrite(call)).value, f)
      {
        WriteRevokes(run, db, call, before, f);
      }
      ScanFacts(run, db, call);
      var written := Do(RevokeWrite(call));
    }
  }

  /** A step that mints the given token. */
  predicate Mints(e: Event, mint: Hash) {
    (e.IssueInsert? && e.hash == mint) || (e.RotateInsert? && e.newHash == mint)
  }

  /** A token nobody else mints stays unused. */
  lemma {:induction false} ForeignMint(s: State, e: Event, mint: Hash)
    requires Step(s, e).Some? && !Mints(e, mint)
    ensures Fresh(s, mint) ==> Fresh(Step(s, e).value, mint)
  {
    if Fresh(s, mint) {
      var s' := Step(s, e).value;
      MintRows(s, e, mint);
      Unknown(s'.rows, mint);
      hide Lookup, Succeed, RevokeRows;
    }
  }

  lemma {:induction false} MintRows(s: State, e: Event, mint: Hash)
    requires Step(s, e).Some? && !Mints(e, mint) && Fresh(s, mint)
    ensures Unused(Step(s, e).value.rows, mint)
  {
    hide Lookup;
  }

  lemma ReadFacts(s: State, call: int, hash: Hash, now: Time, mint: Hash)
    requires Step(s, RotateRead(call, hash, now)).Some?
    ensures Fresh(s, mint) ==> Fresh(Step(s, RotateRead(call, hash, now)).value, mint)
  {
    ForeignMint(s, RotateRead(call, hash, now), mint);
  }

  lemma SelectMints(s: State, call: int, mint: Hash)
    requires Step(s, RotateSelect(call)).Some?
    ensures Fresh(s, mint) ==> Fresh(Step(s, RotateSelect(call)).value, mint)
  {
    ForeignMint(s, RotateSelect(call), mint);
  }

  lemma ScanAll(s: State, call: int, user: int)
    requires call !in s.calls
    ensures Step(s, RevokeAllScan(call, user)).Some?
    ensures var s' := Step(s, RevokeAllScan(call, user)).value;
      s'.rows == s.rows && call in s'.calls && s'.calls[call] == Scanned(OfUser(user), |s.rows|, s.clock)
  {}

  lemma HoldsStill(rows: seq<Row>, rows': seq<Row>, id: int, hash: Hash)
    requires Holds(rows, id, hash) && Extends(rows, rows')
    ensures Holds(rows', id, hash) && rows'[id].family == rows[id].family
    ensures Succeeds(rows[id], rows'[id]) && (!Live(rows[id]) ==> !Live(rows'[id]))
  {
    assert Succeeds(rows[id], rows'[id]);
  }

  lemma FamilyRevokedFrom(before: seq<Row>, rows: seq<Row>, s: State, f: int)
    requires Extends(before, rows) && FamilyRevoked(rows, s, f) && f != UNROOTED
    ensures FamilyRevoked(before, s, f)
  {
    forall i | 0 <= i < |before| && before[i].family == f ensures rows[i].family == f {
      assert Succeeds(before[i], rows[i]);
    }
  }

  /** The select finds exactly a live token; otherwise it leads to the revocation. */
  lemma {:induction false} SelectFacts(run: seq<Event>, s: State, call: int, id: int)
    requires Exec(EMPTY, run) == Some(s) && call in s.calls && s.calls[call].Ready? && Holds(s.rows, id, s.calls[call].hash)
    requires s.rows[id].family == s.calls[call].family
    ensures IsFamily(s.rows, s.calls[call].family) && Step(s, RotateSelect(call)).Some?
    ensures var s', c := Step(s, RotateSelect(call)).value, s.calls[call];
      && s'.rows == s.rows && call in s'.calls
      && if Live(s.rows[id])
         then s'.calls[call].Selected? && s'.calls[call].hash == c.hash && s'.calls[call].checkedAt == c.checkedAt
         else s'.calls[call] == Revoking(c.family)
  {
    TokenFacts(run, s, id);
    hide Exec, Lookup;
  }

  lemma {:induction false} InsertGives(run: seq<Event>, s: State, call: int, newHash: Hash, id: int)
    requires Exec(EMPTY, run) == Some(s) && call in s.calls && s.calls[call].Selected? && Fresh(s, newHash)
    requires Holds(s.rows, id, s.calls[call].hash)
    ensures Step(s, RotateInsert(call, newHash)).Some?
    ensures var s', c := Step(s, RotateInsert(call, newHash)).value, s.calls[call];
      && s'.rows == s.rows && call in s'.calls && s'.calls[call].Inserted? && s'.calls[call].hash == c.hash
      && s'.calls[call].checkedAt == c.checkedAt && s'.calls[call].row.hash == newHash
  {
    TokenFacts(run, s, id);
    hide Exec, Lookup, Fresh;
  }

  lemma {:induction false} CommitGives(run: seq<Event>, s: State, call: int, later: Time, id: int)
    requires Exec(EMPTY, run) == Some(s) && call in s.calls && s.calls[call].Inserted? && Holds(s.rows, id, s.calls[call].hash)
    ensures Step(s, RotateCommit(call, later)).Some?
    ensures var s', c := Step(s, RotateCommit(call, later)).value, s.calls[call];
      && |s'.rotations| > 0 && |s'.rows| == |s.rows| + 1 && s'.rows[|s.rows|] == c.row
      && s'.rows[id] == s.rows[id].(replacedBy := Some(|s.rows|))
      && c.row == Row(s.rows[id].user, c.row.hash, s.rows[id].family, s.rows[id].expires, None, None, s.rows[id].issuedAt)
      && var made := s'.rotations[|s'.rotations| - 1];
         made.parent == id && made.child == |s.rows| && made.checkedAt == c.checkedAt
  {
    ReachableInv(run);
    CommitsAt(s, call, later);
    var p := CommitFacts(s, RotateCommit(call, later));
    TokenFacts(run, s, id);
    CallPresents(s, call);
    hide Exec, Step, Inv, Lookup;
  }

  /** A step that belongs to another request. */
  predicate Foreign(e: Event, call: int, row: int) {
    match e
    case IssueInsert(_, _, _) => true
    case IssueRoot(id) => id != row
    case _ => e.call != call
  }

  /** What other requests leave alone: this call, and a row this request is still to root. */
  ghost predicate Untouched(s: State, s': State, call: int, row: int) {
    && Extends(s.rows, s'.rows)
    && (call in s'.calls <==> call in s.calls)
    && (call in s.calls ==> s'.calls[call] == s.calls[call])
    && (0 <= row < |s.rows| && s.rows[row].family == UNROOTED ==>
          s'.rows[row] == s.rows[row].(revoked := s'.rows[row].revoked))
  }

  lemma UntouchedTwice(a: State, b: State, c: State, call: int, row: int)
    requires Untouched(a, b, call, row) && Untouched(b, c, call, row)
    ensures Untouched(a, c, call, row)
  {
    ExtendsTwice(a.rows, b.rows, c.rows);
  }

  /** A foreign step leaves this call where it was. */
  lemma {:induction false} ForeignCalls(s: State, e: Event, call: int, row: int)
    requires Step(s, e).Some? && Foreign(e, call, row)
    ensures var s' := Step(s, e).value;
      (call in s'.calls <==> call in s.calls) && (call in s.calls ==> s'.calls[call] == s.calls[call])
  {
    hide Lookup, Succeed, RevokeRows, Fresh;
  }

  /** A foreign step does not root this request's row: at most it revokes it. */
  lemma {:induction false} ForeignRow(s: State, e: Event, call: int, row: int)
    requires Inv(s) && Step(s, e).Some? && Foreign(e, call, row)
    requires 0 <= row < |s.rows| && s.rows[row].family == UNROOTED
    ensures var s' := Step(s, e).value;
      row < |s'.rows| && s'.rows[row] == s.rows[row].(revoked := s'.rows[row].revoked)
  {
    if !Writes(e) {
      ReadOnly(s, e);
      hide Step;
    } else if e.RotateCommit? {
      var p := CommitFacts(s, e);
      hide Step;
    }
    hide Inv, Lookup, Fresh;
  }

  lemma {:induction false} ForeignStep(run: seq<Event>, s: State, e: Event, call: int, row: int)
    requires Exec(EMPTY, run) == Some(s) && Step(s, e).Some? && Foreign(e, call, row)
    ensures Untouched(s, Step(s, e).value, call, row)
  {
    ReachableInv(run);
    StepExtends(s, e);
    ForeignCalls(s, e, call, row);
    if 0 <= row < |s.rows| && s.rows[row].family == UNROOTED {
      ForeignRow(s, e, call, row);
    }
    hide Exec, Step, Extends, Inv;
  }

  lemma UnrootedIsNew(run: seq<Event>, s: State, id: int)
    requires Exec(EMPTY, run) == Some(s) && 0 <= id < |s.rows| && s.rows[id].family == UNROOTED
    ensures s.rows[id].replacedBy.None?
  {
    ReachableInv(run);
    assert RowOk(s.rows, id, s.clock);
  }

  lemma TokenFacts(run: seq<Event>, s: State, id: int)
    requires Exec(EMPTY, run) == Some(s) && 0 <= id < |s.rows|
    ensures Lookup(s.rows, s.rows[id].hash) == Some(id)
    ensures s.rows[id].family != UNROOTED ==> IsFamily(s.rows, s.rows[id].family)
    ensures s.rows[id].expires == s.rows[id].issuedAt + REFRESH_TTL
  {
    ReachableInv(run);
    LookupIs(s.rows, id);
    assert RowOk(s.rows, id, s.clock);
  }

  lemma CallFacts(run: seq<Event>, s: State, call: int)
    requires Exec(EMPTY, run) == Some(s) && call in s.calls && s.calls[call].Revoking?
    ensures Step(s, RevokeScan(call)).Some?
    ensures var s' := Step(s, RevokeScan(call)).value;
      && s'.rows == s.rows && call in s'.calls && s'.calls[call].Scanned? && s'.calls[call].visible == |s.rows|
      && s'.calls[call].scope == OfFamily(s.calls[call].family)
  {}

  lemma ScanFacts(run: seq<Event>, s: State, call: int)
    requires Exec(EMPTY, run) == Some(s) && call in s.calls && s.calls[call].Scanned?
    ensures Step(s, RevokeWrite(call)).Some? && Extends(s.rows, Step(s, RevokeWrite(call)).value.rows)
  {
    ReachableInv(run);
    StepExtends(s, RevokeWrite(call));
  }

  lemma WriteRows(s: State, call: int)
    requires call in s.calls && s.calls[call].Scanned?
    ensures Step(s, RevokeWrite(call)).Some?
    ensures var c := s.calls[call];
      Step(s, RevokeWrite(call)).value.rows == RevokeRows(s.rows, c.scope, c.visible, Span(c.since, s.clock))
  {}

  /** The write revokes every row of the family that was stored before the scan. */
  lemma {:induction false} SeenRevoked(s: State, call: int, before: seq<Row>, f: int, i: int)
    requires Inv(s) && call in s.calls && s.calls[call].Scanned? && s.calls[call].visible >= |before|
    requires Extends(before, s.rows) && IsFamily(before, f) && 0 <= i < |before| && before[i].family == f
    requires s.calls[call].scope == OfFamily(f) || s.calls[call].scope == OfUser(before[f].user)
    ensures Step(s, RevokeWrite(call)).Some?
    ensures var rows' := Step(s, RevokeWrite(call)).value.rows;
      i < |rows'| && rows'[i].family == f && rows'[i].revoked.Some?
  {
    hide Step;
    WriteRows(s, call);
    assert Succeeds(before[i], s.rows[i]) && Succeeds(before[f], s.rows[f]) && RowOk(s.rows, i, s.clock);
    hide Inv, Extends;
  }

  /** Without overlap a family with a revoked root is revoked as a whole. */
  lemma WholeRevoked(run: seq<Event>, s: State, f: int)
    requires Exec(EMPTY, run) == Some(s) && IsFamily(s.rows, f) && s.rows[f].revoked.Some? && NoOverlap(s, f)
    ensures AllRevoked(s.rows, f)
  {
    assert Reachable(s);
    NoOverlapIsSound(s, f);
    hide Inv, Exec, NoOverlap, NextOk;
  }

  lemma {:induction false} WriteRevokes(run: seq<Event>, s: State, call: int, before: seq<Row>, f: int)
    requires Exec(EMPTY, run) == Some(s) && call in s.calls && s.calls[call].Scanned? && s.calls[call].visible >= |before|
    requires Extends(before, s.rows) && IsFamily(before, f)
    requires s.calls[call].scope == OfFamily(f) || s.calls[call].scope == OfUser(before[f].user)
    ensures Step(s, RevokeWrite(call)).Some?
    ensures FamilyRevoked(before, Step(s, RevokeWrite(call)).value, f)
  {
    var e := RevokeWrite(call);
    ScanFacts(run, s, call);
    ReachableInv(run);
    hide Step, Inv, NoOverlap, AllRevoked;
    Extend(EMPTY, run, s, e);
    hide Exec;
    var s' := Step(s, e).value;
    forall i | 0 <= i < |before| && before[i].family == f
      ensures i < |s'.rows| && s'.rows[i].family == f && s'.rows[i].revoked.Some?
    {
      SeenRevoked(s, call, before, f, i);
    }
    if NoOverlap(s', f) {
      WholeRevoked(run + [e], s', f);
    }
  }
}
