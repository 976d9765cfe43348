/** Refresh-token rotation with reuse detection (internal/authn/refresh.go over
    internal/store/refreshtokens.go). A rotation is a lookup, then a transaction of a select,
    an insert and an update; a revocation is one statement that collects the rows it sees and
    then writes them. Transactions run at the database's default level, READ COMMITTED: each
    statement sees what is committed, and nothing of other transactions under way. Any number
    of calls interleave between any two steps. */
module RefreshTokens {
  import opened Domain

  /** The SHA-256 of an opaque token; presenting a token is presenting its hash. */
  type Hash = int

  /** 30 days. */
  const REFRESH_TTL: int := 30 * DAY

  /** The family of a row whose own id has not been written into it yet. */
  const UNROOTED: int := -1

  /** From one step of the run to a later one. */
  datatype Span = Span(from: nat, to: nat)

  predicate Overlap(a: Span, b: Span) {
    a.from < b.to && b.from < a.to
  }

  /** `revoked` holds the span of the statement that revoked the row. That span and
      `issuedAt`, the time of the login that rooted the family, are history only. */
  datatype Row = Row(
    user: int,
    hash: Hash,
    family: int,
    expires: Time,
    replacedBy: Option<int>,
    revoked: Option<Span>,
    issuedAt: Time)

  datatype Scope = OfFamily(family: int) | OfUser(user: int)

  /** A request between two of its statements. `since` is the step of the transaction's select
      or of the revocation's scan, which saw the first `visible` rows. */
  datatype Call =
    | Ready(hash: Hash, family: int, checkedAt: Time)
    | Selected(hash: Hash, user: int, family: int, checkedAt: Time, since: nat)
    | Inserted(hash: Hash, row: Row, checkedAt: Time, since: nat)
    | Revoking(family: int)
    | Scanned(scope: Scope, visible: nat, since: nat)

  datatype Rotation = Rotation(parent: int, child: int, family: int, checkedAt: Time, writtenAt: Time, span: Span)

  /** Committed rows in the order they were committed, never deleted; a row's id is its place.
      `rotations` and `clock`, the number of steps taken, are history only. */
  datatype State = State(rows: seq<Row>, calls: map<int, Call>, rotations: seq<Rotation>, clock: nat)

  datatype Event =
    | IssueInsert(user: int, hash: Hash, now: Time)
    | IssueRoot(id: int)
    | RotateRead(call: int, hash: Hash, now: Time)
    | RotateSelect(call: int)
    | RotateInsert(call: int, newHash: Hash)
    | RotateCommit(call: int, now: Time)
    | LogoutRead(call: int, hash: Hash)
    | RevokeScan(call: int)
    | RevokeAllScan(call: int, user: int)
    | RevokeWrite(call: int)
    | Abandon(call: int)

  const EMPTY: State := State([], map[], [], 0)

  predicate Live(r: Row) {
    r.replacedBy.None? && r.revoked.None?
  }

  /** The row with the given hash, if any. */
  function Lookup(rows: seq<Row>, hash: Hash): (found: Option<int>)
    ensures found.Some? ==> 0 <= found.value < |rows| && rows[found.value].hash == hash
    ensures found.None? ==> forall i :: 0 <= i < |rows| ==> rows[i].hash != hash
  {
    if |rows| == 0 then None
    else if rows[|rows| - 1].hash == hash then Some(|rows| - 1)
    else Lookup(rows[..|rows| - 1], hash)
  }

  /** Minted tokens never repeat one that is stored or about to be. */
  predicate Fresh(s: State, hash: Hash) {
    && Lookup(s.rows, hash).None?
    && forall c :: c in s.calls && s.calls[c].Inserted? ==> s.calls[c].row.hash != hash
  }

  /** A login inserts its row before it has a family. */
  function OnIssueInsert(s: State, user: int, hash: Hash, now: Time): Option<State> {
    if !Fresh(s, hash) then None
    else Some(s.(rows := s.rows + [Row(user, hash, UNROOTED, now + REFRESH_TTL, None, None, now)]))
  }

  /** A second statement makes the row the root of its own family; only then does the token
      leave the server. */
  function OnIssueRoot(s: State, id: int): Option<State> {
    if 0 <= id < |s.rows| && s.rows[id].family == UNROOTED
    then Some(s.(rows := s.rows[id := s.rows[id].(family := id)]))
    else None
  }

  /** The lookup of a rotation and the checks on what it found. */
  function OnRotateRead(s: State, call: int, hash: Hash, now: Time): Option<State> {
    var found := Lookup(s.rows, hash);
    if call in s.calls then None
    else if found.None? then Some(s)
    else
      var r := s.rows[found.value];
      if r.family == UNROOTED then None
      else if r.replacedBy.Some? then Some(s.(calls := s.calls[call := Revoking(r.family)]))
      else if r.revoked.Some? || r.expires <= now then Some(s)
      else Some(s.(calls := s.calls[call := Ready(hash, r.family, now)]))
  }

  /** The select finds the row only if it is still live; it locks nothing. */
  function OnRotateSelect(s: State, call: int): Option<State> {
    if call !in s.calls || !s.calls[call].Ready? then None
    else
      var c := s.calls[call];
      var found := Lookup(s.rows, c.hash);
      if found.Some? && Live(s.rows[found.value]) then
        var r := s.rows[found.value];
        Some(s.(calls := s.calls[call := Selected(c.hash, r.user, r.family, c.checkedAt, s.clock)]))
      else Some(s.(calls := s.calls[call := Revoking(c.family)]))
  }

  /** The insert takes user and family from the select and the expiry from the presented row.
      Until the commit no other call sees the new row. */
  function OnRotateInsert(s: State, call: int, newHash: Hash): Option<State> {
    if call !in s.calls || !s.calls[call].Selected? then None
    else
      var c := s.calls[call];
      var found := Lookup(s.rows, c.hash);
      if found.None? || !Fresh(s, newHash) then None
      else
        var r := s.rows[found.value];
        var row := Row(c.user, newHash, c.family, r.expires, None, None, r.issuedAt);
        Some(s.(calls := s.calls[call := Inserted(c.hash, row, c.checkedAt, c.since)]))
  }

  /** The new row is committed and the presented row points to it, whatever it pointed to. */
  function Succeed(rows: seq<Row>, parent: int, row: Row): seq<Row>
    requires 0 <= parent < |rows|
  {
    rows[parent := rows[parent].(replacedBy := Some(|rows|))] + [row]
  }

  /** The update, which has no condition beyond the hash, and the commit. They are one step:
      between them the updated row is locked, others still see its old version, and whoever
      wants to write it waits for the commit. */
  function OnRotateCommit(s: State, call: int, now: Time): Option<State> {
    if call !in s.calls || !s.calls[call].Inserted? then None
    else
      var c := s.calls[call];
      var found := Lookup(s.rows, c.hash);
      if found.None? then None
      else Some(State(
        Succeed(s.rows, found.value, c.row),
        s.calls - {call},
        s.rotations + [Rotation(found.value, |s.rows|, c.row.family, c.checkedAt, now, Span(c.since, s.clock))],
        s.clock))
  }

  function OnLogoutRead(s: State, call: int, hash: Hash): Option<State> {
    var found := Lookup(s.rows, hash);
    if call in s.calls then None
    else if found.None? then Some(s)
    else if s.rows[found.value].family == UNROOTED then None
    else Some(s.(calls := s.calls[call := Revoking(s.rows[found.value].family)]))
  }

  /** A revoking statement first collects the rows committed so far; it may then have to wait
      for the locks on them. */
  function OnRevokeScan(s: State, call: int): Option<State> {
    if call !in s.calls || !s.calls[call].Revoking? then None
    else Some(s.(calls := s.calls[call := Scanned(OfFamily(s.calls[call].family), |s.rows|, s.clock)]))
  }

  function OnRevokeAllScan(s: State, call: int, user: int): Option<State> {
    if call in s.calls then None
    else Some(s.(calls := s.calls[call := Scanned(OfUser(user), |s.rows|, s.clock)]))
  }

  predicate InScope(r: Row, scope: Scope) {
    match scope
    case OfFamily(f) => r.family == f
    case OfUser(u) => r.user == u
  }

  /** The first `visible` rows in scope are revoked; those that are already keep their stamp. */
  function RevokeRows(rows: seq<Row>, scope: Scope, visible: nat, span: Span): (r: seq<Row>)
    ensures |r| == |rows| && forall i :: 0 <= i < |r| ==>
      r[i] == if i < visible && InScope(rows[i], scope) && rows[i].revoked.None?
              then rows[i].(revoked := Some(span)) else rows[i]
  {
    seq(|rows|, i requires 0 <= i < |rows| =>
      if i < visible && InScope(rows[i], scope) && rows[i].revoked.None?
      then rows[i].(revoked := Some(span)) else rows[i])
  }

  function OnRevokeWrite(s: State, call: int): Option<State> {
    if call !in s.calls || !s.calls[call].Scanned? then None
    else
      var c := s.calls[call];
      Some(s.(rows := RevokeRows(s.rows, c.scope, c.visible, Span(c.since, s.clock)), calls := s.calls - {call}))
  }

  function Effect(s: State, e: Event): Option<State> {
    match e
    case IssueInsert(user, hash, now) => OnIssueInsert(s, user, hash, now)
    case IssueRoot(id) => OnIssueRoot(s, id)
    case RotateRead(call, hash, now) => OnRotateRead(s, call, hash, now)
    case RotateSelect(call) => OnRotateSelect(s, call)
    case RotateInsert(call, newHash) => OnRotateInsert(s, call, newHash)
    case RotateCommit(call, now) => OnRotateCommit(s, call, now)
    case LogoutRead(call, hash) => OnLogoutRead(s, call, hash)
    case RevokeScan(call) => OnRevokeScan(s, call)
    case RevokeAllScan(call, user) => OnRevokeAllScan(s, call, user)
    case RevokeWrite(call) => OnRevokeWrite(s, call)
    case Abandon(call) => Some(s.(calls := s.calls - {call}))
  }

  /** One step, or None when the event cannot happen here. A call that errors, rolls back,
      loses its reply or crashes just ends: `Abandon`. */
  function Step(s: State, e: Event): Option<State> {
    var r := Effect(s, e);
    if r.None? then None else Some(r.value.(clock := s.clock + 1))
  }

  function Exec(s: State, run: seq<Event>): Option<State> {
    if |run| == 0 then Some(s)
    else
      var before := Exec(s, run[..|run| - 1]);
      if before.None? then None else Step(before.value, run[|run| - 1])
  }

  lemma {:induction false} Extend(start: State, run: seq<Event>, s: State, e: Event)
    requires Exec(start, run) == Some(s)
    ensures Exec(start, run + [e]) == Step(s, e)
  {
    assert (run + [e])[..|run|] == run;
  }

  // ---------- what holds of every run ----------

  ghost predicate IsFamily(rows: seq<Row>, f: int) {
    0 <= f < |rows| && rows[f].family == f
  }

  /** A row of a family agrees with the family's root and comes after it, and points to a later
      row of the family if it points anywhere. */
  ghost predicate RootedOk(rows: seq<Row>, i: int)
    requires 0 <= i < |rows|
  {
    var r := rows[i];
    && 0 <= r.family <= i && IsFamily(rows, r.family)
    && r.user == rows[r.family].user && r.issuedAt == rows[r.family].issuedAt
    && (r.replacedBy.Some? ==> i < r.replacedBy.value < |rows| && rows[r.replacedBy.value].family == r.family)
  }

  ghost predicate RowOk(rows: seq<Row>, i: int, clock: nat)
    requires 0 <= i < |rows|
  {
    var r := rows[i];
    && r.expires == r.issuedAt + REFRESH_TTL
    && (r.revoked.Some? ==> r.revoked.value.from < r.revoked.value.to < clock)
    && if r.family == UNROOTED then r.replacedBy.None? else RootedOk(rows, i)
  }

  ghost predicate RowsOk(rows: seq<Row>, clock: nat) {
    forall i :: 0 <= i < |rows| ==> RowOk(rows, i, clock)
  }

  ghost predicate HashesDistinct(rows: seq<Row>) {
    forall i, j :: 0 <= i < j < |rows| ==> rows[i].hash != rows[j].hash
  }

  /** Every rotation leads from an older token of a family to a newer one, which has no other
      predecessor, and was checked before the family's expiry. */
  ghost predicate RotationOk(rows: seq<Row>, r: Rotation, clock: nat) {
    && 0 <= r.parent < r.child < |rows| && IsFamily(rows, r.family)
    && rows[r.parent].family == r.family == rows[r.child].family
    && rows[r.parent].replacedBy.Some?
    && r.checkedAt < rows[r.family].issuedAt + REFRESH_TTL
    && r.span.from < r.span.to < clock
  }

  /** Two rotations of one token overlapped. */
  ghost predicate PairOk(a: Rotation, b: Rotation) {
    && a.child < b.child && a.span.to < b.span.to
    && (a.parent == b.parent ==> Overlap(a.span, b.span))
  }

  ghost predicate RotationsOk(rows: seq<Row>, rotations: seq<Rotation>, clock: nat) {
    && (forall n :: 0 <= n < |rotations| ==> RotationOk(rows, rotations[n], clock))
    && (forall n, m :: 0 <= n < m < |rotations| ==> PairOk(rotations[n], rotations[m]))
  }

  ghost predicate Rotated(rotations: seq<Rotation>, parent: int, child: int) {
    exists n :: 0 <= n < |rotations| && rotations[n].parent == parent && rotations[n].child == child
  }

  /** Every token but a root has a predecessor, and every pointer is a rotation. */
  ghost predicate Derived(rows: seq<Row>, rotations: seq<Rotation>) {
    && (forall i :: 0 <= i < |rows| && rows[i].family != UNROOTED && rows[i].family != i ==>
          exists n :: 0 <= n < |rotations| && rotations[n].child == i)
    && (forall i :: 0 <= i < |rows| && rows[i].replacedBy.Some? ==> Rotated(rotations, i, rows[i].replacedBy.value))
  }

  /** The call presents the token of row p, of family f, and was checked in time. */
  ghost predicate Presents(rows: seq<Row>, hash: Hash, f: int, checkedAt: Time, p: int) {
    && 0 <= p < |rows| && rows[p].hash == hash && rows[p].family == f && IsFamily(rows, f)
    && checkedAt < rows[f].issuedAt + REFRESH_TTL
  }

  /** Whatever rotated row p did so after the call's select. */
  ghost predicate After(rotations: seq<Rotation>, p: int, since: nat) {
    forall n :: 0 <= n < |rotations| && rotations[n].parent == p ==> since < rotations[n].span.to
  }

  /** The rows a scan did not see are those committed after it. */
  ghost predicate Split(rotations: seq<Rotation>, visible: nat, since: nat) {
    forall n :: 0 <= n < |rotations| ==> (visible <= rotations[n].child <==> since < rotations[n].span.to)
  }

  ghost predicate CallOk(rows: seq<Row>, rotations: seq<Rotation>, clock: nat, c: Call) {
    match c
    case Ready(hash, f, checkedAt) => exists p :: Presents(rows, hash, f, checkedAt, p)
    case Selected(hash, user, f, checkedAt, since) =>
      && since < clock
      && (exists p :: Presents(rows, hash, f, checkedAt, p) && rows[p].user == user && After(rotations, p, since))
    case Inserted(hash, row, checkedAt, since) =>
      && since < clock
      && (exists p ::
            && Presents(rows, hash, row.family, checkedAt, p) && After(rotations, p, since)
            && row == Row(rows[p].user, row.hash, row.family, rows[p].expires, None, None, rows[p].issuedAt))
    case Revoking(f) => IsFamily(rows, f)
    case Scanned(scope, visible, since) =>
      && since < clock && visible <= |rows| && Split(rotations, visible, since)
      && (scope.OfFamily? ==> IsFamily(rows, scope.family) && scope.family < visible)
  }

  ghost predicate CallsOk(s: State) {
    forall c :: c in s.calls ==> CallOk(s.rows, s.rotations, s.clock, s.calls[c])
  }

  ghost predicate PendingFresh(s: State) {
    && (forall c :: c in s.calls && s.calls[c].Inserted? ==> Unused(s.rows, s.calls[c].row.hash))
    && (forall c, d :: c in s.calls && d in s.calls && c != d && s.calls[c].Inserted? && s.calls[d].Inserted? ==>
          s.calls[c].row.hash != s.calls[d].row.hash)
  }

  ghost predicate Unused(rows: seq<Row>, hash: Hash) {
    forall i :: 0 <= i < |rows| ==> rows[i].hash != hash
  }

  ghost predicate Inv(s: State) {
    && RowsOk(s.rows, s.clock) && HashesDistinct(s.rows)
    && RotationsOk(s.rows, s.rotations, s.clock) && Derived(s.rows, s.rotations)
    && CallsOk(s) && PendingFresh(s)
  }

  // ---------- rows that change in step ----------

  /** The same tokens, possibly more after them; what was replaced or revoked stays so. */
  ghost predicate Extends(rows: seq<Row>, rows': seq<Row>) {
    && |rows| <= |rows'|
    && forall i :: 0 <= i < |rows| ==> Succeeds(rows[i], rows'[i])
  }

  ghost predicate Succeeds(r: Row, r': Row) {
    && r'.hash == r.hash && r'.issuedAt == r.issuedAt && r'.user == r.user && r'.expires == r.expires
    && (r.family == UNROOTED || r'.family == r.family)
    && (r.replacedBy.Some? ==> r'.replacedBy.Some?)
    && (r.revoked.Some? ==> r'.revoked == r.revoked)
  }

  lemma ExtendsTwice(a: seq<Row>, b: seq<Row>, c: seq<Row>)
    requires Extends(a, b) && Extends(b, c)
    ensures Extends(a, c)
  {
    forall i | 0 <= i < |a| ensures Succeeds(a[i], c[i]) {
      assert Succeeds(a[i], b[i]) && Succeeds(b[i], c[i]);
    }
  }

  lemma LookupIs(rows: seq<Row>, i: int)
    requires HashesDistinct(rows) && 0 <= i < |rows|
    ensures Lookup(rows, rows[i].hash) == Some(i)
  {
    hide Lookup;
  }

  lemma PresentsStill(rows: seq<Row>, rows': seq<Row>, hash: Hash, f: int, checkedAt: Time, p: int)
    requires Presents(rows, hash, f, checkedAt, p) && Extends(rows, rows')
    ensures Presents(rows', hash, f, checkedAt, p) && Succeeds(rows[p], rows'[p])
  {
    assert Succeeds(rows[p], rows'[p]) && Succeeds(rows[f], rows'[f]);
  }

  /** Rotations added by the step at `clock`, each for a row that was not there. */
  ghost predicate Grown(rotations: seq<Rotation>, rotations': seq<Rotation>, size: nat, clock: nat) {
    && rotations <= rotations'
    && forall n :: |rotations| <= n < |rotations'| ==> size <= rotations'[n].child && rotations'[n].span.to == clock
  }

  lemma {:induction false} CallCarries(s: State, rows': seq<Row>, rotations': seq<Rotation>, c: Call)
    requires CallOk(s.rows, s.rotations, s.clock, c) && Extends(s.rows, rows')
    requires Grown(s.rotations, rotations', |s.rows|, s.clock)
    ensures CallOk(rows', rotations', s.clock + 1, c)
  {
    match c
    case Ready(hash, f, checkedAt) =>
      var p :| Presents(s.rows, hash, f, checkedAt, p);
      PresentsStill(s.rows, rows', hash, f, checkedAt, p);
    case Selected(hash, user, f, checkedAt, since) =>
      var p :| Presents(s.rows, hash, f, checkedAt, p) && s.rows[p].user == user && After(s.rotations, p, since);
      PresentsStill(s.rows, rows', hash, f, checkedAt, p);
      assert After(rotations', p, since);
    case Inserted(hash, row, checkedAt, since) =>
      var p :| Presents(s.rows, hash, row.family, checkedAt, p) && After(s.rotations, p, since)
        && row == Row(s.rows[p].user, row.hash, row.family, s.rows[p].expires, None, None, s.rows[p].issuedAt);
      PresentsStill(s.rows, rows', hash, row.family, checkedAt, p);
      assert After(rotations', p, since);
    case Revoking(f) =>
      assert Succeeds(s.rows[f], rows'[f]);
    case Scanned(scope, visible, since) =>
      assert Split(rotations', visible, since);
      if scope.OfFamily? {
        assert Succeeds(s.rows[scope.family], rows'[scope.family]);
      }
  }

  lemma {:induction false} RotationsCarry(rows: seq<Row>, rows': seq<Row>, rotations: seq<Rotation>, clock: nat)
    requires RotationsOk(rows, rotations, clock) && Extends(rows, rows')
    ensures RotationsOk(rows', rotations, clock + 1)
  {
    forall n | 0 <= n < |rotations| ensures RotationOk(rows', rotations[n], clock + 1) {
      var r := rotations[n];
      assert RotationOk(rows, r, clock);
      assert Succeeds(rows[r.parent], rows'[r.parent]) && Succeeds(rows[r.child], rows'[r.child])
        && Succeeds(rows[r.family], rows'[r.family]);
    }
  }

  /** The calls of s but one, and that one as given, after the rows and rotations changed. */
  lemma {:induction false} CallsCarry(s: State, s': State, call: int)
    requires CallsOk(s) && s'.clock == s.clock + 1 && Extends(s.rows, s'.rows)
    requires Grown(s.rotations, s'.rotations, |s.rows|, s.clock)
    requires forall c :: c in s'.calls && c != call ==> c in s.calls && s'.calls[c] == s.calls[c]
    requires call in s'.calls ==>
      || (call in s.calls && s'.calls[call] == s.calls[call])
      || CallOk(s'.rows, s'.rotations, s'.clock, s'.calls[call])
    ensures CallsOk(s')
  {
    hide CallOk, Extends, Grown;
    forall c | c in s'.calls ensures CallOk(s'.rows, s'.rotations, s'.clock, s'.calls[c]) {
      if c in s.calls && s'.calls[c] == s.calls[c] {
        CallCarries(s, s'.rows, s'.rotations, s.calls[c]);
      }
    }
  }

  // ---------- each event keeps it ----------

  /** A step that only moves one call along. */
  lemma {:induction false} CallStep(s: State, s': State, call: int)
    requires Inv(s) && s'.rows == s.rows && s'.rotations == s.rotations && s'.clock == s.clock + 1
    requires forall c :: c in s'.calls && c != call ==> c in s.calls && s'.calls[c] == s.calls[c]
    requires call in s'.calls ==> CallOk(s.rows, s.rotations, s'.clock, s'.calls[call])
    requires call in s'.calls && s'.calls[call].Inserted? ==> Fresh(s, s'.calls[call].row.hash)
    ensures Inv(s')
  {
    CallsCarry(s, s', call);
    RotationsCarry(s.rows, s.rows, s.rotations, s.clock);
    hide CallOk, CallsOk, RotationsOk, Derived, Lookup, HashesDistinct;
    forall i | 0 <= i < |s.rows| ensures RowOk(s.rows, i, s'.clock) {
      assert RowOk(s.rows, i, s.clock);
    }
    hide RowOk;
  }

  lemma LookupPresents(s: State, hash: Hash)
    requires Inv(s) && Lookup(s.rows, hash).Some? && s.rows[Lookup(s.rows, hash).value].family != UNROOTED
    ensures var p := Lookup(s.rows, hash).value;
      var f := s.rows[p].family;
      && IsFamily(s.rows, f) && s.rows[f].issuedAt == s.rows[p].issuedAt
      && s.rows[p].expires == s.rows[p].issuedAt + REFRESH_TTL
  {
    hide Lookup;
    assert RowOk(s.rows, Lookup(s.rows, hash).value, s.clock);
  }

  /** What a call between lookup and commit says about the row it presents. */
  lemma CallPresents(s: State, call: int)
    requires Inv(s) && call in s.calls && (s.calls[call].Ready? || s.calls[call].Selected? || s.calls[call].Inserted?)
    ensures var c := s.calls[call]; var f := if c.Inserted? then c.row.family else c.family;
      && Lookup(s.rows, c.hash).Some?
      && var p := Lookup(s.rows, c.hash).value;
      && Presents(s.rows, c.hash, f, c.checkedAt, p)
      && (!c.Ready? ==> c.since < s.clock && After(s.rotations, p, c.since))
      && (c.Selected? ==> c.user == s.rows[p].user)
      && (c.Inserted? ==> c.row == Row(s.rows[p].user, c.row.hash, c.row.family, s.rows[p].expires, None, None, s.rows[p].issuedAt))
  {
    var c := s.calls[call];
    var f := if c.Inserted? then c.row.family else c.family;
    assert CallOk(s.rows, s.rotations, s.clock, c);
    forall p | Presents(s.rows, c.hash, f, c.checkedAt, p) ensures Lookup(s.rows, c.hash) == Some(p) {
      LookupIs(s.rows, p);
    }
    hide Lookup, RowsOk, RotationsOk, Derived, CallsOk, PendingFresh;
  }

  lemma {:induction false} ReadKeeps(s: State, e: Event)
    requires Inv(s) && Step(s, e).Some? && e.RotateRead?
    ensures Inv(Step(s, e).value)
  {
    hide Inv, Lookup;
    var p, s' := Lookup(s.rows, e.hash), Step(s, e).value;
    if e.call in s'.calls {
      LookupPresents(s, e.hash);
      assert CallOk(s.rows, s.rotations, s'.clock, s'.calls[e.call]) by {
        hide Step, Effect;
        if s'.calls[e.call].Ready? {
          assert Presents(s.rows, e.hash, s.rows[p.value].family, e.now, p.value);
        }
      }
    }
    hide Presents, CallOk;
    CallStep(s, s', e.call);
  }

  lemma {:induction false} LogoutReadKeeps(s: State, e: Event)
    requires Inv(s) && Step(s, e).Some? && e.LogoutRead?
    ensures Inv(Step(s, e).value)
  {
    hide Inv, Lookup;
    if e.call in Step(s, e).value.calls {
      LookupPresents(s, e.hash);
    }
    CallStep(s, Step(s, e).value, e.call);
  }

  lemma {:induction false} SelectKeeps(s: State, e: Event)
    requires Inv(s) && Step(s, e).Some? && e.RotateSelect?
    ensures Inv(Step(s, e).value)
  {
    CallPresents(s, e.call);
    var p := Lookup(s.rows, s.calls[e.call].hash).value;
    if Live(s.rows[p]) {
      UnreplacedIsUnrotated(s, p);
    }
    hide Lookup, Inv;
    CallStep(s, Step(s, e).value, e.call);
  }

  lemma UnreplacedIsUnrotated(s: State, p: int)
    requires Inv(s) && 0 <= p < |s.rows| && s.rows[p].replacedBy.None?
    ensures forall n :: 0 <= n < |s.rotations| ==> s.rotations[n].parent != p
  {
    forall n | 0 <= n < |s.rotations| ensures s.rotations[n].parent != p {
      assert RotationOk(s.rows, s.rotations[n], s.clock);
    }
  }

  lemma {:induction false} InsertRowKeeps(s: State, e: Event)
    requires Inv(s) && Step(s, e).Some? && e.RotateInsert?
    ensures Inv(Step(s, e).value)
  {
    CallPresents(s, e.call);
    hide Lookup, Inv, Presents, After;
    CallStep(s, Step(s, e).value, e.call);
  }

  lemma {:induction false} ScanKeeps(s: State, e: Event)
    requires Inv(s) && Step(s, e).Some? && (e.RevokeScan? || e.RevokeAllScan?)
    ensures Inv(Step(s, e).value)
  {
    if e.RevokeScan? {
      assert CallOk(s.rows, s.rotations, s.clock, s.calls[e.call]);
    }
    assert Split(s.rotations, |s.rows|, s.clock) by {
      forall n | 0 <= n < |s.rotations| ensures s.rotations[n].child < |s.rows| && s.rotations[n].span.to < s.clock {
        assert RotationOk(s.rows, s.rotations[n], s.clock);
      }
    }
    hide Inv, Split;
    CallStep(s, Step(s, e).value, e.call);
  }

  lemma InvRows(s: State)
    requires Inv(s)
    ensures RowsOk(s.rows, s.clock) && HashesDistinct(s.rows)
    ensures RotationsOk(s.rows, s.rotations, s.clock) && Derived(s.rows, s.rotations) && CallsOk(s) && PendingFresh(s)
  {
    hide RowsOk, HashesDistinct, RotationsOk, Derived, CallsOk, PendingFresh;
  }

  /** A step that changes rows but adds no rotation. */
  lemma {:induction false} RowsStep(s: State, s': State, call: int)
    requires Inv(s) && s'.rotations == s.rotations && s'.clock == s.clock + 1
    requires Extends(s.rows, s'.rows) && RowsOk(s'.rows, s'.clock) && HashesDistinct(s'.rows) && SamePointers(s.rows, s'.rows)
    requires s'.calls == s.calls || s'.calls == s.calls - {call}
    requires forall i :: |s.rows| <= i < |s'.rows| ==> Fresh(s, s'.rows[i].hash)
    ensures Inv(s')
  {
    hide RowsOk, HashesDistinct, RotationsOk, Derived, CallsOk, PendingFresh, Extends, Fresh, SamePointers;
    NoneAdded(s.rotations, |s.rows|, s.clock);
    CallsCarry(s, s', call);
    RotationsCarry(s.rows, s'.rows, s.rotations, s.clock);
    SameDerived(s.rows, s'.rows, s.rotations);
    FreshRows(s, s');
    PendingStays(s, s');
  }

  lemma NoneAdded(rotations: seq<Rotation>, size: nat, clock: nat)
    ensures Grown(rotations, rotations, size, clock)
  {}

  lemma FreshRows(s: State, s': State)
    requires forall i :: |s.rows| <= i < |s'.rows| ==> Fresh(s, s'.rows[i].hash)
    requires forall c :: c in s'.calls ==> c in s.calls && s'.calls[c] == s.calls[c]
    ensures forall i, c :: |s.rows| <= i < |s'.rows| && c in s'.calls && s'.calls[c].Inserted? ==>
      s'.rows[i].hash != s'.calls[c].row.hash
  {
    hide Lookup;
  }

  lemma {:induction false} PendingStays(s: State, s': State)
    requires PendingFresh(s) && Extends(s.rows, s'.rows)
    requires forall c :: c in s'.calls ==> c in s.calls && s'.calls[c] == s.calls[c]
    requires forall i, c :: |s.rows| <= i < |s'.rows| && c in s'.calls && s'.calls[c].Inserted? ==>
      s'.rows[i].hash != s'.calls[c].row.hash
    ensures PendingFresh(s')
  {
    forall c | c in s'.calls && s'.calls[c].Inserted? ensures Unused(s'.rows, s'.calls[c].row.hash) {
      assert Unused(s.rows, s.calls[c].row.hash);
      forall i | 0 <= i < |s'.rows| ensures s'.rows[i].hash != s'.calls[c].row.hash {
        if i < |s.rows| {
          assert Succeeds(s.rows[i], s'.rows[i]);
        }
      }
    }
  }

  /** Rows that keep their hash, family and pointer; only such rows, and unrooted ones after
      them, need no new rotation. */
  ghost predicate SamePointers(rows: seq<Row>, rows': seq<Row>) {
    && |rows| <= |rows'|
    && (forall i :: 0 <= i < |rows| ==>
          rows'[i].hash == rows[i].hash && rows'[i].replacedBy == rows[i].replacedBy
          && (rows'[i].family == rows[i].family || (rows[i].family == UNROOTED && rows'[i].family == i)))
    && (forall i :: |rows| <= i < |rows'| ==> rows'[i].family == UNROOTED && rows'[i].replacedBy.None?)
  }

  lemma SameDerived(rows: seq<Row>, rows': seq<Row>, rotations: seq<Rotation>)
    requires Derived(rows, rotations) && SamePointers(rows, rows')
    ensures Derived(rows', rotations)
  {
    hide Rotated;
  }

  lemma SameHashes(rows: seq<Row>, rows': seq<Row>)
    requires HashesDistinct(rows) && SamePointers(rows, rows') && |rows| == |rows'|
    ensures HashesDistinct(rows')
  {}

  lemma {:induction false} RowsAfterIssue(rows: seq<Row>, r: Row, clock: nat)
    requires RowsOk(rows, clock) && HashesDistinct(rows) && Unused(rows, r.hash)
    requires r == Row(r.user, r.hash, UNROOTED, r.issuedAt + REFRESH_TTL, None, None, r.issuedAt)
    ensures RowsOk(rows + [r], clock + 1) && Extends(rows, rows + [r]) && SamePointers(rows, rows + [r])
    ensures HashesDistinct(rows + [r])
  {
    var rows', clock' := rows + [r], clock + 1;
    forall i | 0 <= i < |rows'| ensures RowOk(rows', i, clock') {
      if i < |rows| {
        assert RowOk(rows, i, clock);
      }
    }
    hide RowOk;
  }

  lemma IssueShape(s: State, e: Event)
    requires Step(s, e).Some? && e.IssueInsert?
    ensures var r := Row(e.user, e.hash, UNROOTED, e.now + REFRESH_TTL, None, None, e.now);
      Step(s, e).value == s.(rows := s.rows + [r], clock := s.clock + 1) && Fresh(s, e.hash) && Unused(s.rows, e.hash)
  {
    hide Lookup;
  }

  lemma {:induction false} IssueKeeps(s: State, e: Event)
    requires Inv(s) && Step(s, e).Some? && e.IssueInsert?
    ensures Inv(Step(s, e).value)
  {
    hide Inv, Step, Lookup, Fresh, Unused, RowsOk, RotationsOk, CallsOk, PendingFresh, Derived, HashesDistinct, Extends, SamePointers;
    IssueShape(s, e);
    InvRows(s);
    RowsAfterIssue(s.rows, Row(e.user, e.hash, UNROOTED, e.now + REFRESH_TTL, None, None, e.now), s.clock);
    RowsStep(s, Step(s, e).value, -1);
  }

  lemma {:induction false} RowsAfterRoot(rows: seq<Row>, id: int, clock: nat)
    requires RowsOk(rows, clock) && HashesDistinct(rows) && 0 <= id < |rows| && rows[id].family == UNROOTED
    ensures var rows' := rows[id := rows[id].(family := id)];
      RowsOk(rows', clock + 1) && Extends(rows, rows') && SamePointers(rows, rows') && HashesDistinct(rows')
  {
    var rows', clock' := rows[id := rows[id].(family := id)], clock + 1;
    assert RowOk(rows, id, clock);
    forall k | 0 <= k < |rows| ensures RowOk(rows', k, clock') {
      assert RowOk(rows, k, clock);
    }
    hide RowOk;
    SameHashes(rows, rows');
  }

  lemma RootShape(s: State, e: Event)
    requires Step(s, e).Some? && e.IssueRoot?
    ensures 0 <= e.id < |s.rows| && s.rows[e.id].family == UNROOTED
    ensures Step(s, e).value == s.(rows := s.rows[e.id := s.rows[e.id].(family := e.id)], clock := s.clock + 1)
  {}

  lemma {:induction false} RootKeeps(s: State, e: Event)
    requires Inv(s) && Step(s, e).Some? && e.IssueRoot?
    ensures Inv(Step(s, e).value)
  {
    hide Inv, Step, RowsOk, RotationsOk, CallsOk, PendingFresh, Derived, HashesDistinct, Extends, SamePointers;
    RootShape(s, e);
    InvRows(s);
    RowsAfterRoot(s.rows, e.id, s.clock);
    RowsStep(s, Step(s, e).value, -1);
  }

  lemma {:induction false} RowsAfterRevoke(rows: seq<Row>, scope: Scope, visible: nat, span: Span, clock: nat)
    requires RowsOk(rows, clock) && HashesDistinct(rows) && span.from < span.to == clock
    ensures var rows' := RevokeRows(rows, scope, visible, span);
      RowsOk(rows', clock + 1) && Extends(rows, rows') && SamePointers(rows, rows') && HashesDistinct(rows')
  {
    var rows', clock' := RevokeRows(rows, scope, visible, span), clock + 1;
    assert forall k :: 0 <= k < |rows| ==>
      rows'[k] == rows[k] || (rows[k].revoked.None? && rows'[k] == rows[k].(revoked := Some(span)));
    hide RevokeRows, InScope;
    forall k | 0 <= k < |rows| ensures RowOk(rows', k, clock') {
      assert RowOk(rows, k, clock);
    }
    hide RowOk;
    SameHashes(rows, rows');
  }

  lemma RevokeShape(s: State, e: Event)
    requires Step(s, e).Some? && e.RevokeWrite?
    ensures e.call in s.calls && s.calls[e.call].Scanned?
    ensures var c := s.calls[e.call];
      Step(s, e).value == s.(rows := RevokeRows(s.rows, c.scope, c.visible, Span(c.since, s.clock)),
                             calls := s.calls - {e.call}, clock := s.clock + 1)
  {
    hide RevokeRows;
  }

  lemma ScannedOk(s: State, call: int)
    requires Inv(s) && call in s.calls && s.calls[call].Scanned?
    ensures s.calls[call].since < s.clock && s.calls[call].visible <= |s.rows|
    ensures Split(s.rotations, s.calls[call].visible, s.calls[call].since)
  {
    assert CallOk(s.rows, s.rotations, s.clock, s.calls[call]);
  }

  lemma {:induction false} RevokeKeeps(s: State, e: Event)
    requires Inv(s) && Step(s, e).Some? && e.RevokeWrite?
    ensures Inv(Step(s, e).value)
  {
    hide Inv, Step, RowsOk, RotationsOk, CallsOk, PendingFresh, Derived, HashesDistinct, Extends, SamePointers, RevokeRows, Split;
    RevokeShape(s, e);
    InvRows(s);
    ScannedOk(s, e.call);
    var c := s.calls[e.call];
    RowsAfterRevoke(s.rows, c.scope, c.visible, Span(c.since, s.clock), s.clock);
    SameLength(s.rows, c.scope, c.visible, Span(c.since, s.clock));
    RowsStep(s, Step(s, e).value, e.call);
  }

  lemma SameLength(rows: seq<Row>, scope: Scope, visible: nat, span: Span)
    ensures |RevokeRows(rows, scope, visible, span)| == |rows|
  {}

  lemma {:induction false} CommitRows(s: State, p: int, row: Row)
    requires RowsOk(s.rows, s.clock) && HashesDistinct(s.rows) && Unused(s.rows, row.hash)
    requires 0 <= p < |s.rows| && IsFamily(s.rows, row.family) && s.rows[p].family == row.family
    requires row == Row(s.rows[p].user, row.hash, row.family, s.rows[p].expires, None, None, s.rows[p].issuedAt)
    ensures var rows' := Succeed(s.rows, p, row);
      Extends(s.rows, rows') && RowsOk(rows', s.clock + 1) && HashesDistinct(rows')
  {
    var rows', clock' := Succeed(s.rows, p, row), s.clock + 1;
    assert RowOk(s.rows, p, s.clock);
    forall i | 0 <= i < |rows'| ensures RowOk(rows', i, clock') {
      if i < |s.rows| {
        assert RowOk(s.rows, i, s.clock);
      }
    }
    hide RowOk;
    assert forall i :: 0 <= i < |s.rows| ==> rows'[i].hash == s.rows[i].hash;
  }

  lemma {:induction false} CommitDerived(rows: seq<Row>, rotations: seq<Rotation>, p: int, row: Row, r: Rotation)
    requires Derived(rows, rotations) && 0 <= p < |rows| && r.parent == p && r.child == |rows| && row.replacedBy.None?
    ensures Derived(Succeed(rows, p, row), rotations + [r])
  {
    var rows', rotations' := Succeed(rows, p, row), rotations + [r];
    assert rotations'[|rotations|] == r && forall n :: 0 <= n < |rotations| ==> rotations'[n] == rotations[n];
    forall i | 0 <= i < |rows'| && rows'[i].family != UNROOTED && rows'[i].family != i
      ensures exists n :: 0 <= n < |rotations'| && rotations'[n].child == i
    {
      if i < |rows| {
        var n :| 0 <= n < |rotations| && rotations[n].child == i;
        assert rotations'[n].child == i;
      }
    }
    forall i | 0 <= i < |rows'| && rows'[i].replacedBy.Some? ensures Rotated(rotations', i, rows'[i].replacedBy.value) {
      if i != p {
        var n :| 0 <= n < |rotations| && rotations[n].parent == i && rotations[n].child == rows[i].replacedBy.value;
        assert rotations'[n].parent == i;
      }
    }
  }

  lemma {:induction false} CommitRotations(s: State, p: int, row: Row, r: Rotation)
    requires RotationsOk(s.rows, s.rotations, s.clock) && 0 <= p < |s.rows|
    requires Presents(s.rows, s.rows[p].hash, r.family, r.checkedAt, p) && Extends(s.rows, Succeed(s.rows, p, row)) && row.family == r.family
    requires r.parent == p && r.child == |s.rows| && r.span.to == s.clock && r.span.from < s.clock
    requires After(s.rotations, p, r.span.from)
    ensures RotationsOk(Succeed(s.rows, p, row), s.rotations + [r], s.clock + 1)
  {
    var rows', rotations' := Succeed(s.rows, p, row), s.rotations + [r];
    RotationsCarry(s.rows, rows', s.rotations, s.clock);
    forall n | 0 <= n < |s.rotations| ensures PairOk(s.rotations[n], r) {
      assert RotationOk(s.rows, s.rotations[n], s.clock);
    }
    assert RotationOk(rows', r, s.clock + 1);
    hide RotationOk, PairOk, Extends, Succeed;
  }

  /** The row a commit presents, and the rotation it adds. */
  lemma {:induction false} CommitShape(s: State, e: Event) returns (p: int, r: Rotation)
    requires Inv(s) && Step(s, e).Some? && e.RotateCommit?
    ensures e.call in s.calls && s.calls[e.call].Inserted?
    ensures var c := s.calls[e.call];
      && Presents(s.rows, c.hash, c.row.family, c.checkedAt, p) && After(s.rotations, p, c.since) && c.since < s.clock
      && c.row == Row(s.rows[p].user, c.row.hash, c.row.family, s.rows[p].expires, None, None, s.rows[p].issuedAt)
      && r == Rotation(p, |s.rows|, c.row.family, c.checkedAt, e.now, Span(c.since, s.clock))
      && Step(s, e).value == State(Succeed(s.rows, p, c.row), s.calls - {e.call}, s.rotations + [r], s.clock + 1)
  {
    hide Inv, Lookup, Succeed, After;
    CallPresents(s, e.call);
    var c := s.calls[e.call];
    p := Lookup(s.rows, c.hash).value;
    r := Rotation(p, |s.rows|, c.row.family, c.checkedAt, e.now, Span(c.since, s.clock));
  }

  lemma PendingUnused(s: State, call: int)
    requires PendingFresh(s) && call in s.calls && s.calls[call].Inserted?
    ensures Unused(s.rows, s.calls[call].row.hash)
  {}

  lemma OneAdded(rotations: seq<Rotation>, r: Rotation, size: nat, clock: nat)
    requires size <= r.child && r.span.to == clock
    ensures Grown(rotations, rotations + [r], size, clock)
  {}

  lemma {:induction false} CommitKeeps(s: State, e: Event)
    requires Inv(s) && Step(s, e).Some? && e.RotateCommit?
    ensures Inv(Step(s, e).value)
  {
    hide Step, Succeed, RowsOk, HashesDistinct, RotationsOk, Derived, CallsOk, Extends, After, PendingFresh, Unused, Grown;
    var p, r := CommitShape(s, e);
    var c, s' := s.calls[e.call], Step(s, e).value;
    PendingUnused(s, e.call);
    CommitRows(s, p, c.row);
    CommitRotations(s, p, c.row, r);
    CommitDerived(s.rows, s.rotations, p, c.row, r);
    CommitPending(s, s', e.call, p);
    OneAdded(s.rotations, r, |s.rows|, s.clock);
    CallsCarry(s, s', e.call);
  }

  lemma {:induction false} CommitPending(s: State, s': State, call: int, p: int)
    requires PendingFresh(s) && call in s.calls && s.calls[call].Inserted? && 0 <= p < |s.rows|
    requires s'.rows == Succeed(s.rows, p, s.calls[call].row) && s'.calls == s.calls - {call}
    requires Extends(s.rows, s'.rows)
    ensures PendingFresh(s')
  {
    assert |s'.rows| == |s.rows| + 1 && s'.rows[|s.rows|] == s.calls[call].row;
    hide Succeed;
    PendingStays(s, s');
  }

  /** Every step of any interleaving keeps the invariant. */
  lemma {:induction false} StepKeepsInv(s: State, e: Event)
    requires Inv(s) && Step(s, e).Some?
    ensures Inv(Step(s, e).value)
  {
    match e
    case IssueInsert(_, _, _) => IssueKeeps(s, e);
    case IssueRoot(_) => RootKeeps(s, e);
    case RotateRead(_, _, _) => ReadKeeps(s, e);
    case LogoutRead(_, _) => LogoutReadKeeps(s, e);
    case RotateSelect(_) => SelectKeeps(s, e);
    case RotateInsert(_, _) => InsertRowKeeps(s, e);
    case RotateCommit(_, _) => CommitKeeps(s, e);
    case RevokeScan(_) => ScanKeeps(s, e);
    case RevokeAllScan(_, _) => ScanKeeps(s, e);
    case RevokeWrite(_) => RevokeKeeps(s, e);
    case Abandon(call) =>
      hide Inv;
      CallStep(s, Step(s, e).value, call);
    hide Inv, Effect;
  }

  lemma {:induction false} ReachableInv(run: seq<Event>)
    requires Exec(EMPTY, run).Some?
    ensures Inv(Exec(EMPTY, run).value)
  {
    hide Step, Inv;
    if |run| == 0 {
      EmptyInv();
    } else {
      ReachableInv(run[..|run| - 1]);
      StepKeepsInv(Exec(EMPTY, run[..|run| - 1]).value, run[|run| - 1]);
    }
  }

  lemma EmptyInv()
    ensures Inv(EMPTY)
  {}
}
