/** What refresh-token rotation guarantees, and exactly when: families are trees whatever
    interleaves, and single chains that are revoked as one exactly when no two rotations of a
    token and no rotation and revocation of its family overlap. */
module RefreshSafety {
  import opened Domain
  import opened RefreshTokens

  ghost predicate Reachable(s: State) {
    exists run :: Exec(EMPTY, run) == Some(s)
  }

  lemma ReachableHasInv(s: State)
    requires Reachable(s)
    ensures Inv(s)
  {
    var run :| Exec(EMPTY, run) == Some(s);
    ReachableInv(run);
  }

  // ---------- whatever interleaves ----------

  /** Every token but the root of its family has exactly one predecessor, an older token of the
      same family and user; so a family is a tree grown from its root, and has no cycle. */
  lemma FamilyIsTree(s: State, i: int)
    requires Reachable(s) && 0 <= i < |s.rows| && s.rows[i].family != UNROOTED
    ensures IsFamily(s.rows, s.rows[i].family) && s.rows[i].user == s.rows[s.rows[i].family].user
    ensures s.rows[i].family != i ==>
      exists n :: 0 <= n < |s.rotations| && s.rotations[n].child == i
        && 0 <= s.rotations[n].parent < i && s.rows[s.rotations[n].parent].family == s.rows[i].family
    ensures forall n, m :: 0 <= n < m < |s.rotations| ==> s.rotations[n].child != s.rotations[m].child
  {
    ReachableHasInv(s);
    assert RowOk(s.rows, i, s.clock);
    hide CallsOk, PendingFresh, HashesDistinct, RowsOk;
    if s.rows[i].family != i {
      var n :| 0 <= n < |s.rotations| && s.rotations[n].child == i;
      assert RotationOk(s.rows, s.rotations[n], s.clock);
    }
    forall n, m | 0 <= n < m < |s.rotations| ensures s.rotations[n].child != s.rotations[m].child {
      assert PairOk(s.rotations[n], s.rotations[m]);
    }
  }

  /** A token can only be rotated twice by two transactions that overlap: one begun after the
      other committed finds the token replaced. */
  lemma TwiceOnlyIfOverlapping(s: State, n: nat, m: nat)
    requires Reachable(s) && n < m < |s.rotations| && s.rotations[n].parent == s.rotations[m].parent
    ensures Overlap(s.rotations[n].span, s.rotations[m].span)
  {
    ReachableHasInv(s);
    assert PairOk(s.rotations[n], s.rotations[m]);
  }

  /** No rotation gets past its expiry check at or after the login plus 30 days, because every
      successor carries the first token's expiry. */
  lemma RotationsBeforeExpiry(s: State, n: nat)
    requires Reachable(s) && n < |s.rotations|
    ensures var r := s.rotations[n];
      && IsFamily(s.rows, r.family)
      && r.checkedAt < s.rows[r.family].issuedAt + REFRESH_TTL
      && 0 <= r.child < |s.rows| && s.rows[r.child].expires == s.rows[r.family].issuedAt + REFRESH_TTL
  {
    ReachableHasInv(s);
    assert RotationOk(s.rows, s.rotations[n], s.clock);
    assert RowOk(s.rows, s.rotations[n].child, s.clock);
  }

  /** Reuse detection, exactly: a lookup leads to revoking the token's family if and only if
      the token has been replaced, and a rotation's select if and only if the token has been
      replaced or revoked since the lookup. A lookup lets exactly a live and unexpired token go on.
      Neither adds a rotation. */
  lemma ReuseIsDetected(s: State, e: Event, i: int)
    requires Reachable(s) && Step(s, e).Some? && 0 <= i < |s.rows| && s.rows[i].family != UNROOTED
    requires (e.RotateRead? && e.hash == s.rows[i].hash) || (e.RotateSelect? && s.calls[e.call].hash == s.rows[i].hash)
    ensures var s' := Step(s, e).value;
      && s'.rotations == s.rotations && s'.rows == s.rows && IsFamily(s.rows, s.rows[i].family)
      && ((e.call in s'.calls && s'.calls[e.call] == Revoking(s.rows[i].family)) <==>
          if e.RotateRead? then s.rows[i].replacedBy.Some? else !Live(s.rows[i]))
      && (e.RotateRead? ==>
            (e.call in s'.calls && s'.calls[e.call].Ready? <==> Live(s.rows[i]) && e.now < s.rows[i].expires))
  {
    ReachableHasInv(s);
    LookupIs(s.rows, i);
    assert RowOk(s.rows, i, s.clock);
    if e.RotateSelect? {
      CallPresents(s, e.call);
    }
    hide Lookup, Inv;
  }

  // ---------- sound families ----------

  /** A row points to the next row of its family; the newest row points nowhere. */
  ghost predicate NextOk(rows: seq<Row>, i: int)
    requires 0 <= i < |rows|
  {
    match rows[i].replacedBy
    case None => forall k :: i < k < |rows| ==> rows[k].family != rows[i].family
    case Some(j) =>
      && i < j < |rows| && rows[j].family == rows[i].family
      && forall k :: i < k < j ==> rows[k].family != rows[i].family
  }

  /** The family is one chain, and all of it is revoked or none. */
  ghost predicate Sound(rows: seq<Row>, f: int) {
    IsFamily(rows, f) ==> forall i :: 0 <= i < |rows| && rows[i].family == f ==>
      NextOk(rows, i) && (rows[i].revoked.Some? <==> rows[f].revoked.Some?)
  }

  /** Both rotate the same token, of family f. */
  predicate RotateSame(a: Rotation, b: Rotation, f: int) {
    a.family == b.family == f && a.parent == b.parent
  }

  /** No two rotations of one token overlapped, and none overlapped the statement that revoked
      the family. */
  ghost predicate NoOverlap(s: State, f: int) {
    && (forall n, m :: 0 <= n < m < |s.rotations| && RotateSame(s.rotations[n], s.rotations[m], f) ==>
          !Overlap(s.rotations[n].span, s.rotations[m].span))
    && (IsFamily(s.rows, f) && s.rows[f].revoked.Some? ==>
          forall n :: 0 <= n < |s.rotations| && s.rotations[n].family == f ==>
            !Overlap(s.rotations[n].span, s.rows[f].revoked.value))
  }

  /** The family a transaction under way is adding to, once its select is done. */
  function Adding(c: Call): Option<int> {
    match c
    case Selected(_, _, f, _, _) => Some(f)
    case Inserted(_, row, _, _) => Some(row.family)
    case _ => None
  }

  /** Calls in a sound family selected before the family was revoked. */
  ghost predicate SelectedBefore(s: State, f: int) {
    IsFamily(s.rows, f) && s.rows[f].revoked.Some? ==>
      forall c :: c in s.calls && Adding(s.calls[c]) == Some(f) ==> s.calls[c].since < s.rows[f].revoked.value.to
  }

  /** What the transaction's condition is for: a successor keeps a family sound exactly when
      its parent is live at the moment the successor is committed. */
  lemma {:induction false} SuccessorNeedsLiveParent(rows: seq<Row>, clock: nat, p: int, row: Row)
    requires RowsOk(rows, clock) && 0 <= p < |rows| && IsFamily(rows, rows[p].family) && Sound(rows, rows[p].family)
    requires row.family == rows[p].family && Live(row)
    ensures Sound(Succeed(rows, p, row), rows[p].family) <==> Live(rows[p])
  {
    var rows', f := Succeed(rows, p, row), rows[p].family;
    assert RowOk(rows, p, clock) && NextOk(rows, p);
    assert forall k :: 0 <= k < |rows| ==> rows'[k] == if k == p then rows[k].(replacedBy := Some(|rows|)) else rows[k];
    assert rows'[|rows|] == row && IsFamily(rows', f);
    hide Succeed, RowOk, RowsOk;
    if Live(rows[p]) {
      forall i | 0 <= i < |rows'| && rows'[i].family == f
        ensures NextOk(rows', i) && (rows'[i].revoked.Some? <==> rows'[f].revoked.Some?)
      {
        if i < |rows| && i != p {
          assert NextOk(rows, i);
        }
      }
    } else if rows[p].replacedBy.Some? {
      var j := rows[p].replacedBy.value;
      assert rows'[j].family == f && p < j < |rows|;
      assert !NextOk(rows', p);
    } else {
      assert rows'[f].revoked.Some? && rows'[|rows|].revoked.None?;
    }
  }

  /** A step that adds no row to the family, moves no pointer and revokes nothing in it. */
  ghost predicate SameFamily(rows: seq<Row>, rows': seq<Row>, f: int) {
    && |rows| <= |rows'|
    && (forall i :: 0 <= i < |rows| ==> (rows[i].family == f <==> rows'[i].family == f) && (rows[i].family == f ==> rows'[i] == rows[i]))
    && (forall i :: |rows| <= i < |rows'| ==> rows'[i].family != f)
  }

  lemma SameStaysSound(rows: seq<Row>, rows': seq<Row>, f: int, clock: nat)
    requires SameFamily(rows, rows', f) && RowsOk(rows, clock)
    ensures Sound(rows', f) <==> Sound(rows, f)
    ensures IsFamily(rows', f) <==> IsFamily(rows, f)
  {
    forall i | 0 <= i < |rows| && rows[i].family == f && f != UNROOTED ensures NextOk(rows', i) <==> NextOk(rows, i) {
      assert RowOk(rows, i, clock);
    }
  }

  /** The steps that change rows. */
  predicate Writes(e: Event) {
    e.IssueInsert? || e.IssueRoot? || e.RotateCommit? || e.RevokeWrite?
  }

  lemma {:induction false} ReadOnly(s: State, e: Event)
    requires Step(s, e).Some? && !Writes(e)
    ensures Step(s, e).value.rows == s.rows && Step(s, e).value.rotations == s.rotations
  {
    hide Lookup, Fresh;
  }

  /** A commit in f, a revocation, or the rooting of f. */
  ghost predicate Touches(s: State, e: Event, f: int) {
    || (e.RotateCommit? && e.call in s.calls && s.calls[e.call].Inserted? && s.calls[e.call].row.family == f)
    || e.RevokeWrite?
    || (e.IssueRoot? && e.id == f)
  }

  ghost predicate NoneOf(rotations: seq<Rotation>, rotations': seq<Rotation>, f: int) {
    && rotations <= rotations'
    && forall n :: |rotations| <= n < |rotations'| ==> rotations'[n].family != f
  }

  /** The row a commit presents, and the rotation it adds. */
  lemma {:induction false} CommitFacts(s: State, e: Event) returns (p: int)
    requires Inv(s) && Step(s, e).Some? && e.RotateCommit?
    ensures e.call in s.calls && s.calls[e.call].Inserted?
    ensures var c, s' := s.calls[e.call], Step(s, e).value;
      && Presents(s.rows, c.hash, c.row.family, c.checkedAt, p) && After(s.rotations, p, c.since)
      && s'.rows == Succeed(s.rows, p, c.row) && Live(c.row) && c.since < s.clock
      && s'.rotations == s.rotations + [Rotation(p, |s.rows|, c.row.family, c.checkedAt, e.now, Span(c.since, s.clock))]
      && s'.calls == s.calls - {e.call}
  {
    hide Inv, Step, Succeed, After, Presents;
    var r;
    p, r := CommitShape(s, e);
  }

  lemma {:induction false} CommitElsewhere(s: State, e: Event, f: int)
    requires Inv(s) && Step(s, e).Some? && !Touches(s, e, f) && f != UNROOTED && e.RotateCommit?
    ensures SameFamily(s.rows, Step(s, e).value.rows, f) && NoneOf(s.rotations, Step(s, e).value.rotations, f)
  {
    var p := CommitFacts(s, e);
    SucceedElsewhere(s.rows, p, s.calls[e.call].row, f);
    hide Step, Inv, Succeed, After, SameFamily, Presents;
  }

  lemma SucceedElsewhere(rows: seq<Row>, p: int, row: Row, f: int)
    requires 0 <= p < |rows| && rows[p].family == row.family != f
    ensures SameFamily(rows, Succeed(rows, p, row), f)
  {}

  lemma {:induction false} IssueElsewhere(s: State, e: Event, f: int)
    requires Step(s, e).Some? && !Touches(s, e, f) && f != UNROOTED && (e.IssueInsert? || e.IssueRoot?)
    ensures SameFamily(s.rows, Step(s, e).value.rows, f) && NoneOf(s.rotations, Step(s, e).value.rotations, f)
  {
    hide Lookup, Fresh;
  }

  lemma {:induction false} UntouchedFamily(s: State, e: Event, f: int)
    requires Inv(s) && Step(s, e).Some? && !Touches(s, e, f) && f != UNROOTED
    ensures SameFamily(s.rows, Step(s, e).value.rows, f) && NoneOf(s.rotations, Step(s, e).value.rotations, f)
  {
    hide Inv, Step;
    if e.RotateCommit? {
      CommitElsewhere(s, e, f);
    } else if e.IssueInsert? || e.IssueRoot? {
      IssueElsewhere(s, e, f);
    } else {
      ReadOnly(s, e);
    }
  }

  /** A transaction past its select was so before the step, or has just selected a live row. */
  lemma {:induction false} AddingStep(s: State, e: Event, c: int, f: int)
    requires Inv(s) && Step(s, e).Some? && c in Step(s, e).value.calls && Adding(Step(s, e).value.calls[c]) == Some(f)
    ensures || (c in s.calls && Adding(s.calls[c]) == Some(f) && s.calls[c].since == Step(s, e).value.calls[c].since)
            || (e.RotateSelect? && exists p :: 0 <= p < |s.rows| && s.rows[p].family == f && Live(s.rows[p]))
  {
    hide Lookup, Inv, Fresh;
  }

  /** A transaction past its select adds to a family that exists. */
  lemma AddingFamily(s: State, c: int, f: int)
    requires Inv(s) && c in s.calls && Adding(s.calls[c]) == Some(f)
    ensures IsFamily(s.rows, f) && s.calls[c].since < s.clock
  {
    CallPresents(s, c);
    hide Inv;
  }

  // ---------- overlaps and soundness, step by step ----------

  ghost predicate SoundSoFar(s: State, f: int) {
    Sound(s.rows, f) && SelectedBefore(s, f)
  }

  lemma {:induction false} SelectedBeforeStep(s: State, e: Event, f: int)
    requires Inv(s) && Step(s, e).Some? && SoundSoFar(s, f)
    ensures SelectedBefore(Step(s, e).value, f)
  {
    var s' := Step(s, e).value;
    if IsFamily(s'.rows, f) && s'.rows[f].revoked.Some? {
      forall c | c in s'.calls && Adding(s'.calls[c]) == Some(f) ensures s'.calls[c].since < s'.rows[f].revoked.value.to {
        AddingStep(s, e, c, f);
        SelectedBeforeCall(s, e, c, f);
      }
    }
  }

  lemma {:induction false} SelectedBeforeCall(s: State, e: Event, c: int, f: int)
    requires Inv(s) && Step(s, e).Some? && SoundSoFar(s, f)
    requires var s' := Step(s, e).value;
      c in s'.calls && Adding(s'.calls[c]) == Some(f) && IsFamily(s'.rows, f) && s'.rows[f].revoked.Some?
    requires || (c in s.calls && Adding(s.calls[c]) == Some(f) && s.calls[c].since == Step(s, e).value.calls[c].since)
             || (e.RotateSelect? && exists p :: 0 <= p < |s.rows| && s.rows[p].family == f && Live(s.rows[p]))
    ensures Step(s, e).value.calls[c].since < Step(s, e).value.rows[f].revoked.value.to
  {
    if c in s.calls && Adding(s.calls[c]) == Some(f) {
      AddingFamily(s, c, f);
      RootRevoked(s, e, f);
      hide Step, Inv, Sound;
    } else {
      ReadOnly(s, e);
      hide Step, Inv;
    }
  }

  /** A family's root is revoked once, by the step that does it. */
  lemma {:induction false} RootRevoked(s: State, e: Event, f: int)
    requires Inv(s) && Step(s, e).Some? && IsFamily(s.rows, f)
    ensures var s' := Step(s, e).value;
      && IsFamily(s'.rows, f)
      && (s'.rows[f].revoked == s.rows[f].revoked
          || (&& e.RevokeWrite? && s.rows[f].revoked.None?
              && s'.rows[f].revoked == Some(Span(s.calls[e.call].since, s.clock))))
  {
    if !e.RevokeWrite? {
      if !Touches(s, e, f) {
        UntouchedFamily(s, e, f);
        hide Step;
      }
    }
    hide Lookup, Inv, Fresh;
  }

  /** If nothing overlaps after a step, nothing did before. */
  lemma {:induction false} NoOverlapBefore(s: State, e: Event, f: int)
    requires Inv(s) && Step(s, e).Some? && NoOverlap(Step(s, e).value, f)
    ensures NoOverlap(s, f)
  {
    var s' := Step(s, e).value;
    RotationsGrow(s, e);
    if IsFamily(s.rows, f) {
      RootRevoked(s, e, f);
    }
    hide Step, Inv, Overlap;
    assert forall n :: 0 <= n < |s.rotations| ==> s'.rotations[n] == s.rotations[n];
  }

  lemma {:induction false} RotationsGrow(s: State, e: Event)
    requires Inv(s) && Step(s, e).Some?
    ensures s.rotations <= Step(s, e).value.rotations
    ensures !e.RotateCommit? ==> Step(s, e).value.rotations == s.rotations
  {
    if !Writes(e) {
      ReadOnly(s, e);
      hide Step;
    }
    hide Inv, Lookup, Fresh;
  }

  /** The commit of a successor, in a sound family: sound after it if and only if nothing
      overlapped the rotation. */
  lemma {:induction false} CommitIff(s: State, e: Event, f: int)
    requires Inv(s) && Step(s, e).Some? && SoundSoFar(s, f) && NoOverlap(s, f)
    requires e.RotateCommit? && Touches(s, e, f)
    ensures Sound(Step(s, e).value.rows, f) <==> NoOverlap(Step(s, e).value, f)
  {
    var p := CommitFacts(s, e);
    var c, s' := s.calls[e.call], Step(s, e).value;
    SuccessorNeedsLiveParent(s.rows, s.clock, p, c.row);
    RootRevoked(s, e, f);
    if Live(s.rows[p]) {
      UnreplacedIsUnrotated(s, p);
      hide Inv, Step, Succeed, After;
      assert s.rows[f].revoked.None?;
    } else if s.rows[p].replacedBy.Some? {
      ReplacedOverlaps(s, s', p);
    } else {
      assert RowOk(s.rows, f, s.clock);
      hide Inv, Step, Succeed, After;
      assert s'.rotations[|s.rotations|].family == f && s'.rows[f].revoked == s.rows[f].revoked;
    }
  }

  /** A row that points somewhere has a rotation, which the one just added overlaps. */
  lemma {:induction false} ReplacedOverlaps(s: State, s': State, p: int)
    requires Inv(s) && 0 <= p < |s.rows| && s.rows[p].replacedBy.Some?
    requires |s'.rotations| == |s.rotations| + 1 && s.rotations <= s'.rotations
    requires var r := s'.rotations[|s.rotations|];
      r.parent == p && r.span.to == s.clock && r.family == s.rows[p].family && After(s.rotations, p, r.span.from)
    ensures !NoOverlap(s', s.rows[p].family)
  {
    assert Rotated(s.rotations, p, s.rows[p].replacedBy.value);
    var n :| 0 <= n < |s.rotations| && s.rotations[n].parent == p;
    assert RotationOk(s.rows, s.rotations[n], s.clock);
    assert s'.rotations[n] == s.rotations[n] && RotateSame(s'.rotations[n], s'.rotations[|s.rotations|], s.rows[p].family);
  }

  /** A revocation's write, in a sound family. */
  lemma {:induction false} RevokeIff(s: State, e: Event, f: int)
    requires Inv(s) && Step(s, e).Some? && SoundSoFar(s, f) && NoOverlap(s, f) && e.RevokeWrite?
    ensures Sound(Step(s, e).value.rows, f) <==> NoOverlap(Step(s, e).value, f)
  {
    hide Inv, Step, RevokeRows, Split, SelectedBefore, NextOk, Overlap;
    RevokeShape(s, e);
    ScannedOk(s, e.call);
    var c, s' := s.calls[e.call], Step(s, e).value;
    if IsFamily(s.rows, f) {
      RootRevoked(s, e, f);
      if s'.rows[f].revoked == s.rows[f].revoked {
        UnreachedFamily(s, c, s'.rows, f);
      } else {
        ReachedFamily(s, c, s', f);
      }
    } else {
      RevokeKeepsPointers(s.rows, c.scope, c.visible, Span(c.since, s.clock));
    }
  }

  /** If the write does not revoke the root, it changes nothing in the family. */
  lemma {:induction false} UnreachedFamily(s: State, c: Call, rows': seq<Row>, f: int)
    requires Inv(s) && c.Scanned? && rows' == RevokeRows(s.rows, c.scope, c.visible, Span(c.since, s.clock))
    requires Sound(s.rows, f) && IsFamily(s.rows, f) && rows'[f].revoked == s.rows[f].revoked
    ensures Sound(rows', f)
  {
    forall i | 0 <= i < |s.rows| && s.rows[i].family == f ensures rows'[i] == s.rows[i] {
      assert RowOk(s.rows, i, s.clock);
    }
    hide RevokeRows;
    SameStaysSound(s.rows, rows', f, s.clock);
  }

  /** Every token of the family was there at the scan. */
  ghost predicate AllSeen(rows: seq<Row>, f: int, visible: nat) {
    forall i :: 0 <= i < |rows| && rows[i].family == f ==> i < visible
  }

  lemma NextSame(rows: seq<Row>, rows': seq<Row>, i: int)
    requires |rows'| == |rows| && 0 <= i < |rows|
    requires forall k :: 0 <= k < |rows| ==> rows'[k].family == rows[k].family && rows'[k].replacedBy == rows[k].replacedBy
    ensures NextOk(rows', i) <==> NextOk(rows, i)
  {}

  /** Rows of a family have the owner of its root. */
  lemma FamilyUser(s: State, f: int, i: int)
    requires Inv(s) && IsFamily(s.rows, f) && 0 <= i < |s.rows| && s.rows[i].family == f
    ensures s.rows[i].user == s.rows[f].user && f <= i
  {
    assert RowOk(s.rows, i, s.clock);
  }

  lemma RevokeKeepsPointers(rows: seq<Row>, scope: Scope, visible: nat, span: Span)
    ensures var rows' := RevokeRows(rows, scope, visible, span);
      |rows'| == |rows| && forall k :: 0 <= k < |rows| ==> rows'[k] == rows[k].(revoked := rows'[k].revoked)
  {}

  /** The write revokes exactly the rows of the family that the scan saw. */
  lemma {:induction false} ReachedRow(s: State, c: Call, rows': seq<Row>, f: int, i: int)
    requires Inv(s) && c.Scanned? && rows' == RevokeRows(s.rows, c.scope, c.visible, Span(c.since, s.clock))
    requires Sound(s.rows, f) && IsFamily(s.rows, f) && 0 <= i < |s.rows| && s.rows[i].family == f
    requires s.rows[f].revoked.None? && rows'[f].revoked.Some?
    ensures rows'[i] == s.rows[i].(revoked := rows'[i].revoked) && (rows'[i].revoked.Some? <==> i < c.visible)
    ensures NextOk(rows', i)
  {
    hide Inv, NextOk;
    FamilyUser(s, f, i);
    RevokeKeepsPointers(s.rows, c.scope, c.visible, Span(c.since, s.clock));
    NextSame(s.rows, rows', i);
  }

  lemma {:induction false} ReachedSound(s: State, c: Call, rows': seq<Row>, f: int)
    requires Inv(s) && c.Scanned? && rows' == RevokeRows(s.rows, c.scope, c.visible, Span(c.since, s.clock))
    requires Sound(s.rows, f) && IsFamily(s.rows, f) && s.rows[f].revoked.None? && rows'[f].revoked.Some?
    ensures Sound(rows', f) <==> AllSeen(s.rows, f, c.visible)
  {
    forall i | 0 <= i < |s.rows| && s.rows[i].family == f
      ensures NextOk(rows', i) && (rows'[i].revoked.Some? <==> i < c.visible)
    {
      ReachedRow(s, c, rows', f, i);
    }
    assert forall i :: 0 <= i < |rows'| ==> rows'[i].family == s.rows[i].family;
    hide RevokeRows, Inv, NextOk;
  }

  /** Tokens the scan did not see came from rotations that overlap the statement. */
  lemma {:induction false} ReachedOverlap(s: State, c: Call, s': State, f: int)
    requires Inv(s) && c.Scanned? && s'.rotations == s.rotations && c.since < s.clock && Split(s.rotations, c.visible, c.since)
    requires NoOverlap(s, f) && IsFamily(s.rows, f) && IsFamily(s'.rows, f) && f < c.visible
    requires s'.rows[f].revoked == Some(Span(c.since, s.clock))
    ensures NoOverlap(s', f) <==> AllSeen(s.rows, f, c.visible)
  {
    forall i | 0 <= i < |s.rows| && s.rows[i].family == f && c.visible <= i ensures LateChild(s.rotations, i, f, c.since) {
      LateIsRotated(s, c, i);
    }
    forall n | 0 <= n < |s.rotations| ensures RotationOk(s.rows, s.rotations[n], s.clock) {}
    hide Inv;
  }

  /** If it does, the family stays sound exactly when nothing overlapped the statement. */
  lemma {:induction false} ReachedFamily(s: State, c: Call, s': State, f: int)
    requires Inv(s) && c.Scanned? && s'.rows == RevokeRows(s.rows, c.scope, c.visible, Span(c.since, s.clock))
    requires s'.rotations == s.rotations && c.since < s.clock && Split(s.rotations, c.visible, c.since)
    requires Sound(s.rows, f) && NoOverlap(s, f) && IsFamily(s.rows, f)
    requires s.rows[f].revoked.None? && s'.rows[f].revoked == Some(Span(c.since, s.clock))
    ensures Sound(s'.rows, f) <==> NoOverlap(s', f)
  {
    ReachedSound(s, c, s'.rows, f);
    ReachedOverlap(s, c, s', f);
  }

  ghost predicate LateChild(rotations: seq<Rotation>, i: int, f: int, since: nat) {
    exists n :: 0 <= n < |rotations| && rotations[n].child == i && rotations[n].family == f && since < rotations[n].span.to
  }

  lemma LateIsRotated(s: State, c: Call, i: int)
    requires Inv(s) && c.Scanned? && Split(s.rotations, c.visible, c.since)
    requires 0 <= i < |s.rows| && c.visible <= i && s.rows[i].family != UNROOTED && s.rows[i].family != i
    ensures LateChild(s.rotations, i, s.rows[i].family, c.since)
  {
    var n :| 0 <= n < |s.rotations| && s.rotations[n].child == i;
    assert RotationOk(s.rows, s.rotations[n], s.clock);
  }

  /** A new root is a sound family that nothing has rotated. */
  lemma {:induction false} NewFamily(s: State, e: Event, f: int)
    requires Inv(s) && Step(s, e).Some? && e == IssueRoot(f) && f >= 0
    ensures Sound(Step(s, e).value.rows, f) && NoOverlap(Step(s, e).value, f)
  {
    assert RowOk(s.rows, f, s.clock);
    forall i | 0 <= i < |s.rows| ensures s.rows[i].family != f {
      assert RowOk(s.rows, i, s.clock);
    }
    forall n | 0 <= n < |s.rotations| ensures s.rotations[n].family != f {
      assert RotationOk(s.rows, s.rotations[n], s.clock);
    }
    hide Inv;
  }

  lemma {:induction false} UntouchedIff(s: State, e: Event, f: int)
    requires Inv(s) && Step(s, e).Some? && !Touches(s, e, f) && f >= 0
    ensures Sound(Step(s, e).value.rows, f) <==> Sound(s.rows, f)
    ensures NoOverlap(s, f) ==> NoOverlap(Step(s, e).value, f)
  {
    var s' := Step(s, e).value;
    UntouchedFamily(s, e, f);
    SameStaysSound(s.rows, s'.rows, f, s.clock);
    hide Step, Inv, Sound, Overlap;
    assert forall n :: 0 <= n < |s.rotations| ==> s'.rotations[n] == s.rotations[n];
  }

  lemma {:induction false} StepIff(s: State, e: Event, f: int)
    requires Inv(s) && Step(s, e).Some? && SoundSoFar(s, f) && NoOverlap(s, f) && f >= 0
    ensures Sound(Step(s, e).value.rows, f) <==> NoOverlap(Step(s, e).value, f)
  {
    hide Inv, Step, Sound, NoOverlap, SelectedBefore;
    if !Touches(s, e, f) {
      UntouchedIff(s, e, f);
    } else if e.RotateCommit? {
      CommitIff(s, e, f);
    } else if e.RevokeWrite? {
      RevokeIff(s, e, f);
    } else {
      NewFamily(s, e, f);
    }
  }

  // ---------- the theorem ----------

  /** The family is a chain revoked as one after every step of the run. */
  ghost predicate AlwaysSound(run: seq<Event>, f: int) {
    forall k :: 0 <= k <= |run| ==> SoundAfter(run[..k], f)
  }

  ghost predicate SoundAfter(run: seq<Event>, f: int) {
    Exec(EMPTY, run).Some? && Sound(Exec(EMPTY, run).value.rows, f)
  }

  lemma AlwaysSoundSnoc(run: seq<Event>, f: int)
    requires |run| > 0
    ensures AlwaysSound(run, f) <==> AlwaysSound(run[..|run| - 1], f) && SoundAfter(run, f)
  {
    var p := run[..|run| - 1];
    assert forall k :: 0 <= k <= |p| ==> run[..k] == p[..k];
    assert run[..|run|] == run;
    hide SoundAfter;
    if AlwaysSound(run, f) {
      forall k | 0 <= k <= |p| ensures SoundAfter(p[..k], f) {
        assert SoundAfter(run[..k], f);
      }
      assert SoundAfter(run[..|run|], f);
    }
    if AlwaysSound(p, f) && SoundAfter(run, f) {
      forall k | 0 <= k <= |run| ensures SoundAfter(run[..k], f) {
        assert k <= |p| ==> SoundAfter(p[..k], f);
      }
    }
  }

  /** For every run and every family: the family is one chain, revoked as one, after every
      step if and only if no two rotations of one of its tokens overlapped each other and none
      overlapped the statement that revoked it. */
  lemma {:induction false} SoundIffNoOverlap(run: seq<Event>, f: int)
    requires Exec(EMPTY, run).Some? && f >= 0
    ensures AlwaysSound(run, f) <==> NoOverlap(Exec(EMPTY, run).value, f)
    ensures AlwaysSound(run, f) ==> SoundSoFar(Exec(EMPTY, run).value, f)
  {
    if |run| == 0 {
      assert run[..0] == run;
    } else {
      var p, e := run[..|run| - 1], run[|run| - 1];
      var q, s := Exec(EMPTY, p).value, Exec(EMPTY, run).value;
      SoundIffNoOverlap(p, f);
      AlwaysSoundSnoc(run, f);
      ReachableInv(p);
      hide Inv, Step, Sound, NoOverlap, SelectedBefore, AlwaysSound;
      if NoOverlap(q, f) {
        StepIff(q, e, f);
        SelectedBeforeStep(q, e, f);
      } else if NoOverlap(s, f) {
        NoOverlapBefore(q, e, f);
      }
    }
  }

  lemma NoOverlapIsSound(s: State, f: int)
    requires Reachable(s) && f >= 0 && NoOverlap(s, f)
    ensures Inv(s) && Sound(s.rows, f)
  {
    var run :| Exec(EMPTY, run) == Some(s);
    ReachableInv(run);
    SoundIffNoOverlap(run, f);
    hide Inv, Exec, NoOverlap, AlwaysSound, Sound;
  }
}
