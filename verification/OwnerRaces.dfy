/** The last-owner rule under interleaving (internal/api/members.go over
    internal/store/memberships.go and the trigger in internal/store/schema.sql). A request
    reads the target's role, then the owner count, then writes; the write locks its row, the
    trigger counts the other owners it can see, and the commit follows. Other requests act
    between any two of these, and the role on a request may be stale. */
module OwnerRaces {
  import opened Domain
  import opened Authz
  import opened Membership

  datatype Request =
    | Change(actor: Actor, target: int, newRole: Role)
    | Removal(actor: Actor, target: int)
    | Leaving(actor: Actor)
    | Handover(actor: Actor, target: int, stepDown: bool)

  /** What a request is about to write: a role, or None for a deletion. A handover with
      stepping down goes on to the caller's own row. */
  datatype Write = Write(target: int, role: Option<Role>, next: Option<int>)

  datatype Call =
    | Loaded(request: Request, found: Role)
    | Guarded(w: Write)
    | Counted(w: Write)

  datatype State = State(members: map<int, Role>, calls: map<int, Call>)

  datatype Event =
    | Load(call: int, request: Request)
    | Guard(call: int)
    | Trigger(call: int)
    | Commit(call: int)
    | Abort(call: int)
    | Join(user: int, role: Role)

  function End(s: State, call: int): State {
    s.(calls := s.calls - {call})
  }

  /** The membership read that comes first; leaving needs none. */
  function OnLoad(s: State, call: int, q: Request): Option<State> {
    if call in s.calls || !IsPrincipal(q.actor) then None
    else
      match q
      case Leaving(a) => Some(s.(calls := s.calls[call := Loaded(q, Viewer)]))
      case Handover(a, t, _) =>
        if Can(a, TransferOwnership, Resource(a.org, None, None, 0)).Deny? || t == a.user || t !in s.members then Some(s)
        else Some(s.(calls := s.calls[call := Loaded(q, s.members[t])]))
      case _ =>
        if q.target !in s.members then Some(s)
        else Some(s.(calls := s.calls[call := Loaded(q, s.members[q.target])]))
  }

  /** Which requests go on to their guard, and with which role read. */
  lemma LoadIff(s: State, call: int, q: Request)
    requires call !in s.calls && IsPrincipal(q.actor)
    ensures OnLoad(s, call, q).Some? && OnLoad(s, call, q).value.members == s.members
    ensures var calls := OnLoad(s, call, q).value.calls;
      && calls - {call} == s.calls - {call}
      && (q.Leaving? ==> call in calls)
      && (q.Handover? ==>
            (call in calls <==> && q.actor.kind == Human && q.actor.role == Some(Owner)
                                && q.target != q.actor.user && q.target in s.members))
      && (q.Change? || q.Removal? ==> (call in calls <==> q.target in s.members))
      && (call in calls ==>
            calls[call].Loaded? && calls[call].request == q && (!q.Leaving? ==> calls[call].found == s.members[q.target]))
  {
    hide Can;
    AllowedIff(q.actor, TransferOwnership, Resource(q.actor.org, None, None, 0));
  }

  /** The guard, on the role read before and the owner count read now. */
  function Decide(q: Request, found: Role, owners: int): Option<Write> {
    match q
    case Change(a, t, r) =>
      if Can(a, ChangeMemberRole, Resource(a.org, Some(found), Some(r), owners)).Deny? || r == found then None
      else Some(Write(t, Some(r), None))
    case Removal(a, t) =>
      if Can(a, RemoveMember, Resource(a.org, Some(found), None, owners)).Deny? then None
      else Some(Write(t, None, None))
    case Leaving(a) =>
      if a.role == Some(Owner) && EnsureNotLastOwner(Owner, owners).Deny? then None
      else Some(Write(a.user, None, None))
    case Handover(a, t, stepDown) => Some(Write(t, Some(Owner), if stepDown then Some(a.user) else None))
  }

  /** What a guard lets through, exactly: within one org, an admin or owner, an admin no owner,
      and nobody the last owner as far as the count read tells. */
  lemma DecideIff(q: Request, found: Role, owners: int)
    requires IsPrincipal(q.actor)
    ensures q.Change? ==>
      (Decide(q, found, owners) ==
        if && MayAct(q.actor, ChangeMemberRole, Resource(q.actor.org, Some(found), Some(q.newRole), owners))
           && q.newRole != found && (found == Owner ==> owners > 1)
        then Some(Write(q.target, Some(q.newRole), None)) else None)
    ensures q.Removal? ==>
      (Decide(q, found, owners) ==
        if MayAct(q.actor, RemoveMember, Resource(q.actor.org, Some(found), None, owners)) && (found == Owner ==> owners > 1)
        then Some(Write(q.target, None, None)) else None)
    ensures q.Leaving? ==>
      (Decide(q, found, owners) ==
        if q.actor.role == Some(Owner) ==> owners > 1 then Some(Write(q.actor.user, None, None)) else None)
    ensures q.Handover? ==>
      Decide(q, found, owners) == Some(Write(q.target, Some(Owner), if q.stepDown then Some(q.actor.user) else None))
  {
    hide Can;
    if q.Change? {
      AllowedIff(q.actor, ChangeMemberRole, Resource(q.actor.org, Some(found), Some(q.newRole), owners));
    } else if q.Removal? {
      AllowedIff(q.actor, RemoveMember, Resource(q.actor.org, Some(found), None, owners));
    }
  }

  function OnGuard(s: State, call: int): Option<State> {
    if call !in s.calls || !s.calls[call].Loaded? then None
    else
      var w := Decide(s.calls[call].request, s.calls[call].found, |Owners(s.members)|);
      if w.None? then Some(End(s, call)) else Some(s.(calls := s.calls[call := Guarded(w.value)]))
  }

  /** What follows a write: the caller's own step down, or nothing. */
  function After(s: State, call: int, w: Write): State {
    if w.next.Some? then s.(calls := s.calls[call := Guarded(Write(w.next.value, Some(Admin), None))]) else End(s, call)
  }

  /** Another statement holds the lock on the row. */
  predicate RowLocked(s: State, target: int) {
    exists c :: c in s.calls && s.calls[c].Counted? && s.calls[c].w.target == target
  }

  /** The statement finds its row, locks it, and the trigger counts the other owners. */
  function OnTrigger(s: State, call: int): Option<State> {
    if call !in s.calls || !s.calls[call].Guarded? || RowLocked(s, s.calls[call].w.target) then None
    else
      var w := s.calls[call].w;
      if w.target !in s.members then Some(After(s, call, w))
      else if w.role != Some(Owner) && Owners(s.members) - {w.target} == {} then Some(End(s, call))
      else Some(s.(calls := s.calls[call := Counted(w)]))
  }

  function Written(members: map<int, Role>, w: Write): map<int, Role> {
    if w.role.Some? then members[w.target := w.role.value] else members - {w.target}
  }

  function OnCommit(s: State, call: int): Option<State> {
    if call !in s.calls || !s.calls[call].Counted? then None
    else
      var w := s.calls[call].w;
      Some(After(s.(members := Written(s.members, w)), call, w))
  }

  /** One step, or None when the event cannot happen here. A request that errors or crashes
      just ends: `Abort`. Invitations add members below owner. */
  function Step(s: State, e: Event): Option<State> {
    match e
    case Load(call, q) => OnLoad(s, call, q)
    case Guard(call) => OnGuard(s, call)
    case Trigger(call) => OnTrigger(s, call)
    case Commit(call) => OnCommit(s, call)
    case Abort(call) => Some(End(s, call))
    case Join(user, role) =>
      if user in s.members || role == Owner then None else Some(s.(members := s.members[user := role]))
  }

  function Exec(s: State, run: seq<Event>): Option<State> {
    if |run| == 0 then Some(s)
    else
      var before := Exec(s, run[..|run| - 1]);
      if before.None? then None else Step(before.value, run[|run| - 1])
  }

  lemma {:induction false} Extend(start: State, run: seq<Event>, s: State, e: Event)
    requires Exec(start, run) == Some(s)
    ensures Exec(start, run + [e]) == Step(s, e)
  {
    assert (run + [e])[..|run|] == run;
  }

  // ---------- rows are locked by one statement at a time ----------

  ghost predicate Locks(s: State) {
    && (forall c :: c in s.calls && s.calls[c].Counted? ==> s.calls[c].w.target in s.members)
    && (forall c, d :: c in s.calls && d in s.calls && c != d && s.calls[c].Counted? && s.calls[d].Counted? ==>
          s.calls[c].w.target != s.calls[d].w.target)
  }

  /** The calls counted after a step were counted before it, but for the one that just was. */
  lemma {:induction false} CountedStep(s: State, e: Event, c: int)
    requires Step(s, e).Some? && c in Step(s, e).value.calls && Step(s, e).value.calls[c].Counted?
    ensures || (c in s.calls && s.calls[c] == Step(s, e).value.calls[c] && !(e.Commit? && e.call == c))
            || (&& e == Trigger(c) && c in s.calls && s.calls[c].Guarded? && Step(s, e).value.calls[c].w == s.calls[c].w
                && !RowLocked(s, s.calls[c].w.target) && s.calls[c].w.target in s.members
                && (s.calls[c].w.role == Some(Owner) || Owners(s.members) - {s.calls[c].w.target} != {}))
  {
    hide Can, Owners, RowLocked;
  }

  /** Only a commit changes a row that is there. */
  lemma {:induction false} MembersStep(s: State, e: Event)
    requires Step(s, e).Some?
    ensures var s' := Step(s, e).value;
      if e.Commit? then e.call in s.calls && s.calls[e.call].Counted? && s'.members == Written(s.members, s.calls[e.call].w)
      else if e.Join? then e.user !in s.members && e.role != Owner && s'.members == s.members[e.user := e.role]
      else s'.members == s.members
  {
    hide Can, Owners, RowLocked, Written;
  }

  lemma {:induction false} LocksStep(s: State, e: Event)
    requires Locks(s) && Step(s, e).Some?
    ensures Locks(Step(s, e).value)
  {
    var s' := Step(s, e).value;
    MembersStep(s, e);
    forall c | c in s'.calls && s'.calls[c].Counted?
      ensures s'.calls[c].w.target in s'.members
      ensures forall d :: d in s'.calls && d != c && s'.calls[d].Counted? ==> s'.calls[c].w.target != s'.calls[d].w.target
    {
      CountedStep(s, e, c);
      forall d | d in s'.calls && d != c && s'.calls[d].Counted? ensures s'.calls[c].w.target != s'.calls[d].w.target {
        CountedStep(s, e, d);
      }
      hide Step;
    }
  }

  // ---------- one at a time, an owner remains ----------

  /** The call is past the trigger and will take its target out of the owners. */
  ghost predicate Taking(s: State, c: int) {
    && c in s.calls && s.calls[c].Counted? && s.calls[c].w.role != Some(Owner)
    && s.calls[c].w.target in Owners(s.members)
  }

  ghost predicate OneTaking(s: State) {
    forall c, d :: Taking(s, c) && Taking(s, d) ==> c == d
  }

  /** In every state of the run at most one statement is between its trigger's count of the
      owners and the commit that takes an owner away. */
  ghost predicate NeverTwoTaking(start: State, run: seq<Event>) {
    forall k :: 0 <= k <= |run| ==> OneTakingAfter(start, run[..k])
  }

  ghost predicate OneTakingAfter(start: State, run: seq<Event>) {
    Exec(start, run).Some? ==> OneTaking(Exec(start, run).value)
  }

  ghost predicate Safe(s: State) {
    && Locks(s) && Owners(s.members) != {}
    && forall c :: Taking(s, c) ==> Owners(s.members) - {s.calls[c].w.target} != {}
  }

  lemma OwnersWritten(members: map<int, Role>, w: Write)
    ensures Owners(Written(members, w)) ==
      if w.role == Some(Owner) then Owners(members) + {w.target} else Owners(members) - {w.target}
  {}

  /** How a step moves the owners. */
  lemma {:induction false} OwnersStep(s: State, e: Event)
    requires Step(s, e).Some?
    ensures var before, after := Owners(s.members), Owners(Step(s, e).value.members);
      if e.Commit? && Taking(s, e.call) then after == before - {s.calls[e.call].w.target} else before <= after
  {
    MembersStep(s, e);
    if e.Commit? {
      OwnersWritten(s.members, s.calls[e.call].w);
    }
    hide Step;
  }

  lemma {:induction false} SafeStep(s: State, e: Event)
    requires Safe(s) && OneTaking(s) && Step(s, e).Some?
    ensures Safe(Step(s, e).value)
  {
    var s' := Step(s, e).value;
    LocksStep(s, e);
    OwnersStep(s, e);
    forall c | Taking(s', c) ensures Owners(s'.members) - {s'.calls[c].w.target} != {} {
      TakingBefore(s, e, c);
      hide Step, Owners, Locks;
      assert e.Commit? ==> !Taking(s, e.call);
      StillMore(Owners(s.members), Owners(s'.members), s'.calls[c].w.target);
    }
    hide Step, Locks, Owners;
  }

  lemma StillMore(before: set<int>, after: set<int>, u: int)
    requires before <= after && before - {u} != {}
    ensures after - {u} != {}
  {
    assert before - {u} <= after - {u};
  }

  /** A row that is about to be taken was an owner's before the step, unless the step is its
      own trigger. */
  lemma {:induction false} TakingBefore(s: State, e: Event, c: int)
    requires Locks(s) && Step(s, e).Some? && Taking(Step(s, e).value, c)
    ensures || (Taking(s, c) && s.calls[c] == Step(s, e).value.calls[c] && !(e.Commit? && e.call == c))
            || (e == Trigger(c) && Owners(s.members) - {Step(s, e).value.calls[c].w.target} != {})
  {
    CountedStep(s, e, c);
    MembersStep(s, e);
    hide Step;
  }

  /** However stale what the guards read: if no two owner-taking statements overlap, from count
      to commit, an owner remains in every state of the run. */
  lemma {:induction false} OwnerRemains(start: State, run: seq<Event>)
    requires start.calls == map[] && Owners(start.members) != {}
    requires Exec(start, run).Some? && NeverTwoTaking(start, run)
    ensures Safe(Exec(start, run).value) && Owners(Exec(start, run).value.members) != {}
  {
    if |run| > 0 {
      var p, e := run[..|run| - 1], run[|run| - 1];
      assert run[..|p|] == p && forall k :: 0 <= k <= |p| ==> p[..k] == run[..k];
      assert OneTakingAfter(start, run[..|p|]);
      hide Step, Locks, Taking, OneTaking, Owners;
      forall k | 0 <= k <= |p| ensures OneTakingAfter(start, p[..k]) {
        assert OneTakingAfter(start, run[..k]);
      }
      OwnerRemains(start, p);
      SafeStep(Exec(start, p).value, e);
    }
  }

  // ---------- when an org can lose its last owner ----------

  /** The rows that statements past the trigger will take out of the owners. */
  ghost function Doomed(s: State): set<int> {
    set c | c in s.calls && s.calls[c].Counted? && s.calls[c].w.role != Some(Owner) :: s.calls[c].w.target
  }

  /** The statements under way finish, one way or the other, and no other passes the trigger. */
  ghost predicate OnlyFinishes(run: seq<Event>) {
    forall i :: 0 <= i < |run| ==> run[i].Commit? || run[i].Abort?
  }

  ghost predicate CanLoseOwners(s: State) {
    exists run :: OnlyFinishes(run) && Exec(s, run).Some? && Owners(Exec(s, run).value.members) == {}
  }

  /** Finishing what is under way takes only doomed owners. */
  lemma {:induction false} OnlyDoomedGo(s: State, run: seq<Event>)
    requires OnlyFinishes(run) && Exec(s, run).Some?
    ensures var s' := Exec(s, run).value; Doomed(s') <= Doomed(s) && Owners(s.members) - Doomed(s) <= Owners(s'.members)
  {
    if |run| > 0 {
      var p, e := run[..|run| - 1], run[|run| - 1];
      assert forall i :: 0 <= i < |p| ==> p[i] == run[i];
      OnlyDoomedGo(s, p);
      var q, s' := Exec(s, p).value, Exec(s, run).value;
      OwnersStep(q, e);
      forall c | c in s'.calls && s'.calls[c].Counted? ensures c in q.calls && s'.calls[c] == q.calls[c] {
        CountedStep(q, e, c);
      }
      assert e.Commit? && Taking(q, e.call) ==> q.calls[e.call].w.target in Doomed(q);
      hide Step, Owners;
    }
  }

  /** Committing one doomed owner's removal leaves the others doomed. */
  lemma {:induction false} TakeOne(s: State, c: int)
    requires Locks(s) && Taking(s, c)
    ensures Step(s, Commit(c)).Some?
    ensures var s' := Step(s, Commit(c)).value;
      && Locks(s') && Owners(s'.members) == Owners(s.members) - {s.calls[c].w.target}
      && Doomed(s) - {s.calls[c].w.target} <= Doomed(s')
  {
    LocksStep(s, Commit(c));
    OwnersStep(s, Commit(c));
    var s', t := Step(s, Commit(c)).value, s.calls[c].w.target;
    forall u | u in Doomed(s) - {t} ensures u in Doomed(s') {
      var d :| d in s.calls && s.calls[d].Counted? && s.calls[d].w.role != Some(Owner) && s.calls[d].w.target == u;
      assert d in s'.calls && s'.calls[d] == s.calls[d];
    }
    hide Step, Owners, Locks;
  }

  lemma {:induction false} TakeAll(s: State) returns (run: seq<Event>)
    requires Locks(s) && Owners(s.members) <= Doomed(s)
    ensures OnlyFinishes(run) && Exec(s, run).Some? && Owners(Exec(s, run).value.members) == {}
    decreases |Owners(s.members)|
  {
    run := [];
    if u :| u in Owners(s.members) {
      var c :| c in s.calls && s.calls[c].Counted? && s.calls[c].w.role != Some(Owner) && s.calls[c].w.target == u;
      TakeOne(s, c);
      var q := Step(s, Commit(c)).value;
      hide Step, Locks, Owners;
      var rest := TakeAll(q);
      Extend(s, [], s, Commit(c));
      Concat(s, [] + [Commit(c)], q, rest);
      run := [] + [Commit(c)] + rest;
    }
  }

  lemma {:induction false} Concat(s: State, a: seq<Event>, q: State, b: seq<Event>)
    requires Exec(s, a) == Some(q)
    ensures Exec(s, a + b) == Exec(q, b)
    decreases |b|
  {
    hide Step;
    if |b| == 0 {
      assert a + b == a;
    } else {
      Concat(s, a, q, b[..|b| - 1]);
      assert (a + b)[..|a + b| - 1] == a + b[..|b| - 1];
    }
  }

  /** With an owner left, the statements under way can take the last one if and only if every
      owner is the target of one that is already past the trigger's count. */
  lemma {:induction false} AtRiskIff(s: State)
    requires Locks(s)
    ensures CanLoseOwners(s) <==> Owners(s.members) <= Doomed(s)
  {
    hide Locks, Owners, Exec, Doomed, OnlyFinishes;
    if CanLoseOwners(s) {
      var run :| OnlyFinishes(run) && Exec(s, run).Some? && Owners(Exec(s, run).value.members) == {};
      OnlyDoomedGo(s, run);
      forall u | u in Owners(s.members) ensures u in Doomed(s) {
        assert u !in Owners(s.members) - Doomed(s);
      }
    }
    if Owners(s.members) <= Doomed(s) {
      var run := TakeAll(s);
    }
  }

  lemma {:induction false} LocksKept(start: State, run: seq<Event>)
    requires start.calls == map[] && Exec(start, run).Some?
    ensures Locks(Exec(start, run).value)
  {
    if |run| > 0 {
      LocksKept(start, run[..|run| - 1]);
      LocksStep(Exec(start, run[..|run| - 1]).value, run[|run| - 1]);
    }
  }

  // ---------- a run that loses both owners ----------

  const TWO_OWNERS: State := State(map[1 := Owner, 2 := Owner], map[])

  function Demote(owner: int, target: int): Request {
    Change(Actor(Human, owner, 9, Some(Owner)), target, Admin)
  }

  lemma MayDemote(owner: int, target: int)
    ensures Decide(Demote(owner, target), Owner, 2) == Some(Write(target, Some(Admin), None))
  {
    hide Can;
    DecideIff(Demote(owner, target), Owner, 2);
  }

  const LOADED: State :=
    State(TWO_OWNERS.members, TWO_OWNERS.calls[5 := Loaded(Demote(1, 2), Owner)][6 := Loaded(Demote(2, 1), Owner)])
  const GUARDED: State :=
    State(TWO_OWNERS.members, LOADED.calls[5 := Guarded(Write(2, Some(Admin), None))][6 := Guarded(Write(1, Some(Admin), None))])
  const COUNTED: State :=
    State(TWO_OWNERS.members, GUARDED.calls[5 := Counted(Write(2, Some(Admin), None))][6 := Counted(Write(1, Some(Admin), None))])

  lemma {:induction false} TwoSteps(start: State, run: seq<Event>, s: State, e1: Event, s1: State, e2: Event, s2: State)
    requires Exec(start, run) == Some(s) && Step(s, e1) == Some(s1) && Step(s1, e2) == Some(s2)
    ensures Exec(start, run + [e1] + [e2]) == Some(s2)
  {
    Extend(start, run, s, e1);
    Extend(start, run + [e1], s1, e2);
  }

  lemma BothLoad()
    ensures Exec(TWO_OWNERS, [] + [Load(5, Demote(1, 2))] + [Load(6, Demote(2, 1))]) == Some(LOADED)
  {
    var s := TWO_OWNERS;
    TwoSteps(s, [], s, Load(5, Demote(1, 2)), s.(calls := s.calls[5 := Loaded(Demote(1, 2), Owner)]), Load(6, Demote(2, 1)), LOADED);
  }

  lemma BothPassGuard(run: seq<Event>)
    requires Exec(TWO_OWNERS, run) == Some(LOADED)
    ensures Exec(TWO_OWNERS, run + [Guard(5)] + [Guard(6)]) == Some(GUARDED)
  {
    hide Owners, Exec, Step, Decide;
    var s := LOADED;
    var s1 := s.(calls := s.calls[5 := Guarded(Write(2, Some(Admin), None))]);
    PassGuard(s, 5, 1, 2);
    PassGuard(s1, 6, 2, 1);
    TwoSteps(TWO_OWNERS, run, s, Guard(5), s1, Guard(6), GUARDED);
  }

  /** The guard lets one of two owners demote the other. */
  lemma PassGuard(s: State, call: int, owner: int, target: int)
    requires s.members == TWO_OWNERS.members
    requires call in s.calls && s.calls[call] == Loaded(Demote(owner, target), Owner)
    ensures Step(s, Guard(call)) == Some(s.(calls := s.calls[call := Guarded(Write(target, Some(Admin), None))]))
  {
    hide Decide, Owners;
    CountsTwo();
    MayDemote(owner, target);
  }

  lemma CountsTwo()
    ensures |Owners(TWO_OWNERS.members)| == 2
  {
    assert Owners(TWO_OWNERS.members) == {1, 2};
  }

  lemma BothPassTrigger(run: seq<Event>)
    requires Exec(TWO_OWNERS, run) == Some(GUARDED)
    ensures Exec(TWO_OWNERS, run + [Trigger(5)] + [Trigger(6)]) == Some(COUNTED)
    ensures Owners(COUNTED.members) <= Doomed(COUNTED)
  {
    assert COUNTED.calls[5].w.target == 2 && COUNTED.calls[6].w.target == 1;
    assert Owners(COUNTED.members) <= Doomed(COUNTED);
    var s := GUARDED;
    var s1 := s.(calls := s.calls[5 := Counted(Write(2, Some(Admin), None))]);
    PassTrigger(s, 5, Write(2, Some(Admin), None), 1);
    PassTrigger(s1, 6, Write(1, Some(Admin), None), 2);
    hide Owners, Exec, Step, Doomed;
    TwoSteps(TWO_OWNERS, run, s, Trigger(5), s1, Trigger(6), COUNTED);
  }

  /** The trigger lets a demotion through while it sees another owner. */
  lemma PassTrigger(s: State, call: int, w: Write, other: int)
    requires call in s.calls && s.calls[call] == Guarded(w) && w.target in s.members && !RowLocked(s, w.target)
    requires other in s.members && s.members[other] == Owner && other != w.target
    ensures Step(s, Trigger(call)) == Some(s.(calls := s.calls[call := Counted(w)]))
  {
    assert other in Owners(s.members) - {w.target};
    hide Owners, RowLocked;
  }

  /** Two owners demote each other at the same time: both guards and both triggers count two
      owners, and none remains. */
  lemma OverlapLosesOwners() returns (run: seq<Event>, s: State)
    ensures Exec(TWO_OWNERS, run) == Some(s) && Owners(s.members) == {}
  {
    hide Owners, Locks, Exec, Doomed, OnlyFinishes;
    BothLoad();
    run := [] + [Load(5, Demote(1, 2))] + [Load(6, Demote(2, 1))];
    BothPassGuard(run);
    run := run + [Guard(5)] + [Guard(6)];
    BothPassTrigger(run);
    run := run + [Trigger(5)] + [Trigger(6)];
    LocksKept(TWO_OWNERS, run);
    var rest := TakeAll(COUNTED);
    Concat(TWO_OWNERS, run, COUNTED, rest);
    run, s := run + rest, Exec(COUNTED, rest).value;
  }
}
