/** The seat cap under interleaving (CreateInvitation and seatUsage in internal/api/members.go).
    A request counts the members, then the pending invitations, and inserts its own if the sum is
    below the cap; a unique index allows one pending invitation per address. Other requests
    invite, accept, revoke and remove between any two of these. */
module SeatRaces {
  import opened Domain

  /** A request that has counted the members, or both and found a seat free. */
  datatype Call =
    | MembersCounted(address: string, members: int)
    | SeatFound(address: string)

  /** Pending invitations are known by their address in lower case. */
  datatype State = State(members: set<int>, pending: set<string>, calls: map<int, Call>)

  datatype Event =
    | CountMembers(call: int, address: string)
    | CountPending(call: int)
    | Insert(call: int)
    | Abort(call: int)
    | Accept(address: string, user: int)
    | Revoke(address: string)
    | Remove(user: int)

  function SeatsUsed(s: State): int {
    |s.members| + |s.pending|
  }

  function OnCountPending(cap: int, s: State, call: int): Option<State> {
    if call !in s.calls || !s.calls[call].MembersCounted? then None
    else
      var c := s.calls[call];
      if c.members + |s.pending| < cap then Some(s.(calls := s.calls[call := SeatFound(c.address)]))
      else Some(s.(calls := s.calls - {call}))
  }

  /** The insert; the unique index refuses an address that has one pending. */
  function OnInsert(s: State, call: int): Option<State> {
    if call !in s.calls || !s.calls[call].SeatFound? then None
    else Some(s.(calls := s.calls - {call}, pending := s.pending + {s.calls[call].address}))
  }

  /** An acceptance turns the invitation into a member, or closes it for one who is already. */
  function OnAccept(s: State, address: string, user: int): Option<State> {
    if address !in s.pending then None
    else Some(s.(pending := s.pending - {address}, members := s.members + {user}))
  }

  function Step(cap: int, s: State, e: Event): Option<State> {
    match e
    case CountMembers(call, address) =>
      if call in s.calls then None else Some(s.(calls := s.calls[call := MembersCounted(address, |s.members|)]))
    case CountPending(call) => OnCountPending(cap, s, call)
    case Insert(call) => OnInsert(s, call)
    case Abort(call) => Some(s.(calls := s.calls - {call}))
    case Accept(address, user) => OnAccept(s, address, user)
    case Revoke(address) => Some(s.(pending := s.pending - {address}))
    case Remove(user) => Some(s.(members := s.members - {user}))
  }

  function Exec(cap: int, s: State, run: seq<Event>): Option<State> {
    if |run| == 0 then Some(s)
    else
      var before := Exec(cap, s, run[..|run| - 1]);
      if before.None? then None else Step(cap, before.value, run[|run| - 1])
  }

  lemma {:induction false} Extend(cap: int, start: State, run: seq<Event>, s: State, e: Event)
    requires Exec(cap, start, run) == Some(s)
    ensures Exec(cap, start, run + [e]) == Step(cap, s, e)
  {
    assert (run + [e])[..|run|] == run;
  }

  // ---------- one invitation at a time ----------

  /** No request counts members while another is inviting, and nobody accepts between a
      request's two counts. */
  ghost predicate Undisturbed(cap: int, start: State, run: seq<Event>) {
    forall k :: 0 <= k < |run| ==> UndisturbedAt(cap, start, run[..k], run[k])
  }

  ghost predicate UndisturbedAt(cap: int, start: State, before: seq<Event>, e: Event) {
    Exec(cap, start, before).Some? ==> Calm(Exec(cap, start, before).value, e)
  }

  ghost predicate Calm(s: State, e: Event) {
    && (e.CountMembers? ==> s.calls == map[])
    && (e.Accept? ==> forall c :: c in s.calls ==> s.calls[c].SeatFound?)
  }

  /** The request under way has counted no fewer members than there are, and if it has found a
      seat there is one. */
  ghost predicate Room(cap: int, s: State) {
    && SeatsUsed(s) <= cap
    && (forall c, d :: c in s.calls && d in s.calls ==> c == d)
    && (forall c :: c in s.calls ==>
          if s.calls[c].SeatFound? then SeatsUsed(s) < cap else |s.members| <= s.calls[c].members)
  }

  lemma CardSmaller<T>(a: set<T>, b: set<T>)
    requires a <= b
    ensures |a| <= |b|
  {
    if a != b {
      assert |b - a| + |a| == |b| by {
        assert (b - a) + a == b && (b - a) !! a;
      }
    }
  }

  /** What each event does to the seats. */
  lemma {:induction false} SeatsStep(cap: int, s: State, e: Event)
    requires Step(cap, s, e).Some?
    ensures var s' := Step(cap, s, e).value;
      && |s'.members| <= |s.members| + (if e.Accept? then 1 else 0)
      && SeatsUsed(s') <= SeatsUsed(s) + if e.Insert? then 1 else 0
  {
    var s' := Step(cap, s, e).value;
    CardSmaller(s.pending - (if e.Accept? || e.Revoke? then {e.address} else {}), s.pending);
    CardSmaller(s.members - (if e.Remove? then {e.user} else {}), s.members);
  }

  lemma {:induction false} RoomStep(cap: int, s: State, e: Event)
    requires Room(cap, s) && Calm(s, e) && Step(cap, s, e).Some?
    ensures Room(cap, Step(cap, s, e).value)
  {
    SeatsStep(cap, s, e);
  }

  /** With a fixed cap, however acceptances, revocations and removals fall between the steps of
      an invitation: if invitations do not overlap each other and no acceptance falls between
      the two counts of one, members and pending invitations never rise above the cap. */
  lemma {:induction false} SeatsHold(cap: int, start: State, run: seq<Event>)
    requires start.calls == map[] && SeatsUsed(start) <= cap
    requires Exec(cap, start, run).Some? && Undisturbed(cap, start, run)
    ensures Room(cap, Exec(cap, start, run).value) && SeatsUsed(Exec(cap, start, run).value) <= cap
  {
    if |run| > 0 {
      var p, e := run[..|run| - 1], run[|run| - 1];
      assert UndisturbedAt(cap, start, run[..|p|], run[|p|]);
      assert forall k :: 0 <= k < |p| ==> p[..k] == run[..k] && p[k] == run[k];
      hide Step, Room, SeatsUsed, UndisturbedAt;
      forall k | 0 <= k < |p| ensures UndisturbedAt(cap, start, p[..k], p[k]) {
        assert UndisturbedAt(cap, start, run[..k], run[k]);
      }
      SeatsHold(cap, start, p);
      CalmNow(cap, start, p, e);
      RoomStep(cap, Exec(cap, start, p).value, e);
      RoomIsWithinCap(cap, Exec(cap, start, run).value);
    }
  }

  lemma CalmNow(cap: int, start: State, p: seq<Event>, e: Event)
    requires UndisturbedAt(cap, start, p, e) && Exec(cap, start, p).Some?
    ensures Calm(Exec(cap, start, p).value, e)
  {}

  lemma RoomIsWithinCap(cap: int, s: State)
    requires Room(cap, s)
    ensures SeatsUsed(s) <= cap
  {}

  // ---------- exactly when the cap can be passed ----------

  /** The addresses of the requests that have found a seat. */
  ghost function Waiting(s: State): set<string> {
    set c | c in s.calls && s.calls[c].SeatFound? :: s.calls[c].address
  }

  /** The requests under way that have found a seat insert or fail, and nothing else happens. */
  ghost predicate OnlyFinishes(run: seq<Event>) {
    forall i :: 0 <= i < |run| ==> run[i].Insert? || run[i].Abort?
  }

  ghost predicate CanOvershoot(cap: int, s: State) {
    exists run :: OnlyFinishes(run) && Exec(cap, s, run).Some? && SeatsUsed(Exec(cap, s, run).value) > cap
  }

  /** Finishing adds only addresses that were waiting. */
  lemma {:induction false} OnlyWaitingAdded(cap: int, s: State, run: seq<Event>)
    requires OnlyFinishes(run) && Exec(cap, s, run).Some?
    ensures var s' := Exec(cap, s, run).value;
      s'.members == s.members && s'.pending <= s.pending + Waiting(s) && Waiting(s') <= Waiting(s)
  {
    if |run| > 0 {
      var p, e := run[..|run| - 1], run[|run| - 1];
      assert forall i :: 0 <= i < |p| ==> p[i] == run[i];
      OnlyWaitingAdded(cap, s, p);
      FinishStep(cap, Exec(cap, s, p).value, e);
      hide Step, Waiting;
    }
  }

  lemma {:induction false} FinishStep(cap: int, s: State, e: Event)
    requires (e.Insert? || e.Abort?) && Step(cap, s, e).Some?
    ensures var s' := Step(cap, s, e).value;
      && s'.members == s.members && Waiting(s') <= Waiting(s)
      && s'.pending <= s.pending + (if e.Insert? then Waiting(s) else {})
  {
    assert e.Insert? ==> s.calls[e.call].address in Waiting(s);
  }

  /** Inserting one of the addresses that are waiting and not pending leaves the others so. */
  lemma {:induction false} InsertOne(cap: int, s: State, c: int)
    requires c in s.calls && s.calls[c].SeatFound?
    ensures Step(cap, s, Insert(c)).Some?
    ensures var s' := Step(cap, s, Insert(c)).value;
      && s'.members == s.members && s'.pending == s.pending + {s.calls[c].address}
      && s'.pending + Waiting(s') == s.pending + Waiting(s)
  {
    var s', a := Step(cap, s, Insert(c)).value, s.calls[c].address;
    forall x | x in Waiting(s) ensures x == a || x in Waiting(s') {
      var d :| d in s.calls && s.calls[d].SeatFound? && s.calls[d].address == x;
      assert x != a ==> d in s'.calls && s'.calls[d] == s.calls[d];
    }
    assert a in Waiting(s);
    FinishStep(cap, s, Insert(c));
  }

  lemma {:induction false} InsertAll(cap: int, s: State) returns (run: seq<Event>)
    ensures OnlyFinishes(run) && Exec(cap, s, run).Some?
    ensures var s' := Exec(cap, s, run).value; s'.members == s.members && s'.pending == s.pending + Waiting(s)
    decreases |Waiting(s) - s.pending|
  {
    hide Step, Waiting, Exec;
    run := [];
    Stay(cap, s);
    if a :| a in Waiting(s) - s.pending {
      var c := Waiter(s, a);
      InsertOne(cap, s, c);
      var q := Step(cap, s, Insert(c)).value;
      FewerLeft(s, q, a);
      var rest := InsertAll(cap, q);
      Extend(cap, s, [], s, Insert(c));
      Concat(cap, s, [] + [Insert(c)], q, rest);
      run := [] + [Insert(c)] + rest;
    } else {
      NoneLeft(s.pending, Waiting(s));
    }
  }

  lemma Stay(cap: int, s: State)
    ensures Exec(cap, s, []) == Some(s)
  {}

  lemma Waiter(s: State, a: string) returns (c: int)
    requires a in Waiting(s)
    ensures c in s.calls && s.calls[c].SeatFound? && s.calls[c].address == a
  {
    c :| c in s.calls && s.calls[c].SeatFound? && s.calls[c].address == a;
  }

  lemma NoneLeft(pending: set<string>, waiting: set<string>)
    requires forall a :: a !in waiting - pending
    ensures pending + waiting == pending
  {
    forall x | x in waiting ensures x in pending {
      assert x !in waiting - pending;
    }
  }

  lemma FewerLeft(s: State, q: State, a: string)
    requires a in Waiting(s) - s.pending && q.pending == s.pending + {a}
    requires q.pending + Waiting(q) == s.pending + Waiting(s)
    ensures |Waiting(q) - q.pending| < |Waiting(s) - s.pending|
  {
    hide Waiting;
    forall x | x in Waiting(q) - q.pending ensures x in Waiting(s) - s.pending - {a} {
      assert x in q.pending + Waiting(q);
    }
    CardSmaller(Waiting(q) - q.pending, Waiting(s) - s.pending - {a});
  }

  lemma {:induction false} Concat(cap: int, s: State, a: seq<Event>, q: State, b: seq<Event>)
    requires Exec(cap, s, a) == Some(q)
    ensures Exec(cap, s, a + b) == Exec(cap, q, b)
    decreases |b|
  {
    hide Step;
    if |b| == 0 {
      assert a + b == a;
    } else {
      Concat(cap, s, a, q, b[..|b| - 1]);
      assert (a + b)[..|a + b| - 1] == a + b[..|b| - 1];
    }
  }

  /** In any state: the requests that have found a seat can take the org past its cap if and only
      if the members, the pending invitations and the new addresses among those requests are
      together more than the cap. */
  lemma {:induction false} OvershootIff(cap: int, s: State)
    ensures CanOvershoot(cap, s) <==> |s.members| + |s.pending + Waiting(s)| > cap
  {
    hide Waiting, Exec, OnlyFinishes;
    if CanOvershoot(cap, s) {
      var run :| OnlyFinishes(run) && Exec(cap, s, run).Some? && SeatsUsed(Exec(cap, s, run).value) > cap;
      OnlyWaitingAdded(cap, s, run);
      CardSmaller(Exec(cap, s, run).value.pending, s.pending + Waiting(s));
    }
    if |s.members| + |s.pending + Waiting(s)| > cap {
      var run := InsertAll(cap, s);
    }
  }

  // ---------- runs that pass the cap ----------

  const ONE_MEMBER: State := State({1}, {}, map[])

  /** Two invitations count the same free seat. */
  lemma OverlapOvershoots() returns (run: seq<Event>, s: State)
    ensures Exec(2, ONE_MEMBER, run) == Some(s) && SeatsUsed(s) == 3
  {
    var s0 := ONE_MEMBER;
    var e1, e2, e3, e4 := CountMembers(5, "a"), CountMembers(6, "b"), CountPending(5), CountPending(6);
    var s1 := s0.(calls := s0.calls[5 := MembersCounted("a", 1)]);
    var s2 := s1.(calls := s1.calls[6 := MembersCounted("b", 1)]);
    var s3 := s2.(calls := s2.calls[5 := SeatFound("a")]);
    var s4 := s3.(calls := s3.calls[6 := SeatFound("b")]);
    Extend(2, s0, [], s0, e1);
    Extend(2, s0, [] + [e1], s1, e2);
    Extend(2, s0, [] + [e1] + [e2], s2, e3);
    Extend(2, s0, [] + [e1] + [e2] + [e3], s3, e4);
    run := [] + [e1] + [e2] + [e3] + [e4];
    hide Exec;
    assert s4.calls[5] == SeatFound("a") && s4.calls[6] == SeatFound("b");
    assert Waiting(s4) == {"a", "b"};
    var rest := InsertAll(2, s4);
    Concat(2, s0, run, s4, rest);
    run, s := run + rest, Exec(2, s4, rest).value;
    assert s.pending == {"a", "b"};
  }

  const FULL: State := State({1}, {"a"}, map[])

  /** The org is full; an acceptance between the two counts of an invitation is counted by
      neither. */
  lemma AcceptanceBetweenCountsOvershoots() returns (run: seq<Event>, s: State)
    ensures Exec(2, FULL, run) == Some(s) && SeatsUsed(FULL) == 2 && SeatsUsed(s) == 3
  {
    var s0 := FULL;
    var e1, e2, e3, e4 := CountMembers(5, "b"), Accept("a", 2), CountPending(5), Insert(5);
    var s1 := s0.(calls := s0.calls[5 := MembersCounted("b", 1)]);
    var s2 := s1.(pending := s1.pending - {"a"}, members := s1.members + {2});
    var s3 := s2.(calls := s2.calls[5 := SeatFound("b")]);
    assert s2.pending == {} && s2.members == {1, 2};
    s := s3.(calls := s3.calls - {5}, pending := s3.pending + {"b"});
    Extend(2, s0, [], s0, e1);
    Extend(2, s0, [] + [e1], s1, e2);
    Extend(2, s0, [] + [e1] + [e2], s2, e3);
    Extend(2, s0, [] + [e1] + [e2] + [e3], s3, e4);
    run := [] + [e1] + [e2] + [e3] + [e4];
    hide Exec;
    assert s.pending == {"b"};
  }
}
