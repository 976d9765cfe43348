/** The two-layer limit on manual checks (internal/api/monitors.go): peek at the org's window,
    claim the monitor's cooldown key, count against the window. Every Redis command is its own
    step, any number of requests interleave and any of them may die; Redis itself does not
    fail (the program lets a check through when it does). */
module CheckNow {
  import opened Domain
  import FixedWindow

  datatype Limits = Limits(cooldown: int, max: int, window: int)

  function Window(lim: Limits): FixedWindow.Limit {
    FixedWindow.Limit(lim.max, lim.window)
  }

  datatype Call =
    | Peeked(monitor: int)
    | Claimed(monitor: int, claim: int)
    | Arming

  datatype Claim = Claim(monitor: int, at: Time)

  /** `cooldowns` gives each monitor's key the time it expires. `claims` and `allowed` are
      history only: the cooldown keys taken, and which of them led to a check. */
  datatype State = State(
    win: FixedWindow.State,
    cooldowns: map<int, Time>,
    calls: map<int, Call>,
    claims: seq<Claim>,
    allowed: seq<int>)

  datatype Event =
    | Tick(d: nat)
    | Peek(call: int, monitor: int)
    | Acquire(call: int)
    | Count(call: int)
    | Arm(call: int)
    | Die(call: int)

  /** The budget is spent already. */
  predicate Spent(lim: Limits, s: State) {
    FixedWindow.Live(s.win).Some? && FixedWindow.Live(s.win).value.value >= lim.max
  }

  predicate Cooling(s: State, monitor: int) {
    monitor in s.cooldowns && s.win.now < s.cooldowns[monitor]
  }

  function OnPeek(lim: Limits, s: State, call: int, monitor: int): Option<State> {
    if call in s.calls || s.win.arming == Some(call) then None
    else if Spent(lim, s) then Some(s)
    else Some(s.(calls := s.calls[call := Peeked(monitor)]))
  }

  function OnAcquire(lim: Limits, s: State, call: int): Option<State> {
    if call !in s.calls || !s.calls[call].Peeked? then None
    else
      var m := s.calls[call].monitor;
      if Cooling(s, m) then Some(s.(calls := s.calls - {call}))
      else Some(s.(cooldowns := s.cooldowns[m := s.win.now + lim.cooldown],
                   claims := s.claims + [Claim(m, s.win.now)],
                   calls := s.calls[call := Claimed(m, |s.claims|)]))
  }

  function OnCount(lim: Limits, s: State, call: int): Option<State> {
    if call !in s.calls || !s.calls[call].Claimed? || s.win.arming == Some(call) then None
    else
      var win := FixedWindow.OnCount(Window(lim), s.win, call);
      Some(s.(win := win,
              calls := if FixedWindow.Value(win) == 1 then s.calls[call := Arming] else s.calls - {call},
              allowed := if FixedWindow.Value(win) <= lim.max then s.allowed + [s.calls[call].claim] else s.allowed))
  }

  function OnArm(lim: Limits, s: State, call: int): Option<State> {
    var win := FixedWindow.Step(Window(lim), s.win, FixedWindow.Arm(call));
    if call !in s.calls || !s.calls[call].Arming? || win.None? then None
    else Some(s.(win := win.value, calls := s.calls - {call}))
  }

  function Step(lim: Limits, s: State, e: Event): Option<State> {
    match e
    case Tick(d) => Some(s.(win := s.win.(now := s.win.now + d)))
    case Peek(call, m) => OnPeek(lim, s, call, m)
    case Acquire(call) => OnAcquire(lim, s, call)
    case Count(call) => OnCount(lim, s, call)
    case Arm(call) => OnArm(lim, s, call)
    case Die(call) =>
      Some(s.(win := FixedWindow.Step(Window(lim), s.win, FixedWindow.Die(call)).value, calls := s.calls - {call}))
  }

  function Init(now: Time): State {
    State(FixedWindow.Init(now), map[], map[], [], [])
  }

  function Exec(lim: Limits, s: State, run: seq<Event>): Option<State> {
    if |run| == 0 then Some(s)
    else
      var before := Exec(lim, s, run[..|run| - 1]);
      if before.None? then None else Step(lim, before.value, run[|run| - 1])
  }

  // ---------- the invariant ----------

  /** The cooldown key outlives every claim on its monitor by the cooldown. */
  ghost predicate ClaimsOk(lim: Limits, s: State) {
    && (forall i :: 0 <= i < |s.claims| ==>
          s.claims[i].monitor in s.cooldowns && s.claims[i].at + lim.cooldown <= s.cooldowns[s.claims[i].monitor])
    && (forall i, j :: 0 <= i < j < |s.claims| && s.claims[i].monitor == s.claims[j].monitor ==>
          s.claims[i].at + lim.cooldown <= s.claims[j].at)
  }

  /** A claim belongs to one call until it is allowed, and is allowed once. */
  ghost predicate AllowedOk(s: State) {
    && (forall n :: 0 <= n < |s.allowed| ==> 0 <= s.allowed[n] < |s.claims|)
    && (forall n, m :: 0 <= n < m < |s.allowed| ==> s.allowed[n] != s.allowed[m])
    && (forall c :: c in s.calls && s.calls[c].Claimed? ==>
          && 0 <= s.calls[c].claim < |s.claims| && s.claims[s.calls[c].claim].monitor == s.calls[c].monitor
          && forall n :: 0 <= n < |s.allowed| ==> s.allowed[n] != s.calls[c].claim)
    && (forall c, d :: c in s.calls && d in s.calls && c != d && s.calls[c].Claimed? && s.calls[d].Claimed? ==>
          s.calls[c].claim != s.calls[d].claim)
  }

  ghost predicate Inv(lim: Limits, s: State) {
    && FixedWindow.Inv(Window(lim), s.win)
    && ClaimsOk(lim, s) && AllowedOk(s) && |s.allowed| == |s.win.passed|
  }

  /** A step of the limiter moves the window counter by at most one step of its own. */
  lemma {:induction false} StepKeepsWindow(lim: Limits, s: State, e: Event)
    requires FixedWindow.Inv(Window(lim), s.win) && lim.window > 0 && Step(lim, s, e).Some?
    ensures FixedWindow.Inv(Window(lim), Step(lim, s, e).value.win)
  {
    match e
    case Tick(d) => FixedWindow.StepKeepsInv(Window(lim), s.win, FixedWindow.Tick(d));
    case Count(call) => FixedWindow.StepKeepsInv(Window(lim), s.win, FixedWindow.Count(call));
    case Arm(call) => FixedWindow.StepKeepsInv(Window(lim), s.win, FixedWindow.Arm(call));
    case Die(call) => FixedWindow.StepKeepsInv(Window(lim), s.win, FixedWindow.Die(call));
    case _ =>
    hide FixedWindow.Inv;
  }

  lemma {:induction false} StepKeepsClaims(lim: Limits, s: State, e: Event)
    requires ClaimsOk(lim, s) && lim.cooldown > 0 && Step(lim, s, e).Some?
    ensures ClaimsOk(lim, Step(lim, s, e).value)
  {
    hide FixedWindow.OnCount, FixedWindow.Step;
  }

  lemma {:induction false} StepKeepsAllowed(lim: Limits, s: State, e: Event)
    requires AllowedOk(s) && |s.allowed| == |s.win.passed| && Step(lim, s, e).Some?
    ensures AllowedOk(Step(lim, s, e).value)
    ensures |Step(lim, s, e).value.allowed| == |Step(lim, s, e).value.win.passed|
  {
    hide FixedWindow.Live;
  }

  lemma {:induction false} ReachableInv(lim: Limits, start: Time, run: seq<Event>)
    requires lim.window > 0 && lim.cooldown > 0 && Exec(lim, Init(start), run).Some?
    ensures Inv(lim, Exec(lim, Init(start), run).value)
  {
    if |run| > 0 {
      ReachableInv(lim, start, run[..|run| - 1]);
      var q, e := Exec(lim, Init(start), run[..|run| - 1]).value, run[|run| - 1];
      StepKeepsWindow(lim, q, e);
      StepKeepsClaims(lim, q, e);
      StepKeepsAllowed(lim, q, e);
      hide Step, ClaimsOk, AllowedOk, FixedWindow.Inv;
    }
  }

  /** Under any interleaving at most `max` checks are allowed in one window of the org, and at
      most twice that in any half-open span of one window length. */
  lemma AllowedBound(lim: Limits, start: Time, run: seq<Event>, g: int, lo: Time)
    requires lim.window > 0 && lim.cooldown > 0 && lim.max >= 0 && Exec(lim, Init(start), run).Some?
    ensures var s := Exec(lim, Init(start), run).value;
      && |s.allowed| == |s.win.passed|
      && FixedWindow.InGen(s.win.passed, g) <= lim.max
      && FixedWindow.InSpan(s.win.passed, lo, lo + lim.window) <= 2 * lim.max
  {
    ReachableInv(lim, start, run);
    FixedWindow.SpanBoundOf(Window(lim), Exec(lim, Init(start), run).value.win, lo);
    hide FixedWindow.InGen, FixedWindow.InSpan, ClaimsOk, AllowedOk;
  }

  /** Two allowed checks of one monitor took its cooldown key at least the cooldown apart. */
  lemma CooldownGap(lim: Limits, start: Time, run: seq<Event>, n: nat, m: nat)
    requires lim.window > 0 && lim.cooldown > 0 && Exec(lim, Init(start), run).Some?
    requires var s := Exec(lim, Init(start), run).value; n < m < |s.allowed|
    ensures var s := Exec(lim, Init(start), run).value;
      && 0 <= s.allowed[n] < |s.claims| && 0 <= s.allowed[m] < |s.claims|
      && var a, b := s.claims[s.allowed[n]], s.claims[s.allowed[m]];
      a.monitor == b.monitor ==> a.at + lim.cooldown <= b.at || b.at + lim.cooldown <= a.at
  {
    ReachableInv(lim, start, run);
    hide FixedWindow.Inv, Exec;
  }

  // ---------- nobody is refused without reason ----------

  /** A cooldown key holds the end of some claim's cooldown. */
  ghost predicate FromClaims(lim: Limits, s: State) {
    forall m :: m in s.cooldowns ==>
      exists i :: 0 <= i < |s.claims| && s.claims[i].monitor == m && s.cooldowns[m] == s.claims[i].at + lim.cooldown
  }

  lemma {:induction false} FromClaimsStep(lim: Limits, s: State, e: Event)
    requires FromClaims(lim, s) && Step(lim, s, e).Some?
    ensures FromClaims(lim, Step(lim, s, e).value)
  {
    var s' := Step(lim, s, e).value;
    hide FixedWindow.OnCount, FixedWindow.Step;
    forall m | m in s'.cooldowns
      ensures exists i :: 0 <= i < |s'.claims| && s'.claims[i].monitor == m && s'.cooldowns[m] == s'.claims[i].at + lim.cooldown
    {
      if m in s.cooldowns && s'.cooldowns[m] == s.cooldowns[m] {
        var i :| 0 <= i < |s.claims| && s.claims[i].monitor == m && s.cooldowns[m] == s.claims[i].at + lim.cooldown;
        assert s'.claims[i] == s.claims[i];
      } else {
        assert s'.claims[|s.claims|].monitor == m;
      }
    }
  }

  lemma {:induction false} FromClaimsAlways(lim: Limits, start: Time, run: seq<Event>)
    requires Exec(lim, Init(start), run).Some?
    ensures FromClaims(lim, Exec(lim, Init(start), run).value)
  {
    if |run| > 0 {
      FromClaimsAlways(lim, start, run[..|run| - 1]);
      FromClaimsStep(lim, Exec(lim, Init(start), run[..|run| - 1]).value, run[|run| - 1]);
      hide Step, FromClaims;
    }
  }

  /** A monitor is cooling down if and only if its key was claimed less than the cooldown ago. */
  lemma CoolingIff(lim: Limits, start: Time, run: seq<Event>, s: State, monitor: int)
    requires lim.window > 0 && lim.cooldown > 0 && Exec(lim, Init(start), run) == Some(s)
    ensures Cooling(s, monitor) <==>
      exists i :: 0 <= i < |s.claims| && s.claims[i].monitor == monitor && s.win.now < s.claims[i].at + lim.cooldown
  {
    FromClaimsAlways(lim, start, run);
    ReachableInv(lim, start, run);
    hide FixedWindow.Inv, AllowedOk, Exec;
  }

  /** The counter of the limiter is exact too: as many checks were allowed in the current window
      as were counted, up to the maximum. */
  lemma {:induction false} ExactAlways(lim: Limits, start: Time, run: seq<Event>)
    requires lim.max >= 0 && Exec(lim, Init(start), run).Some?
    ensures FixedWindow.Exact(Window(lim), Exec(lim, Init(start), run).value.win)
  {
    if |run| > 0 {
      ExactAlways(lim, start, run[..|run| - 1]);
      ExactStep(lim, Exec(lim, Init(start), run[..|run| - 1]).value, run[|run| - 1]);
      hide Step;
    }
  }

  lemma {:induction false} ExactStep(lim: Limits, s: State, e: Event)
    requires FixedWindow.Exact(Window(lim), s.win) && lim.max >= 0 && Step(lim, s, e).Some?
    ensures FixedWindow.Exact(Window(lim), Step(lim, s, e).value.win)
  {
    match e
    case Tick(d) => FixedWindow.ExactStep(Window(lim), s.win, FixedWindow.Tick(d));
    case Count(call) => FixedWindow.ExactStep(Window(lim), s.win, FixedWindow.Count(call));
    case Arm(call) => FixedWindow.ExactStep(Window(lim), s.win, FixedWindow.Arm(call));
    case Die(call) => FixedWindow.ExactStep(Window(lim), s.win, FixedWindow.Die(call));
    case _ =>
    hide FixedWindow.Exact;
  }

  /** The window turns a request away, at its peek or at its count, if and only if it is open and
      has already let the maximum through. */
  lemma SpentIffFull(lim: Limits, start: Time, run: seq<Event>, s: State)
    requires lim.max >= 0 && Exec(lim, Init(start), run) == Some(s) && FixedWindow.Live(s.win).Some?
    ensures Spent(lim, s) <==> FixedWindow.InGen(s.win.passed, s.win.gen) == lim.max
  {
    ExactAlways(lim, start, run);
    hide Exec;
  }

  // ---------- one request at a time ----------

  /** Nobody looks at the window while another request is under way. */
  ghost predicate Serial(lim: Limits, s: State, run: seq<Event>) {
    |run| > 0 ==>
      && Serial(lim, s, run[..|run| - 1])
      && (run[|run| - 1].Peek? ==>
            Exec(lim, s, run[..|run| - 1]).Some? && Exec(lim, s, run[..|run| - 1]).value.calls == map[])
  }

  /** The request under way, if any, will find room in the window. */
  ghost predicate Room(lim: Limits, s: State) {
    && FixedWindow.Value(s.win) <= lim.max
    && (forall c, d :: c in s.calls && d in s.calls ==> c == d)
    && (forall c :: c in s.calls && !s.calls[c].Arming? ==> !Spent(lim, s))
  }

  lemma {:induction false} StepKeepsRoom(lim: Limits, s: State, e: Event)
    requires Room(lim, s) && lim.max >= 1 && Step(lim, s, e).Some? && (e.Peek? ==> s.calls == map[])
    ensures Room(lim, Step(lim, s, e).value)
  {}

  /** Serialised, the window counter never exceeds the maximum. */
  lemma {:induction false} SerialCounterBound(lim: Limits, start: Time, run: seq<Event>)
    requires lim.max >= 1 && Exec(lim, Init(start), run).Some? && Serial(lim, Init(start), run)
    ensures Room(lim, Exec(lim, Init(start), run).value)
    ensures FixedWindow.Value(Exec(lim, Init(start), run).value.win) <= lim.max
  {
    if |run| > 0 {
      SerialCounterBound(lim, start, run[..|run| - 1]);
      StepKeepsRoom(lim, Exec(lim, Init(start), run[..|run| - 1]).value, run[|run| - 1]);
      hide Step, Room;
    }
  }

  lemma {:induction false} Extend(lim: Limits, start: State, run: seq<Event>, s: State, e: Event)
    requires Exec(lim, start, run) == Some(s)
    ensures Exec(lim, start, run + [e]) == Step(lim, s, e)
  {
    assert (run + [e])[..|run|] == run;
  }

  /** Interleaved it can: two requests that both peek before either counts push the counter
      past the maximum, and it is the check after the increment that turns the second away. */
  lemma InterleavedOvershoots() returns (run: seq<Event>)
    ensures var lim := Limits(1, 1, 10);
      && Exec(lim, Init(0), run).Some?
      && FixedWindow.Value(Exec(lim, Init(0), run).value.win) > lim.max
      && |Exec(lim, Init(0), run).value.allowed| == 1
  {
    var lim, s0 := Limits(1, 1, 10), Init(0);
    var e1, e2, e3, e4, e5, e6 := Peek(1, 1), Peek(2, 2), Acquire(1), Acquire(2), Count(1), Count(2);
    run := [];
    Extend(lim, s0, run, s0, e1);
    var s1 := Step(lim, s0, e1).value;
    Extend(lim, s0, run + [e1], s1, e2);
    var s2 := Step(lim, s1, e2).value;
    Extend(lim, s0, run + [e1] + [e2], s2, e3);
    var s3 := Step(lim, s2, e3).value;
    Extend(lim, s0, run + [e1] + [e2] + [e3], s3, e4);
    var s4 := Step(lim, s3, e4).value;
    Extend(lim, s0, run + [e1] + [e2] + [e3] + [e4], s4, e5);
    var s5 := Step(lim, s4, e5).value;
    Extend(lim, s0, run + [e1] + [e2] + [e3] + [e4] + [e5], s5, e6);
    run := run + [e1] + [e2] + [e3] + [e4] + [e5] + [e6];
    hide Exec;
  }

  // ---------- exactly when the counter passes the maximum ----------

  /** Where the last peek of a call is in a run, or -1. */
  function LastPeek(run: seq<Event>, call: int): (j: int)
    ensures -1 <= j < |run|
  {
    if |run| == 0 then -1
    else if run[|run| - 1].Peek? && run[|run| - 1].call == call then |run| - 1
    else LastPeek(run[..|run| - 1], call)
  }

  /** Step k is another request's increment that filled the window, and the key has lived on
      to the end of the run. */
  ghost predicate Fills(lim: Limits, start: Time, run: seq<Event>, k: int, call: int)
    requires 0 <= k < |run|
  {
    var a, b := Exec(lim, Init(start), run[..k + 1]), Exec(lim, Init(start), run);
    && run[k].Count? && run[k].call != call && a.Some? && b.Some?
    && FixedWindow.Value(a.value.win) == lim.max && a.value.win.gen == b.value.win.gen
    && FixedWindow.Live(b.value.win).Some?
  }

  /** Since the call's peek another request has filled the window. */
  ghost predicate FilledSince(lim: Limits, start: Time, run: seq<Event>, call: int) {
    exists k :: LastPeek(run, call) < k < |run| && Fills(lim, start, run, k, call)
  }

  /** The key has no expiry while the caller that created it has still to set one. */
  ghost predicate Unarmed(s: State) {
    s.win.arming.Some? ==> s.win.counter.Some? && s.win.counter.value.expires.None?
  }

  lemma {:induction false} UnarmedKept(lim: Limits, start: Time, run: seq<Event>)
    requires Exec(lim, Init(start), run).Some?
    ensures Unarmed(Exec(lim, Init(start), run).value)
  {
    if |run| > 0 {
      UnarmedKept(lim, start, run[..|run| - 1]);
      UnarmedStep(lim, Exec(lim, Init(start), run[..|run| - 1]).value, run[|run| - 1]);
      hide Step, Unarmed;
    }
  }

  lemma {:induction false} UnarmedStep(lim: Limits, s: State, e: Event)
    requires Unarmed(s) && Step(lim, s, e).Some?
    ensures Unarmed(Step(lim, s, e).value)
  {}

  /** Within one life of the key its value only grows, and only an increment fills the window. */
  lemma {:induction false} WindowStep(lim: Limits, s: State, e: Event)
    requires Unarmed(s) && lim.window > 0 && lim.max >= 1 && Step(lim, s, e).Some?
    ensures var s' := Step(lim, s, e).value;
      && s.win.gen <= s'.win.gen
      && (s'.win.gen == s.win.gen ==> FixedWindow.Value(s.win) <= FixedWindow.Value(s'.win))
      && (Spent(lim, s') && !Spent(lim, s) ==> e.Count? && FixedWindow.Value(s'.win) == lim.max)
      && (Spent(lim, s) && Spent(lim, s') ==> s'.win.gen == s.win.gen)
  {}

  /** A call that will still count was under way before the step, unless it has just peeked. */
  lemma {:induction false} CallStep(lim: Limits, s: State, e: Event, call: int)
    requires Step(lim, s, e).Some? && call in Step(lim, s, e).value.calls && !Step(lim, s, e).value.calls[call].Arming?
    ensures || (e.Peek? && e.call == call && !Spent(lim, Step(lim, s, e).value))
            || (&& !(e.Peek? && e.call == call) && !(e.Count? && e.call == call)
                && call in s.calls && !s.calls[call].Arming?)
  {}

  /** A window found spent while a call is under way was filled by another since its peek. */
  lemma {:induction false} SpentMeansFilled(lim: Limits, start: Time, run: seq<Event>, s: State, call: int)
    requires lim.window > 0 && lim.max >= 1 && Exec(lim, Init(start), run) == Some(s)
    requires call in s.calls && !s.calls[call].Arming? && Spent(lim, s)
    ensures FilledSince(lim, start, run, call)
    decreases |run|
  {
    var p, e := run[..|run| - 1], run[|run| - 1];
    var q := Exec(lim, Init(start), p).value;
    UnarmedKept(lim, start, p);
    CallStep(lim, q, e, call);
    WindowStep(lim, q, e);
    hide Unarmed, Step;
    if Spent(lim, q) {
      SpentMeansFilled(lim, start, p, q, call);
      var k :| LastPeek(p, call) < k < |p| && Fills(lim, start, p, k, call);
      assert p[..k + 1] == run[..k + 1];
      assert Fills(lim, start, run, k, call);
    } else {
      assert run[..|run|] == run;
      assert Fills(lim, start, run, |run| - 1, call);
    }
  }

  /** Once filled, the window stays full as long as the key lives. */
  lemma {:induction false} FilledStays(lim: Limits, start: Time, run: seq<Event>, k: nat)
    requires lim.window > 0 && lim.max >= 1 && k <= |run| && Exec(lim, Init(start), run).Some?
    ensures Exec(lim, Init(start), run[..k]).Some?
    ensures var a, b := Exec(lim, Init(start), run[..k]).value.win, Exec(lim, Init(start), run).value.win;
      a.gen <= b.gen && (a.gen == b.gen ==> FixedWindow.Value(a) <= FixedWindow.Value(b))
    decreases |run|
  {
    if k == |run| {
      assert run[..k] == run;
    } else {
      var p, e := run[..|run| - 1], run[|run| - 1];
      assert p[..k] == run[..k];
      FilledStays(lim, start, p, k);
      UnarmedKept(lim, start, p);
      WindowStep(lim, Exec(lim, Init(start), p).value, e);
      hide Step, Unarmed;
    }
  }

  /** The peek is not race-free. A request's increment takes the counter past the maximum if and
      only if, since its own peek, another request's increment filled the window and the key has
      not expired. */
  lemma {:induction false} OvershootIff(lim: Limits, start: Time, run: seq<Event>, s: State, call: int)
    requires lim.window > 0 && lim.max >= 1
    requires Exec(lim, Init(start), run) == Some(s) && Step(lim, s, Count(call)).Some?
    ensures FixedWindow.Value(Step(lim, s, Count(call)).value.win) > lim.max <==> FilledSince(lim, start, run, call)
  {
    assert FixedWindow.Value(Step(lim, s, Count(call)).value.win) > lim.max <==> Spent(lim, s);
    assert call in s.calls && s.calls[call].Claimed?;
    hide Step;
    if Spent(lim, s) {
      SpentMeansFilled(lim, start, run, s, call);
    }
    if FilledSince(lim, start, run, call) {
      var k :| LastPeek(run, call) < k < |run| && Fills(lim, start, run, k, call);
      FilledStays(lim, start, run, k + 1);
    }
  }
}
