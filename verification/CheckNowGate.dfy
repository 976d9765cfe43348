/** The request path of a manual check (checkNowAllowed and retryAfterFrom in
    internal/api/monitors.go), command by command, with other requests and the clock acting in
    between. */
module CheckNowGate {
  import opened Domain
  import opened CheckNow
  import FixedWindow

  const SECOND: int := 1_000_000_000

  datatype Layer = Burst | Sustained

  datatype Decision = Allowed | Denied(retryAfter: int, layer: Layer)

  /** The time left in whole seconds, rounded down, but at least one. */
  predicate WholeSeconds(secs: int, left: int) {
    if left < 1_000_000_000 then secs == 1 else secs * 1_000_000_000 <= left < (secs + 1) * 1_000_000_000
  }

  /** What a refused caller is told to wait: the time the layer's key still lives, or the layer's
      full duration if the key has gone or has no expiry. */
  ghost predicate TellsWait(lim: Limits, s: State, monitor: int, layer: Layer, secs: int) {
    match layer
    case Burst =>
      WholeSeconds(secs, if monitor in s.cooldowns && s.win.now < s.cooldowns[monitor] then s.cooldowns[monitor] - s.win.now
                         else lim.cooldown)
    case Sustained =>
      WholeSeconds(secs, if s.win.counter.Some? && s.win.counter.value.expires.Some? && s.win.now < s.win.counter.value.expires.value
                         then s.win.counter.value.expires.value - s.win.now else lim.window)
  }

  /** Whole seconds left on a key, from its time to live if it has one, never less than 1. */
  function RetryAfter(ttl: int, full: int): (secs: int)
    ensures 1 <= secs
    ensures WholeSeconds(secs, if ttl > 0 then ttl else full)
    ensures full >= SECOND && ttl <= full ==> secs * SECOND <= full
  {
    var remaining := if ttl > 0 then ttl else full;
    if remaining < SECOND then 1 else remaining / SECOND
  }

  /** Time left on the window key, as Redis reports it: negative without key or expiry. */
  function WindowTtl(s: State): int {
    match FixedWindow.Live(s.win)
    case None => -2
    case Some(c) => if c.expires.None? then -1 else c.expires.value - s.win.now
  }

  /** Time left on a monitor's cooldown key. */
  function CooldownTtl(s: State, monitor: int): int {
    if Cooling(s, monitor) then s.cooldowns[monitor] - s.win.now else -2
  }

  /** The layer had reason to refuse: the cooldown key was taken, or the budget was spent. */
  ghost predicate Refuses(lim: Limits, s: Option<State>, monitor: int, layer: Layer) {
    && s.Some?
    && match layer
       case Burst => Cooling(s.value, monitor)
       case Sustained => Spent(lim, s.value)
  }

  class Gate {
    const lim: Limits
    const start: Time
    var s: State
    ghost var run: seq<Event>

    ghost predicate Valid() reads this {
      lim.window > 0 && lim.cooldown > 0 && Exec(lim, Init(start), run) == Some(s)
    }

    constructor (lim: Limits, start: Time)
      requires lim.window > 0 && lim.cooldown > 0
      ensures Valid() && this.lim == lim && run == []
    {
      this.lim, this.start := lim, start;
      s, run := Init(start), [];
    }

    /** Time passes and other requests run; this one's progress is left alone. */
    method Others(call: int)
      requires Valid()
      modifies this
      ensures Valid() && old(run) <= run && Untouched(old(s), s, call)
    {
      var count: int := *;
      while 0 < count
        invariant Valid() && old(run) <= run && Untouched(old(s), s, call)
      {
        count := count - 1;
        var e: Event := *;
        var next := Step(lim, s, e);
        if next.Some? && Foreign(e, call) {
          ForeignStep(lim, s, e, call);
          Extend(lim, Init(start), run, s, e);
          run, s := run + [e], next.value;
          hide Exec, Step;
        }
      }
    }

    method Do(e: Event) returns (ghost taken: bool)
      requires Valid()
      modifies this
      ensures Valid() && taken == Step(lim, old(s), e).Some?
      ensures if taken then s == Step(lim, old(s), e).value && run == old(run) + [e]
              else s == old(s) && run == old(run)
    {
      var next := Step(lim, s, e);
      taken := next.Some?;
      if next.Some? {
        Extend(lim, Init(start), run, s, e);
        run, s := run + [e], next.value;
      }
    }

    /** A check that is allowed holds a claim on its monitor's cooldown made during the call and
        counted within the window's budget. A refusal names a layer that did have to refuse at
        some moment `at` of the call, and how long that layer's key still lives. */
    method CheckNowAllowed(call: int, monitor: int) returns (d: Decision, ghost at: nat)
      requires Valid() && call !in s.calls && s.win.arming != Some(call)
      modifies this
      ensures Valid() && old(run) <= run && call !in s.calls
      ensures d.Allowed? ==> exists k :: |old(s).claims| <= k < |s.claims| && s.claims[k].monitor == monitor && k in s.allowed
      ensures d.Denied? ==> |old(run)| <= at <= |run| && TellsWait(lim, s, monitor, d.layer, d.retryAfter)
      ensures d.Denied? ==> Refuses(lim, Exec(lim, Init(start), run[..at]), monitor, d.layer)
    {
      hide Exec, WholeSeconds;
      at := |run|;
      if Spent(lim, s) {
        ghost var soFar := run;
        Others(call);
        assert run[..at] == soFar;
        return Denied(RetryAfter(WindowTtl(s), lim.window), Sustained), at;
      }
      var peeked := Do(Peek(call, monitor));
      Others(call);
      at := |run|;
      ghost var claim := |s.claims|;
      var acquired := !Cooling(s, monitor);
      ghost var soFar := run;
      var tried := Do(Acquire(call));
      Others(call);
      if !acquired {
        assert run[..at] == soFar;
        return Denied(RetryAfter(CooldownTtl(s, monitor), lim.cooldown), Burst), at;
      }
      d, at := CountCheck(call, monitor, claim);
    }

    /** The second half: the counting increment and the expiry it may have to start. */
    method CountCheck(call: int, monitor: int, ghost claim: int) returns (d: Decision, ghost at: nat)
      requires Valid() && call in s.calls && s.calls[call] == Claimed(monitor, claim) && s.win.arming != Some(call)
      requires 0 <= claim < |s.claims| && s.claims[claim].monitor == monitor
      modifies this
      ensures Valid() && old(run) <= run && call !in s.calls
      ensures d.Allowed? ==> claim < |s.claims| && s.claims[claim].monitor == monitor && claim in s.allowed
      ensures d.Denied? ==> |old(run)| <= at <= |run| && d.layer == Sustained && TellsWait(lim, s, monitor, Sustained, d.retryAfter)
      ensures d.Denied? ==> Refuses(lim, Exec(lim, Init(start), run[..at]), monitor, Sustained)
    {
      ReachableInv(lim, start, run);
      FixedWindow.FirstMustArm(Window(lim), s.win, call);
      var counted := Do(Count(call));
      var n := FixedWindow.Value(s.win);
      ghost var s1, soFar := s, run;
      at := |run|;
      assert n <= lim.max ==> s.allowed[|s.allowed| - 1] == claim;
      assert n > lim.max ==> Spent(lim, s);
      Others(call);
      if n == 1 {
        var armed := Do(Arm(call));
      }
      hide Exec, Step;
      if n > lim.max {
        assert run[..at] == soFar;
        return Denied(RetryAfter(WindowTtl(s), lim.window), Sustained), at;
      }
      assert s.allowed[|s1.allowed| - 1] == claim;
      d := Allowed;
    }
  }

  predicate Foreign(e: Event, call: int) {
    match e
    case Tick(_) => true
    case Peek(c, _) => c != call
    case Acquire(c) => c != call
    case Count(c) => c != call
    case Arm(c) => c != call
    case Die(c) => c != call
  }

  /** What other requests leave alone. */
  ghost predicate Untouched(s: State, s': State, call: int) {
    && (call in s'.calls <==> call in s.calls)
    && (call in s.calls ==> s'.calls[call] == s.calls[call])
    && s.claims <= s'.claims && s.allowed <= s'.allowed
    && (s'.win.arming == Some(call) ==> s.win.arming == Some(call))
    && (s.win.arming == Some(call) && s.win.counter.Some? && s.win.counter.value.expires.None? ==>
          s'.win.arming == Some(call) && s'.win.counter.Some? && s'.win.counter.value.expires.None?)
  }

  lemma {:induction false} ForeignStep(lim: Limits, s: State, e: Event, call: int)
    requires Step(lim, s, e).Some? && Foreign(e, call)
    ensures Untouched(s, Step(lim, s, e).value, call)
  {}
}
