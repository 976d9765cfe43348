/** The sign-in link limiter (magicLimited and overLimit in internal/api/maglink.go): two
    fixed-window counters, one per address and one per client, both counted on every request. */
module MagicLinkLimit {
  import opened Domain
  import opened FixedWindow

  /** One counter key. */
  class Window {
    const lim: Limit
    const start: Time
    var s: State
    ghost var run: seq<Event>

    ghost predicate Valid() reads this {
      lim.window > 0 && Exec(lim, Init(start), run) == Some(s)
    }

    constructor (lim: Limit, start: Time)
      requires lim.window > 0
      ensures Valid() && this.lim == lim && run == []
    {
      this.lim, this.start := lim, start;
      s, run := Init(start), [];
    }

    /** Time passes and other requests count. */
    method Others(call: int)
      requires Valid()
      modifies this
      ensures Valid() && old(run) <= run && Untouched(old(s), s, call)
    {
      var count: int := *;
      while 0 < count
        invariant Valid() && old(run) <= run && Untouched(old(s), s, call)
      {
        count := count - 1;
        var e: Event := *;
        var next := Step(lim, s, e);
        if next.Some? && Foreign(e, call) {
          Extend(lim, Init(start), run, s, e);
          run, s := run + [e], next.value;
          hide Exec;
        }
      }
    }

    /** Count this request; it is over the limit exactly when it is not one of those let
        through, and the request that created the key has also given it its expiry. */
    method OverLimit(call: int) returns (over: bool)
      requires Valid() && s.arming != Some(call)
      modifies this
      ensures Valid() && old(run) + [Count(call)] <= run && s.arming != Some(call)
      ensures old(s).passed <= s.passed
      ensures over <==> Value(Increment(old(s), call)) > lim.max
      ensures !over ==> Pass(old(s).now, Increment(old(s), call).gen) in s.passed
    {
      ReachableInv(lim, start, run);
      FirstMustArm(lim, s, call);
      Extend(lim, Init(start), run, s, Count(call));
      run, s := run + [Count(call)], OnCount(lim, s, call);
      var n := Value(s);
      ghost var s1 := s;
      assert n <= lim.max ==> s.passed[|s.passed| - 1] == Pass(old(s).now, s.gen);
      Others(call);
      if n == 1 {
        Extend(lim, Init(start), run, s, Arm(call));
        run := run + [Arm(call)];
        s := s.(arming := None, counter := Some(s.counter.value.(expires := Some(s.now + lim.window))));
      }
      over := n > lim.max;
      assert n <= lim.max ==> s.passed[|s1.passed| - 1] == Pass(old(s).now, s1.gen);
      hide Exec;
    }
  }

  predicate Foreign(e: Event, call: int) {
    match e
    case Tick(_) => true
    case Count(c) => c != call
    case Arm(c) => c != call
    case Die(c) => c != call
  }

  ghost predicate Untouched(s: State, s': State, call: int) {
    && s.passed <= s'.passed
    && (s'.arming == Some(call) ==> s.arming == Some(call))
    && (s.arming == Some(call) && s.counter.Some? && s.counter.value.expires.None? ==>
          s'.arming == Some(call) && s'.counter.Some? && s'.counter.value.expires.None?)
  }

  /** A request is limited if either counter says so; both are counted either way. Time passes
      and others count on both keys between the two, so the second answer is about the run
      `before` that had led to it; that the two clocks may drift apart here only allows more. */
  method MagicLimited(email: Window, ip: Window, call: int) returns (limited: bool, ghost before: seq<Event>)
    requires email != ip && email.Valid() && ip.Valid()
    requires email.s.arming != Some(call) && ip.s.arming != Some(call)
    modifies email, ip
    ensures email.Valid() && ip.Valid()
    ensures old(email.run) + [Count(call)] <= email.run
    ensures old(ip.run) <= before && before + [Count(call)] <= ip.run && Exec(ip.lim, Init(ip.start), before).Some?
    ensures limited <==>
      || Value(Increment(old(email.s), call)) > email.lim.max
      || Value(Increment(Exec(ip.lim, Init(ip.start), before).value, call)) > ip.lim.max
  {
    hide Exec, Increment;
    var emailOver := email.OverLimit(call);
    ip.Others(call);
    before := ip.run;
    var ipOver := ip.OverLimit(call);
    email.Others(call);
    limited := emailOver || ipOver;
  }
}
