/** The fixed-window counter: increment a key, start its expiry on the first increment, and
    refuse above the limit (internal/api/maglink.go, and the org window of
    internal/api/monitors.go). The increment and the expiry are separate Redis commands, so
    other callers act in between, and the caller that must start the expiry may die first. */
module FixedWindow {
  import opened Domain

  datatype Limit = Limit(max: int, window: int)

  /** 3 links per address in 15 minutes. */
  const MAGIC_LINK_PER_EMAIL := Limit(3, 900_000_000_000)

  /** 10 links per client address in an hour. */
  const MAGIC_LINK_PER_IP := Limit(10, 3_600_000_000_000)

  datatype Counter = Counter(value: int, expires: Option<Time>)

  /** A caller let through, and in which life of the key. */
  datatype Pass = Pass(at: Time, gen: int)

  /** `arming` is the caller that has created the key and has not set its expiry yet. The
      rest is history: how many times the key was created, when last, and who passed. */
  datatype State = State(
    now: Time,
    counter: Option<Counter>,
    arming: Option<int>,
    gen: int,
    started: Time,
    passed: seq<Pass>)

  datatype Event =
    | Tick(d: nat)
    | Count(call: int)
    | Arm(call: int)
    | Die(call: int)

  /** The key as Redis shows it now. */
  function Live(s: State): Option<Counter> {
    if s.counter.Some? && (s.counter.value.expires.None? || s.now < s.counter.value.expires.value)
    then s.counter else None
  }

  /** The atomic increment; it creates the key, without an expiry, if there is none. */
  function Increment(s: State, call: int): State {
    if Live(s).Some? then s.(counter := Some(s.counter.value.(value := s.counter.value.value + 1)))
    else s.(counter := Some(Counter(1, None)), arming := Some(call), gen := s.gen + 1, started := s.now)
  }

  function Value(s: State): int {
    if s.counter.Some? then s.counter.value.value else 0
  }

  function OnCount(lim: Limit, s: State, call: int): State {
    var s1 := Increment(s, call);
    if Value(s1) <= lim.max then s1.(passed := s.passed + [Pass(s.now, s1.gen)]) else s1
  }

  function Step(lim: Limit, s: State, e: Event): Option<State> {
    match e
    case Tick(d) => Some(s.(now := s.now + d))
    case Count(call) => if s.arming == Some(call) then None else Some(OnCount(lim, s, call))
    case Arm(call) =>
      if s.arming == Some(call) && s.counter.Some?
      then Some(s.(arming := None, counter := Some(s.counter.value.(expires := Some(s.now + lim.window)))))
      else None
    case Die(call) => Some(if s.arming == Some(call) then s.(arming := None) else s)
  }

  function Init(now: Time): State {
    State(now, None, None, 0, now, [])
  }

  function Exec(lim: Limit, s: State, run: seq<Event>): Option<State> {
    if |run| == 0 then Some(s)
    else
      var before := Exec(lim, s, run[..|run| - 1]);
      if before.None? then None else Step(lim, before.value, run[|run| - 1])
  }

  /** The first increment of a key is the one that must start its expiry. */
  lemma FirstMustArm(lim: Limit, s: State, call: int)
    requires Inv(lim, s)
    ensures var s' := OnCount(lim, s, call);
      && (Value(s') == 1 ==> s'.arming == Some(call) && s'.counter == Some(Counter(1, None)))
      && (Value(s') != 1 ==> s'.arming == s.arming)
  {}

  // ---------- counting passes ----------

  function InGen(ps: seq<Pass>, g: int): int {
    if |ps| == 0 then 0 else InGen(ps[..|ps| - 1], g) + if ps[|ps| - 1].gen == g then 1 else 0
  }

  /** How many were let through in the half-open span [lo, hi). */
  function InSpan(ps: seq<Pass>, lo: Time, hi: Time): int {
    if |ps| == 0 then 0 else InSpan(ps[..|ps| - 1], lo, hi) + if lo <= ps[|ps| - 1].at < hi then 1 else 0
  }

  lemma {:induction false} InGenSnoc(ps: seq<Pass>, p: Pass, g: int)
    ensures InGen(ps + [p], g) == InGen(ps, g) + if p.gen == g then 1 else 0
  {
    assert (ps + [p])[..|ps|] == ps;
  }

  lemma {:induction false} InGenNone(ps: seq<Pass>, g: int)
    requires forall i :: 0 <= i < |ps| ==> ps[i].gen < g
    ensures InGen(ps, g) == 0
  {
    if |ps| > 0 {
      InGenNone(ps[..|ps| - 1], g);
    }
  }

  /** A span that meets only two lives of the key has at most what passed in those two. */
  lemma {:induction false} SpanWithinTwo(ps: seq<Pass>, lo: Time, hi: Time, g: int)
    requires forall i :: 0 <= i < |ps| && lo <= ps[i].at < hi ==> ps[i].gen == g || ps[i].gen == g + 1
    ensures InSpan(ps, lo, hi) <= InGen(ps, g) + InGen(ps, g + 1)
  {
    if |ps| > 0 {
      SpanWithinTwo(ps[..|ps| - 1], lo, hi, g);
    }
  }

  lemma {:induction false} SpanEmpty(ps: seq<Pass>, lo: Time, hi: Time)
    requires forall i :: 0 <= i < |ps| ==> !(lo <= ps[i].at < hi)
    ensures InSpan(ps, lo, hi) == 0
  {
    if |ps| > 0 {
      SpanEmpty(ps[..|ps| - 1], lo, hi);
    }
  }

  // ---------- the invariant ----------

  ghost predicate CountsOk(lim: Limit, s: State) {
    && (forall g :: InGen(s.passed, g) <= if lim.max >= 0 then lim.max else 0)
    && InGen(s.passed, s.gen) <= Value(s)
    && (if s.counter.Some? then 1 <= Value(s) else 0 == Value(s))
    && (forall i :: 0 <= i < |s.passed| ==> s.passed[i].gen <= s.gen)
  }

  /** Each life of the key starts at least one window after the one before it started. */
  ghost predicate TimesOk(lim: Limit, s: State) {
    && s.started <= s.now
    && (s.counter.Some? && s.counter.value.expires.Some? ==> s.counter.value.expires.value >= s.started + lim.window)
    && (forall i :: 0 <= i < |s.passed| ==>
          && s.passed[i].at <= s.now
          && (s.passed[i].gen < s.gen ==> s.passed[i].at <= s.started)
          && (s.passed[i].gen < s.gen - 1 ==> s.passed[i].at + lim.window <= s.started))
    && (forall i, j :: 0 <= i < j < |s.passed| ==>
          && s.passed[i].gen <= s.passed[j].gen
          && (s.passed[i].gen + 1 < s.passed[j].gen ==> s.passed[i].at + lim.window <= s.passed[j].at))
  }

  ghost predicate Inv(lim: Limit, s: State) {
    CountsOk(lim, s) && TimesOk(lim, s) && (s.counter.None? ==> s.gen == 0 && s.passed == [])
  }

  lemma {:induction false} CountKeepsCounts(lim: Limit, s: State, call: int)
    requires Inv(lim, s)
    ensures CountsOk(lim, OnCount(lim, s, call))
  {
    var s' := OnCount(lim, s, call);
    InGenNone(s.passed, s.gen + 1);
    forall g ensures InGen(s'.passed, g) <= if lim.max >= 0 then lim.max else 0 {
      InGenSnoc(s.passed, Pass(s.now, s'.gen), g);
    }
    InGenSnoc(s.passed, Pass(s.now, s'.gen), s'.gen);
    hide InGen;
  }

  lemma {:induction false} CountKeepsTimes(lim: Limit, s: State, call: int)
    requires Inv(lim, s) && lim.window > 0
    ensures TimesOk(lim, OnCount(lim, s, call))
  {
    hide InGen;
  }

  lemma {:induction false} StepKeepsInv(lim: Limit, s: State, e: Event)
    requires Inv(lim, s) && lim.window > 0 && Step(lim, s, e).Some?
    ensures Inv(lim, Step(lim, s, e).value)
  {
    if e.Count? {
      CountKeepsCounts(lim, s, e.call);
      CountKeepsTimes(lim, s, e.call);
    } else {
      OtherKeepsInv(lim, s, e);
    }
    hide CountsOk, TimesOk;
  }

  /** Time passing, the expiry and a death change no count. */
  lemma {:induction false} OtherKeepsInv(lim: Limit, s: State, e: Event)
    requires Inv(lim, s) && lim.window > 0 && Step(lim, s, e).Some? && !e.Count?
    ensures Inv(lim, Step(lim, s, e).value)
  {
    hide InGen, OnCount;
  }

  lemma {:induction false} ReachableInv(lim: Limit, start: Time, run: seq<Event>)
    requires lim.window > 0 && Exec(lim, Init(start), run).Some?
    ensures Inv(lim, Exec(lim, Init(start), run).value)
  {
    if |run| > 0 {
      ReachableInv(lim, start, run[..|run| - 1]);
      StepKeepsInv(lim, Exec(lim, Init(start), run[..|run| - 1]).value, run[|run| - 1]);
    }
  }

  /** At most `max` callers are let through in one life of the key. */
  lemma WindowBound(lim: Limit, start: Time, run: seq<Event>, g: int)
    requires lim.window > 0 && lim.max >= 0 && Exec(lim, Init(start), run).Some?
    ensures InGen(Exec(lim, Init(start), run).value.passed, g) <= lim.max
  {
    ReachableInv(lim, start, run);
  }

  /** At most twice that in any half-open span of one window length, wherever it starts. */
  lemma {:induction false} SpanBound(lim: Limit, start: Time, run: seq<Event>, lo: Time)
    requires lim.window > 0 && lim.max >= 0 && Exec(lim, Init(start), run).Some?
    ensures InSpan(Exec(lim, Init(start), run).value.passed, lo, lo + lim.window) <= 2 * lim.max
  {
    ReachableInv(lim, start, run);
    SpanBoundOf(lim, Exec(lim, Init(start), run).value, lo);
  }

  lemma {:induction false} SpanBoundOf(lim: Limit, s: State, lo: Time)
    requires Inv(lim, s) && lim.max >= 0
    ensures InSpan(s.passed, lo, lo + lim.window) <= 2 * lim.max
  {
    var ps, hi := s.passed, lo + lim.window;
    if exists i :: 0 <= i < |ps| && lo <= ps[i].at < hi {
      var i := First(ps, lo, hi);
      var g := ps[i].gen;
      forall j | 0 <= j < |ps| && lo <= ps[j].at < hi ensures ps[j].gen == g || ps[j].gen == g + 1 {
        assert i <= j;
      }
      SpanWithinTwo(ps, lo, hi, g);
      assert InGen(ps, g) <= lim.max && InGen(ps, g + 1) <= lim.max;
    } else {
      SpanEmpty(ps, lo, hi);
    }
  }

  lemma {:induction false} First(ps: seq<Pass>, lo: Time, hi: Time) returns (i: int)
    requires exists k :: 0 <= k < |ps| && lo <= ps[k].at < hi
    ensures 0 <= i < |ps| && lo <= ps[i].at < hi
    ensures forall j :: 0 <= j < |ps| && lo <= ps[j].at < hi ==> i <= j
  {
    i := 0;
    while !(lo <= ps[i].at < hi)
      invariant 0 <= i < |ps| && forall j :: 0 <= j < i ==> !(lo <= ps[j].at < hi)
      decreases |ps| - i
    {
      assert exists k :: i < k < |ps| && lo <= ps[k].at < hi;
      i := i + 1;
    }
  }

  // ---------- nobody is refused early, and the window ends ----------

  /** As many were let through in the current life of the key as were counted, up to the limit. */
  ghost predicate Exact(lim: Limit, s: State) {
    && InGen(s.passed, s.gen) == (if Value(s) < lim.max then Value(s) else lim.max)
    && (forall i :: 0 <= i < |s.passed| ==> s.passed[i].gen <= s.gen)
  }

  lemma {:induction false} ExactStep(lim: Limit, s: State, e: Event)
    requires Exact(lim, s) && lim.max >= 0 && Step(lim, s, e).Some?
    ensures Exact(lim, Step(lim, s, e).value)
  {
    if e.Count? {
      var s' := Step(lim, s, e).value;
      InGenNone(s.passed, s.gen + 1);
      InGenSnoc(s.passed, Pass(s.now, s'.gen), s'.gen);
    }
    hide InGen;
  }

  lemma {:induction false} ExactAlways(lim: Limit, start: Time, run: seq<Event>)
    requires lim.max >= 0 && Exec(lim, Init(start), run).Some?
    ensures Exact(lim, Exec(lim, Init(start), run).value)
  {
    if |run| > 0 {
      ExactAlways(lim, start, run[..|run| - 1]);
      ExactStep(lim, Exec(lim, Init(start), run[..|run| - 1]).value, run[|run| - 1]);
      hide Step, Exact;
    }
  }

  /** A caller is refused if and only if the key's current life has already let the limit
      through. */
  lemma RefusedIffFull(lim: Limit, start: Time, run: seq<Event>, s: State, call: int)
    requires lim.max >= 0 && Exec(lim, Init(start), run) == Some(s) && Step(lim, s, Count(call)).Some?
    ensures Step(lim, s, Count(call)).value.passed == s.passed <==>
      (if Live(s).Some? then InGen(s.passed, s.gen) == lim.max else lim.max == 0)
  {
    ExactAlways(lim, start, run);
    hide InGen;
  }

  /** An expiry, once set, ends the key's life exactly one window later. */
  lemma ArmedForOneWindow(lim: Limit, s: State, call: int, d: nat)
    requires Step(lim, s, Arm(call)).Some?
    ensures var s' := Step(lim, s, Arm(call)).value;
      s'.now == s.now && (Live(s'.(now := s'.now + d)).Some? <==> d < lim.window)
  {}

  // ---------- a counter that is never reset ----------

  /** The key exists without an expiry and nobody is left to start one: its creator died
      between the increment and the expiry. */
  predicate Stuck(s: State) {
    s.counter.Some? && s.counter.value.expires.None? && s.arming.None?
  }

  lemma {:induction false} StuckStep(lim: Limit, s: State, e: Event)
    requires Stuck(s) && Step(lim, s, e).Some?
    ensures var s' := Step(lim, s, e).value;
      && Stuck(s') && s'.gen == s.gen && Value(s) <= Value(s')
      && |s'.passed| - |s.passed| <= Value(s') - Value(s)
      && (|s'.passed| > |s.passed| ==> Value(s') <= lim.max)
  {}

  /** From then on the limit is for all time: whatever happens and however long it takes, only
      what was left of the first window's budget is ever let through again. */
  lemma {:induction false} StuckForever(lim: Limit, s: State, more: seq<Event>)
    requires Stuck(s) && Exec(lim, s, more).Some?
    ensures var s' := Exec(lim, s, more).value;
      && Stuck(s') && s'.gen == s.gen && Value(s) <= Value(s')
      && (|s'.passed| > |s.passed| ==> |s'.passed| - |s.passed| <= lim.max - Value(s))
      && |s'.passed| - |s.passed| <= Value(s') - Value(s)
  {
    if |more| > 0 {
      var p := more[..|more| - 1];
      StuckForever(lim, s, p);
      StuckStep(lim, Exec(lim, s, p).value, more[|more| - 1]);
      hide Step, Stuck, Value;
    }
  }

  lemma {:induction false} Extend(lim: Limit, start: State, run: seq<Event>, s: State, e: Event)
    requires Exec(lim, start, run) == Some(s)
    ensures Exec(lim, start, run + [e]) == Step(lim, s, e)
  {
    assert (run + [e])[..|run|] == run;
  }

  /** A key with an expiry is reset by the first count after it. */
  lemma {:induction false} ExpiryResets(lim: Limit, s: State) returns (more: seq<Event>)
    requires s.counter.Some? && s.counter.value.expires.Some? && s.arming.None?
    ensures Exec(lim, s, more).Some? && Exec(lim, s, more).value.gen > s.gen
  {
    var wait := s.counter.value.expires.value - s.now;
    var e1, e2 := Tick(if wait > 0 then wait else 0), Count(0);
    Extend(lim, s, [], s, e1);
    Extend(lim, s, [] + [e1], Step(lim, s, e1).value, e2);
    more := [] + [e1] + [e2];
    hide Exec;
  }

  /** Exactly when a counter can still be reset: it is not stuck. */
  lemma {:induction false} ResetsIff(lim: Limit, start: Time, run: seq<Event>, s: State)
    requires lim.window > 0 && Exec(lim, Init(start), run) == Some(s) && s.counter.Some?
    ensures (exists more :: Exec(lim, s, more).Some? && Exec(lim, s, more).value.gen > s.gen) <==> !Stuck(s)
  {
    if Stuck(s) {
      forall more | Exec(lim, s, more).Some? ensures Exec(lim, s, more).value.gen == s.gen {
        StuckForever(lim, s, more);
      }
    } else {
      var more := Unstick(lim, s);
      assert Exec(lim, s, more).value.gen > s.gen;
    }
  }

  lemma {:induction false} Unstick(lim: Limit, s: State) returns (more: seq<Event>)
    requires s.counter.Some? && !Stuck(s)
    ensures Exec(lim, s, more).Some? && Exec(lim, s, more).value.gen > s.gen
  {
    var first := if s.arming.Some? then Arm(s.arming.value) else Tick(0);
    Extend(lim, s, [], s, first);
    var s1 := Step(lim, s, first).value;
    var rest := ExpiryResets(lim, s1);
    more := [first] + rest;
    Continue(lim, s, [first], rest);
    hide Exec;
    assert [] + [first] == [first];
  }

  /** Running on from where a run has led. */
  lemma {:induction false} Continue(lim: Limit, s: State, a: seq<Event>, b: seq<Event>)
    requires Exec(lim, s, a).Some? && Exec(lim, Exec(lim, s, a).value, b).Some?
    ensures Exec(lim, s, a + b) == Exec(lim, Exec(lim, s, a).value, b)
  {
    if |b| == 0 {
      assert a + b == a;
    } else {
      var p, e := b[..|b| - 1], b[|b| - 1];
      Continue(lim, s, a, p);
      assert a + b == a + p + [e];
      Extend(lim, s, a + p, Exec(lim, s, a + p).value, e);
    }
  }
}
