/** A read-through cache in front of the database, as both the role cache
    (internal/authn/middleware.go) and the API-key cache (internal/authn/apikey.go) use it:
    look in the cache, else read the database and fill the cache, negative answers included.
    Here the three steps of a lookup interleave with writes, deletes and other lookups. */
module CachedReads {
  import opened Domain

  /** What the database says of a key: no such row (or a revoked one), or the row's value. */
  datatype Answer = Negative | Positive(value: int)

  /** `version` and `readAt` are history only: the state of the database the answer was read
      from and when. */
  datatype Entry = Entry(answer: Answer, setAt: Time, expires: Time, version: int, readAt: Time)

  datatype Call =
    | Missed(key: int)
    | Got(key: int, answer: Answer, version: int, readAt: Time)

  /** One answer given to a caller. */
  datatype Served = Served(key: int, answer: Answer, at: Time, version: int, readAt: Time, setAt: Option<Time>)

  /** `versions` is every state the database has been in, the current one last. */
  datatype State = State(
    versions: seq<map<int, Answer>>,
    cache: map<int, Entry>,
    calls: map<int, Call>,
    now: Time,
    served: seq<Served>)

  datatype Event =
    | Tick(d: nat)
    | Write(key: int, answer: Answer)
    | Invalidate(key: int)
    | Probe(call: int, key: int, cacheUp: bool)
    | ReadRow(call: int)
    | Fill(call: int, cacheUp: bool)
    | Abandon(call: int)

  /** How long positive and negative answers live. */
  datatype Ttls = Ttls(positive: int, negative: int)

  function Ttl(t: Ttls, a: Answer): int {
    if a.Negative? then t.negative else t.positive
  }

  /** 5 minutes for a role, present or not. */
  const MEMBER_ROLE_TTL: int := 300_000_000_000

  /** 5 minutes for a key. */
  const API_KEY_TTL: int := 300_000_000_000

  /** 30 seconds for an unknown or revoked key. */
  const API_KEY_NEGATIVE_TTL: int := 30_000_000_000

  const ROLE_TTLS := Ttls(MEMBER_ROLE_TTL, MEMBER_ROLE_TTL)
  const API_KEY_TTLS := Ttls(API_KEY_TTL, API_KEY_NEGATIVE_TTL)

  function RowOf(rows: map<int, Answer>, key: int): Answer {
    if key in rows then rows[key] else Negative
  }

  function Current(s: State): map<int, Answer> {
    if |s.versions| == 0 then map[] else s.versions[|s.versions| - 1]
  }

  /** The entry a lookup would hit. */
  function Hit(s: State, key: int): Option<Entry> {
    if key in s.cache && s.now < s.cache[key].expires then Some(s.cache[key]) else None
  }

  function OnProbe(s: State, call: int, key: int, cacheUp: bool): Option<State> {
    if call in s.calls then None
    else if cacheUp && Hit(s, key).Some? then
      var e := Hit(s, key).value;
      Some(s.(served := s.served + [Served(key, e.answer, s.now, e.version, e.readAt, Some(e.setAt))]))
    else Some(s.(calls := s.calls[call := Missed(key)]))
  }

  function OnReadRow(s: State, call: int): Option<State> {
    if call !in s.calls || !s.calls[call].Missed? then None
    else
      var key := s.calls[call].key;
      Some(s.(calls := s.calls[call := Got(key, RowOf(Current(s), key), |s.versions| - 1, s.now)]))
  }

  function OnFill(t: Ttls, s: State, call: int, cacheUp: bool): Option<State> {
    if call !in s.calls || !s.calls[call].Got? then None
    else
      var c := s.calls[call];
      Some(s.(calls := s.calls - {call},
              cache := if cacheUp
                       then s.cache[c.key := Entry(c.answer, s.now, s.now + Ttl(t, c.answer), c.version, c.readAt)]
                       else s.cache,
              served := s.served + [Served(c.key, c.answer, s.now, c.version, c.readAt, None)]))
  }

  function Step(t: Ttls, s: State, e: Event): Option<State> {
    match e
    case Tick(d) => Some(s.(now := s.now + d))
    case Write(key, answer) => Some(s.(versions := s.versions + [Current(s)[key := answer]]))
    case Invalidate(key) => Some(s.(cache := s.cache - {key}))
    case Probe(call, key, up) => OnProbe(s, call, key, up)
    case ReadRow(call) => OnReadRow(s, call)
    case Fill(call, up) => OnFill(t, s, call, up)
    case Abandon(call) => Some(s.(calls := s.calls - {call}))
  }

  function Init(rows: map<int, Answer>, now: Time): State {
    State([rows], map[], map[], now, [])
  }

  function Exec(t: Ttls, s: State, run: seq<Event>): Option<State> {
    if |run| == 0 then Some(s)
    else
      var before := Exec(t, s, run[..|run| - 1]);
      if before.None? then None else Step(t, before.value, run[|run| - 1])
  }

  /** The answer is what the database said when it was in that version. */
  ghost predicate FromDatabase(versions: seq<map<int, Answer>>, key: int, answer: Answer, version: int) {
    0 <= version < |versions| && answer == RowOf(versions[version], key)
  }

  ghost predicate CallsOk(s: State) {
    forall c :: c in s.calls && s.calls[c].Got? ==>
      && FromDatabase(s.versions, s.calls[c].key, s.calls[c].answer, s.calls[c].version)
      && s.calls[c].readAt <= s.now
  }

  ghost predicate CacheOk(t: Ttls, s: State) {
    forall k :: k in s.cache ==>
      && FromDatabase(s.versions, k, s.cache[k].answer, s.cache[k].version)
      && s.cache[k].readAt <= s.cache[k].setAt <= s.now
      && s.cache[k].expires == s.cache[k].setAt + Ttl(t, s.cache[k].answer)
  }

  /** A served answer came from the database, directly or through an entry that was filled
      from that very read and was younger than its time to live. */
  ghost predicate ServedOk(t: Ttls, s: State, r: Served) {
    && FromDatabase(s.versions, r.key, r.answer, r.version)
    && r.readAt <= r.at
    && (r.setAt.Some? ==> r.readAt <= r.setAt.value <= r.at < r.setAt.value + Ttl(t, r.answer))
  }

  ghost predicate Inv(t: Ttls, s: State) {
    && |s.versions| > 0 && CallsOk(s) && CacheOk(t, s)
    && forall i :: 0 <= i < |s.served| ==> ServedOk(t, s, s.served[i])
  }

  /** Earlier versions stay what they were. */
  lemma VersionsGrow(versions: seq<map<int, Answer>>, next: map<int, Answer>, key: int, answer: Answer, version: int)
    requires FromDatabase(versions, key, answer, version)
    ensures FromDatabase(versions + [next], key, answer, version)
  {}

  lemma {:induction false} StepKeepsInv(t: Ttls, s: State, e: Event)
    requires Inv(t, s) && Step(t, s, e).Some?
    ensures Inv(t, Step(t, s, e).value)
  {
    match e
    case Write(key, answer) =>
      var next := Current(s)[key := answer];
      forall k, a, v | FromDatabase(s.versions, k, a, v) ensures FromDatabase(s.versions + [next], k, a, v) {
        VersionsGrow(s.versions, next, k, a, v);
      }
      hide FromDatabase;
    case ReadRow(call) =>
    case _ => hide FromDatabase;
  }

  /** Whatever interleaves, every answer ever served equals the database's own answer at the
      read that produced it, and a cached one was served less than its time to live after its
      entry was set. */
  lemma {:induction false} ServedFromDatabase(t: Ttls, rows: map<int, Answer>, start: Time, run: seq<Event>)
    requires Exec(t, Init(rows, start), run).Some?
    ensures var s := Exec(t, Init(rows, start), run).value;
      Inv(t, s) && forall i :: 0 <= i < |s.served| ==> ServedOk(t, s, s.served[i])
  {
    if |run| > 0 {
      ServedFromDatabase(t, rows, start, run[..|run| - 1]);
      StepKeepsInv(t, Exec(t, Init(rows, start), run[..|run| - 1]).value, run[|run| - 1]);
    }
  }

  // ---------- when a lookup overlaps a write ----------

  /** A lookup that overlaps a write and its invalidation can leave the old answer behind: the
      read comes before the write, the fill after the invalidation. */
  lemma OverlapLeavesOldAnswer(t: Ttls) returns (run: seq<Event>)
    requires t.positive > 0
    ensures Exec(t, Init(map[7 := Positive(1)], 0), run).Some?
    ensures var s := Exec(t, Init(map[7 := Positive(1)], 0), run).value;
      Hit(s, 7).Some? && Hit(s, 7).value.answer != RowOf(Current(s), 7)
  {
    var s0 := Init(map[7 := Positive(1)], 0);
    var e1, e2, e3, e4, e5 := Probe(1, 7, true), ReadRow(1), Write(7, Negative), Invalidate(7), Fill(1, true);
    Extend(t, s0, [], e1);
    Extend(t, s0, [] + [e1], e2);
    Extend(t, s0, [] + [e1] + [e2], e3);
    Extend(t, s0, [] + [e1] + [e2] + [e3], e4);
    Extend(t, s0, [] + [e1] + [e2] + [e3] + [e4], e5);
    run := [] + [e1] + [e2] + [e3] + [e4] + [e5];
    hide Exec;
  }

  lemma {:induction false} Extend(t: Ttls, start: State, run: seq<Event>, e: Event)
    requires Exec(t, start, run).Some?
    ensures Exec(t, start, run + [e]) == Step(t, Exec(t, start, run).value, e)
  {
    assert (run + [e])[..|run|] == run;
  }

  /** The cache, and every lookup that has already read, agree with the database on a key. */
  ghost predicate Coherent(s: State, key: int) {
    && (key in s.cache ==> s.cache[key].answer == RowOf(Current(s), key))
    && forall c :: c in s.calls && s.calls[c].Got? && s.calls[c].key == key ==>
      s.calls[c].answer == RowOf(Current(s), key)
  }

  ghost predicate NoWrite(run: seq<Event>, key: int) {
    forall i :: 0 <= i < |run| ==> !(run[i].Write? && run[i].key == key)
  }

  lemma {:induction false} CoherentStep(t: Ttls, s: State, e: Event, key: int)
    requires Coherent(s, key) && Step(t, s, e).Some? && !(e.Write? && e.key == key)
    ensures var s' := Step(t, s, e).value;
      && Coherent(s', key) && RowOf(Current(s'), key) == RowOf(Current(s), key)
      && s.served <= s'.served
      && forall i :: |s.served| <= i < |s'.served| && s'.served[i].key == key ==>
        s'.served[i].answer == RowOf(Current(s), key)
  {}

  /** Transparency: once cache and database agree on a key, every answer served for it until
      its next write is the database's current answer, whatever else interleaves. */
  lemma {:induction false} TransparentUntilNextWrite(t: Ttls, s: State, run: seq<Event>, key: int)
    requires Coherent(s, key) && Exec(t, s, run).Some? && NoWrite(run, key)
    ensures var s' := Exec(t, s, run).value;
      && Coherent(s', key) && RowOf(Current(s'), key) == RowOf(Current(s), key)
      && s.served <= s'.served
      && forall i :: |s.served| <= i < |s'.served| && s'.served[i].key == key ==>
        s'.served[i].answer == RowOf(Current(s'), key)
  {
    if |run| > 0 {
      var p := run[..|run| - 1];
      assert forall i :: 0 <= i < |p| ==> p[i] == run[i];
      TransparentUntilNextWrite(t, s, p, key);
      CoherentStep(t, Exec(t, s, p).value, run[|run| - 1], key);
      hide Step, Coherent, RowOf;
    }
  }

  // ---------- what the delete after a write is worth ----------

  /** Until the next write of the key, whatever runs, every answer for it is the current one. */
  ghost predicate ServesCurrent(t: Ttls, s: State, key: int) {
    forall run :: Exec(t, s, run).Some? && NoWrite(run, key) ==> OnlyCurrent(s, Exec(t, s, run).value, key, false)
  }

  /** The same, of the answers that come out of the cache. */
  ghost predicate CachesCurrent(t: Ttls, s: State, key: int) {
    forall run :: Exec(t, s, run).Some? && NoWrite(run, key) ==> OnlyCurrent(s, Exec(t, s, run).value, key, true)
  }

  /** The answers served for the key between s and s', all of them or only the cached ones,
      are what the database says in s'. */
  ghost predicate OnlyCurrent(s: State, s': State, key: int, cachedOnly: bool) {
    forall i :: |s.served| <= i < |s'.served| && s'.served[i].key == key && (cachedOnly ==> s'.served[i].setAt.Some?) ==>
      s'.served[i].answer == RowOf(Current(s'), key)
  }

  /** Some lookup has read the key and holds an answer the database no longer gives. */
  ghost predicate StaleLookup(s: State, key: int) {
    exists c :: c in s.calls && s.calls[c].Got? && s.calls[c].key == key && s.calls[c].answer != RowOf(Current(s), key)
  }

  /** A lookup that holds an old answer puts it back for others to find. */
  lemma {:induction false} StaleRefills(t: Ttls, s: State, key: int) returns (run: seq<Event>)
    requires StaleLookup(s, key) && t.positive > 0 && t.negative > 0
    ensures Exec(t, s, run).Some? && NoWrite(run, key) && !OnlyCurrent(s, Exec(t, s, run).value, key, true)
  {
    var c :| c in s.calls && s.calls[c].Got? && s.calls[c].key == key && s.calls[c].answer != RowOf(Current(s), key);
    var d := Beyond(s.calls.Keys);
    var e1, e2 := Fill(c, true), Probe(d, key, true);
    hide Step;
    FillThenHit(t, s, c, d);
    var s1 := Step(t, s, e1).value;
    var s' := Step(t, s1, e2).value;
    Extend(t, s, [], e1);
    Extend(t, s, [] + [e1], e2);
    run := [] + [e1] + [e2];
    assert s'.served[|s.served| + 1].key == key;
  }

  /** What a fill puts into the cache the next lookup is served. */
  lemma FillThenHit(t: Ttls, s: State, c: int, d: int)
    requires t.positive > 0 && t.negative > 0 && c in s.calls && s.calls[c].Got? && d !in s.calls
    ensures Step(t, s, Fill(c, true)).Some?
    ensures var s1 := Step(t, s, Fill(c, true)).value;
      && Step(t, s1, Probe(d, s.calls[c].key, true)).Some?
      && var s' := Step(t, s1, Probe(d, s.calls[c].key, true)).value;
      && |s'.served| == |s.served| + 2 && Current(s') == Current(s)
      && s'.served[|s.served| + 1].key == s.calls[c].key && s'.served[|s.served| + 1].answer == s.calls[c].answer
      && s'.served[|s.served| + 1].setAt.Some?
  {}

  /** Deleting the entry after a write restores transparency if and only if no lookup still
      holds an answer from before: then every answer until the next write is current, and
      otherwise the old answer can come back into the cache and be served from it. */
  lemma {:induction false} InvalidationRestoresIff(t: Ttls, s: State, key: int)
    requires t.positive > 0 && t.negative > 0
    ensures var s' := Step(t, s, Invalidate(key)).value;
      && (ServesCurrent(t, s', key) <==> !StaleLookup(s, key))
      && (CachesCurrent(t, s', key) <==> !StaleLookup(s, key))
  {
    var s' := Step(t, s, Invalidate(key)).value;
    assert StaleLookup(s', key) <==> StaleLookup(s, key);
    hide Step;
    if StaleLookup(s', key) {
      var run := StaleRefills(t, s', key);
    } else {
      assert Coherent(s', key);
      forall run | Exec(t, s', run).Some? && NoWrite(run, key)
        ensures OnlyCurrent(s', Exec(t, s', run).value, key, false) && OnlyCurrent(s', Exec(t, s', run).value, key, true)
      {
        TransparentUntilNextWrite(t, s', run, key);
      }
    }
    hide Exec, OnlyCurrent;
  }
}
