/** The Redis Streams consumer group and the poll loop that drains it
    (internal/bus/redis.go), as a machine of labelled steps. */
module Streams {
  import opened Domain

  /** Most entries one read returns per stream. */
  const BATCH: nat := 64

  /** One stream with its consumer group: the entries in order, how many were delivered, the
      delivered and unacknowledged ones, the acknowledged ones, and those whose handler
      returned success at least once. */
  datatype Topic = Topic(
    entries: seq<Record>,
    delivered: int,
    pending: seq<int>,
    acked: set<int>,
    succeeded: set<int>)

  datatype Ref = Ref(topic: nat, entry: int)

  /** Where the poll loop is. `queue` holds the entries of the last read not dispatched yet;
      its head is inside the handler or about to be acknowledged. */
  datatype Phase =
    | Idle
    | Retry(next: nat)
    | Reclaim(next: nat)
    | Fresh
    | Dispatch(queue: seq<Ref>, resume: Phase)
    | Handling(queue: seq<Ref>, resume: Phase)
    | Acking(queue: seq<Ref>, resume: Phase)

  datatype State = State(topics: seq<Topic>, phase: Phase)

  datatype Reply = Done | Failed | Lost

  /** `Lost` means the server did it and the reply never arrived. */
  datatype Event =
    | Produce(topic: nat, record: Record)
    | StartPoll
    | ReadPending
    | PendingDone(reclaim: bool)
    | Claim(idle: set<int>)
    | ClaimDone
    | ReadNew(reply: Reply)
    | ReadFailed
    | Drained
    | Deliver
    | HandlerOk
    | HandlerErr
    | Ack(reply: Reply)
    | Crash

  function Range(lo: int, hi: int): (r: seq<int>)
    requires lo <= hi
    ensures |r| == hi - lo && forall i :: 0 <= i < |r| ==> r[i] == lo + i
  {
    seq(hi - lo, i => lo + i)
  }

  function Refs(topic: nat, ids: seq<int>): (r: seq<Ref>)
    ensures |r| == |ids| && forall i :: 0 <= i < |r| ==> r[i] == Ref(topic, ids[i])
  {
    seq(|ids|, i requires 0 <= i < |ids| => Ref(topic, ids[i]))
  }

  /** All pending entries of the first `upto` streams, stream by stream, oldest first. */
  function Pending(topics: seq<Topic>, upto: nat): seq<Ref>
    requires upto <= |topics|
  {
    if upto == 0 then [] else Pending(topics, upto - 1) + Refs(upto - 1, topics[upto - 1].pending)
  }

  function Without(ids: seq<int>, id: int): seq<int> {
    if |ids| == 0 then []
    else if ids[0] == id then ids[1..]
    else [ids[0]] + Without(ids[1..], id)
  }

  function Acknowledge(t: Topic, id: int): Topic {
    if id in t.pending then t.(pending := Without(t.pending, id), acked := t.acked + {id}) else t
  }

  function DeliverNew(t: Topic): Topic {
    if t.delivered < |t.entries| then
      var upto := if t.delivered + BATCH < |t.entries| then t.delivered + BATCH else |t.entries|;
      t.(delivered := upto, pending := t.pending + Range(t.delivered, upto))
    else t
  }

  function DeliverAll(topics: seq<Topic>): (r: seq<Topic>)
    ensures |r| == |topics| && forall i :: 0 <= i < |r| ==> r[i] == DeliverNew(topics[i])
  {
    seq(|topics|, i requires 0 <= i < |topics| => DeliverNew(topics[i]))
  }

  function Take(ids: seq<int>, n: nat): seq<int> {
    if |ids| <= n then ids else ids[..n]
  }

  /** The pending entries that have been idle long enough to be claimed. */
  function Among(ids: seq<int>, idle: set<int>): seq<int> {
    if |ids| == 0 then []
    else (if ids[0] in idle then [ids[0]] else []) + Among(ids[1..], idle)
  }

  /** Read new entries of every stream into its pending list. */
  function OnReadNew(s: State, reply: Reply): Option<State> {
    if !s.phase.Fresh? then None
    else if reply == Failed then Some(s.(phase := Idle))
    else Some(State(DeliverAll(s.topics),
                    if reply == Lost then Idle
                    else Dispatch(NewlyDelivered(s.topics, |s.topics|), Idle)))
  }

  /** The handler returned success for the head of the queue. */
  function OnHandlerOk(s: State): Option<State> {
    if s.phase.Handling? && s.phase.queue != [] && s.phase.queue[0].topic < |s.topics| then
      var h := s.phase.queue[0];
      var t := s.topics[h.topic];
      Some(State(s.topics[h.topic := t.(succeeded := t.succeeded + {h.entry})],
                 Acking(s.phase.queue, s.phase.resume)))
    else None
  }

  /** Acknowledge the head of the queue. */
  function OnAck(s: State, reply: Reply): Option<State> {
    if s.phase.Acking? && s.phase.queue != [] && s.phase.queue[0].topic < |s.topics| then
      var h := s.phase.queue[0];
      if reply == Failed then Some(s.(phase := Idle))
      else Some(State(s.topics[h.topic := Acknowledge(s.topics[h.topic], h.entry)],
                      if reply == Lost then Idle else Dispatch(s.phase.queue[1..], s.phase.resume)))
    else None
  }

  /** One step, or None when the event cannot happen here. */
  function Step(s: State, e: Event): Option<State> {
    match e
    case Produce(t, r) =>
      if t < |s.topics|
      then Some(s.(topics := s.topics[t := s.topics[t].(entries := s.topics[t].entries + [r])]))
      else None
    case StartPoll =>
      if s.phase.Idle? then Some(s.(phase := Retry(0))) else None
    case ReadPending =>
      if s.phase.Retry? && s.phase.next < |s.topics| then
        var t := s.phase.next;
        Some(s.(phase := Dispatch(Refs(t, Take(s.topics[t].pending, BATCH)), Retry(t + 1))))
      else None
    case PendingDone(reclaim) =>
      if s.phase == Retry(|s.topics|)
      then Some(s.(phase := if reclaim then Reclaim(0) else Fresh)) else None
    case Claim(idle) =>
      if s.phase.Reclaim? && s.phase.next < |s.topics| then
        var ids := Take(Among(s.topics[s.phase.next].pending, idle), BATCH);
        Some(s.(phase := Dispatch(Refs(s.phase.next, ids), s.phase)))
      else None
    case ClaimDone =>
      if !s.phase.Reclaim? then None
      else if s.phase.next < |s.topics| then Some(s.(phase := Reclaim(s.phase.next + 1)))
      else Some(s.(phase := Fresh))
    case ReadNew(reply) => OnReadNew(s, reply)
    case ReadFailed =>
      if s.phase.Retry? || s.phase.Reclaim? then Some(s.(phase := Idle)) else None
    case Drained =>
      if s.phase.Dispatch? && s.phase.queue == [] then Some(s.(phase := s.phase.resume)) else None
    case Deliver =>
      if s.phase.Dispatch? && s.phase.queue != []
      then Some(s.(phase := Handling(s.phase.queue, s.phase.resume))) else None
    case HandlerOk => OnHandlerOk(s)
    case HandlerErr =>
      if s.phase.Handling? then Some(s.(phase := Idle)) else None
    case Ack(reply) => OnAck(s, reply)
    case Crash => Some(s.(phase := Idle))
  }

  /** What a read of new entries returns: each stream's undelivered entries, at most a batch. */
  function NewlyDelivered(topics: seq<Topic>, upto: nat): seq<Ref>
    requires upto <= |topics|
  {
    if upto == 0 then []
    else
      var t := topics[upto - 1];
      NewlyDelivered(topics, upto - 1) + Refs(upto - 1, DeliverNew(t).pending[|t.pending|..])
  }

  function Init(histories: seq<seq<Record>>): State {
    State(seq(|histories|, i requires 0 <= i < |histories| => Topic(histories[i], 0, [], {}, {})), Idle)
  }

  /** The state a run of events leads to, or None if some event could not happen. */
  function Exec(s: State, run: seq<Event>): Option<State> {
    if |run| == 0 then Some(s)
    else
      var before := Exec(s, run[..|run| - 1]);
      if before.None? then None else Step(before.value, run[|run| - 1])
  }

  // ---------- the invariant ----------

  /** Entries below the first pending one are acknowledged and have succeeded; the first
      pending one may have succeeded without its acknowledgement arriving. */
  ghost predicate TopicInv(t: Topic) {
    && |t.pending| <= t.delivered <= |t.entries|
    && |t.pending| <= BATCH
    && (forall i :: 0 <= i < |t.pending| ==> t.pending[i] == t.delivered - |t.pending| + i)
    && (forall i :: i in t.acked <==> 0 <= i < t.delivered - |t.pending|)
    && (forall i :: 0 <= i < t.delivered - |t.pending| ==> i in t.succeeded)
    && (forall i :: i in t.succeeded ==> 0 <= i <= t.delivered - |t.pending| && i < t.delivered)
  }

  function Upto(s: State, resume: Phase): nat {
    if resume.Retry? && resume.next <= |s.topics| then resume.next else |s.topics|
  }

  ghost predicate QueueInv(s: State, queue: seq<Ref>, resume: Phase) {
    && (resume.Idle? || (resume.Retry? && resume.next <= |s.topics|)
        || (resume.Reclaim? && resume.next <= |s.topics|))
    && queue == Pending(s.topics, Upto(s, resume))
  }

  ghost predicate PhaseInv(s: State) {
    match s.phase
    case Idle => true
    case Retry(n) => n <= |s.topics| && Pending(s.topics, n) == []
    case Reclaim(n) => n <= |s.topics| && Pending(s.topics, |s.topics|) == []
    case Fresh => Pending(s.topics, |s.topics|) == []
    case Dispatch(q, r) => QueueInv(s, q, r)
    case Handling(q, r) => q != [] && QueueInv(s, q, r)
    case Acking(q, r) =>
      && q != [] && QueueInv(s, q, r)
      && q[0].topic < |s.topics| && q[0].entry in s.topics[q[0].topic].succeeded
  }

  ghost predicate AllTopics(topics: seq<Topic>) {
    forall i :: 0 <= i < |topics| ==> TopicInv(topics[i])
  }

  ghost predicate Inv(s: State) {
    AllTopics(s.topics) && PhaseInv(s)
  }

  // ---------- facts about pending entries ----------

  lemma {:induction false} PendingDepends(a: seq<Topic>, b: seq<Topic>, upto: nat)
    requires upto <= |a| && upto <= |b|
    requires forall i :: 0 <= i < upto ==> a[i].pending == b[i].pending
    ensures Pending(a, upto) == Pending(b, upto)
  {
    if upto > 0 {
      PendingDepends(a, b, upto - 1);
    }
  }

  lemma {:induction false} PendingEmpty(topics: seq<Topic>, upto: nat)
    requires upto <= |topics|
    ensures Pending(topics, upto) == [] <==> forall i :: 0 <= i < upto ==> topics[i].pending == []
  {
    if upto > 0 {
      PendingEmpty(topics, upto - 1);
      assert |Pending(topics, upto)| == |Pending(topics, upto - 1)| + |topics[upto - 1].pending|;
    }
  }

  /** The head of the queue is the oldest pending entry of its stream, and taking it off that
      stream's pending list takes it off the queue. */
  lemma {:induction false} PendingHead(topics: seq<Topic>, upto: nat)
    requires upto <= |topics| && Pending(topics, upto) != []
    ensures var h := Pending(topics, upto)[0];
      && h.topic < upto && topics[h.topic].pending != [] && h.entry == topics[h.topic].pending[0]
      && Pending(topics[h.topic := topics[h.topic].(pending := topics[h.topic].pending[1..])], upto)
         == Pending(topics, upto)[1..]
  {
    var last := upto - 1;
    if Pending(topics, last) == [] {
      var popped := topics[last := topics[last].(pending := topics[last].pending[1..])];
      PendingDepends(topics, popped, last);
      assert Refs(last, topics[last].pending[1..]) == Refs(last, topics[last].pending)[1..];
    } else {
      PendingHead(topics, last);
      var h := Pending(topics, last)[0];
      var popped := topics[h.topic := topics[h.topic].(pending := topics[h.topic].pending[1..])];
      TailOfSum(Pending(topics, last), Refs(last, topics[last].pending));
      assert popped[last] == topics[last];
    }
  }

  lemma TailOfSum(a: seq<Ref>, b: seq<Ref>)
    requires a != []
    ensures (a + b)[0] == a[0] && (a + b)[1..] == a[1..] + b
  {}

  /** Acknowledging the oldest pending entry just drops it from the front. */
  lemma AcknowledgeFirst(t: Topic)
    requires TopicInv(t) && t.pending != [] && t.pending[0] in t.succeeded
    ensures Acknowledge(t, t.pending[0]).pending == t.pending[1..]
    ensures TopicInv(Acknowledge(t, t.pending[0]))
  {}

  /** Only the oldest pending entry can be the next to succeed. */
  lemma SucceedFirst(t: Topic)
    requires TopicInv(t) && t.pending != []
    ensures TopicInv(t.(succeeded := t.succeeded + {t.pending[0]}))
  {}

  lemma DeliverNewInv(t: Topic)
    requires TopicInv(t) && t.pending == []
    ensures TopicInv(DeliverNew(t))
  {}

  lemma {:induction false} DeliveredIsPending(topics: seq<Topic>, upto: nat)
    requires upto <= |topics| && forall i :: 0 <= i < upto ==> topics[i].pending == []
    ensures NewlyDelivered(topics, upto) == Pending(DeliverAll(topics), upto)
  {
    if upto > 0 {
      DeliveredIsPending(topics, upto - 1);
    }
  }

  lemma TakeAll(ids: seq<int>)
    requires |ids| <= BATCH
    ensures Take(ids, BATCH) == ids
  {}

  // ---------- every step keeps the invariant ----------

  lemma UpdateTopic(topics: seq<Topic>, i: nat, t: Topic)
    requires AllTopics(topics) && i < |topics| && TopicInv(t)
    ensures AllTopics(topics[i := t])
  {
    hide TopicInv;
  }

  /** What acknowledging the head of the queue does to the streams. */
  lemma {:induction false} AckHead(topics: seq<Topic>, upto: nat)
    requires AllTopics(topics) && upto <= |topics| && Pending(topics, upto) != []
    requires var h := Pending(topics, upto)[0]; h.topic < upto && h.entry in topics[h.topic].succeeded
    ensures var h := Pending(topics, upto)[0];
      var after := topics[h.topic := Acknowledge(topics[h.topic], h.entry)];
      AllTopics(after) && Pending(after, upto) == Pending(topics, upto)[1..]
  {
    PendingHead(topics, upto);
    hide Pending;
    var h := Pending(topics, upto)[0];
    var t := topics[h.topic];
    AcknowledgeFirst(t);
    UpdateTopic(topics, h.topic, Acknowledge(t, h.entry));
    hide TopicInv, Acknowledge, AllTopics;
    PendingDepends(topics[h.topic := t.(pending := t.pending[1..])],
                   topics[h.topic := Acknowledge(t, h.entry)], upto);
  }

  lemma {:induction false} AckKeepsInv(s: State, reply: Reply)
    requires Inv(s) && OnAck(s, reply).Some?
    ensures Inv(OnAck(s, reply).value)
  {
    var q, r := s.phase.queue, s.phase.resume;
    var upto := Upto(s, r);
    PendingHead(s.topics, upto);
    AckHead(s.topics, upto);
    hide Pending, AllTopics, Acknowledge;
  }

  /** What a handler's success on the head of the queue does to the streams. */
  lemma {:induction false} SucceedHead(topics: seq<Topic>, upto: nat)
    requires AllTopics(topics) && upto <= |topics| && Pending(topics, upto) != []
    ensures var h := Pending(topics, upto)[0];
      && h.topic < upto
      && var t := topics[h.topic];
      var after := topics[h.topic := t.(succeeded := t.succeeded + {h.entry})];
      AllTopics(after) && Pending(after, upto) == Pending(topics, upto)
  {
    PendingHead(topics, upto);
    hide Pending;
    var h := Pending(topics, upto)[0];
    var t := topics[h.topic];
    SucceedFirst(t);
    var t' := t.(succeeded := t.succeeded + {h.entry});
    UpdateTopic(topics, h.topic, t');
    hide TopicInv, AllTopics;
    PendingDepends(topics, topics[h.topic := t'], upto);
  }

  lemma {:induction false} HandlerOkKeepsInv(s: State)
    requires Inv(s) && OnHandlerOk(s).Some?
    ensures Inv(OnHandlerOk(s).value)
  {
    SucceedHead(s.topics, Upto(s, s.phase.resume));
    hide Pending, AllTopics;
  }

  lemma {:induction false} ReadNewKeepsInv(s: State, reply: Reply)
    requires Inv(s) && OnReadNew(s, reply).Some?
    ensures Inv(OnReadNew(s, reply).value)
  {
    PendingEmpty(s.topics, |s.topics|);
    DeliveredIsPending(s.topics, |s.topics|);
    var after := DeliverAll(s.topics);
    forall i | 0 <= i < |after| ensures TopicInv(after[i]) {
      DeliverNewInv(s.topics[i]);
    }
    hide TopicInv, Pending, NewlyDelivered, DeliverNew;
  }

  lemma StepProduce(s: State, t: nat, r: Record)
    requires Inv(s) && t < |s.topics|
    ensures Inv(Step(s, Produce(t, r)).value)
  {
    var s' := Step(s, Produce(t, r)).value;
    forall upto: nat | upto <= |s.topics| ensures Pending(s.topics, upto) == Pending(s'.topics, upto) {
      PendingDepends(s.topics, s'.topics, upto);
    }
  }

  lemma StepRead(s: State, e: Event)
    requires Inv(s) && (e.ReadPending? || e.Claim? || e.ClaimDone? || e.PendingDone? || e.Drained?) && Step(s, e).Some?
    ensures Inv(Step(s, e).value)
  {
    match e
    case ReadPending =>
      TakeAll(s.topics[s.phase.next].pending);
      assert Pending(s.topics, s.phase.next + 1) == [] + Refs(s.phase.next, s.topics[s.phase.next].pending);
    case Claim(_) =>
      PendingEmpty(s.topics, |s.topics|);
    case _ =>
  }

  lemma StepKeepsInv(s: State, e: Event)
    requires Inv(s) && Step(s, e).Some?
    ensures Inv(Step(s, e).value)
  {
    match e
    case Produce(t, r) => StepProduce(s, t, r);
    case Ack(reply) => AckKeepsInv(s, reply);
    case ReadNew(reply) => ReadNewKeepsInv(s, reply);
    case HandlerOk => HandlerOkKeepsInv(s);
    case ReadPending => StepRead(s, e);
    case Claim(_) => StepRead(s, e);
    case ClaimDone => StepRead(s, e);
    case PendingDone(_) => StepRead(s, e);
    case Drained => StepRead(s, e);
    case _ =>
  }

  lemma {:induction false} ReachableInv(histories: seq<seq<Record>>, run: seq<Event>)
    requires Exec(Init(histories), run).Some?
    ensures Inv(Exec(Init(histories), run).value)
  {
    if |run| > 0 {
      var p := run[..|run| - 1];
      ReachableInv(histories, p);
      StepKeepsInv(Exec(Init(histories), p).value, run[|run| - 1]);
    }
  }

  // ---------- what the invariant means over whole runs ----------

  ghost predicate Reachable(s: State) {
    exists histories, run :: Exec(Init(histories), run) == Some(s)
  }

  lemma ReachableHasInv(s: State)
    requires Reachable(s)
    ensures Inv(s)
  {
    var histories, run :| Exec(Init(histories), run) == Some(s);
    ReachableInv(histories, run);
  }

  /** In every reachable state each entry is exactly one of undelivered, pending and
      acknowledged, is pending at most once, and was acknowledged only after its handler
      returned success. */
  lemma Conservation(s: State, topic: nat, i: nat)
    requires Reachable(s) && topic < |s.topics| && i < |s.topics[topic].entries|
    ensures var t := s.topics[topic];
      && (t.delivered <= i ==> i !in t.pending && i !in t.acked)
      && (i < t.delivered ==> (i in t.pending <==> i !in t.acked))
      && (i in t.acked ==> i in t.succeeded)
      && multiset(t.pending)[i] <= 1
  {
    ReachableHasInv(s);
    var t := s.topics[topic];
    if i < t.delivered && i !in t.acked {
      assert t.pending[i - (t.delivered - |t.pending|)] == i;
    }
    AtMostOnce(t.pending, i);
  }

  lemma {:induction false} AtMostOnce(ids: seq<int>, id: int)
    requires forall k, l :: 0 <= k < l < |ids| ==> ids[k] < ids[l]
    ensures multiset(ids)[id] <= 1
  {
    if |ids| > 0 {
      var p := ids[..|ids| - 1];
      AtMostOnce(p, id);
      assert ids == p + [ids[|ids| - 1]];
      if id == ids[|ids| - 1] {
        assert id !in p;
      }
    }
  }

  /** No poll ever starts with more than one batch pending on a stream; new entries are read
      only once nothing is pending on any stream; and an entry reaches the handler only when
      it is the oldest pending entry of its stream and every earlier entry of that stream has
      been acknowledged after succeeding. */
  lemma InOrderRetry(s: State)
    requires Reachable(s)
    ensures forall i :: 0 <= i < |s.topics| ==> |s.topics[i].pending| <= 64
    ensures s.phase.Fresh? ==> forall i :: 0 <= i < |s.topics| ==> s.topics[i].pending == []
    ensures s.phase.Handling? ==>
      && |s.phase.queue| > 0
      && var h := s.phase.queue[0];
      && h.topic < |s.topics| && h.entry in s.topics[h.topic].pending
      && forall j :: 0 <= j < h.entry ==> j in s.topics[h.topic].acked && j in s.topics[h.topic].succeeded
  {
    ReachableHasInv(s);
    if s.phase.Fresh? {
      PendingEmpty(s.topics, |s.topics|);
    } else if s.phase.Handling? {
      PendingHead(s.topics, Upto(s, s.phase.resume));
    }
  }

  /** With one stable consumer name the reclaim scan never finds anything to dispatch. */
  lemma ReclaimFindsNothing(s: State, idle: set<int>)
    requires Reachable(s) && Step(s, Claim(idle)).Some?
    ensures Step(s, Claim(idle)).value == s.(phase := Dispatch([], s.phase))
  {
    ReachableHasInv(s);
    PendingEmpty(s.topics, |s.topics|);
  }
}
