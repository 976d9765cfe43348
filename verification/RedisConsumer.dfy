/** The poll loop itself (internal/bus/redis.go), method by method over the server's streams.
    Every server call can fail or lose its reply, the handler can fail, the process can die
    between any two calls and producers append at any time. `calm` says that nothing fails or dies. */
module RedisConsumer {
  import opened Domain
  import opened Streams

  /** How often a poll scans for entries stranded on another consumer. */
  const RECLAIM_EVERY: int := 30_000_000_000

  lemma {:induction false} Extend(histories: seq<seq<Record>>, run: seq<Event>, s: State, e: Event)
    requires Exec(Init(histories), run) == Some(s)
    ensures Exec(Init(histories), run + [e]) == Step(s, e)
  {
    assert (run + [e])[..|run|] == run;
  }

  /** Streams are only appended to and delivery only moves forward. */
  ghost predicate Grown(before: seq<Topic>, after: seq<Topic>) {
    && |after| == |before|
    && forall i :: 0 <= i < |after| ==>
      before[i].entries <= after[i].entries && before[i].delivered <= after[i].delivered
  }

  /** The entries one more read of new entries takes the group to. */
  function Horizon(t: Topic): int {
    if t.delivered + BATCH < |t.entries| then t.delivered + BATCH else |t.entries|
  }

  /** Every entry up to the horizon has been handled with success and acknowledged. */
  ghost predicate Consumed(before: seq<Topic>, after: seq<Topic>) {
    && |after| == |before|
    && forall i :: 0 <= i < |after| ==>
      && after[i].pending == []
      && forall e :: 0 <= e < Horizon(before[i]) ==> e in after[i].acked && e in after[i].succeeded
  }

  class Consumer {
    var topics: seq<Topic>
    var lastReclaim: Time

    ghost const histories: seq<seq<Record>>
    ghost var phase: Phase
    ghost var run: seq<Event>

    /** The object is in a state the stream machine reaches by the recorded run. */
    ghost predicate Valid() reads this {
      Exec(Init(histories), run) == Some(State(topics, phase))
    }

    constructor (histories: seq<seq<Record>>)
      ensures Valid() && phase == Idle && this.histories == histories && run == []
    {
      this.histories := histories;
      topics := seq(|histories|, i requires 0 <= i < |histories| => Topic(histories[i], 0, [], {}, {}));
      lastReclaim := 0;
      phase := Idle;
      run := [];
    }

    /** Producers may append to any stream; nothing else moves. */
    method Arrivals()
      requires Valid()
      modifies this`topics, this`run
      ensures Valid() && old(run) <= run && Grown(old(topics), topics)
      ensures forall i :: 0 <= i < |topics| ==>
        old(topics)[i].entries <= topics[i].entries && topics[i] == old(topics)[i].(entries := topics[i].entries)
    {
      var count: int := *;
      while 0 < count
        invariant Valid() && old(run) <= run && Grown(old(topics), topics)
        invariant forall i :: 0 <= i < |topics| ==>
          old(topics)[i].entries <= topics[i].entries && topics[i] == old(topics)[i].(entries := topics[i].entries)
      {
        count := count - 1;
        var t: nat, r: Record := *, *;
        if t < |topics| {
          Extend(histories, run, State(topics, phase), Produce(t, r));
          run := run + [Produce(t, r)];
          topics := topics[t := topics[t].(entries := topics[t].entries + [r])];
        }
      }
    }

    /** The process may die here; the next poll then starts from the server's state. */
    method MayDie(calm: bool) returns (dead: bool)
      requires Valid()
      modifies this`phase, this`run
      ensures Valid() && old(run) <= run
      ensures if dead then phase == Idle else phase == old(phase)
      ensures calm ==> !dead
    {
      dead := *;
      dead := dead && !calm;
      if dead {
        Extend(histories, run, State(topics, phase), Crash);
        run := run + [Crash];
        phase := Idle;
      }
    }

    /** Pass one entry to the handler; producers may append while it works. */
    method CallHandler(ghost queue: seq<Ref>, ghost resume: Phase)
      requires Valid() && phase == Phase.Dispatch(queue, resume) && queue != []
      modifies this`topics, this`phase, this`run
      ensures Valid() && old(run) <= run && Grown(old(topics), topics) && phase == Handling(queue, resume)
    {
      Extend(histories, run, State(topics, phase), Deliver);
      run, phase := run + [Deliver], Handling(queue, resume);
      hide Step, Exec;
      Arrivals();
    }

    /** The handler returns, with or without an error. */
    method Return(ghost queue: seq<Ref>, ghost resume: Phase, h: Ref, calm: bool) returns (ok: bool)
      requires Valid() && phase == Handling(queue, resume)
      requires queue != [] && queue[0] == h && h.topic < |topics|
      modifies this`topics, this`phase, this`run
      ensures Valid() && old(run) <= run && Grown(old(topics), topics)
      ensures phase == if ok then Acking(queue, resume) else Idle
      ensures calm ==> ok
    {
      ok := *;
      ok := ok || calm;
      if ok {
        var t := topics[h.topic];
        Extend(histories, run, State(topics, phase), HandlerOk);
        topics := topics[h.topic := t.(succeeded := t.succeeded + {h.entry})];
        run, phase := run + [HandlerOk], Acking(queue, resume);
      } else {
        Extend(histories, run, State(topics, phase), HandlerErr);
        run, phase := run + [HandlerErr], Idle;
      }
    }

    /** Acknowledge one entry; the server may do it without the reply arriving. */
    method XAck(ghost queue: seq<Ref>, ghost resume: Phase, h: Ref, calm: bool) returns (ok: bool)
      requires Valid() && phase == Acking(queue, resume)
      requires queue != [] && queue[0] == h && h.topic < |topics|
      modifies this`topics, this`phase, this`run
      ensures Valid() && old(run) <= run && Grown(old(topics), topics)
      ensures phase == if ok then Phase.Dispatch(queue[1..], resume) else Idle
      ensures calm ==> ok
    {
      var reply: Reply := *;
      reply := if calm then Done else reply;
      Extend(histories, run, State(topics, phase), Ack(reply));
      run := run + [Ack(reply)];
      if reply != Failed {
        topics := topics[h.topic := Acknowledge(topics[h.topic], h.entry)];
      }
      ok := reply == Done;
      phase := if ok then Phase.Dispatch(queue[1..], resume) else Idle;
    }

    /** Hand one entry to the handler and acknowledge it if that succeeded. */
    method Dispatch(ghost queue: seq<Ref>, ghost resume: Phase, h: Ref, calm: bool) returns (ok: bool)
      requires Valid() && phase == Phase.Dispatch(queue, resume)
      requires queue != [] && queue[0] == h && h.topic < |topics|
      modifies this`topics, this`phase, this`run
      ensures Valid() && old(run) <= run && Grown(old(topics), topics)
      ensures phase == if ok then Phase.Dispatch(queue[1..], resume) else Idle
      ensures calm ==> ok
    {
      hide Step, Exec;
      CallHandler(queue, resume);
      ok := Return(queue, resume, h, calm);
      if ok {
        var dead := MayDie(calm);
        if dead {
          return false;
        }
        ok := XAck(queue, resume, h, calm);
      }
    }

    /** Dispatch what a read returned, in order, stopping at the first error. */
    method DispatchStreams(queue: seq<Ref>, ghost resume: Phase, calm: bool) returns (ok: bool)
      requires Valid() && phase == Phase.Dispatch(queue, resume)
      modifies this`topics, this`phase, this`run
      ensures Valid() && old(run) <= run && Grown(old(topics), topics)
      ensures phase == if ok then resume else Idle
      ensures calm ==> ok
      ensures ok && resume == Idle ==> forall i :: 0 <= i < |topics| ==> topics[i].pending == []
    {
      var k := 0;
      while k < |queue|
        invariant 0 <= k <= |queue| && Grown(old(topics), topics)
        invariant Valid() && old(run) <= run && phase == Phase.Dispatch(queue[k..], resume)
      {
        QueueHead(histories, run, State(topics, phase));
        var done := Dispatch(queue[k..], resume, queue[k], calm);
        if !done {
          return false;
        }
        k := k + 1;
      }
      DrainedQueue(histories, run, State(topics, phase));
      Extend(histories, run, State(topics, phase), Drained);
      run, phase := run + [Drained], resume;
      ok := true;
    }

    /** Re-read this consumer's own pending entries of one stream and dispatch them. */
    method ReadInto(t: nat, calm: bool) returns (ok: bool)
      requires Valid() && phase == Retry(t) && t < |topics|
      modifies this`topics, this`phase, this`run
      ensures Valid() && old(run) <= run && Grown(old(topics), topics)
      ensures phase == if ok then Retry(t + 1) else Idle
      ensures calm ==> ok
    {
      Arrivals();
      var failed: bool := *;
      if failed && !calm {
        Extend(histories, run, State(topics, phase), ReadFailed);
        run, phase := run + [ReadFailed], Idle;
        return false;
      }
      var queue := Refs(t, Take(topics[t].pending, BATCH));
      Extend(histories, run, State(topics, phase), ReadPending);
      run, phase := run + [ReadPending], Phase.Dispatch(queue, Retry(t + 1));
      ok := DispatchStreams(queue, Retry(t + 1), calm);
    }

    /** Scan one stream for entries idle too long; the server says when the scan is over. */
    method ReclaimStream(t: nat, calm: bool) returns (ok: bool)
      requires Valid() && phase == Reclaim(t) && t < |topics|
      modifies this`topics, this`phase, this`run
      ensures Valid() && old(run) <= run && Grown(old(topics), topics)
      ensures phase == if ok then Reclaim(t + 1) else Idle
      ensures calm ==> ok
      ensures ok ==> exists k :: |old(run)| <= k < |run| && run[k].Claim?
    {
      hide Exec;
      var rounds: int, more := *, true;
      while more
        invariant Valid() && old(run) <= run && Grown(old(topics), topics) && phase == Reclaim(t)
        invariant !more ==> exists k :: |old(run)| <= k < |run| && run[k].Claim?
        decreases more, rounds
      {
        var failed: bool := *;
        if failed && !calm {
          Extend(histories, run, State(topics, phase), ReadFailed);
          run, phase := run + [ReadFailed], Idle;
          return false;
        }
        var idle: set<int> := *;
        var queue := Refs(t, Take(Among(topics[t].pending, idle), BATCH));
        Extend(histories, run, State(topics, phase), Claim(idle));
        run, phase := run + [Claim(idle)], Phase.Dispatch(queue, Reclaim(t));
        ghost var soFar := run;
        assert soFar[|soFar| - 1].Claim?;
        var done := DispatchStreams(queue, Reclaim(t), calm);
        if !done {
          return false;
        }
        assert run[|soFar| - 1].Claim?;
        rounds := rounds - 1;
        more := rounds > 0;
      }
      ghost var claimed :| |old(run)| <= claimed < |run| && run[claimed].Claim?;
      Extend(histories, run, State(topics, phase), ClaimDone);
      run, phase := run + [ClaimDone], Reclaim(t + 1);
      assert run[claimed].Claim?;
      ok := true;
    }

    /** Read new entries of every stream at once and dispatch them. */
    method ReadNewEntries(calm: bool) returns (ok: bool)
      requires Valid() && phase == Fresh
      modifies this`topics, this`phase, this`run
      ensures Valid() && old(run) <= run && Grown(old(topics), topics) && phase == Idle
      ensures ok ==> Consumed(old(topics), topics)
      ensures calm ==> ok
    {
      hide Exec;
      Arrivals();
      var reply: Reply := *;
      reply := if calm then Done else reply;
      Extend(histories, run, State(topics, phase), ReadNew(reply));
      run := run + [ReadNew(reply)];
      if reply == Failed {
        phase := Idle;
        return false;
      }
      var queue := NewlyDelivered(topics, |topics|);
      topics := DeliverAll(topics);
      if reply == Lost {
        phase := Idle;
        return false;
      }
      phase := Phase.Dispatch(queue, Idle);
      ghost var read := topics;
      ok := DispatchStreams(queue, Idle, calm);
      if ok {
        AllConsumed(histories, run, State(topics, phase), old(topics), read);
      }
    }

    /** First part of a poll: retry what is pending, stream by stream. */
    method RetryPending(calm: bool) returns (ok: bool)
      requires Valid() && phase == Idle
      modifies this`topics, this`phase, this`run
      ensures Valid() && old(run) <= run && Grown(old(topics), topics)
      ensures phase == if ok then Retry(|topics|) else Idle
      ensures calm ==> ok
    {
      Extend(histories, run, State(topics, phase), StartPoll);
      run, phase := run + [StartPoll], Retry(0);
      hide Step, Exec;
      var n := |topics|;
      for t := 0 to n
        invariant Valid() && old(run) <= run && phase == Retry(t) && |topics| == n && Grown(old(topics), topics)
      {
        var done := ReadInto(t, calm);
        if !done {
          return false;
        }
      }
      ok := true;
    }

    /** Second part of a poll: the periodic scan for stranded entries. */
    method ReclaimAll(calm: bool) returns (ok: bool)
      requires Valid() && phase == Reclaim(0)
      modifies this`topics, this`phase, this`run
      ensures Valid() && old(run) <= run && Grown(old(topics), topics)
      ensures phase == if ok then Fresh else Idle
      ensures calm ==> ok
    {
      var n := |topics|;
      for t := 0 to n
        invariant Valid() && old(run) <= run && phase == Reclaim(t) && |topics| == n && Grown(old(topics), topics)
      {
        var done := ReclaimStream(t, calm);
        if !done {
          return false;
        }
      }
      Extend(histories, run, State(topics, phase), ClaimDone);
      run, phase := run + [ClaimDone], Fresh;
      ok := true;
    }

    /** One poll. It is a run of the stream machine, so everything proved of reachable states
        holds after each of its steps; a poll that returns without error has consumed every
        entry that was pending and a batch of the new ones, and leaves nothing pending. If no
        server call and no handler fails and the process lives it returns without error. It scans
        for stranded entries when 30 seconds have passed since the last scan. */
    method Poll(now: Time, calm: bool) returns (ok: bool)
      requires Valid() && phase == Idle
      modifies this
      ensures Valid() && phase == Idle && old(run) <= run && Grown(old(topics), topics)
      ensures ok ==> Consumed(old(topics), topics)
      ensures calm ==> ok
      ensures ok ==> lastReclaim == if now - old(lastReclaim) >= 30_000_000_000 then now else old(lastReclaim)
      ensures ok ==>
        exists k :: |old(run)| <= k < |run| && run[k] == PendingDone(now - old(lastReclaim) >= 30_000_000_000)
    {
      ok := RetryPending(calm);
      if !ok {
        return;
      }
      var due := now - lastReclaim >= RECLAIM_EVERY;
      Extend(histories, run, State(topics, phase), PendingDone(due));
      run, phase := run + [PendingDone(due)], if due then Reclaim(0) else Fresh;
      ghost var soFar := run;
      assert soFar[|soFar| - 1] == PendingDone(due);
      if due {
        lastReclaim := now;
        ok := ReclaimAll(calm);
        if !ok {
          return;
        }
      }
      ok := ReadNewEntries(calm);
      assert run[|soFar| - 1] == PendingDone(due);
    }
  }

  lemma AllConsumed(histories: seq<seq<Record>>, run: seq<Event>, s: State, before: seq<Topic>, read: seq<Topic>)
    requires Exec(Init(histories), run) == Some(s) && Grown(read, s.topics) && |before| == |read|
    requires forall i :: 0 <= i < |before| ==> Horizon(before[i]) <= read[i].delivered
    requires forall i :: 0 <= i < |s.topics| ==> s.topics[i].pending == []
    ensures Consumed(before, s.topics)
  {
    ReachableInv(histories, run);
  }

  /** The entry about to be dispatched belongs to one of the streams. */
  lemma QueueHead(histories: seq<seq<Record>>, run: seq<Event>, s: State)
    requires Exec(Init(histories), run) == Some(s) && s.phase.Dispatch? && s.phase.queue != []
    ensures s.phase.queue[0].topic < |s.topics|
  {
    ReachableInv(histories, run);
    PendingHead(s.topics, Upto(s, s.phase.resume));
  }

  /** A drained read of new entries leaves nothing pending. */
  lemma DrainedQueue(histories: seq<seq<Record>>, run: seq<Event>, s: State)
    requires Exec(Init(histories), run) == Some(s) && s.phase.Dispatch? && s.phase.queue == []
    ensures s.phase.resume == Idle ==> forall i :: 0 <= i < |s.topics| ==> s.topics[i].pending == []
  {
    ReachableInv(histories, run);
    PendingEmpty(s.topics, Upto(s, s.phase.resume));
  }
}
