/** The webhook's request path (ServeHTTP in internal/billing/ingest.go), store call by store
    call, with other deliveries acting in between. */
module BillingHandler {
  import opened Domain
  import opened BillingIngest

  datatype Status = Ok | ServerError

  /** The fate of the three store calls of one delivery. */
  datatype Replies = Replies(record: Reply, perform: Reply, mark: Reply)

  /** The event asks for a write to an org that is gone. */
  predicate IsGone(orgs: set<int>, h: Hook) {
    h.org != 0 && h.org !in orgs && (h.body.SubscriptionChange? || (h.body.PaymentChange? && h.body.payment.Some?))
  }

  /** A payment event without its payment, or with one that is another org's. */
  predicate BadPayment(payments: map<string, PaymentRow>, h: Hook) {
    && h.org != 0 && h.body.PaymentChange?
    && (h.body.payment.Some? ==>
          h.body.payment.value.id in payments && payments[h.body.payment.value.id].org != h.org)
  }

  class Handler {
    ghost const orgs: set<int>
    var s: State
    ghost var run: seq<Event>

    ghost predicate Valid() reads this {
      Exec(Init(orgs), run) == Some(s)
    }

    constructor (orgs: set<int>)
      ensures Valid() && this.orgs == orgs && run == []
    {
      this.orgs := orgs;
      s, run := Init(orgs), [];
    }

    method Others(call: int)
      requires Valid()
      modifies this
      ensures Valid() && old(run) <= run && Untouched(old(s), s, call)
    {
      var count: int := *;
      while 0 < count
        invariant Valid() && old(run) <= run && Untouched(old(s), s, call)
      {
        count := count - 1;
        var e: Event := *;
        var next := Step(s, e);
        if next.Some? && Foreign(e, call) {
          ForeignStep(s, e, call);
          UntouchedTwice(old(s), s, next.value, call);
          Extend(Init(orgs), run, s, e);
          run, s := run + [e], next.value;
          hide Exec, Step, Untouched;
        }
      }
    }

    method Do(e: Event) returns (ghost taken: bool)
      requires Valid()
      modifies this
      ensures Valid() && taken == Step(old(s), e).Some?
      ensures if taken then s == Step(old(s), e).value && run == old(run) + [e]
              else s == old(s) && run == old(run)
    {
      var next := Step(s, e);
      taken := next.Some?;
      if next.Some? {
        Extend(Init(orgs), run, s, e);
        run, s := run + [e], next.value;
      }
    }

    /** Serve one verified delivery. A 200 for an event with an id means the event is recorded
        and nothing is left to do for it; an event already marked changes nothing. When no store
        call fails the answer is 200, unless the event is a payment that cannot be stored. For an
        org that is gone it is 200 whether or not the mark works. */
    method Serve(call: int, h: Hook, f: Replies, now: Time) returns (status: Status)
      requires Valid() && call !in s.calls && (h.id in s.sent ==> s.sent[h.id] == h)
      modifies this
      ensures Valid() && old(run) <= run && call !in s.calls
      ensures status == Ok && h.id != "" ==> h.id in s.inbox && s.inbox[h.id].hook == h
      ensures status == Ok && h.id != "" ==> Finished(s.orgs, s.acts, h)
      ensures f == Replies(Done, Done, Done) && status == ServerError ==> BadPayment(s.mirror.payments, h)
      ensures f.record == Done && f.perform == Done && IsGone(old(s).orgs, h) ==> status == Ok
      ensures h.id == "" ==> status == Ok && s == old(s).(acked := old(s).acked + [""])
      ensures h.id in old(s).inbox && old(s).inbox[h.id].processed ==>
        s.mirror == old(s).mirror && s.acts == old(s).acts && s.inbox == old(s).inbox
    {
      hide Exec, Finished, Step;
      ReceiveShape(s, call, h);
      var received := Do(Receive(call, h));
      if h.id == "" {
        return Ok;
      }
      var reply := f.record;
      var already := reply == Done && h.id in s.inbox && s.inbox[h.id].processed;
      RecordShape(s, call, h, reply);
      var recorded := Do(Record(call, reply));
      InboxFacts(orgs, run, s, h);
      if already {
        return Ok;
      }
      if reply != Done {
        return ServerError;
      }
      status := PerformAndMark(call, h, f, now);
    }

    /** Act on a recorded event, then stamp it. */
    method PerformAndMark(call: int, h: Hook, f: Replies, now: Time) returns (status: Status)
      requires Valid() && call in s.calls && s.calls[call] == Recorded(h)
      modifies this
      ensures Valid() && old(run) <= run && call !in s.calls
      ensures status == Ok ==> h.id in s.inbox && s.inbox[h.id].hook == h && Finished(s.orgs, s.acts, h)
      ensures f.perform == Done && IsGone(old(s).orgs, h) ==> status == Ok
      ensures f.perform == Done && f.mark == Done && status == ServerError ==> BadPayment(s.mirror.payments, h)
    {
      Others(call);
      PerformEnds(s, call, f.perform, now);
      var performed := Do(Perform(call, f.perform, now));
      if call !in s.calls {
        return ServerError;
      }
      hide Exec, Step, Finished;
      Others(call);
      status := MarkProcessed(call, h, f.mark);
    }

    method MarkProcessed(call: int, h: Hook, reply: Reply) returns (status: Status)
      requires Valid() && call in s.calls && s.calls[call].Settled? && s.calls[call].hook == h
      modifies this
      ensures Valid() && old(run) <= run && call !in s.calls
      ensures status == Ok ==> h.id in s.inbox && s.inbox[h.id].hook == h && Finished(s.orgs, s.acts, h)
      ensures reply == Done || old(s).calls[call].gone ==> status == Ok
    {
      SettledFacts(orgs, run, s, call);
      status := if reply == Done || s.calls[call].gone then Ok else ServerError;
      var marked := Do(Mark(call, reply));
      hide Exec, Finished;
    }
  }

  predicate Foreign(e: Event, call: int) {
    match e
    case Receive(c, _) => c != call
    case Record(c, _) => c != call
    case Perform(c, _, _) => c != call
    case Mark(c, _) => c != call
    case Die(c) => c != call
    case DeleteOrg(_) => true
  }

  ghost predicate Untouched(s: State, s': State, call: int) {
    && s'.orgs <= s.orgs
    && (call in s'.calls <==> call in s.calls)
    && (call in s.calls ==> s'.calls[call] == s.calls[call])
  }

  lemma UntouchedTwice(a: State, b: State, c: State, call: int)
    requires Untouched(a, b, call) && Untouched(b, c, call)
    ensures Untouched(a, c, call)
  {}

  lemma {:induction false} ForeignStep(s: State, e: Event, call: int)
    requires Step(s, e).Some? && Foreign(e, call)
    ensures Untouched(s, Step(s, e).value, call)
  {
    hide Apply, Clashes, Actionable;
  }

  lemma ReceiveShape(s: State, call: int, h: Hook)
    requires call !in s.calls && (h.id in s.sent ==> s.sent[h.id] == h)
    ensures Step(s, Receive(call, h)) == Some(
      if h.id == "" then s.(acked := s.acked + [""])
      else s.(calls := s.calls[call := Received(h)], sent := s.sent[h.id := h]))
  {}

  /** The record step: the event is in the inbox unless the call failed, and the delivery goes
      on only if its event was not processed before. */
  lemma RecordShape(s: State, call: int, h: Hook, reply: Reply)
    requires call in s.calls && s.calls[call] == Received(h)
    ensures Step(s, Record(call, reply)).Some?
    ensures var s' := Step(s, Record(call, reply)).value;
      var already := h.id in s.inbox && s.inbox[h.id].processed;
      && s' == s.(calls := s'.calls, inbox := s'.inbox, acked := s'.acked)
      && s'.inbox == (if reply == Failed || h.id in s.inbox then s.inbox else s.inbox[h.id := Inbox(h, false)])
      && s'.calls == if reply == Done && !already then s.calls[call := Recorded(h)] else s.calls - {call}
  {}

  /** Acting that does not fail goes on to the mark, unless the payment cannot be stored. */
  lemma PerformEnds(s: State, call: int, reply: Reply, now: Time)
    requires call in s.calls && s.calls[call].Recorded?
    ensures Step(s, Perform(call, reply, now)).Some?
    ensures var h, s' := s.calls[call].hook, Step(s, Perform(call, reply, now)).value;
      && s'.orgs == s.orgs
      && (reply == Done && call !in s'.calls ==> BadPayment(s'.mirror.payments, h))
      && (reply == Done && IsGone(s.orgs, h) ==> call in s'.calls && s'.calls[call] == Settled(h, true))
  {
    hide Apply;
  }

  lemma InboxFacts(orgs: set<int>, run: seq<Event>, s: State, h: Hook)
    requires Exec(Init(orgs), run) == Some(s) && h.id in s.sent && s.sent[h.id] == h
    ensures h.id in s.inbox ==> s.inbox[h.id].hook == h
    ensures h.id in s.inbox && s.inbox[h.id].processed ==> Finished(s.orgs, s.acts, h)
  {
    ReachableInv(orgs, run);
  }

  lemma SettledFacts(orgs: set<int>, run: seq<Event>, s: State, call: int)
    requires Exec(Init(orgs), run) == Some(s) && call in s.calls && s.calls[call].Settled?
    ensures var h := s.calls[call].hook;
      h.id in s.inbox && s.inbox[h.id].hook == h && Finished(s.orgs, s.acts, h)
  {
    ReachableInv(orgs, run);
  }
}
