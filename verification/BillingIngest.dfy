/** The billing webhook (internal/billing/ingest.go): record the raw event, act on it, mark it
    processed. Deliveries repeat and interleave, every store call can fail or lose its reply,
    and the process can die between any two. */
module BillingIngest {
  import opened Domain

  datatype Plan = Tier1 | Tier2 | Tier3 | TierCustom

  datatype Details = Details(cycle: string, subscription: string, price: string, periodEnd: Option<Time>, cancelAtEnd: bool)

  /** What an event asks for. A payment event without payment data breaks the provider's
      contract. */
  datatype Body =
    | SubscriptionChange(plan: string, status: string, customer: string, details: Details)
    | PaymentChange(payment: Option<Payment>)
    | Unhandled

  datatype Payment = Payment(
    id: string,
    amount: int,
    currency: string,
    status: string,
    period: string,
    invoiceUrl: string,
    refunded: int)

  /** A verified delivery. `org` is the org it names or resolves to, 0 if none. */
  datatype Hook = Hook(id: string, org: int, body: Body)

  datatype Subscription = Subscription(
    plan: Plan,
    status: string,
    customer: string,
    details: Details,
    endedAt: Option<Time>)

  datatype PaymentRow = PaymentRow(org: int, payment: Payment)

  /** The local mirror of the provider: subscriptions and plans by org, payments by their id. */
  datatype Mirror = Mirror(subs: map<int, Subscription>, plans: map<int, Plan>, payments: map<string, PaymentRow>)

  function ParsePlan(s: string): Plan {
    if s == "tier2" then Tier2 else if s == "tier3" then Tier3 else if s == "tierCustom" then TierCustom else Tier1
  }

  predicate IsRunning(status: string) {
    status == "active" || status == "trialing"
  }

  /** Cancelling drops the org to the free tier; a plan the code does not know counts as free. */
  function PlanFor(b: Body): Plan
    requires b.SubscriptionChange?
  {
    if b.status == "canceled" then Tier1 else ParsePlan(b.plan)
  }

  /** The upsert keeps the time a subscription stopped running. */
  function Upsert(prior: Option<Subscription>, b: Body, now: Time): Subscription
    requires b.SubscriptionChange?
  {
    var endedAt :=
      if IsRunning(b.status) then None
      else if prior.Some? && !IsRunning(prior.value.status) then prior.value.endedAt
      else Some(now);
    Subscription(PlanFor(b), b.status, b.customer, b.details, endedAt)
  }

  function SubOf(m: Mirror, org: int): Option<Subscription> {
    if org in m.subs then Some(m.subs[org]) else None
  }

  /** The payment id is already mirrored for another org, whose row this one may not touch. */
  predicate Clashes(m: Mirror, h: Hook) {
    && h.body.PaymentChange? && h.body.payment.Some?
    && h.body.payment.value.id in m.payments && m.payments[h.body.payment.value.id].org != h.org
  }

  /** The transaction that applies one event to the mirror. */
  function Apply(m: Mirror, h: Hook, now: Time): Mirror {
    match h.body
    case SubscriptionChange(_, _, _, _) =>
      m.(subs := m.subs[h.org := Upsert(SubOf(m, h.org), h.body, now)], plans := m.plans[h.org := PlanFor(h.body)])
    case PaymentChange(p) =>
      if p.None? || Clashes(m, h) then m
      else m.(payments := m.payments[p.value.id := PaymentRow(h.org, p.value)])
    case Unhandled => m
  }

  /** A recorded event with its raw body. */
  datatype Inbox = Inbox(hook: Hook, processed: bool)

  /** Where a delivery is: verified, recorded and to be acted on, or acted on and to be marked. */
  datatype Call =
    | Received(hook: Hook)
    | Recorded(hook: Hook)
    | Settled(hook: Hook, gone: bool)

  datatype Act = Act(hook: Hook, now: Time)

  /** `sent`, `acts` and `acked` are history only: what each event id stands for, the events
      applied, and the ids answered with 200. */
  datatype State = State(
    inbox: map<string, Inbox>,
    mirror: Mirror,
    orgs: set<int>,
    calls: map<int, Call>,
    sent: map<string, Hook>,
    acts: seq<Act>,
    acked: seq<string>)

  datatype Reply = Done | Failed | Lost

  datatype Event =
    | Receive(call: int, hook: Hook)
    | Record(call: int, reply: Reply)
    | Perform(call: int, reply: Reply, now: Time)
    | Mark(call: int, reply: Reply)
    | Die(call: int)
    | DeleteOrg(org: int)

  /** There is something to do for this event. */
  predicate Actionable(h: Hook) {
    !h.body.Unhandled? && h.org != 0
  }

  function OnReceive(s: State, call: int, h: Hook): Option<State> {
    if call in s.calls || (h.id in s.sent && s.sent[h.id] != h) then None
    else if h.id == "" then Some(s.(acked := s.acked + [""]))
    else Some(s.(calls := s.calls[call := Received(h)], sent := s.sent[h.id := h]))
  }

  /** Insert the event unless it is there, and see whether it was already processed. */
  function OnRecord(s: State, call: int, reply: Reply): Option<State> {
    if call !in s.calls || !s.calls[call].Received? then None
    else
      var h := s.calls[call].hook;
      var ended := s.(calls := s.calls - {call});
      if reply == Failed then Some(ended)
      else
        var inbox := if h.id in s.inbox then s.inbox else s.inbox[h.id := Inbox(h, false)];
        if reply == Lost then Some(ended.(inbox := inbox))
        else if inbox[h.id].processed then Some(ended.(inbox := inbox, acked := s.acked + [h.id]))
        else Some(s.(inbox := inbox, calls := s.calls[call := Recorded(h)]))
  }

  function OnPerform(s: State, call: int, reply: Reply, now: Time): Option<State> {
    if call !in s.calls || !s.calls[call].Recorded? then None
    else
      var h := s.calls[call].hook;
      var ended := s.(calls := s.calls - {call});
      if !Actionable(h) then Some(s.(calls := s.calls[call := Settled(h, false)]))
      else if (h.body.PaymentChange? && h.body.payment.None?) || reply == Failed then Some(ended)
      else if h.org !in s.orgs then Some(s.(calls := s.calls[call := Settled(h, true)]))
      else if Clashes(s.mirror, h) then Some(ended)
      else
        var s1 := s.(mirror := Apply(s.mirror, h, now), acts := s.acts + [Act(h, now)]);
        if reply == Lost then Some(s1.(calls := s.calls - {call}))
        else Some(s1.(calls := s.calls[call := Settled(h, false)]))
  }

  /** Stamp the event; for an org that is gone the answer is 200 whether or not that worked. */
  function OnMark(s: State, call: int, reply: Reply): Option<State> {
    if call !in s.calls || !s.calls[call].Settled? then None
    else
      var h := s.calls[call].hook;
      Some(s.(calls := s.calls - {call},
              inbox := if reply != Failed && h.id in s.inbox
                       then s.inbox[h.id := s.inbox[h.id].(processed := true)] else s.inbox,
              acked := if reply == Done || s.calls[call].gone then s.acked + [h.id] else s.acked))
  }

  function Step(s: State, e: Event): Option<State> {
    match e
    case Receive(call, h) => OnReceive(s, call, h)
    case Record(call, reply) => OnRecord(s, call, reply)
    case Perform(call, reply, now) => OnPerform(s, call, reply, now)
    case Mark(call, reply) => OnMark(s, call, reply)
    case Die(call) => Some(s.(calls := s.calls - {call}))
    case DeleteOrg(org) => Some(s.(orgs := s.orgs - {org}))
  }

  const EMPTY_MIRROR := Mirror(map[], map[], map[])

  function Init(orgs: set<int>): State {
    State(map[], EMPTY_MIRROR, orgs, map[], map[], [], [])
  }

  function Exec(s: State, run: seq<Event>): Option<State> {
    if |run| == 0 then Some(s)
    else
      var before := Exec(s, run[..|run| - 1]);
      if before.None? then None else Step(before.value, run[|run| - 1])
  }

  function Fold(acts: seq<Act>): Mirror {
    if |acts| == 0 then EMPTY_MIRROR
    else Apply(Fold(acts[..|acts| - 1]), acts[|acts| - 1].hook, acts[|acts| - 1].now)
  }

  // ---------- the invariant ----------

  ghost predicate WasApplied(acts: seq<Act>, h: Hook) {
    exists i :: 0 <= i < |acts| && acts[i].hook == h
  }

  /** Nothing is left to do for the event: it was applied, or it is of a kind that is not
      handled, or it names no org or one that is gone. */
  ghost predicate Finished(orgs: set<int>, acts: seq<Act>, h: Hook) {
    h.body.Unhandled? || h.org == 0 || h.org !in orgs || WasApplied(acts, h)
  }

  ghost predicate CallsOk(s: State) {
    forall c :: c in s.calls ==>
      var h := s.calls[c].hook;
      && h.id != "" && h.id in s.sent && s.sent[h.id] == h
      && (!s.calls[c].Received? ==> h.id in s.inbox)
      && (s.calls[c].Settled? ==> Finished(s.orgs, s.acts, h))
  }

  ghost predicate InboxOk(s: State) {
    forall id :: id in s.inbox ==>
      && id in s.sent && s.inbox[id].hook == s.sent[id] && s.sent[id].id == id
      && (s.inbox[id].processed ==> Finished(s.orgs, s.acts, s.inbox[id].hook))
  }

  /** Every event answered with 200 is recorded and dealt with. */
  ghost predicate AckedOk(s: State) {
    forall i :: 0 <= i < |s.acked| && s.acked[i] != "" ==>
      s.acked[i] in s.inbox && s.acked[i] in s.sent && Finished(s.orgs, s.acts, s.sent[s.acked[i]])
  }

  /** The event asks for a row to be written. */
  predicate Writes(h: Hook) {
    Actionable(h) && (h.body.PaymentChange? ==> h.body.payment.Some?)
  }

  /** Every act wrote its row when it was applied. */
  ghost predicate Effective(acts: seq<Act>) {
    forall i :: 0 <= i < |acts| ==> EffectiveAt(acts, i)
  }

  ghost predicate EffectiveAt(acts: seq<Act>, i: int)
    requires 0 <= i < |acts|
  {
    Writes(acts[i].hook) && !Clashes(Fold(acts[..i]), acts[i].hook)
  }

  lemma EffectiveSnoc(acts: seq<Act>, a: Act)
    ensures Effective(acts + [a]) <==> Effective(acts) && Writes(a.hook) && !Clashes(Fold(acts), a.hook)
  {
    var g := acts + [a];
    assert g[..|acts|] == acts;
    hide Writes, Clashes, Fold;
    forall i | 0 <= i < |acts| ensures EffectiveAt(g, i) <==> EffectiveAt(acts, i) {
      assert g[..i] == acts[..i];
    }
    assert EffectiveAt(g, |acts|) <==> Writes(a.hook) && !Clashes(Fold(acts), a.hook);
  }

  ghost predicate Inv(s: State) {
    CallsOk(s) && InboxOk(s) && AckedOk(s) && s.mirror == Fold(s.acts) && Effective(s.acts)
  }

  lemma {:induction false} FinishedGrows(s: State, s': State)
    requires s'.orgs <= s.orgs && s.acts <= s'.acts
    ensures forall h :: Finished(s.orgs, s.acts, h) ==> Finished(s'.orgs, s'.acts, h)
  {}

  lemma {:induction false} PerformKeepsInv(s: State, call: int, reply: Reply, now: Time)
    requires Inv(s) && OnPerform(s, call, reply, now).Some?
    ensures Inv(OnPerform(s, call, reply, now).value)
  {
    hide Apply, Clashes, Fold, Finished, Effective, Writes, OnPerform;
    var s' := OnPerform(s, call, reply, now).value;
    PerformShape(s, call, reply, now);
    FinishedGrows(s, s');
    if s'.acts != s.acts {
      FoldSnoc(s.acts, Act(s.calls[call].hook, now));
      EffectiveSnoc(s.acts, Act(s.calls[call].hook, now));
    }
  }

  /** What acting changes: at most the mirror and the list of acts, together, and the call,
      which goes on only when nothing is left to do for its event. */
  lemma {:induction false} PerformShape(s: State, call: int, reply: Reply, now: Time)
    requires OnPerform(s, call, reply, now).Some?
    ensures call in s.calls && s.calls[call].Recorded?
    ensures var h, s' := s.calls[call].hook, OnPerform(s, call, reply, now).value;
      && s' == s.(calls := s'.calls, mirror := s'.mirror, acts := s'.acts)
      && ((s'.mirror == s.mirror && s'.acts == s.acts)
          || (s'.mirror == Apply(s.mirror, h, now) && s'.acts == s.acts + [Act(h, now)] && Writes(h) && !Clashes(s.mirror, h)))
      && (s'.calls == s.calls - {call}
          || (exists gone :: s'.calls == s.calls[call := Settled(h, gone)] && Finished(s'.orgs, s'.acts, h)))
  {
    hide Apply, Clashes;
    var h, s' := s.calls[call].hook, OnPerform(s, call, reply, now).value;
    if s'.acts != s.acts {
      assert s'.acts[|s.acts|].hook == h;
      assert WasApplied(s'.acts, h);
    }
  }

  /** An event is applied exactly if its call does not fail, it asks for a write, its org exists
      and a payment is not another org's; the reply may still be lost. */
  lemma ActsIff(s: State, call: int, reply: Reply, now: Time)
    requires call in s.calls && s.calls[call].Recorded?
    ensures OnPerform(s, call, reply, now).Some?
    ensures var h := s.calls[call].hook;
      OnPerform(s, call, reply, now).value.acts ==
        if reply != Failed && Writes(h) && h.org in s.orgs && !Clashes(s.mirror, h) then s.acts + [Act(h, now)] else s.acts
  {
    hide Apply;
  }

  /** An event is marked exactly if its call does not fail, and answered with 200 if the reply
      arrives or its org is gone. */
  lemma MarksIff(s: State, call: int, reply: Reply)
    requires call in s.calls && s.calls[call].Settled? && s.calls[call].hook.id in s.inbox
    ensures OnMark(s, call, reply).Some?
    ensures var id, s' := s.calls[call].hook.id, OnMark(s, call, reply).value;
      && s'.inbox == (if reply == Failed then s.inbox else s.inbox[id := s.inbox[id].(processed := true)])
      && s'.acked == if reply == Done || s.calls[call].gone then s.acked + [id] else s.acked
  {}

  lemma FoldSnoc(acts: seq<Act>, a: Act)
    ensures Fold(acts + [a]) == Apply(Fold(acts), a.hook, a.now)
  {
    assert (acts + [a])[..|acts|] == acts;
  }

  lemma {:induction false} RecordKeepsInv(s: State, call: int, reply: Reply)
    requires Inv(s) && OnRecord(s, call, reply).Some?
    ensures Inv(OnRecord(s, call, reply).value)
  {
    hide Fold, Finished, Effective;
  }

  lemma {:induction false} MarkKeepsInv(s: State, call: int, reply: Reply)
    requires Inv(s) && OnMark(s, call, reply).Some?
    ensures Inv(OnMark(s, call, reply).value)
  {
    hide Fold, Finished, Effective;
  }

  lemma {:induction false} OtherKeepsInv(s: State, e: Event)
    requires Inv(s) && Step(s, e).Some? && (e.Receive? || e.Die? || e.DeleteOrg?)
    ensures Inv(Step(s, e).value)
  {
    hide Fold, Finished, Effective;
    FinishedGrows(s, Step(s, e).value);
  }

  lemma {:induction false} StepKeepsInv(s: State, e: Event)
    requires Inv(s) && Step(s, e).Some?
    ensures Inv(Step(s, e).value)
  {
    hide Inv, OnPerform, OnRecord, OnMark, OnReceive;
    match e
    case Perform(call, reply, now) => PerformKeepsInv(s, call, reply, now);
    case Record(call, reply) => RecordKeepsInv(s, call, reply);
    case Mark(call, reply) => MarkKeepsInv(s, call, reply);
    case _ => OtherKeepsInv(s, e);
  }

  lemma {:induction false} ReachableInv(orgs: set<int>, run: seq<Event>)
    requires Exec(Init(orgs), run).Some?
    ensures Inv(Exec(Init(orgs), run).value)
  {
    if |run| > 0 {
      ReachableInv(orgs, run[..|run| - 1]);
      StepKeepsInv(Exec(Init(orgs), run[..|run| - 1]).value, run[|run| - 1]);
    }
  }

  /** Every 200 for an event with an id means its raw body is recorded and nothing is left to do
      for it; so it is for every event marked processed; and the mirror is the applied events, in
      order. */
  lemma AckedIsRecorded(orgs: set<int>, run: seq<Event>)
    requires Exec(Init(orgs), run).Some?
    ensures var s := Exec(Init(orgs), run).value;
      && (forall i :: 0 <= i < |s.acked| && s.acked[i] != "" ==>
            && s.acked[i] in s.inbox && s.acked[i] in s.sent && s.inbox[s.acked[i]].hook == s.sent[s.acked[i]]
            && Finished(s.orgs, s.acts, s.sent[s.acked[i]]))
      && (forall id :: id in s.inbox && s.inbox[id].processed ==> Finished(s.orgs, s.acts, s.inbox[id].hook))
      && s.mirror == Fold(s.acts)
  {
    ReachableInv(orgs, run);
    hide Fold, Finished, Exec, Effective;
  }

  // ---------- an event marked processed ----------

  function ActsOn(acts: seq<Act>, id: string): seq<Act> {
    if |acts| == 0 then []
    else if acts[|acts| - 1].hook.id == id then ActsOn(acts[..|acts| - 1], id) + [acts[|acts| - 1]]
    else ActsOn(acts[..|acts| - 1], id)
  }

  /** A delivery that is past the processed check and would change the mirror. */
  ghost predicate CanAct(s: State, c: int, id: string) {
    && c in s.calls && s.calls[c].Recorded? && s.calls[c].hook.id == id
    && var h := s.calls[c].hook;
    Actionable(h) && !(h.body.PaymentChange? && h.body.payment.None?) && h.org in s.orgs && !Clashes(s.mirror, h)
  }

  ghost predicate Quiet(s: State, id: string) {
    && id in s.inbox && s.inbox[id].processed
    && forall c :: !CanAct(s, c, id)
  }

  /** A payment row never changes hands. */
  lemma ClashStays(m: Mirror, g: Hook, now: Time, h: Hook)
    requires Clashes(m, h)
    ensures Clashes(Apply(m, g, now), h)
  {}

  lemma {:induction false} QuietPerform(s: State, call: int, reply: Reply, now: Time, id: string)
    requires Quiet(s, id) && OnPerform(s, call, reply, now).Some?
    ensures Quiet(OnPerform(s, call, reply, now).value, id)
    ensures ActsOn(OnPerform(s, call, reply, now).value.acts, id) == ActsOn(s.acts, id)
  {
    hide Apply, Clashes, OnPerform, Finished, Actionable;
    PerformShape(s, call, reply, now);
    var h, s' := s.calls[call].hook, OnPerform(s, call, reply, now).value;
    if s'.acts != s.acts {
      ActsCanAct(s, call, reply, now);
      assert s'.acts[..|s.acts|] == s.acts;
    }
    forall c ensures !CanAct(s', c, id) {
      if CanAct(s', c, id) {
        assert !CanAct(s, c, id);
        if Clashes(s.mirror, s.calls[c].hook) {
          ClashStays(s.mirror, h, now, s.calls[c].hook);
        }
      }
    }
  }

  /** Whatever acts was able to. */
  lemma ActsCanAct(s: State, call: int, reply: Reply, now: Time)
    requires OnPerform(s, call, reply, now).Some? && OnPerform(s, call, reply, now).value.acts != s.acts
    ensures CanAct(s, call, s.calls[call].hook.id)
  {
    hide Apply, Clashes;
  }

  lemma {:induction false} QuietStep(s: State, e: Event, id: string)
    requires Quiet(s, id) && Step(s, e).Some?
    ensures Quiet(Step(s, e).value, id) && ActsOn(Step(s, e).value.acts, id) == ActsOn(s.acts, id)
  {
    if e.Perform? {
      QuietPerform(s, e.call, e.reply, e.now, id);
    } else {
      var s' := Step(s, e).value;
      forall c ensures !CanAct(s', c, id) {
        assert !CanAct(s, c, id);
      }
      hide Apply, Clashes, Actionable;
    }
  }

  /** Deliveries that come after the mark: whatever they do, and however they fail, the event
      is not acted on again. */
  lemma {:induction false} ProcessedIsFinal(s: State, id: string, more: seq<Event>)
    requires Quiet(s, id) && Exec(s, more).Some?
    ensures Quiet(Exec(s, more).value, id) && ActsOn(Exec(s, more).value.acts, id) == ActsOn(s.acts, id)
  {
    if |more| > 0 {
      ProcessedIsFinal(s, id, more[..|more| - 1]);
      QuietStep(Exec(s, more[..|more| - 1]).value, more[|more| - 1], id);
    }
  }

  /** Exactly when a processed event is safe from being acted on again: no delivery that
      overlapped the mark is still about to act. */
  lemma ProcessedIsFinalIff(s: State, id: string)
    requires id in s.inbox && s.inbox[id].processed
    ensures (forall more :: Exec(s, more).Some? ==> ActsOn(Exec(s, more).value.acts, id) == ActsOn(s.acts, id))
       <==> forall c :: !CanAct(s, c, id)
  {
    if Quiet(s, id) {
      forall more | Exec(s, more).Some?
        ensures ActsOn(Exec(s, more).value.acts, id) == ActsOn(s.acts, id)
      {
        ProcessedIsFinal(s, id, more);
      }
    } else {
      var c :| CanAct(s, c, id);
      var e := Perform(c, Done, 0);
      assert [e][..0] == [];
      assert Exec(s, []) == Some(s);
      assert Exec(s, [e]) == Step(s, e);
      var s' := Step(s, e).value;
      assert s'.acts[..|s.acts|] == s.acts;
      assert |ActsOn(s'.acts, id)| == |ActsOn(s.acts, id)| + 1;
      var more := [e];
      assert Exec(s, more).Some? && ActsOn(Exec(s, more).value.acts, id) != ActsOn(s.acts, id);
    }
  }

  lemma {:induction false} Extend(start: State, run: seq<Event>, s: State, e: Event)
    requires Exec(start, run) == Some(s)
    ensures Exec(start, run + [e]) == Step(s, e)
  {
    assert (run + [e])[..|run|] == run;
  }

  // ---------- runs that break the conditions ----------

  const TERMS := Details("monthly", "s", "p", None, false)
  const ON := Hook("1", 5, SubscriptionChange("tier2", "active", "c", TERMS))
  const OFF := Hook("2", 5, SubscriptionChange("tier2", "canceled", "c", TERMS))

  /** A delivery is received and recorded, and was not processed before. */
  lemma {:induction false} RecordRun(start: State, run: seq<Event>, s: State, call: int, h: Hook) returns (run': seq<Event>, s': State)
    requires Exec(start, run) == Some(s) && call !in s.calls && h.id != ""
    requires h.id in s.sent ==> s.sent[h.id] == h
    requires h.id in s.inbox ==> !s.inbox[h.id].processed
    ensures Exec(start, run') == Some(s')
    ensures s' == s.(calls := s.calls[call := Recorded(h)], sent := s.sent[h.id := h], inbox := s'.inbox)
    ensures s'.inbox == if h.id in s.inbox then s.inbox else s.inbox[h.id := Inbox(h, false)]
  {
    var e1, e2 := Receive(call, h), Record(call, Done);
    var s1 := Step(s, e1).value;
    Extend(start, run, s, e1);
    Extend(start, run + [e1], s1, e2);
    run', s' := run + [e1] + [e2], Step(s1, e2).value;
    hide Exec;
    assert s1.calls[call := Recorded(h)] == s.calls[call := Recorded(h)];
  }

  /** A recorded subscription event of an org that exists is applied. */
  lemma {:induction false} PerformRun(start: State, run: seq<Event>, s: State, call: int, h: Hook, now: Time) returns (s': State)
    requires Exec(start, run) == Some(s) && call in s.calls && s.calls[call] == Recorded(h)
    requires h.body.SubscriptionChange? && h.org in s.orgs && h.org != 0
    ensures Exec(start, run + [Perform(call, Done, now)]) == Some(s')
    ensures s' == s.(calls := s.calls[call := Settled(h, false)], mirror := Apply(s.mirror, h, now), acts := s.acts + [Act(h, now)])
  {
    Extend(start, run, s, Perform(call, Done, now));
    hide Exec, Apply;
    s' := Step(s, Perform(call, Done, now)).value;
  }

  lemma {:induction false} MarkFails(start: State, run: seq<Event>, s: State, call: int) returns (run': seq<Event>, s': State)
    requires Exec(start, run) == Some(s) && call in s.calls && s.calls[call].Settled? && !s.calls[call].gone
    ensures Exec(start, run') == Some(s') && s' == s.(calls := s.calls - {call})
  {
    Extend(start, run, s, Mark(call, Failed));
    hide Exec;
    run', s' := run + [Mark(call, Failed)], Step(s, Mark(call, Failed)).value;
  }

  lemma {:induction false} MarkSucceeds(start: State, run: seq<Event>, s: State, call: int) returns (run': seq<Event>, s': State)
    requires Exec(start, run) == Some(s) && call in s.calls && s.calls[call].Settled? && s.calls[call].hook.id in s.inbox
    ensures Exec(start, run') == Some(s')
    ensures var id := s.calls[call].hook.id;
      s' == s.(calls := s.calls - {call}, acked := s.acked + [id], inbox := s.inbox[id := s.inbox[id].(processed := true)])
  {
    Extend(start, run, s, Mark(call, Done));
    hide Exec;
    run', s' := run + [Mark(call, Done)], Step(s, Mark(call, Done)).value;
  }

  /** Two deliveries of one event are both past the processed check when the first marks it:
      the event is marked processed, and then acted on again. */
  lemma OverlapActsAgain() returns (run: seq<Event>, s: State, s': State)
    ensures Exec(Init({5}), run) == Some(s) && ON.id in s.inbox && s.inbox[ON.id].processed && CanAct(s, 2, ON.id)
    ensures Step(s, Perform(2, Done, 2)) == Some(s') && s.acts == [Act(ON, 1)] && s'.acts == [Act(ON, 1), Act(ON, 2)]
  {
    var start := Init({5});
    var q;
    run, q := RecordRun(start, [], start, 1, ON);
    hide Exec, Apply;
    run, q := RecordRun(start, run, q, 2, ON);
    q := PerformRun(start, run, q, 1, ON, 1);
    run := run + [Perform(1, Done, 1)];
    run, s := MarkSucceeds(start, run, q, 1);
    s' := Step(s, Perform(2, Done, 2)).value;
  }
}
