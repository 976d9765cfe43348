/** When retries of a billing event are harmless (internal/billing/ingest.go over
    internal/store/subscriptions.go). An event whose mark failed is applied again when it is
    redelivered, possibly after newer events. */
module BillingRetries {
  import opened Domain
  import opened BillingIngest

  // ---------- what a row of the mirror holds ----------

  /** Both events write the same row: the subscription of one org, or one payment. */
  predicate SameRow(g: Hook, h: Hook) {
    || (g.body.SubscriptionChange? && h.body.SubscriptionChange? && g.org == h.org)
    || (&& g.body.PaymentChange? && h.body.PaymentChange? && g.body.payment.Some? && h.body.payment.Some?
        && g.body.payment.value.id == h.body.payment.value.id)
  }

  /** They write the same row and the same into it, the time of an ending aside. */
  predicate SameWrite(g: Hook, h: Hook) {
    && SameRow(g, h) && g.org == h.org
    && match h.body
       case SubscriptionChange(_, status, customer, details) =>
         PlanFor(g.body) == PlanFor(h.body) && g.body.status == status && g.body.customer == customer && g.body.details == details
       case PaymentChange(p) => g.body.payment == p
       case Unhandled => false
  }

  /** Where the last act that wrote the event's row is, or -1. */
  function LastAt(acts: seq<Act>, h: Hook): (k: int)
    ensures -1 <= k < |acts|
    ensures k >= 0 ==> SameRow(acts[k].hook, h)
    ensures forall l :: k < l < |acts| ==> !SameRow(acts[l].hook, h)
  {
    if |acts| == 0 then -1
    else if SameRow(acts[|acts| - 1].hook, h) then |acts| - 1
    else LastAt(acts[..|acts| - 1], h)
  }

  /** The last act on the event's row wrote what the event would write. */
  predicate RepeatsLast(acts: seq<Act>, h: Hook) {
    LastAt(acts, h) >= 0 && SameWrite(acts[LastAt(acts, h)].hook, h)
  }

  /** The row is what the last act on it wrote, and is there only if some act wrote it. */
  ghost predicate RowFrom(m: Mirror, acts: seq<Act>, h: Hook) {
    var k := LastAt(acts, h);
    match h.body
    case SubscriptionChange(_, _, _, _) =>
      if k < 0 then h.org !in m.subs else SubFrom(m, acts[k].hook)
    case PaymentChange(p) =>
      p.Some? ==>
        if k < 0 then p.value.id !in m.payments
        else acts[k].hook.body.PaymentChange? && acts[k].hook.body.payment.Some? && PaymentFrom(m, acts[k].hook)
    case Unhandled => true
  }

  ghost predicate SubFrom(m: Mirror, g: Hook) {
    && g.body.SubscriptionChange? && g.org in m.subs && g.org in m.plans && m.plans[g.org] == PlanFor(g.body)
    && m.subs[g.org] == Subscription(PlanFor(g.body), g.body.status, g.body.customer, g.body.details, m.subs[g.org].endedAt)
    && (m.subs[g.org].endedAt.None? <==> IsRunning(g.body.status))
  }

  ghost predicate PaymentFrom(m: Mirror, g: Hook)
    requires g.body.PaymentChange? && g.body.payment.Some?
  {
    var p := g.body.payment.value;
    p.id in m.payments && m.payments[p.id] == PaymentRow(g.org, p)
  }

  lemma LastAtSnoc(acts: seq<Act>, a: Act, h: Hook)
    ensures LastAt(acts + [a], h) == if SameRow(a.hook, h) then |acts| else LastAt(acts, h)
  {
    assert (acts + [a])[..|acts|] == acts;
  }

  /** An act leaves its own row as it writes it, and other rows alone. */
  lemma RowAfter(m: Mirror, g: Hook, now: Time)
    requires Writes(g) && !Clashes(m, g)
    requires g.body.SubscriptionChange? && g.org in m.subs ==>
      (m.subs[g.org].endedAt.None? <==> IsRunning(m.subs[g.org].status))
    ensures var m' := Apply(m, g, now);
      if g.body.SubscriptionChange? then
        && SubFrom(m', g) && m'.payments == m.payments
        && m'.subs.Keys == m.subs.Keys + {g.org}
        && forall o :: o != g.org ==>
          (o in m'.plans <==> o in m.plans) && (o in m.plans ==> m'.plans[o] == m.plans[o])
          && (o in m.subs ==> m'.subs[o] == m.subs[o])
      else
        PaymentFrom(m', g) && m'.subs == m.subs && m'.plans == m.plans
        && m'.payments == m.payments[g.body.payment.value.id := PaymentRow(g.org, g.body.payment.value)]
  {}

  /** A stored ending goes with a status that is not running. */
  ghost predicate EndingsOk(m: Mirror) {
    forall o :: o in m.subs ==> (m.subs[o].endedAt.None? <==> IsRunning(m.subs[o].status))
  }

  lemma {:induction false} FoldEndings(acts: seq<Act>)
    ensures EndingsOk(Fold(acts))
  {
    if |acts| > 0 {
      FoldEndings(acts[..|acts| - 1]);
      hide IsRunning;
    }
  }

  /** Every row of the mirror is read off the last act on it. */
  lemma {:induction false} RowIsLast(acts: seq<Act>, h: Hook)
    requires Effective(acts)
    ensures RowFrom(Fold(acts), acts, h)
  {
    if |acts| > 0 {
      var p, a := acts[..|acts| - 1], acts[|acts| - 1];
      assert acts == p + [a];
      EffectiveSnoc(p, a);
      RowIsLast(p, h);
      FoldSnoc(p, a);
      LastAtSnoc(p, a, h);
      FoldEndings(p);
      hide Effective, Fold, LastAt;
      RowFromStep(p, a, Fold(p), h);
    }
  }

  lemma {:induction false} RowFromStep(p: seq<Act>, a: Act, m: Mirror, h: Hook)
    requires RowFrom(m, p, h) && EndingsOk(m) && Writes(a.hook) && !Clashes(m, a.hook)
    requires LastAt(p + [a], h) == if SameRow(a.hook, h) then |p| else LastAt(p, h)
    ensures RowFrom(Apply(m, a.hook, a.now), p + [a], h)
  {
    hide LastAt, Apply, Clashes, PlanFor, IsRunning;
    RowAfter(m, a.hook, a.now);
    var k := LastAt(p, h);
    assert k >= 0 ==> (p + [a])[k] == p[k];
  }

  // ---------- what a reader finds in the mirror ----------

  /** The act changes the subscription of the org. */
  predicate OnSub(a: Act, org: int) {
    a.hook.body.SubscriptionChange? && a.hook.org == org
  }

  /** Act k was the last on the subscription of its org. */
  predicate LastOnSub(acts: seq<Act>, k: int) {
    && 0 <= k < |acts| && acts[k].hook.body.SubscriptionChange?
    && forall l :: k < l < |acts| ==> !OnSub(acts[l], acts[k].hook.org)
  }

  /** In every reachable state an org has the subscription its last applied event told of. If
      that event cancelled it, the org is on the free tier; otherwise it is on the tier the event
      named, and on the free one if the name is unknown. */
  lemma SubscriptionMirrored(orgs: set<int>, run: seq<Event>, s: State, k: int)
    requires Exec(Init(orgs), run) == Some(s) && LastOnSub(s.acts, k)
    ensures var o, b := s.acts[k].hook.org, s.acts[k].hook.body;
      && o in s.mirror.subs && o in s.mirror.plans
      && s.mirror.subs[o].status == b.status && s.mirror.subs[o].customer == b.customer && s.mirror.subs[o].details == b.details
      && s.mirror.subs[o].plan == s.mirror.plans[o]
      && (b.status == "canceled" ==> s.mirror.plans[o] == Tier1)
      && (b.status != "canceled" ==>
            && (b.plan == "tier2" <==> s.mirror.plans[o] == Tier2)
            && (b.plan == "tier3" <==> s.mirror.plans[o] == Tier3)
            && (b.plan == "tierCustom" <==> s.mirror.plans[o] == TierCustom))
      && (s.mirror.subs[o].endedAt.None? <==> b.status == "active" || b.status == "trialing")
  {
    ReachableInv(orgs, run);
    var h := s.acts[k].hook;
    RowIsLast(s.acts, h);
    assert SameRow(h, h) && forall l :: 0 <= l < |s.acts| && SameRow(s.acts[l].hook, h) ==> OnSub(s.acts[l], h.org);
    assert LastAt(s.acts, h) == k;
    hide Inv, Exec, LastAt, Fold, Effective;
  }

  /** An org no event spoke of has no subscription, and a payment no event carried no row. */
  lemma OnlyWhatWasApplied(orgs: set<int>, run: seq<Event>, s: State, org: int, id: string)
    requires Exec(Init(orgs), run) == Some(s)
    ensures (forall l :: 0 <= l < |s.acts| ==> !OnSub(s.acts[l], org)) ==> org !in s.mirror.subs && org !in s.mirror.plans
    ensures id in s.mirror.payments ==>
      exists l :: 0 <= l < |s.acts| && s.acts[l].hook.body.PaymentChange? && s.acts[l].hook.body.payment.Some?
        && s.acts[l].hook.body.payment.value.id == id && s.mirror.payments[id] == PaymentRow(s.acts[l].hook.org, s.acts[l].hook.body.payment.value)
  {
    ReachableInv(orgs, run);
    RowsFromActs(s.acts, org, id);
    hide Inv, Exec;
  }

  lemma {:induction false} RowsFromActs(acts: seq<Act>, org: int, id: string)
    ensures (forall l :: 0 <= l < |acts| ==> !OnSub(acts[l], org)) ==> org !in Fold(acts).subs && org !in Fold(acts).plans
    ensures id in Fold(acts).payments ==>
      exists l :: 0 <= l < |acts| && acts[l].hook.body.PaymentChange? && acts[l].hook.body.payment.Some?
        && acts[l].hook.body.payment.value.id == id && Fold(acts).payments[id] == PaymentRow(acts[l].hook.org, acts[l].hook.body.payment.value)
  {
    if |acts| > 0 {
      var p, a := acts[..|acts| - 1], acts[|acts| - 1];
      RowsFromActs(p, org, id);
      hide PlanFor, IsRunning, Upsert;
      assert forall l :: 0 <= l < |p| ==> p[l] == acts[l];
      assert acts[|acts| - 1] == a;
    }
  }

  /** The subscription stopped running with act j and no act since has made it run again. */
  predicate EndedBy(acts: seq<Act>, j: int) {
    && 0 <= j < |acts| && acts[j].hook.body.SubscriptionChange?
    && (forall l :: j <= l < |acts| && OnSub(acts[l], acts[j].hook.org) ==>
          acts[l].hook.body.status != "active" && acts[l].hook.body.status != "trialing")
    && (forall l :: 0 <= l < j && LastOnSub(acts[..j], l) && OnSub(acts[l], acts[j].hook.org) ==>
          acts[l].hook.body.status == "active" || acts[l].hook.body.status == "trialing")
  }

  /** The time a subscription ended is stamped by the event that ended it, and later events that
      leave it ended, retries included, do not move it. */
  lemma {:induction false} EndingStampedOnce(acts: seq<Act>, j: int)
    requires Effective(acts) && EndedBy(acts, j)
    ensures acts[j].hook.org in Fold(acts).subs && Fold(acts).subs[acts[j].hook.org].endedAt == Some(acts[j].now)
    ensures !IsRunning(Fold(acts).subs[acts[j].hook.org].status)
    decreases |acts|
  {
    var p, a, o := acts[..|acts| - 1], acts[|acts| - 1], acts[j].hook.org;
    assert acts == p + [a];
    FoldSnoc(p, a);
    EffectiveSnoc(p, a);
    hide Fold, Effective, LastAt;
    if j < |p| {
      assert p[j] == acts[j] && acts[..j] == p[..j] && forall l :: 0 <= l < |p| ==> p[l] == acts[l];
      EndingStampedOnce(p, j);
    } else {
      assert acts[..j] == p;
      RowIsLast(p, a.hook);
      PriorRuns(p, acts, j);
    }
    hide Clashes;
  }

  lemma PriorRuns(p: seq<Act>, acts: seq<Act>, j: int)
    requires EndedBy(acts, j) && p == acts[..j]
    ensures var k := LastAt(p, acts[j].hook); k >= 0 ==> IsRunning(p[k].hook.body.status)
  {
    var k := LastAt(p, acts[j].hook);
    if k >= 0 {
      forall l | k < l < |p| ensures !OnSub(p[l], acts[j].hook.org) {
        assert !SameRow(p[l].hook, acts[j].hook);
      }
      assert LastOnSub(p, k) && acts[k] == p[k];
    }
  }

  // ---------- which retries are harmless ----------

  /** Applying an event to the mirror of any acts changes nothing if and only if the last act on
      its row wrote the same. */
  lemma {:induction false} RetryHarmlessIff(acts: seq<Act>, h: Hook, now: Time)
    requires Effective(acts) && Writes(h) && !Clashes(Fold(acts), h)
    ensures Apply(Fold(acts), h, now) == Fold(acts) <==> RepeatsLast(acts, h)
  {
    RowIsLast(acts, h);
    hide Effective, Fold, LastAt;
    if h.body.SubscriptionChange? {
      SubUnchangedIff(acts, Fold(acts), h, now);
    } else {
      PaymentUnchangedIff(acts, Fold(acts), h, now);
    }
  }

  /** In every reachable state: a delivery about to act leaves the mirror as it is if and only
      if the last act on its row wrote the same. */
  lemma ReprocessHarmlessIff(orgs: set<int>, run: seq<Event>, s: State, call: int, now: Time)
    requires Exec(Init(orgs), run) == Some(s) && call in s.calls && CanAct(s, call, s.calls[call].hook.id)
    ensures Step(s, Perform(call, Done, now)).Some?
    ensures Step(s, Perform(call, Done, now)).value.mirror == s.mirror <==> RepeatsLast(s.acts, s.calls[call].hook)
  {
    ReachableInv(orgs, run);
    RetryHarmlessIff(s.acts, s.calls[call].hook, now);
    hide Inv, Exec, RepeatsLast, Fold, Apply, Clashes;
  }

  lemma SubUnchangedIff(acts: seq<Act>, m: Mirror, h: Hook, now: Time)
    requires RowFrom(m, acts, h) && h.body.SubscriptionChange?
    ensures Apply(m, h, now) == m <==> RepeatsLast(acts, h)
  {
    hide LastAt, PlanFor, IsRunning;
    var m' := Apply(m, h, now);
    assert h.org in m'.subs && m'.subs[h.org] == Upsert(SubOf(m, h.org), h.body, now);
    if RepeatsLast(acts, h) {
      assert m.subs[h.org := m.subs[h.org]] == m.subs && m.plans[h.org := m.plans[h.org]] == m.plans;
    }
  }

  lemma PaymentUnchangedIff(acts: seq<Act>, m: Mirror, h: Hook, now: Time)
    requires RowFrom(m, acts, h) && h.body.PaymentChange? && h.body.payment.Some? && !Clashes(m, h)
    ensures Apply(m, h, now) == m <==> RepeatsLast(acts, h)
  {
    hide LastAt;
    var m', id := Apply(m, h, now), h.body.payment.value.id;
    assert id in m'.payments && m'.payments[id] == PaymentRow(h.org, h.body.payment.value);
    if RepeatsLast(acts, h) {
      assert m.payments[id := m.payments[id]] == m.payments;
    }
  }

  // ---------- applying each event once ----------

  /** The act repeats an earlier act on the same event. */
  predicate IsRetry(acts: seq<Act>, h: Hook) {
    exists i :: 0 <= i < |acts| && acts[i].hook == h
  }

  /** The first application of each event. */
  function FirstOnly(acts: seq<Act>): seq<Act> {
    if |acts| == 0 then []
    else
      var p, a := acts[..|acts| - 1], acts[|acts| - 1];
      if IsRetry(p, a.hook) then FirstOnly(p) else FirstOnly(p) + [a]
  }

  /** The mirror is what applying each event once leaves. */
  ghost predicate Once(acts: seq<Act>) {
    Fold(acts) == Fold(FirstOnly(acts))
  }

  /** Every retry came while the last act on its row had written the same. */
  ghost predicate RetriesRepeat(acts: seq<Act>) {
    forall j :: 0 <= j < |acts| && IsRetry(acts[..j], acts[j].hook) ==> RepeatsLast(acts[..j], acts[j].hook)
  }

  lemma RetriesRepeatSnoc(p: seq<Act>, a: Act)
    ensures RetriesRepeat(p + [a]) <==> RetriesRepeat(p) && (IsRetry(p, a.hook) ==> RepeatsLast(p, a.hook))
  {
    hide IsRetry, RepeatsLast;
    var g := p + [a];
    assert g[|p|] == a && g[..|p|] == p;
    forall j | 0 <= j < |p| ensures g[j] == p[j] && g[..j] == p[..j] {}
    if RetriesRepeat(g) {
      forall j | 0 <= j < |p| && IsRetry(p[..j], p[j].hook) ensures RepeatsLast(p[..j], p[j].hook) {
        assert IsRetry(g[..j], g[j].hook);
      }
    }
  }

  /** One more act keeps the mirror that of each event once if and only if it is no retry or
      repeats the last act on its row. */
  lemma {:induction false} OnceStep(p: seq<Act>, a: Act)
    requires Once(p) && Effective(p + [a])
    ensures Once(p + [a]) <==> (IsRetry(p, a.hook) ==> RepeatsLast(p, a.hook))
  {
    var g := p + [a];
    assert g[..|p|] == p;
    assert FirstOnly(g) == if IsRetry(p, a.hook) then FirstOnly(p) else FirstOnly(p) + [a];
    hide FirstOnly, IsRetry, RepeatsLast, Apply, Writes, Clashes;
    EffectiveSnoc(p, a);
    FoldSnoc(p, a);
    FoldSnoc(FirstOnly(p), a);
    RetryHarmlessIff(p, a.hook, a.now);
    hide Fold, Effective;
  }

  /** After every step of the run the mirror equals applying each event once. */
  ghost predicate AlwaysOnce(orgs: set<int>, run: seq<Event>) {
    forall k :: 0 <= k <= |run| ==> OnceAfter(orgs, run[..k])
  }

  ghost predicate OnceAfter(orgs: set<int>, run: seq<Event>) {
    && Exec(Init(orgs), run).Some?
    && var s := Exec(Init(orgs), run).value; s.mirror == Fold(FirstOnly(s.acts))
  }

  lemma AlwaysOnceSnoc(orgs: set<int>, run: seq<Event>)
    requires |run| > 0
    ensures AlwaysOnce(orgs, run) <==> AlwaysOnce(orgs, run[..|run| - 1]) && OnceAfter(orgs, run)
  {
    hide OnceAfter;
    var p := run[..|run| - 1];
    assert run[..|run|] == run && forall k :: 0 <= k <= |p| ==> run[..k] == p[..k];
    if AlwaysOnce(orgs, run) {
      forall k | 0 <= k <= |p| ensures OnceAfter(orgs, p[..k]) {
        assert OnceAfter(orgs, run[..k]);
      }
      assert OnceAfter(orgs, run[..|run|]);
    }
    if AlwaysOnce(orgs, p) && OnceAfter(orgs, run) {
      forall k | 0 <= k <= |run| ensures OnceAfter(orgs, run[..k]) {
        assert k <= |p| ==> OnceAfter(orgs, p[..k]);
      }
    }
  }

  /** A step applies at most one event. */
  lemma {:induction false} ActsStep(s: State, e: Event)
    requires Step(s, e).Some?
    ensures var s' := Step(s, e).value;
      || (s'.acts == s.acts && s'.mirror == s.mirror)
      || (|s'.acts| == |s.acts| + 1 && s.acts == s'.acts[..|s.acts|])
  {
    if e.Perform? {
      PerformShape(s, e.call, e.reply, e.now);
    }
    hide Apply, Clashes;
  }

  /** For every run, with any failures, lost replies, crashes and redeliveries: the mirror equals
      applying each event once, in order of first application, after every step if and only if
      whenever an event was applied again the last act on its row had written the same. */
  lemma {:induction false} MirrorAppliesOnceIff(orgs: set<int>, run: seq<Event>)
    requires Exec(Init(orgs), run).Some?
    ensures AlwaysOnce(orgs, run) <==> RetriesRepeat(Exec(Init(orgs), run).value.acts)
    ensures AlwaysOnce(orgs, run) ==> OnceAfter(orgs, run)
  {
    hide Step, Fold, FirstOnly, Effective;
    if |run| == 0 {
      NothingYet(orgs, run);
    } else {
      var p, e := run[..|run| - 1], run[|run| - 1];
      var q, s := Exec(Init(orgs), p).value, Exec(Init(orgs), run).value;
      MirrorAppliesOnceIff(orgs, p);
      AlwaysOnceSnoc(orgs, run);
      ReachableInv(orgs, p);
      ReachableInv(orgs, run);
      ActsStep(q, e);
      hide AlwaysOnce, RetriesRepeat;
      if s.acts != q.acts {
        var a := s.acts[|q.acts|];
        assert s.acts == q.acts + [a];
        RetriesRepeatSnoc(q.acts, a);
        if q.mirror == Fold(FirstOnly(q.acts)) {
          OnceStep(q.acts, a);
        }
      }
    }
  }

  lemma NothingYet(orgs: set<int>, run: seq<Event>)
    requires run == []
    ensures AlwaysOnce(orgs, run) && OnceAfter(orgs, run) && RetriesRepeat(Exec(Init(orgs), run).value.acts)
  {
    assert run[..0] == run;
    assert OnceAfter(orgs, run);
  }

  // ---------- conditions a reader can check on the deliveries ----------

  /** Between an application and a retry of the same event, nothing else of its org. */
  ghost predicate RetriesTogether(acts: seq<Act>) {
    forall i, j, k :: 0 <= i < k < j < |acts| && acts[i].hook == acts[j].hook && acts[k].hook.org == acts[i].hook.org ==>
      acts[k].hook == acts[i].hook
  }

  /** A payment row never changes hands: acts on one row are of one org. */
  lemma {:induction false} RowKeepsOrg(acts: seq<Act>, i: nat, k: nat)
    requires Effective(acts) && i < k < |acts| && SameRow(acts[i].hook, acts[k].hook)
    ensures acts[i].hook.org == acts[k].hook.org
    decreases k
  {
    var h, p := acts[k].hook, acts[..k];
    if h.body.PaymentChange? {
      assert EffectiveAt(acts, k);
      EffectivePrefix(acts, k);
      RowIsLast(p, h);
      var l := LastAt(p, h);
      assert p[i] == acts[i] && l >= i && p[l] == acts[l];
      hide Effective, Fold;
      if l > i {
        RowKeepsOrg(acts, i, l);
      }
    }
  }

  lemma {:induction false} EffectivePrefix(acts: seq<Act>, k: nat)
    requires Effective(acts) && k <= |acts|
    ensures Effective(acts[..k])
  {
    hide Writes, Clashes, Fold;
    forall i | 0 <= i < k ensures EffectiveAt(acts[..k], i) {
      assert EffectiveAt(acts, i) && acts[..k][..i] == acts[..i];
    }
  }

  /** Retries that nothing of their org overtook repeat the last act on their row. */
  lemma {:induction false} TogetherRepeats(acts: seq<Act>)
    requires Effective(acts) && RetriesTogether(acts)
    ensures RetriesRepeat(acts)
  {
    forall j | 0 <= j < |acts| && IsRetry(acts[..j], acts[j].hook) ensures RepeatsLast(acts[..j], acts[j].hook) {
      var p, h := acts[..j], acts[j].hook;
      var i :| 0 <= i < |p| && p[i].hook == h;
      assert EffectiveAt(acts, j);
      TogetherRepeatsAt(acts, i, j);
    }
  }

  lemma {:induction false} TogetherRepeatsAt(acts: seq<Act>, i: nat, j: nat)
    requires Effective(acts) && RetriesTogether(acts) && i < j < |acts| && acts[i].hook == acts[j].hook && Writes(acts[j].hook)
    ensures RepeatsLast(acts[..j], acts[j].hook)
  {
    hide Effective, Fold, PlanFor;
    var p, h := acts[..j], acts[j].hook;
    assert p[i] == acts[i] && SameRow(h, h);
    var k := LastAt(p, h);
    assert k >= i && p[k] == acts[k];
    if k > i {
      RowKeepsOrg(acts, i, k);
    }
    assert acts[k].hook == h;
  }

  /** In particular the mirror equals applying each event once if no retry was overtaken by
      another event of its org. */
  lemma MirrorAppliesOnce(orgs: set<int>, run: seq<Event>)
    requires Exec(Init(orgs), run).Some? && RetriesTogether(Exec(Init(orgs), run).value.acts)
    ensures Exec(Init(orgs), run).value.mirror == Fold(FirstOnly(Exec(Init(orgs), run).value.acts))
  {
    ReachableInv(orgs, run);
    TogetherRepeats(Exec(Init(orgs), run).value.acts);
    MirrorAppliesOnceIff(orgs, run);
    hide Inv, Exec, RetriesRepeat, RetriesTogether;
  }

  /** Applying the event again would change nothing. */
  ghost predicate Absorbed(m: Mirror, h: Hook) {
    forall now :: Apply(m, h, now) == m
  }

  /** Once applied, an event is absorbed, also as far as the time a subscription ended goes. */
  lemma {:induction false} AppliedIsAbsorbed(m: Mirror, h: Hook, t: Time)
    ensures Absorbed(Apply(m, h, t), h)
  {
    var m1 := Apply(m, h, t);
    forall now ensures Apply(m1, h, now) == m1 {
      match h.body
      case SubscriptionChange(_, _, _, _) =>
        assert Upsert(SubOf(m1, h.org), h.body, now) == m1.subs[h.org];
        assert m1.subs[h.org := m1.subs[h.org]] == m1.subs;
        assert m1.plans[h.org := PlanFor(h.body)] == m1.plans;
      case PaymentChange(p) =>
        if p.Some? && !Clashes(m, h) {
          assert m1.payments[p.value.id := PaymentRow(h.org, p.value)] == m1.payments;
        }
      case _ =>
    }
  }

  // ---------- a retry that undoes a newer event ----------

  lemma FoldOvertaken(acts: seq<Act>)
    requires acts == [Act(ON, 1), Act(OFF, 2), Act(ON, 3)]
    ensures Fold(acts) != Fold(FirstOnly(acts)) && FirstOnly(acts) == [Act(ON, 1), Act(OFF, 2)]
  {
    var a, b := Act(ON, 1), Act(OFF, 2);
    assert acts[..2] == [a, b] && [a, b][..1] == [a] && [a][..0] == [];
    assert Fold([]) == EMPTY_MIRROR && FirstOnly([]) == [];
    assert FirstOnly([a]) == [a];
    assert FirstOnly([a, b]) == [a, b];
    assert acts[0].hook == ON;
    assert FirstOnly(acts) == [a, b];
    assert Fold([a, b]).plans[5] == Tier1;
    assert Fold(acts).plans[5] == Tier2;
  }

  /** A subscription is activated and the mark fails, it is cancelled, and the activation is
      redelivered. The retry undoes the cancellation. */
  lemma OvertakenRetryDiffers() returns (run: seq<Event>, s: State)
    ensures Exec(Init({5}), run) == Some(s) && s.mirror != Fold(FirstOnly(s.acts))
    ensures s.acts == [Act(ON, 1), Act(OFF, 2), Act(ON, 3)]
  {
    var q;
    run, q := ActivatedThenCancelled();
    var start := Init({5});
    hide Exec, Step, Fold, FirstOnly, Apply, Init;
    run, q := RecordRun(start, run, q, 3, ON);
    s := PerformRun(start, run, q, 3, ON, 3);
    run := run + [Perform(3, Done, 3)];
    assert s.acts == [Act(ON, 1), Act(OFF, 2), Act(ON, 3)];
    FoldOvertaken(s.acts);
    ReachableInv({5}, run);
  }

  /** The activation is applied and its mark fails, then the cancellation is applied. */
  lemma ActivatedThenCancelled() returns (run: seq<Event>, s: State)
    ensures Exec(Init({5}), run) == Some(s) && s.acts == [Act(ON, 1), Act(OFF, 2)] && s.orgs == {5}
    ensures 3 !in s.calls && ON.id in s.sent && s.sent[ON.id] == ON && (ON.id in s.inbox ==> !s.inbox[ON.id].processed)
  {
    var start := Init({5});
    var q;
    run, q := RecordRun(start, [], start, 1, ON);
    hide Exec, Step, Apply;
    q := PerformRun(start, run, q, 1, ON, 1);
    run := run + [Perform(1, Done, 1)];
    run, q := MarkFails(start, run, q, 1);
    run, q := RecordRun(start, run, q, 2, OFF);
    s := PerformRun(start, run, q, 2, OFF, 2);
    run := run + [Perform(2, Done, 2)];
  }
}
