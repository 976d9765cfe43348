/** One organisation's members and invitations and the handlers that change them
    (internal/api/members.go). Handlers are serialised; each is a function from the rows it
    reads to the rows it leaves and the response it gives. */
module Membership {
  import opened Domain
  import opened Authz
  import opened Text

  datatype InviteState = Pending | Accepted | Revoked

  datatype Invitation = Invitation(email: string, role: Role, state: InviteState, expires: Time)

  /** `cap` is the plan's seat cap. `backstop` says whether the last-owner trigger is installed
      on the membership table. */
  datatype Org = Org(
    id: int,
    members: map<int, Role>,
    invites: map<int, Invitation>,
    nextInvite: int,
    cap: int,
    backstop: bool)

  datatype User = User(id: int, email: string, emailVerified: bool)

  datatype Response = Done | Unauthorized | Forbidden | NotFound | Conflict | Unprocessable | SeatLimit | Failed

  const INVITE_TTL: int := 7 * DAY

  function Owners(members: map<int, Role>): set<int> {
    set u | u in members && members[u] == Owner
  }

  function PendingInvites(invites: map<int, Invitation>): set<int> {
    set i | i in invites && invites[i].state == Pending
  }

  function SeatsUsed(o: Org): int {
    |o.members.Keys| + |PendingInvites(o.invites)|
  }

  /** The request has an org and a role. */
  predicate IsPrincipal(a: Actor) {
    a.org != 0 && a.role.Some?
  }

  function Refusal(v: Verdict): Response
    requires v.Deny?
  {
    if v.reason == LastOwner then Conflict else Forbidden
  }

  /** The trigger refuses a write that takes a row out of the owner set and leaves none. */
  predicate Fires(o: Org, user: int) {
    o.backstop && Owners(o.members) - {user} == {}
  }

  /** The update of one membership row, or None if the trigger refuses it. */
  function SetRole(o: Org, user: int, role: Role): Option<Org> {
    if user !in o.members then Some(o)
    else if role != Owner && Fires(o, user) then None
    else Some(o.(members := o.members[user := role]))
  }

  function DeleteMember(o: Org, user: int): Option<Org> {
    if user !in o.members then Some(o)
    else if Fires(o, user) then None
    else Some(o.(members := o.members - {user}))
  }

  /** The response when the trigger refuses. */
  function OrElse(written: Option<Org>, o: Org, refused: Response): (Org, Response) {
    if written.None? then (o, refused) else (written.value, Done)
  }

  function ChangeRole(o: Org, a: Actor, target: int, newRole: Option<Role>): (Org, Response) {
    if !IsPrincipal(a) then (o, Unauthorized)
    else if newRole.None? then (o, Unprocessable)
    else if target !in o.members then (o, NotFound)
    else
      var v := Can(a, ChangeMemberRole, Resource(a.org, Some(o.members[target]), newRole, |Owners(o.members)|));
      if v.Deny? then (o, Refusal(v))
      else if newRole.value == o.members[target] then (o, Done)
      else OrElse(SetRole(o, target, newRole.value), o, Conflict)
  }

  function Remove(o: Org, a: Actor, target: int): (Org, Response) {
    if !IsPrincipal(a) then (o, Unauthorized)
    else if target !in o.members then (o, NotFound)
    else
      var v := Can(a, RemoveMember, Resource(a.org, Some(o.members[target]), None, |Owners(o.members)|));
      if v.Deny? then (o, Refusal(v))
      else OrElse(DeleteMember(o, target), o, Conflict)
  }

  function Leave(o: Org, a: Actor): (Org, Response) {
    if !IsPrincipal(a) then (o, Unauthorized)
    else if a.role == Some(Owner) && EnsureNotLastOwner(Owner, |Owners(o.members)|).Deny? then (o, Conflict)
    else if a.user !in o.members then (o, Forbidden)
    else OrElse(DeleteMember(o, a.user), o, Conflict)
  }

  /** Promote the new owner, then let the old one step down if asked. The second write is a
      separate statement and may fail. */
  function Transfer(o: Org, a: Actor, target: int, stepDown: bool, secondWrite: bool): (Org, Response) {
    if !IsPrincipal(a) then (o, Unauthorized)
    else if Can(a, TransferOwnership, Resource(a.org, None, None, 0)).Deny? then (o, Forbidden)
    else if target == a.user then (o, Unprocessable)
    else if target !in o.members then (o, NotFound)
    else
      var promoted := o.(members := o.members[target := Owner]);
      if !stepDown then (promoted, Done)
      else if !secondWrite then (promoted, Failed)
      else OrElse(SetRole(promoted, a.user, Admin), promoted, Failed)
  }

  function Invite(o: Org, a: Actor, email: string, role: Option<Role>, now: Time): (Org, Response) {
    if !IsPrincipal(a) then (o, Unauthorized)
    else if Can(a, InviteMember, Resource(a.org, None, None, 0)).Deny? then (o, Forbidden)
    else if Trim(email) == "" || role.None? || role == Some(Owner) then (o, Unprocessable)
    else if SeatsUsed(o) >= o.cap then (o, SeatLimit)
    else if exists i :: i in PendingInvites(o.invites) && Lower(o.invites[i].email) == Lower(Trim(email)) then (o, Conflict)
    else
      (o.(invites := o.invites[o.nextInvite := Invitation(Trim(email), role.value, Pending, now + INVITE_TTL)],
          nextInvite := o.nextInvite + 1), Done)
  }

  function RevokeInvite(o: Org, a: Actor, id: int): (Org, Response) {
    if !IsPrincipal(a) then (o, Unauthorized)
    else if Can(a, ManageInvitation, Resource(a.org, None, None, 0)).Deny? then (o, Forbidden)
    else if id !in o.invites then (o, NotFound)
    else if o.invites[id].state != Pending then (o, Conflict)
    else (o.(invites := o.invites[id := o.invites[id].(state := Revoked)]), Done)
  }

  function Resend(o: Org, a: Actor, id: int, now: Time): (Org, Response) {
    if !IsPrincipal(a) then (o, Unauthorized)
    else if Can(a, ManageInvitation, Resource(a.org, None, None, 0)).Deny? then (o, Forbidden)
    else if id !in o.invites then (o, NotFound)
    else if o.invites[id].state != Pending then (o, Conflict)
    else (o.(invites := o.invites[id := o.invites[id].(expires := now + INVITE_TTL)]), Done)
  }

  /** Accepting needs the token, a signed-in user with the invited, verified address, and a
      pending invitation that has not expired. A user who is already a member closes it. */
  function Accept(o: Org, u: User, id: int, now: Time): (Org, Response) {
    if id !in o.invites then (o, NotFound)
    else
      var inv := o.invites[id];
      if inv.state != Pending || now > inv.expires then (o, Conflict)
      else if !u.emailVerified || Lower(u.email) != Lower(inv.email) then (o, Forbidden)
      else if u.id in o.members then
        (o.(invites := o.invites[id := inv.(state := Revoked)]), Done)
      else
        (o.(members := o.members[u.id := inv.role], invites := o.invites[id := inv.(state := Accepted)]), Done)
  }

  datatype Event =
    | EvChangeRole(actor: Actor, target: int, newRole: Option<Role>)
    | EvRemove(actor: Actor, target: int)
    | EvLeave(actor: Actor)
    | EvTransfer(actor: Actor, target: int, stepDown: bool, secondWrite: bool)
    | EvInvite(actor: Actor, email: string, role: Option<Role>, now: Time)
    | EvRevoke(actor: Actor, invite: int)
    | EvResend(actor: Actor, invite: int, now: Time)
    | EvAccept(user: User, invite: int, now: Time)

  /** The role on the request is the one the rows give: a human has their own role in the
      org, a key has a role below owner and no user. User ids start at 1. */
  predicate Authentic(o: Org, a: Actor) {
    && a.org == o.id
    && match a.kind
       case Human => a.user != 0 && a.role == if a.user in o.members then Some(o.members[a.user]) else None
       case ApiKey => a.user == 0 && (a.role == Some(Member) || a.role == Some(Admin))
  }

  function Apply(o: Org, e: Event): (Org, Response) {
    match e
    case EvChangeRole(a, t, r) => ChangeRole(o, a, t, r)
    case EvRemove(a, t) => Remove(o, a, t)
    case EvLeave(a) => Leave(o, a)
    case EvTransfer(a, t, down, ok) => Transfer(o, a, t, down, ok)
    case EvInvite(a, email, role, now) => Invite(o, a, email, role, now)
    case EvRevoke(a, i) => RevokeInvite(o, a, i)
    case EvResend(a, i, now) => Resend(o, a, i, now)
    case EvAccept(u, i, now) => Accept(o, u, i, now)
  }

  function Step(o: Org, e: Event): Option<Org> {
    if (if e.EvAccept? then e.user.id != 0 else Authentic(o, e.actor)) then Some(Apply(o, e).0) else None
  }

  function Exec(o: Org, run: seq<Event>): Option<Org> {
    if |run| == 0 then Some(o)
    else
      var before := Exec(o, run[..|run| - 1]);
      if before.None? then None else Step(before.value, run[|run| - 1])
  }

  // ---------- how the owner set moves ----------

  lemma OwnersAfterRole(members: map<int, Role>, u: int, r: Role)
    ensures Owners(members[u := r]) == if r == Owner then Owners(members) + {u} else Owners(members) - {u}
  {}

  lemma OwnersAfterRemoval(members: map<int, Role>, u: int)
    ensures Owners(members - {u}) == Owners(members) - {u}
  {}

  /** Ownership never comes from an invitation, and no member has id 0. */
  ghost predicate NoOwnerInvites(o: Org) {
    0 !in o.members && forall i :: i in o.invites ==> o.invites[i].role != Owner
  }

  ghost predicate Inv(o: Org) {
    |Owners(o.members)| >= 1 && NoOwnerInvites(o)
  }

  lemma {:induction false} ChangeRoleOwners(o: Org, a: Actor, t: int, r: Option<Role>)
    requires Authentic(o, a)
    ensures var before, after := Owners(o.members), Owners(ChangeRole(o, a, t, r).0.members);
      after == before
      || (a.role == Some(Owner) && (after == before + {t} || (after == before - {t} && (t in before ==> |before| > 1))))
    ensures |Owners(o.members)| >= 1 ==> |Owners(ChangeRole(o, a, t, r).0.members)| >= 1
  {
    hide Can;
    if r.Some? && t in o.members {
      hide Owners;
      OwnersAfterRole(o.members, t, r.value);
      OwnersAnswerToOwners(a, Resource(a.org, Some(o.members[t]), r, |Owners(o.members)|));
    }
  }

  lemma {:induction false} RemoveOwners(o: Org, a: Actor, t: int)
    requires Authentic(o, a)
    ensures var before, after := Owners(o.members), Owners(Remove(o, a, t).0.members);
      after == before || (a.role == Some(Owner) && after == before - {t} && |before| > 1)
    ensures |Owners(o.members)| >= 1 ==> |Owners(Remove(o, a, t).0.members)| >= 1
  {
    hide Can;
    if t in o.members {
      OwnersAfterRemoval(o.members, t);
      OwnersAnswerToOwners(a, Resource(a.org, Some(o.members[t]), None, |Owners(o.members)|));
    }
  }

  lemma {:induction false} LeaveOwners(o: Org, a: Actor)
    requires Authentic(o, a) && NoOwnerInvites(o)
    ensures var before, after := Owners(o.members), Owners(Leave(o, a).0.members);
      after == before || (a.role == Some(Owner) && after == before - {a.user} && |before| > 1)
    ensures |Owners(o.members)| >= 1 ==> |Owners(Leave(o, a).0.members)| >= 1
  {
    OwnersAfterRemoval(o.members, a.user);
  }

  /** After the first write of a transfer there is one more owner; the second write takes the
      acting owner off, never the new one. */
  lemma {:induction false} TransferOwners(o: Org, a: Actor, t: int, stepDown: bool, secondWrite: bool)
    requires Authentic(o, a)
    ensures var before, after := Owners(o.members), Owners(Transfer(o, a, t, stepDown, secondWrite).0.members);
      after == before
      || (a.role == Some(Owner) && (after == before + {t} || (t != a.user && after == before + {t} - {a.user})))
    ensures |Owners(o.members)| >= 1 ==> |Owners(Transfer(o, a, t, stepDown, secondWrite).0.members)| >= 1
  {
    hide Can;
    OwnersAfterRole(o.members, t, Owner);
    OwnersAfterRole(o.members[t := Owner], a.user, Admin);
    OwnersAnswerToOwners(a, Resource(a.org, None, None, 0));
    if t != a.user {
      assert t in Owners(o.members) + {t} - {a.user};
    }
    hide Owners;
  }

  lemma {:induction false} AcceptOwners(o: Org, u: User, i: int, now: Time)
    requires NoOwnerInvites(o)
    ensures Owners(Accept(o, u, i, now).0.members) == Owners(o.members)
  {
    if i in o.invites {
      OwnersAfterRole(o.members, u.id, o.invites[i].role);
    }
    hide Lower;
  }

  /** Every event keeps the invariant that no invitation makes an owner. */
  lemma {:induction false} NoOwnerInvitesStep(o: Org, e: Event)
    requires NoOwnerInvites(o) && Step(o, e).Some?
    ensures NoOwnerInvites(Step(o, e).value)
  {
    hide Can, Lower, Trim, Owners;
  }

  lemma {:induction false} InvitesLeaveMembers(o: Org, e: Event)
    requires e.EvInvite? || e.EvRevoke? || e.EvResend?
    ensures Apply(o, e).0.members == o.members
  {
    hide Can, Lower, Trim, PendingInvites;
  }

  lemma {:induction false} StepKeepsOwner(o: Org, e: Event)
    requires Inv(o) && Step(o, e).Some?
    ensures Inv(Step(o, e).value)
  {
    NoOwnerInvitesStep(o, e);
    hide NoOwnerInvites, ChangeRole, Remove, Leave, Transfer, Accept, Authentic, Owners, Invite, RevokeInvite, Resend;
    match e
    case EvChangeRole(a, t, r) => ChangeRoleOwners(o, a, t, r);
    case EvRemove(a, t) => RemoveOwners(o, a, t);
    case EvLeave(a) => LeaveOwners(o, a);
    case EvTransfer(a, t, down, ok) => TransferOwners(o, a, t, down, ok);
    case EvAccept(u, i, now) => AcceptOwners(o, u, i, now);
    case _ => InvitesLeaveMembers(o, e);
  }

  /** Every serialised run of the handlers keeps at least one owner, by the guards alone,
      also when a transfer stops between its two writes. */
  lemma {:induction false} AlwaysAnOwner(o: Org, run: seq<Event>)
    requires Inv(o) && Exec(o, run).Some?
    ensures Inv(Exec(o, run).value)
  {
    if |run| > 0 {
      AlwaysAnOwner(o, run[..|run| - 1]);
      StepKeepsOwner(Exec(o, run[..|run| - 1]).value, run[|run| - 1]);
    }
  }

  /** The users who left during a run. */
  function Leavers(run: seq<Event>): set<int> {
    if |run| == 0 then {}
    else if run[|run| - 1].EvLeave? then Leavers(run[..|run| - 1]) + {run[|run| - 1].actor.user}
    else Leavers(run[..|run| - 1])
  }

  /** Only leaving is done by owners. */
  ghost predicate NoOwnerActs(run: seq<Event>) {
    forall i :: 0 <= i < |run| ==> run[i].EvLeave? || run[i].EvAccept? || run[i].actor.role != Some(Owner)
  }

  lemma {:induction false} OwnersStep(o: Org, e: Event)
    requires Inv(o) && Step(o, e).Some? && (e.EvLeave? || e.EvAccept? || e.actor.role != Some(Owner))
    ensures var before, after := Owners(o.members), Owners(Step(o, e).value.members);
      after == before || (e.EvLeave? && after == before - {e.actor.user})
  {
    hide NoOwnerInvites, ChangeRole, Remove, Leave, Transfer, Accept, Authentic, Owners, Invite, RevokeInvite, Resend;
    match e
    case EvChangeRole(a, t, r) => ChangeRoleOwners(o, a, t, r);
    case EvRemove(a, t) => RemoveOwners(o, a, t);
    case EvLeave(a) => LeaveOwners(o, a);
    case EvTransfer(a, t, down, ok) => TransferOwners(o, a, t, down, ok);
    case EvAccept(u, i, now) => AcceptOwners(o, u, i, now);
    case _ => InvitesLeaveMembers(o, e);
  }

  /** If every actor is an admin, a lower role or an API key, a run changes the owner set only
      by owners leaving: nobody else can make, demote or remove an owner. */
  lemma {:induction false} OwnersOutOfReach(o: Org, run: seq<Event>)
    requires Inv(o) && Exec(o, run).Some? && NoOwnerActs(run)
    ensures var after := Owners(Exec(o, run).value.members);
      Owners(o.members) - Leavers(run) <= after <= Owners(o.members)
  {
    if |run| > 0 {
      var p, e := run[..|run| - 1], run[|run| - 1];
      assert forall i :: 0 <= i < |p| ==> p[i] == run[i];
      OwnersOutOfReach(o, p);
      AlwaysAnOwner(o, p);
      OwnersStep(Exec(o, p).value, e);
      hide Step, Owners, Inv;
    }
  }

  // ---------- the trigger behind the guards ----------

  lemma {:induction false} BackstopRole(o: Org, u: int, r: Role)
    requires o.backstop && Owners(o.members) != {}
    ensures SetRole(o, u, r).Some? ==> Owners(SetRole(o, u, r).value.members) != {} && SetRole(o, u, r).value.backstop
    ensures DeleteMember(o, u).Some? ==>
      Owners(DeleteMember(o, u).value.members) != {} && DeleteMember(o, u).value.backstop
  {
    OwnersAfterRole(o.members, u, r);
    OwnersAfterRemoval(o.members, u);
    hide Owners;
  }

  lemma {:induction false} BackstopTransfer(o: Org, a: Actor, t: int, stepDown: bool, secondWrite: bool)
    requires o.backstop && Owners(o.members) != {}
    ensures var after := Transfer(o, a, t, stepDown, secondWrite).0; after.backstop && Owners(after.members) != {}
  {
    hide Can;
    OwnersAfterRole(o.members, t, Owner);
    hide Owners;
    BackstopRole(o.(members := o.members[t := Owner]), a.user, Admin);
    hide SetRole;
  }

  lemma {:induction false} BackstopMember(o: Org, a: Actor, t: int, r: Option<Role>)
    requires o.backstop && Owners(o.members) != {}
    ensures var after := ChangeRole(o, a, t, r).0; after.backstop && Owners(after.members) != {}
    ensures var after := Remove(o, a, t).0; after.backstop && Owners(after.members) != {}
    ensures var after := Leave(o, a).0; after.backstop && Owners(after.members) != {}
  {
    hide Can, Owners;
    BackstopRole(o, t, if r.Some? then r.value else Viewer);
    BackstopRole(o, a.user, Viewer);
    hide SetRole, DeleteMember, EnsureNotLastOwner;
  }

  lemma InvitesLeaveBackstop(o: Org, e: Event)
    requires e.EvInvite? || e.EvRevoke? || e.EvResend? || e.EvAccept?
    ensures Apply(o, e).0.backstop == o.backstop
  {
    hide Can, Lower, Trim, PendingInvites;
  }

  /** With the trigger no handler that runs by itself can leave the org without an owner,
      however stale the role on the request. */
  lemma {:induction false} BackstopStep(o: Org, e: Event)
    requires o.backstop && Owners(o.members) != {} && NoOwnerInvites(o)
    ensures var after := Apply(o, e).0; after.backstop && Owners(after.members) != {}
  {
    hide Owners, NoOwnerInvites, ChangeRole, Remove, Leave, Transfer, Invite, RevokeInvite, Resend, Accept;
    match e
    case EvChangeRole(a, t, r) => BackstopMember(o, a, t, r);
    case EvRemove(a, t) => BackstopMember(o, a, t, None);
    case EvLeave(a) => BackstopMember(o, a, 0, None);
    case EvTransfer(a, t, down, ok) => BackstopTransfer(o, a, t, down, ok);
    case EvAccept(u, i, now) =>
      InvitesLeaveBackstop(o, e);
      AcceptOwners(o, u, i, now);
    case _ =>
      InvitesLeaveBackstop(o, e);
      InvitesLeaveMembers(o, e);
  }

  lemma {:induction false} NoOwnerInvitesStale(o: Org, e: Event)
    requires NoOwnerInvites(o) && (e.EvAccept? ==> e.user.id != 0)
    ensures NoOwnerInvites(Apply(o, e).0)
  {
    hide Can, Lower, Trim, Owners;
  }

  /** The trigger has something to do only for stale roles: for a role as the rows give it the
      guards refuse first, so the trigger never changes the outcome. */
  lemma {:induction false} GuardsComeFirst(o: Org, e: Event)
    requires Inv(o) && Step(o, e).Some?
    ensures var on, off := o.(backstop := true), o.(backstop := false);
      Apply(on, e) == (Apply(off, e).0.(backstop := true), Apply(off, e).1)
  {
    hide Can, Lower, Trim, PendingInvites;
    match e
    case EvChangeRole(a, t, r) => GuardedDemotion(o, t);
      if t in o.members {
        OwnersAnswerToOwners(a, Resource(a.org, Some(o.members[t]), r, |Owners(o.members)|));
      }
    case EvRemove(a, t) => GuardedDemotion(o, t);
      if t in o.members {
        OwnersAnswerToOwners(a, Resource(a.org, Some(o.members[t]), None, |Owners(o.members)|));
      }
    case EvLeave(a) => GuardedDemotion(o, a.user);
    case EvTransfer(a, t, _, _) =>
      assert t != a.user ==> t in Owners(o.members[t := Owner]) - {a.user};
    case _ =>
    hide Owners;
  }

  /** Taking a row out of the owner set is harmless unless it is the only owner's. */
  lemma GuardedDemotion(o: Org, u: int)
    requires |Owners(o.members)| >= 1
    ensures Owners(o.members) - {u} == {} ==> u in o.members && o.members[u] == Owner && |Owners(o.members)| == 1
  {
    if Owners(o.members) - {u} == {} {
      assert Owners(o.members) <= {u};
      assert Owners(o.members) == {u};
    }
  }

  // ---------- seats ----------

  lemma PendingAfter(invites: map<int, Invitation>, i: int, inv: Invitation)
    ensures PendingInvites(invites[i := inv]) ==
      if inv.state == Pending then PendingInvites(invites) + {i} else PendingInvites(invites) - {i}
  {}

  ghost predicate InvitesFresh(o: Org) {
    forall i :: i in o.invites ==> i < o.nextInvite
  }

  /** Seats move by `change` if the handler succeeds and not at all otherwise. */
  ghost predicate SeatsMove(o: Org, r: (Org, Response), change: int) {
    && InvitesFresh(r.0) && r.0.cap == o.cap
    && SeatsUsed(r.0) == SeatsUsed(o) + (if r.1 == Done then change else 0)
  }

  /** An invitation takes a seat, and is granted only below the cap. */
  lemma {:induction false} SeatsInvite(o: Org, a: Actor, email: string, role: Option<Role>, now: Time)
    requires InvitesFresh(o)
    ensures var r := Invite(o, a, email, role, now); SeatsMove(o, r, 1) && (r.1 == Done ==> SeatsUsed(o) < o.cap)
  {
    hide Can, Lower, Trim;
    assert o.nextInvite !in PendingInvites(o.invites);
    if role.Some? {
      PendingAfter(o.invites, o.nextInvite, Invitation(Trim(email), role.value, Pending, now + INVITE_TTL));
    }
    hide PendingInvites;
  }

  lemma {:induction false} SeatsRevoke(o: Org, a: Actor, i: int)
    requires InvitesFresh(o)
    ensures SeatsMove(o, RevokeInvite(o, a, i), -1)
  {
    hide Can;
    if i in o.invites && o.invites[i].state == Pending {
      assert i in PendingInvites(o.invites);
      PendingAfter(o.invites, i, o.invites[i].(state := Revoked));
    }
    hide PendingInvites;
  }

  lemma {:induction false} SeatsResend(o: Org, a: Actor, i: int, now: Time)
    requires InvitesFresh(o)
    ensures SeatsMove(o, Resend(o, a, i, now), 0)
  {
    hide Can;
    if i in o.invites && o.invites[i].state == Pending {
      assert i in PendingInvites(o.invites);
      PendingAfter(o.invites, i, o.invites[i].(expires := now + INVITE_TTL));
      assert PendingInvites(o.invites) + {i} == PendingInvites(o.invites);
    }
    hide PendingInvites;
  }

  /** Accepting turns the reserved seat into a taken one, or gives it back if the user already
      has one. */
  lemma {:induction false} SeatsAccept(o: Org, u: User, i: int, now: Time)
    requires InvitesFresh(o)
    ensures SeatsMove(o, Accept(o, u, i, now), if u.id in o.members then -1 else 0)
  {
    hide Lower;
    if i in o.invites && o.invites[i].state == Pending {
      assert i in PendingInvites(o.invites);
      PendingAfter(o.invites, i, o.invites[i].(state := Revoked));
      PendingAfter(o.invites, i, o.invites[i].(state := Accepted));
      assert (o.members[u.id := o.invites[i].role]).Keys == o.members.Keys + {u.id};
    }
    hide PendingInvites;
  }

  lemma {:induction false} SeatsChangeRole(o: Org, a: Actor, t: int, r: Option<Role>)
    requires InvitesFresh(o)
    ensures SeatsMove(o, ChangeRole(o, a, t, r), 0)
  {
    hide Can, Owners, PendingInvites;
    if r.Some? && t in o.members {
      assert (o.members[t := r.value]).Keys == o.members.Keys;
    }
  }

  lemma {:induction false} SeatsRemove(o: Org, a: Actor, t: int)
    requires InvitesFresh(o)
    ensures SeatsMove(o, Remove(o, a, t), -1)
  {
    hide Can, Owners, PendingInvites;
    if t in o.members {
      KeysWithout(o.members, t);
    }
  }

  lemma {:induction false} SeatsLeave(o: Org, a: Actor)
    requires InvitesFresh(o)
    ensures SeatsMove(o, Leave(o, a), -1)
  {
    hide Owners, PendingInvites, EnsureNotLastOwner;
    if a.user in o.members {
      KeysWithout(o.members, a.user);
    }
  }

  lemma KeysWithout(members: map<int, Role>, t: int)
    requires t in members
    ensures |(members - {t}).Keys| == |members.Keys| - 1
  {
    assert (members - {t}).Keys == members.Keys - {t};
  }

  lemma {:induction false} SeatsTransfer(o: Org, a: Actor, t: int, stepDown: bool, secondWrite: bool)
    requires InvitesFresh(o)
    ensures SeatsMove(o, Transfer(o, a, t, stepDown, secondWrite), 0)
  {
    hide Can, PendingInvites;
    if t in o.members {
      assert (o.members[t := Owner]).Keys == o.members.Keys;
      if a.user in o.members {
        assert (o.members[t := Owner][a.user := Admin]).Keys == o.members.Keys;
      }
    }
  }

  lemma {:induction false} SeatsStep(o: Org, e: Event)
    requires InvitesFresh(o) && SeatsUsed(o) <= o.cap
    ensures var after := Apply(o, e).0; SeatsUsed(after) <= after.cap == o.cap && InvitesFresh(after)
  {
    hide SeatsUsed, InvitesFresh, ChangeRole, Remove, Leave, Transfer, Invite, RevokeInvite, Resend, Accept;
    match e
    case EvChangeRole(a, t, r) => SeatsChangeRole(o, a, t, r);
    case EvRemove(a, t) => SeatsRemove(o, a, t);
    case EvLeave(a) => SeatsLeave(o, a);
    case EvTransfer(a, t, down, ok) => SeatsTransfer(o, a, t, down, ok);
    case EvInvite(a, email, role, now) => SeatsInvite(o, a, email, role, now);
    case EvRevoke(a, i) => SeatsRevoke(o, a, i);
    case EvResend(a, i, now) => SeatsResend(o, a, i, now);
    case EvAccept(u, i, now) => SeatsAccept(o, u, i, now);
  }

  /** With a fixed cap, members and pending invitations together never rise above it. */
  lemma {:induction false} SeatsStayWithinCap(o: Org, run: seq<Event>)
    requires InvitesFresh(o) && SeatsUsed(o) <= o.cap && Exec(o, run).Some?
    ensures var after := Exec(o, run).value; SeatsUsed(after) <= after.cap == o.cap && InvitesFresh(after)
  {
    if |run| > 0 {
      var p := run[..|run| - 1];
      SeatsStayWithinCap(o, p);
      SeatsStep(Exec(o, p).value, run[|run| - 1]);
      hide Apply, SeatsUsed, Authentic, InvitesFresh;
    }
  }

  // ---------- one pending invitation per address ----------

  /** No address, in whatever case, has two pending invitations. */
  ghost predicate OnePending(o: Org) {
    forall i, j :: i in PendingInvites(o.invites) && j in PendingInvites(o.invites) && i != j ==>
      Lower(o.invites[i].email) != Lower(o.invites[j].email)
  }

  lemma {:induction false} OnePendingInvite(o: Org, a: Actor, email: string, role: Option<Role>, now: Time)
    requires OnePending(o)
    ensures OnePending(Invite(o, a, email, role, now).0)
  {
    hide Can, Lower, Trim;
  }

  /** Closing or prolonging an invitation leaves its address alone. */
  lemma {:induction false} OnePendingUpdate(o: Org, o': Org, i: int)
    requires OnePending(o) && i in o.invites && o.invites[i].state == Pending
    requires i in o'.invites && o'.invites == o.invites[i := o'.invites[i]] && o'.invites[i].email == o.invites[i].email
    ensures OnePending(o')
  {
    assert i in PendingInvites(o.invites);
    forall k | k in PendingInvites(o'.invites)
      ensures k in PendingInvites(o.invites) && o'.invites[k].email == o.invites[k].email {}
    hide Lower, PendingInvites;
  }

  lemma {:induction false} OnePendingStep(o: Org, e: Event)
    requires OnePending(o)
    ensures OnePending(Apply(o, e).0)
  {
    hide Apply, OnePending, PendingInvites;
    if e.EvInvite? {
      OnePendingInvite(o, e.actor, e.email, e.role, e.now);
      ApplyInvite(o, e);
    } else {
      InvitesMove(o, e);
      OnePendingSame(o, Apply(o, e).0);
      if Apply(o, e).0.invites != o.invites {
        OnePendingUpdate(o, Apply(o, e).0, e.invite);
      }
    }
  }

  lemma ApplyInvite(o: Org, e: Event)
    requires e.EvInvite?
    ensures Apply(o, e) == Invite(o, e.actor, e.email, e.role, e.now)
  {
    hide Invite;
  }

  /** Apart from a new invitation, a handler changes at most one pending invitation, and not its
      address. */
  lemma {:induction false} InvitesMove(o: Org, e: Event)
    requires !e.EvInvite?
    ensures var o' := Apply(o, e).0;
      || o'.invites == o.invites
      || (&& (e.EvRevoke? || e.EvResend? || e.EvAccept?)
          && e.invite in o.invites && o.invites[e.invite].state == Pending && e.invite in o'.invites
          && o'.invites == o.invites[e.invite := o'.invites[e.invite]] && o'.invites[e.invite].email == o.invites[e.invite].email)
  {
    hide Lower, Can, Owners, PendingInvites, Trim;
  }

  lemma OnePendingSame(o: Org, o': Org)
    ensures o'.invites == o.invites ==> (OnePending(o') <==> OnePending(o))
  {}

  /** What every handler that runs by itself keeps, whoever acts and however stale the role on
      the request: an owner, no invitation to ownership, seats within the cap, and one pending
      invitation per address. */
  ghost predicate OrgOk(o: Org) {
    && o.backstop && Owners(o.members) != {} && NoOwnerInvites(o)
    && InvitesFresh(o) && SeatsUsed(o) <= o.cap && OnePending(o)
  }

  lemma {:induction false} OrgOkStep(o: Org, e: Event)
    requires OrgOk(o) && (e.EvAccept? ==> e.user.id != 0)
    ensures OrgOk(Apply(o, e).0)
  {
    hide Apply, Owners, NoOwnerInvites, InvitesFresh, SeatsUsed, OnePending;
    BackstopStep(o, e);
    NoOwnerInvitesStale(o, e);
    SeatsStep(o, e);
    OnePendingStep(o, e);
  }
}
