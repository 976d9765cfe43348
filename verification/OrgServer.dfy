/** The membership handlers (internal/api/members.go) and the role cache they must keep in
    step (internal/authn/middleware.go), as methods that write rows and drop cache entries one
    after the other. Handlers run one at a time, on whatever role the request carries; cache
    reads and deletions can fail. */
module OrgServer {
  import opened Domain
  import opened Authz
  import opened Text
  import CachedReads
  import opened Membership

  /** A cached role; None is a cached "not a member". */
  datatype CachedRole = CachedRole(role: Option<Role>, expires: Time)

  function RoleOf(members: map<int, Role>, user: int): Option<Role> {
    if user in members then Some(members[user]) else None
  }

  /** The users whose cached role is not the one the membership rows give. */
  ghost function Disagreeing(roles: map<int, CachedRole>, members: map<int, Role>, now: Time): set<int> {
    set u | u in roles && now < roles[u].expires && roles[u].role != RoleOf(members, u)
  }

  predicate PendingFor(invites: map<int, Invitation>, email: string) {
    exists i :: i in PendingInvites(invites) && Lower(invites[i].email) == Lower(email)
  }

  /** Admins and owners manage invitations, people and keys alike. */
  predicate MayManage(a: Actor) {
    a.org != 0 && (a.role == Some(Admin) || a.role == Some(Owner))
  }

  lemma ManagersMay(a: Actor)
    requires IsPrincipal(a)
    ensures Can(a, InviteMember, Resource(a.org, None, None, 0)).Allow? <==> MayManage(a)
    ensures Can(a, ManageInvitation, Resource(a.org, None, None, 0)).Allow? <==> MayManage(a)
  {
    hide Can;
    AllowedIff(a, InviteMember, Resource(a.org, None, None, 0));
    AllowedIff(a, ManageInvitation, Resource(a.org, None, None, 0));
  }

  /** Admins leave owners alone, in either direction. */
  predicate MayTouch(a: Actor, role: Role) {
    MayManage(a) && (role == Owner ==> a.role == Some(Owner))
  }

  lemma ChangersMay(a: Actor, target: Role, newRole: Role, owners: int)
    requires IsPrincipal(a)
    ensures var v := Can(a, ChangeMemberRole, Resource(a.org, Some(target), Some(newRole), owners));
      && (v.Allow? <==> MayTouch(a, target) && MayTouch(a, newRole) && (target == Owner && newRole != Owner ==> owners > 1))
      && (v == Deny(LastOwner) ==> MayTouch(a, target) && target == Owner && owners <= 1)
  {
    hide Can;
    AllowedIff(a, ChangeMemberRole, Resource(a.org, Some(target), Some(newRole), owners));
  }

  lemma RemoversMay(a: Actor, target: Role, owners: int)
    requires IsPrincipal(a)
    ensures var v := Can(a, RemoveMember, Resource(a.org, Some(target), None, owners));
      && (v.Allow? <==> MayTouch(a, target) && (target == Owner ==> owners > 1))
      && (v == Deny(LastOwner) ==> MayTouch(a, target) && target == Owner && owners <= 1)
  {
    hide Can;
    AllowedIff(a, RemoveMember, Resource(a.org, Some(target), None, owners));
  }

  lemma OwnersTransfer(a: Actor)
    requires IsPrincipal(a)
    ensures Can(a, TransferOwnership, Resource(a.org, None, None, 0)).Allow? <==> a.kind == Human && a.role == Some(Owner)
  {
    hide Can;
    AllowedIff(a, TransferOwnership, Resource(a.org, None, None, 0));
  }

  /** The trigger does not stand in the way of touching one of several owners, or a non-owner. */
  lemma TriggerLets(members: map<int, Role>, target: int)
    requires target in members && Owners(members) != {}
    ensures members[target] != Owner || |Owners(members)| > 1 ==> Owners(members) - {target} != {}
  {
    if Owners(members) - {target} == {} {
      assert Owners(members) == {target};
    }
  }

  /** The invitation lets whoever has its address join until its expiry. */
  ghost predicate Acceptable(o: Org, invite: int) {
    && invite in o.invites
    && forall u: User, t :: u.emailVerified && Lower(u.email) == Lower(o.invites[invite].email) && t <= o.invites[invite].expires ==>
      Accept(o, u, invite, t).1 == Done
  }

  /** The invitation lets nobody join any more. */
  ghost predicate Closed(o: Org, invite: int) {
    forall u: User, t :: Accept(o, u, invite, t).1 != Done
  }

  lemma PendingIsAcceptable(o: Org, invite: int)
    requires invite in o.invites
    ensures o.invites[invite].state == Pending ==> Acceptable(o, invite)
    ensures o.invites[invite].state != Pending ==> Closed(o, invite)
  {
    hide Lower;
  }

  class Server {
    const id: int
    const cap: int
    var members: map<int, Role>
    var invites: map<int, Invitation>
    var nextInvite: int
    var roles: map<int, CachedRole>
    var now: Time

    ghost function Now(): Org reads this {
      Org(id, members, invites, nextInvite, cap, true)
    }

    /** The users a request would be misjudged for from the cache. */
    ghost function Stale(): set<int> reads this {
      Disagreeing(roles, members, now)
    }

    /** The org has an owner, its seats are within the cap, no address has two pending
        invitations, and no cached role outlives its time to live. */
    ghost predicate Valid() reads this {
      OrgOk(Now()) && forall u :: u in roles ==> roles[u].expires <= now + CachedReads.MEMBER_ROLE_TTL
    }

    constructor (id: int, cap: int, owner: int, start: Time)
      requires owner != 0 && cap >= 1
      ensures Valid() && Stale() == {} && Now() == Org(id, map[owner := Owner], map[], 1, cap, true)
    {
      this.id, this.cap := id, cap;
      members, invites, nextInvite, roles, now := map[owner := Owner], map[], 1, map[], start;
      new;
      assert owner in Owners(members) && members.Keys == {owner} && PendingInvites(invites) == {};
    }

    /** Time passes: nothing becomes stale, and after 5 minutes nothing is. */
    method Advance(d: nat)
      requires Valid()
      modifies this`now
      ensures Valid() && now == old(now) + d && Stale() <= old(Stale())
      ensures d >= CachedReads.MEMBER_ROLE_TTL ==> Stale() == {}
    {
      hide OrgOk;
      now := now + d;
    }

    /** The cached lookup answers what the membership rows say for everyone who is not stale,
        and makes nobody stale. It is answered from an unexpired entry if there is one, and
        otherwise fills one for 5 minutes, for members and others alike. */
    method ResolveRole(user: int, cacheUp: bool) returns (role: Option<Role>)
      requires Valid()
      modifies this`roles
      ensures Valid() && Stale() <= old(Stale())
      ensures !cacheUp || user !in old(Stale()) ==> role == RoleOf(members, user)
      ensures var hit := cacheUp && user in old(roles) && now < old(roles)[user].expires;
        && (hit ==> role == old(roles)[user].role)
        && roles == if cacheUp && !hit then old(roles)[user := CachedRole(role, now + 300_000_000_000)] else old(roles)
    {
      hide OrgOk;
      if cacheUp && user in roles && now < roles[user].expires {
        return roles[user].role;
      }
      role := RoleOf(members, user);
      if cacheUp {
        roles := roles[user := CachedRole(role, now + CachedReads.MEMBER_ROLE_TTL)];
      }
    }

    /** Dropping the entry a write concerned restores agreement on that user. */
    method InvalidateMemberRole(user: int, deleted: bool)
      modifies this`roles
      ensures roles == if deleted then old(roles) - {user} else old(roles)
      ensures Stale() == if deleted then old(Stale()) - {user} else old(Stale())
    {
      if deleted {
        roles := roles - {user};
      }
    }

    /** The update statement with its trigger; the cache is not touched. */
    method UpdateMemberRole(user: int, role: Role) returns (ok: bool)
      modifies this`members
      ensures ok == SetRole(old(Now()), user, role).Some?
      ensures Now() == if ok then SetRole(old(Now()), user, role).value else old(Now())
      ensures Stale() <= old(Stale()) + {user} && (!ok ==> Stale() == old(Stale()))
    {
      if user !in members {
        return true;
      }
      if role != Owner && Owners(members) - {user} == {} {
        return false;
      }
      members := members[user := role];
      ok := true;
    }

    method DeleteMembership(user: int) returns (ok: bool)
      modifies this`members
      ensures ok == DeleteMember(old(Now()), user).Some?
      ensures Now() == if ok then DeleteMember(old(Now()), user).value else old(Now())
      ensures Stale() <= old(Stale()) + {user} && (!ok ==> Stale() == old(Stale()))
    {
      if user !in members {
        return true;
      }
      if Owners(members) - {user} == {} {
        return false;
      }
      members := members - {user};
      ok := true;
    }

    method InsertMember(user: int, role: Role)
      requires user !in members
      modifies this`members
      ensures members == old(members)[user := role] && Stale() <= old(Stale()) + {user}
    {
      members := members[user := role];
    }

    /** Succeeds exactly if an admin or owner of the org gives a member a valid role, no admin
        touches or makes an owner and the last owner is not demoted. Success means the member has
        the new role and nobody else's changes; without it nothing changes. */
    method ChangeMemberRole(a: Actor, target: int, newRole: Option<Role>, deleted: bool) returns (r: Response)
      requires Valid()
      modifies this`members, this`roles
      ensures Valid() && (Now(), r) == Apply(old(Now()), EvChangeRole(a, target, newRole))
      ensures r == Done <==>
        && MayManage(a) && newRole.Some? && target in old(members)
        && MayTouch(a, old(members)[target]) && MayTouch(a, newRole.value)
        && (old(members)[target] == Owner && newRole != Some(Owner) ==> |Owners(old(members))| > 1)
      ensures r == Done ==> newRole.Some? && members == old(members)[target := newRole.value]
      ensures r != Done ==> members == old(members)
      ensures Stale() <= old(Stale()) + if deleted then {} else {target}
    {
      hide Can, Owners, OrgOk, Disagreeing;
      HasOwner(Now());
      OrgOkStep(Now(), EvChangeRole(a, target, newRole));
      if !IsPrincipal(a) {
        return Unauthorized;
      }
      if newRole.None? {
        return Unprocessable;
      }
      if target !in members {
        return NotFound;
      }
      ChangersMay(a, members[target], newRole.value, |Owners(members)|);
      var v := Can(a, Action.ChangeMemberRole, Resource(a.org, Some(members[target]), newRole, |Owners(members)|));
      if v.Deny? {
        return Refusal(v);
      }
      if newRole.value == members[target] {
        return Done;
      }
      TriggerLets(members, target);
      var ok := UpdateMemberRole(target, newRole.value);
      if !ok {
        return Conflict;
      }
      InvalidateMemberRole(target, deleted);
      r := Done;
    }

    /** Succeeds exactly if an admin or owner of the org removes a member, no admin an owner, and
        not the last owner. Success means the member is gone and nobody else is. */
    method RemoveFromOrg(a: Actor, target: int, deleted: bool) returns (r: Response)
      requires Valid()
      modifies this`members, this`roles
      ensures Valid() && (Now(), r) == Apply(old(Now()), EvRemove(a, target))
      ensures r == Done <==>
        && MayManage(a) && target in old(members) && MayTouch(a, old(members)[target])
        && (old(members)[target] == Owner ==> |Owners(old(members))| > 1)
      ensures members == if r == Done then old(members) - {target} else old(members)
      ensures Stale() <= old(Stale()) + if deleted then {} else {target}
    {
      hide Can, Owners, OrgOk, Disagreeing;
      HasOwner(Now());
      OrgOkStep(Now(), EvRemove(a, target));
      if !IsPrincipal(a) {
        return Unauthorized;
      }
      if target !in members {
        return NotFound;
      }
      RemoversMay(a, members[target], |Owners(members)|);
      var v := Can(a, RemoveMember, Resource(a.org, Some(members[target]), None, |Owners(members)|));
      if v.Deny? {
        return Refusal(v);
      }
      TriggerLets(members, target);
      var ok := DeleteMembership(target);
      if !ok {
        return Conflict;
      }
      InvalidateMemberRole(target, deleted);
      r := Done;
    }

    /** Succeeds exactly for a member other than the last owner, whether the request or only the
        rows know him as one. Success means the caller, and nobody else, is gone. */
    method LeaveOrg(a: Actor, deleted: bool) returns (r: Response)
      requires Valid()
      modifies this`members, this`roles
      ensures Valid() && (Now(), r) == Apply(old(Now()), EvLeave(a))
      ensures r == Done <==>
        && a.org != 0 && a.role.Some? && a.user in old(members)
        && (a.role == Some(Owner) || old(members)[a.user] == Owner ==> |Owners(old(members))| > 1)
      ensures members == if r == Done then old(members) - {a.user} else old(members)
      ensures Stale() <= old(Stale()) + if deleted then {} else {a.user}
    {
      hide Owners, OrgOk, Disagreeing;
      HasOwner(Now());
      OrgOkStep(Now(), EvLeave(a));
      if a.user in members {
        TriggerLets(members, a.user);
        if members[a.user] == Owner {
          OnlyOwner(members, a.user);
        }
      }
      if !IsPrincipal(a) {
        return Unauthorized;
      }
      if a.role == Some(Owner) && EnsureNotLastOwner(Owner, |Owners(members)|).Deny? {
        return Conflict;
      }
      var wasMember := a.user in members;
      var ok := DeleteMembership(a.user);
      if !ok {
        return Conflict;
      }
      if !wasMember {
        return Forbidden;
      }
      InvalidateMemberRole(a.user, deleted);
      r := Done;
    }

    /** Succeeds exactly for a person with the role of owner and another member as target, if the
        second write, where one is asked for, does not fail. Then the target is an owner, the
        caller, if he stepped down, an admin, and everyone else as before; also when the second
        write fails the target is an owner. */
    method TransferTo(a: Actor, target: int, stepDown: bool, secondWrite: bool, deleted: bool) returns (r: Response)
      requires Valid()
      modifies this`members, this`roles
      ensures Valid() && (Now(), r) == Apply(old(Now()), EvTransfer(a, target, stepDown, secondWrite))
      ensures r == Done <==>
        && a.org != 0 && a.kind == Human && a.role == Some(Owner)
        && target != a.user && target in old(members) && (stepDown ==> secondWrite)
      ensures r in {Done, Failed} ==> target in old(members) && target != a.user
      ensures r in {Done, Failed} ==>
        members == (if r == Done && stepDown && a.user in old(members) then old(members)[target := Owner][a.user := Admin]
                    else old(members)[target := Owner])
      ensures r !in {Done, Failed} ==> members == old(members)
      ensures Stale() <= old(Stale()) + if deleted then {} else {target, a.user}
    {
      hide Can, Owners, OrgOk, Disagreeing;
      OrgOkStep(Now(), EvTransfer(a, target, stepDown, secondWrite));
      if !IsPrincipal(a) {
        return Unauthorized;
      }
      OwnersTransfer(a);
      var v := Can(a, TransferOwnership, Resource(a.org, None, None, 0));
      if v.Deny? {
        return Forbidden;
      }
      if target == a.user {
        return Unprocessable;
      }
      if target !in members {
        return NotFound;
      }
      var promoted := UpdateMemberRole(target, Owner);
      assert target in Owners(members) - {a.user} by {
        NowOwner(members, target);
      }
      InvalidateMemberRole(target, deleted);
      if !stepDown {
        return Done;
      }
      if !secondWrite {
        return Failed;
      }
      var steppedDown := UpdateMemberRole(a.user, Admin);
      if !steppedDown {
        return Failed;
      }
      InvalidateMemberRole(a.user, deleted);
      r := Done;
    }

    /** An invitation is made exactly if an admin or owner asks for a role below owner, a seat
        is free and the address has none pending. It takes one seat and whoever has the address
        can accept it for 7 days. A refusal for seats means the org is exactly full. */
    method CreateInvitation(a: Actor, email: string, role: Option<Role>) returns (r: Response)
      requires Valid()
      modifies this`invites, this`nextInvite
      ensures Valid()
      ensures r == Done <==>
        && MayManage(a) && Trim(email) != "" && role.Some? && role != Some(Owner)
        && SeatsUsed(old(Now())) < cap && !PendingFor(old(invites), Trim(email))
      ensures r == Done ==>
        && old(nextInvite) !in old(invites) && invites.Keys == old(invites).Keys + {old(nextInvite)}
        && invites == old(invites)[old(nextInvite) := Invitation(Trim(email), role.value, Pending, now + 7 * DAY)]
        && SeatsUsed(Now()) == SeatsUsed(old(Now())) + 1 && Acceptable(Now(), old(nextInvite))
      ensures r != Done ==> Now() == old(Now())
      ensures r == SeatLimit ==> SeatsUsed(Now()) == cap
      ensures r == Conflict ==> PendingFor(invites, Trim(email))
      ensures r in {Unauthorized, Forbidden} <==> !MayManage(a)
    {
      hide Can, Lower, Trim, PendingInvites;
      ghost var e := EvInvite(a, email, role, now);
      OrgOkStep(Now(), e);
      SeatsInvite(Now(), a, email, role, now);
      if !IsPrincipal(a) {
        return Unauthorized;
      }
      ManagersMay(a);
      var v := Can(a, InviteMember, Resource(a.org, None, None, 0));
      if v.Deny? {
        return Forbidden;
      }
      var address := Trim(email);
      if address == "" || role.None? || role == Some(Owner) {
        return Unprocessable;
      }
      if |members.Keys| + |PendingInvites(invites)| >= cap {
        return SeatLimit;
      }
      if PendingFor(invites, address) {
        return Conflict;
      }
      invites := invites[nextInvite := Invitation(address, role.value, Pending, now + INVITE_TTL)];
      nextInvite := nextInvite + 1;
      PendingIsAcceptable(Now(), nextInvite - 1);
      r := Done;
    }

    /** Revoking gives the seat back, nobody can accept the invitation any more, and its address
        can be invited again; exactly an admin or owner can, exactly while it is pending. */
    method RevokeInvitation(a: Actor, invite: int) returns (r: Response)
      requires Valid()
      modifies this`invites
      ensures Valid()
      ensures r == Done <==> MayManage(a) && invite in PendingInvites(old(invites))
      ensures r == Done ==>
        && invites == old(invites)[invite := old(invites)[invite].(state := Revoked)]
        && SeatsUsed(Now()) == SeatsUsed(old(Now())) - 1 && Closed(Now(), invite)
        && !PendingFor(invites, old(invites)[invite].email)
      ensures r != Done ==> Now() == old(Now())
      ensures r in {Unauthorized, Forbidden} <==> !MayManage(a)
    {
      hide Can, Lower;
      ghost var before := Now();
      OrgOkStep(before, EvRevoke(a, invite));
      SeatsRevoke(before, a, invite);
      if !IsPrincipal(a) {
        return Unauthorized;
      }
      ManagersMay(a);
      var v := Can(a, ManageInvitation, Resource(a.org, None, None, 0));
      if v.Deny? {
        return Forbidden;
      }
      if invite !in invites {
        return NotFound;
      }
      if invites[invite].state != Pending {
        return Conflict;
      }
      invites := invites[invite := invites[invite].(state := Revoked)];
      PendingIsAcceptable(Now(), invite);
      AddressFree(before, invites, invite);
      r := Done;
    }

    /** Resending keeps the seat and starts the 7 days again, also for an invitation that has
        expired; exactly an admin or owner can, exactly while it is pending. */
    method ResendInvitation(a: Actor, invite: int) returns (r: Response)
      requires Valid()
      modifies this`invites
      ensures Valid()
      ensures r == Done <==> MayManage(a) && invite in PendingInvites(old(invites))
      ensures r == Done ==>
        && invites == old(invites)[invite := old(invites)[invite].(expires := now + 7 * DAY)]
        && SeatsUsed(Now()) == SeatsUsed(old(Now())) && Acceptable(Now(), invite)
      ensures r != Done ==> Now() == old(Now())
      ensures r in {Unauthorized, Forbidden} <==> !MayManage(a)
    {
      hide Can, Lower;
      OrgOkStep(Now(), EvResend(a, invite, now));
      SeatsResend(Now(), a, invite, now);
      if !IsPrincipal(a) {
        return Unauthorized;
      }
      ManagersMay(a);
      var v := Can(a, ManageInvitation, Resource(a.org, None, None, 0));
      if v.Deny? {
        return Forbidden;
      }
      if invite !in invites {
        return NotFound;
      }
      if invites[invite].state != Pending {
        return Conflict;
      }
      invites := invites[invite := invites[invite].(expires := now + INVITE_TTL)];
      PendingIsAcceptable(Now(), invite);
      r := Done;
    }

    /** Succeeds exactly for a pending invitation that has not expired and a user with the invited
        address, verified. Success means the user is a member, with the invited role unless he was
        one before, and that the invitation cannot be used again; the seats used do not grow. */
    method AcceptInvitation(u: User, invite: int, deleted: bool) returns (r: Response)
      requires Valid() && u.id != 0
      modifies this`members, this`invites, this`roles
      ensures Valid() && (Now(), r) == Apply(old(Now()), EvAccept(u, invite, now))
      ensures r == Done <==>
        && invite in old(invites) && old(invites)[invite].state == Pending && now <= old(invites)[invite].expires
        && u.emailVerified && Lower(u.email) == Lower(old(invites)[invite].email)
      ensures r == Done ==>
        && members == (if u.id in old(members) then old(members) else old(members)[u.id := old(invites)[invite].role])
        && members.Keys == old(members).Keys + {u.id} && Closed(Now(), invite)
        && invites == old(invites)[invite :=
             old(invites)[invite].(state := if u.id in old(members) then InviteState.Revoked else InviteState.Accepted)]
        && SeatsUsed(Now()) == SeatsUsed(old(Now())) - if u.id in old(members) then 1 else 0
      ensures r != Done ==> Now() == old(Now())
      ensures Stale() <= old(Stale()) + if deleted then {} else {u.id}
    {
      hide Lower, OrgOk, SeatsUsed, Disagreeing, PendingInvites, Closed;
      SeatsFollow(Now(), u, invite, now);
      if invite !in invites {
        return NotFound;
      }
      var inv := invites[invite];
      if inv.state != Pending || now > inv.expires {
        return Conflict;
      }
      if !u.emailVerified || Lower(u.email) != Lower(inv.email) {
        return Forbidden;
      }
      if u.id in members {
        invites := invites[invite := inv.(state := Revoked)];
        PendingIsAcceptable(Now(), invite);
        return Done;
      }
      invites := invites[invite := inv.(state := Accepted)];
      InsertMember(u.id, inv.role);
      PendingIsAcceptable(Now(), invite);
      InvalidateMemberRole(u.id, deleted);
      r := Done;
    }
  }

  lemma SeatsFollow(o: Org, u: User, invite: int, now: Time)
    requires OrgOk(o) && u.id != 0
    ensures var (o', r) := Apply(o, EvAccept(u, invite, now));
      OrgOk(o') && SeatsUsed(o') == SeatsUsed(o) - if r == Done && u.id in o.members then 1 else 0
  {
    OrgOkStep(o, EvAccept(u, invite, now));
    SeatsAccept(o, u, invite, now);
    hide Accept, SeatsUsed;
  }

  lemma HasOwner(o: Org)
    requires OrgOk(o)
    ensures Owners(o.members) != {}
  {}

  lemma NowOwner(members: map<int, Role>, user: int)
    requires user in members && members[user] == Owner
    ensures user in Owners(members)
  {}

  /** If someone is the only owner there is one owner. */
  lemma OnlyOwner(members: map<int, Role>, user: int)
    requires user in members && members[user] == Owner
    ensures |Owners(members)| <= 1 ==> Owners(members) - {user} == {}
  {
    var rest := Owners(members) - {user};
    assert |rest| == |Owners(members)| - 1 by {
      assert user in Owners(members);
    }
  }

  /** With one pending invitation per address, closing it frees the address. */
  lemma AddressFree(o: Org, invites: map<int, Invitation>, invite: int)
    requires OnePending(o) && invite in o.invites && o.invites[invite].state == Pending
    requires invites == o.invites[invite := o.invites[invite].(state := Revoked)]
    ensures !PendingFor(invites, o.invites[invite].email)
  {
    hide Lower;
    assert invite in PendingInvites(o.invites);
    forall k | k in PendingInvites(invites) ensures k in PendingInvites(o.invites) && k != invite {}
  }
}
