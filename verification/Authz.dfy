/** The role gate (internal/authz/authz.go). */
module Authz {
  import opened Domain

  datatype Role = Viewer | Member | Admin | Owner

  datatype Action =
    | ViewMonitoring | ViewMembers | CreateOrganization
    | ManageMonitors | ManageChannels | AckIncident | ManageStatusPages
    | CloseIncident | ConfigureCustomDomain | InviteMember | ManageInvitation
    | ChangeMemberRole | RemoveMember | ViewAuditLog | EditOrgSettings
    | ManageApiKeys | ManageWebhooks | ViewBilling
    | ManageBilling | TransferOwnership | DeleteOrganization

  datatype ActorKind = Human | ApiKey

  /** `role` is None for a principal no role was resolved for. */
  datatype Actor = Actor(kind: ActorKind, user: int, org: int, role: Option<Role>)

  datatype Resource = Resource(org: int, targetRole: Option<Role>, newRole: Option<Role>, ownerCount: int)

  datatype Reason = OtherOrg | KeyCeiling | RoleNotPermitted | AdminTouchesOwner | LastOwner

  datatype Verdict = Allow | Deny(reason: Reason)

  const VIEWER_ACTIONS: set<Action> := {ViewMonitoring, ViewMembers, CreateOrganization}
  const MEMBER_ACTIONS: set<Action> :=
    VIEWER_ACTIONS + {ManageMonitors, ManageChannels, AckIncident, ManageStatusPages}
  const ADMIN_ACTIONS: set<Action> :=
    MEMBER_ACTIONS + {CloseIncident, ConfigureCustomDomain, InviteMember, ManageInvitation, ChangeMemberRole,
                      RemoveMember, ViewAuditLog, EditOrgSettings, ManageApiKeys, ManageWebhooks, ViewBilling}
  const OWNER_ONLY: set<Action> := {ManageBilling, TransferOwnership, DeleteOrganization}

  function RoleActions(r: Role): set<Action> {
    match r
    case Viewer => VIEWER_ACTIONS
    case Member => MEMBER_ACTIONS
    case Admin => ADMIN_ACTIONS
    case Owner => ADMIN_ACTIONS + OWNER_ONLY
  }

  function GuardChangeRole(actor: Actor, r: Resource): Verdict {
    if actor.role == Some(Admin) && (r.targetRole == Some(Owner) || r.newRole == Some(Owner)) then
      Deny(AdminTouchesOwner)
    else if r.targetRole == Some(Owner) && r.newRole != Some(Owner) && r.ownerCount <= 1 then Deny(LastOwner)
    else Allow
  }

  function GuardRemoveMember(actor: Actor, r: Resource): Verdict {
    if actor.role == Some(Admin) && r.targetRole == Some(Owner) then Deny(AdminTouchesOwner)
    else if r.targetRole == Some(Owner) && r.ownerCount <= 1 then Deny(LastOwner)
    else Allow
  }

  function EnsureNotLastOwner(targetRole: Role, ownerCount: int): Verdict {
    if targetRole == Owner && ownerCount <= 1 then Deny(LastOwner) else Allow
  }

  function Can(actor: Actor, action: Action, r: Resource): Verdict {
    if action != CreateOrganization && r.org != 0 && r.org != actor.org then Deny(OtherOrg)
    else if actor.kind == ApiKey && action in OWNER_ONLY then Deny(KeyCeiling)
    else if actor.role.None? || action !in RoleActions(actor.role.value) then Deny(RoleNotPermitted)
    else if action == ChangeMemberRole then GuardChangeRole(actor, r)
    else if action == RemoveMember then GuardRemoveMember(actor, r)
    else Allow
  }

  function Rank(r: Role): int {
    match r
    case Viewer => 0
    case Member => 1
    case Admin => 2
    case Owner => 3
  }

  /** A higher role may do whatever a lower one may, on every resource. */
  lemma HigherRoleMayMore(kind: ActorKind, user: int, org: int, low: Role, high: Role, action: Action, r: Resource)
    requires Rank(low) <= Rank(high) && Can(Actor(kind, user, org, Some(low)), action, r).Allow?
    ensures Can(Actor(kind, user, org, Some(high)), action, r).Allow?
  {
    assert VIEWER_ACTIONS <= MEMBER_ACTIONS <= ADMIN_ACTIONS;
  }

  /** Whoever may change or remove an owner is an owner of the same org, and another owner
      remains; whoever may make an owner is one. */
  lemma OwnersAnswerToOwners(actor: Actor, r: Resource)
    requires actor.kind == ApiKey ==> actor.role != Some(Owner)
    ensures Can(actor, ChangeMemberRole, r).Allow? && (r.targetRole == Some(Owner) || r.newRole == Some(Owner)) ==>
      actor.kind == Human && actor.role == Some(Owner) && (r.newRole == Some(Owner) || r.ownerCount > 1)
    ensures Can(actor, RemoveMember, r).Allow? && r.targetRole == Some(Owner) ==>
      actor.kind == Human && actor.role == Some(Owner) && r.ownerCount > 1
    ensures Can(actor, TransferOwnership, r).Allow? ==> actor.kind == Human && actor.role == Some(Owner)
  {
    assert ChangeMemberRole !in MEMBER_ACTIONS && RemoveMember !in MEMBER_ACTIONS && TransferOwnership !in ADMIN_ACTIONS;
  }

  /** The lowest role that may take an action, as the product's matrix states it. */
  function LowestRole(action: Action): Role {
    match action
    case ViewMonitoring | ViewMembers | CreateOrganization => Viewer
    case ManageMonitors | ManageChannels | AckIncident | ManageStatusPages => Member
    case ManageBilling | TransferOwnership | DeleteOrganization => Owner
    case _ => Admin
  }

  /** Everything but the last-owner rule lets the actor through. */
  predicate MayAct(actor: Actor, action: Action, r: Resource) {
    && (r.org == actor.org || r.org == 0 || action == CreateOrganization)
    && actor.role.Some? && Rank(actor.role.value) >= Rank(LowestRole(action))
    && (actor.kind == ApiKey ==> LowestRole(action) != Owner)
    && (actor.role == Some(Admin) && action == ChangeMemberRole ==> r.targetRole != Some(Owner) && r.newRole != Some(Owner))
    && (actor.role == Some(Admin) && action == RemoveMember ==> r.targetRole != Some(Owner))
  }

  /** The action would take the last owner away. */
  predicate TakesLastOwner(action: Action, r: Resource) {
    && r.targetRole == Some(Owner) && r.ownerCount <= 1
    && (action == RemoveMember || (action == ChangeMemberRole && r.newRole != Some(Owner)))
  }

  /** The gate, exactly: the same org, a high enough role, no owner's action for a key, no owner
      touched by an admin, and not the last owner; and the last owner is the reason given exactly
      when it is the only one. */
  lemma AllowedIff(actor: Actor, action: Action, r: Resource)
    ensures Can(actor, action, r).Allow? <==> MayAct(actor, action, r) && !TakesLastOwner(action, r)
    ensures Can(actor, action, r) == Deny(LastOwner) <==> MayAct(actor, action, r) && TakesLastOwner(action, r)
  {
    if actor.role.Some? {
      TableIs(actor.role.value, action);
    }
    OwnerOnlyIs(action);
    hide RoleActions;
  }

  lemma TableIs(role: Role, action: Action)
    ensures action in RoleActions(role) <==> Rank(role) >= Rank(LowestRole(action))
  {
    assert OWNER_ONLY !! ADMIN_ACTIONS;
  }

  lemma OwnerOnlyIs(action: Action)
    ensures action in OWNER_ONLY <==> LowestRole(action) == Owner
  {}
}
