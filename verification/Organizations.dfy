/** Organizations: owners, members and invitations, changed by one service call at a time.
    A call that saves twice may stop between its two saves. */
module Organizations {
  import opened Wrappers

  type OrgId = string
  type UserId = string
  type Token = string

  const INVITATION_EXPIRY_MS: int := 7 * 24 * 60 * 60 * 1000

  datatype Role = Owner | Admin | Member | Viewer

  /** The roles that a request may name. */
  type Grantable = r: Role | !r.Owner? witness Member

  datatype Status = Waiting | Accepted | Expired | Revoked

  datatype Invitation = Invitation(org: OrgId, email: string, role: Grantable, status: Status, expiresAt: int)

  datatype Error =
    | OrgAlreadyExists
    | OrgNotFound
    | CannotModifyOwnRole
    | MemberNotFound
    | CannotRemoveOwner
    | TransferNotAllowed
    | AlreadyMember
    | DuplicateInvitation
    | InvitationNotFound
    | InvitationAlreadyAccepted
    | InvitationExpired
    | StorageFailure

  /** The tables. `removals` counts the members removed from each organization, `joins`
      the memberships each token gave, and `clock` is the latest time read; all three
      are history. */
  datatype State = State(owners: map<OrgId, UserId>, members: map<OrgId, map<UserId, Role>>,
                         invitations: map<Token, Invitation>, emails: map<UserId, string>,
                         removals: multiset<OrgId>, joins: multiset<Token>, clock: int)

  type Outcome = (State, Option<Error>)

  predicate Owns(state: State, user: UserId) {
    exists org :: org in state.owners && state.owners[org] == user
  }

  /** `org` is a fresh id; `completes` says whether the membership is saved after the organization. */
  function CreateOrganization(state: State, org: OrgId, user: UserId, completes: bool): Outcome {
    if Owns(state, user) then (state, Some(OrgAlreadyExists))
    else if org in state.owners || org in state.members then (state, Some(StorageFailure))
    else
      var saved := state.(owners := state.owners[org := user], members := state.members[org := map[]]);
      if completes then (saved.(members := saved.members[org := map[user := Owner]]), None)
      else (saved, Some(StorageFailure))
  }

  function RoleOf(state: State, org: OrgId, user: UserId): Option<Role> {
    if org in state.members && user in state.members[org] then Some(state.members[org][user]) else None
  }

  /** The checks shared by a role change and a removal. */
  function TargetError(state: State, org: OrgId, target: UserId, actor: UserId): Option<Error> {
    if target == actor then Some(CannotModifyOwnRole)
    else match RoleOf(state, org, target)
      case None => Some(MemberNotFound)
      case Some(role) => if role == Owner then Some(CannotRemoveOwner) else None
  }

  function SetRole(state: State, org: OrgId, target: UserId, actor: UserId, role: Grantable): Outcome {
    var error := TargetError(state, org, target, actor);
    if error.Some? then (state, error)
    else (state.(members := state.members[org := state.members[org][target := role]]), None)
  }

  function RemoveMember(state: State, org: OrgId, target: UserId, actor: UserId): Outcome {
    var error := TargetError(state, org, target, actor);
    if error.Some? then (state, error)
    else (state.(members := state.members[org := state.members[org] - {target}],
                 removals := state.removals + multiset{org}), None)
  }

  function TransferError(state: State, org: OrgId, to: UserId, from: UserId): (error: Option<Error>)
    ensures error.None? ==>
              org in state.owners && org in state.members && to in state.members[org] && from in state.members[org]
  {
    if to == from then Some(TransferNotAllowed)
    else if org !in state.owners then Some(OrgNotFound)
    else if state.owners[org] != from then Some(TransferNotAllowed)
    else if RoleOf(state, org, from) != Some(Owner) then Some(TransferNotAllowed)
    else if RoleOf(state, org, to).None? then Some(MemberNotFound)
    else None
  }

  /** Both memberships are saved together, then the organization. */
  function TransferOwnership(state: State, org: OrgId, to: UserId, from: UserId, completes: bool): Outcome {
    var error := TransferError(state, org, to, from);
    if error.Some? then (state, error)
    else
      var saved := state.(members := state.members[org := state.members[org][from := Admin][to := Owner]]);
      if completes then (saved.(owners := saved.owners[org := to]), None) else (saved, Some(StorageFailure))
  }

  predicate EmailIsMember(state: State, org: OrgId, email: string) {
    exists user :: org in state.members && user in state.members[org] && user in state.emails
        && state.emails[user] == email
  }

  predicate IsWaiting(invitation: Invitation, org: OrgId, email: string) {
    invitation.org == org && invitation.email == email && invitation.status == Waiting
  }

  predicate HasWaiting(state: State, org: OrgId, email: string) {
    exists token :: token in state.invitations && IsWaiting(state.invitations[token], org, email)
  }

  /** Tokens are unique in the table, and invitations refer to organizations. */
  function CreateInvitation(state: State, org: OrgId, email: string, role: Grantable, token: Token, now: int): Outcome {
    var timed := state.(clock := now);
    if EmailIsMember(state, org, email) then (timed, Some(AlreadyMember))
    else if HasWaiting(state, org, email) then (timed, Some(DuplicateInvitation))
    else if org !in state.owners || token in state.invitations then (timed, Some(StorageFailure))
    else
      var invitation := Invitation(org, email, role, Waiting, now + INVITATION_EXPIRY_MS);
      (timed.(invitations := state.invitations[token := invitation]), None)
  }

  function AcceptError(state: State, token: Token, user: UserId, now: int): (error: Option<Error>)
    ensures error.None? || error.value.InvitationExpired? ==> token in state.invitations
    ensures error.None? ==> state.invitations[token].org in state.members
  {
    if token !in state.invitations then Some(InvitationNotFound)
    else
      var invitation := state.invitations[token];
      if invitation.status == Accepted then Some(InvitationAlreadyAccepted)
      else if invitation.expiresAt < now then Some(InvitationExpired)
      else if RoleOf(state, invitation.org, user).Some? then Some(AlreadyMember)
      else if invitation.org !in state.members then Some(StorageFailure)
      else None
  }

  function WithStatus(state: State, token: Token, status: Status): map<Token, Invitation>
    requires token in state.invitations
  {
    state.invitations[token := state.invitations[token].(status := status)]
  }

  /** The account that accepts need not have the invited address. */
  function AcceptInvitation(state: State, token: Token, user: UserId, now: int, completes: bool): Outcome {
    var error := AcceptError(state, token, user, now);
    if error.Some? then
      (if error.value.InvitationExpired? then state.(clock := now, invitations := WithStatus(state, token, Expired))
       else state.(clock := now), error)
    else
      var org, role := state.invitations[token].org, state.invitations[token].role;
      var saved := state.(clock := now, members := state.members[org := state.members[org][user := role]],
                          joins := state.joins + multiset{token});
      if completes then (saved.(invitations := WithStatus(state, token, Accepted)), None)
      else (saved, Some(StorageFailure))
  }

  datatype Step =
    | Create(org: OrgId, user: UserId, completes: bool)
    | ChangeRole(org: OrgId, target: UserId, actor: UserId, role: Grantable)
    | Remove(org: OrgId, target: UserId, actor: UserId)
    | Transfer(org: OrgId, to: UserId, from: UserId, completes: bool)
    | Invite(org: OrgId, email: string, role: Grantable, token: Token, now: int)
    | Accept(token: Token, user: UserId, now: int, completes: bool)

  function Perform(state: State, step: Step): Outcome {
    match step
    case Create(org, user, completes) => CreateOrganization(state, org, user, completes)
    case ChangeRole(org, target, actor, role) => SetRole(state, org, target, actor, role)
    case Remove(org, target, actor) => RemoveMember(state, org, target, actor)
    case Transfer(org, to, from, completes) => TransferOwnership(state, org, to, from, completes)
    case Invite(org, email, role, token, now) => CreateInvitation(state, org, email, role, token, now)
    case Accept(token, user, now, completes) => AcceptInvitation(state, token, user, now, completes)
  }

  function Next(state: State, step: Step): State {
    Perform(state, step).0
  }

  /** The step stops between its two saves. */
  predicate StopsHalfway(state: State, step: Step) {
    match step
    case Create(org, user, completes) => !completes && CreateOrganization(state, org, user, true).1.None?
    case Transfer(org, to, from, completes) => !completes && TransferError(state, org, to, from).None?
    case Accept(token, user, now, completes) => !completes && AcceptError(state, token, user, now).None?
    case _ => false
  }
}
