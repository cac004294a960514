/** The organization service, saving its tables in place. */
module OrganizationService {
  import opened Wrappers
  import opened Organizations
  import opened OrganizationOwnership

  class Service {
    var owners: map<OrgId, UserId>
    var members: map<OrgId, map<UserId, Role>>
    var invitations: map<Token, Invitation>
    const emails: map<UserId, string>
    ghost var removals: multiset<OrgId>
    ghost var joins: multiset<Token>
    ghost var clock: int

    ghost function Tables(): State
      reads this
    {
      State(owners, members, invitations, emails, removals, joins, clock)
    }

    constructor (emails: map<UserId, string>)
      ensures Tables() == State(map[], map[], map[], emails, multiset{}, multiset{}, 0)
    {
      this.emails := emails;
      owners, members, invitations := map[], map[], map[];
      removals, joins, clock := multiset{}, multiset{}, 0;
    }

    /** `org` is the id drawn for it; `memberSaves` is whether the owner's row is stored. */
    method Create(user: UserId, org: OrgId, memberSaves: bool) returns (error: Option<Error>)
      modifies this
      ensures (Tables(), error) == CreateOrganization(old(Tables()), org, user, memberSaves)
      ensures error.None? && old(Owned(Tables())) ==> members[org] == map[user := Owner] && Owned(Tables())
    {
      if exists other :: other in owners && owners[other] == user {
        return Some(OrgAlreadyExists);
      }
      if org in owners || org in members {
        return Some(StorageFailure);
      }
      owners := owners[org := user];
      members := members[org := map[]];
      if !memberSaves {
        return Some(StorageFailure);
      }
      members := members[org := members[org][user := Owner]];
      error := None;
      assert Tables() == CreateOrganization(old(Tables()), org, user, true).0;
      if old(Owned(Tables())) {
        CreateKeepsOwnedIff(old(Tables()), org, user, true);
      }
    }

    method UpdateMemberRole(org: OrgId, target: UserId, actor: UserId, role: Grantable) returns (error: Option<Error>)
      modifies this`members
      ensures (Tables(), error) == SetRole(old(Tables()), org, target, actor, role)
    {
      if target == actor {
        return Some(CannotModifyOwnRole);
      }
      if org !in members || target !in members[org] {
        return Some(MemberNotFound);
      }
      if members[org][target] == Owner {
        return Some(CannotRemoveOwner);
      }
      members := members[org := members[org][target := role]];
      error := None;
    }

    method Remove(org: OrgId, target: UserId, actor: UserId) returns (error: Option<Error>)
      modifies this`members, this`removals
      ensures (Tables(), error) == RemoveMember(old(Tables()), org, target, actor)
    {
      if target == actor {
        return Some(CannotModifyOwnRole);
      }
      if org !in members || target !in members[org] {
        return Some(MemberNotFound);
      }
      if members[org][target] == Owner {
        return Some(CannotRemoveOwner);
      }
      members := members[org := members[org] - {target}];
      removals := removals + multiset{org};
      error := None;
    }

    /** `orgSaves` is whether the organization's row is stored after the memberships. */
    method Transfer(org: OrgId, to: UserId, from: UserId, orgSaves: bool) returns (error: Option<Error>)
      modifies this`members, this`owners
      ensures (Tables(), error) == TransferOwnership(old(Tables()), org, to, from, orgSaves)
    {
      if to == from {
        return Some(TransferNotAllowed);
      }
      if org !in owners {
        return Some(OrgNotFound);
      }
      if owners[org] != from {
        return Some(TransferNotAllowed);
      }
      if org !in members || from !in members[org] || members[org][from] != Owner {
        return Some(TransferNotAllowed);
      }
      if to !in members[org] {
        return Some(MemberNotFound);
      }
      members := members[org := members[org][from := Admin][to := Owner]];
      if !orgSaves {
        return Some(StorageFailure);
      }
      owners := owners[org := to];
      error := None;
    }

    /** `token` is the one drawn and `now` the time read. */
    method Invite(org: OrgId, email: string, role: Grantable, token: Token, now: int) returns (error: Option<Error>)
      modifies this`invitations, this`clock
      ensures (Tables(), error) == CreateInvitation(old(Tables()), org, email, role, token, now)
    {
      clock := now;
      if exists user :: org in members && user in members[org] && user in emails && emails[user] == email {
        return Some(AlreadyMember);
      }
      if exists other :: other in invitations && IsWaiting(invitations[other], org, email) {
        return Some(DuplicateInvitation);
      }
      if org !in owners || token in invitations {
        return Some(StorageFailure);
      }
      invitations := invitations[token := Invitation(org, email, role, Waiting, now + INVITATION_EXPIRY_MS)];
      error := None;
    }

    /** `statusSaves` is whether the invitation's row is stored after the membership. */
    method Accept(token: Token, user: UserId, now: int, statusSaves: bool) returns (error: Option<Error>)
      modifies this`members, this`invitations, this`joins, this`clock
      ensures (Tables(), error) == AcceptInvitation(old(Tables()), token, user, now, statusSaves)
    {
      clock := now;
      if token !in invitations {
        return Some(InvitationNotFound);
      }
      var invitation := invitations[token];
      if invitation.status == Accepted {
        return Some(InvitationAlreadyAccepted);
      }
      if invitation.expiresAt < now {
        invitations := invitations[token := invitation.(status := Expired)];
        return Some(InvitationExpired);
      }
      if invitation.org in members && user in members[invitation.org] {
        return Some(AlreadyMember);
      }
      if invitation.org !in members {
        return Some(StorageFailure);
      }
      members := members[invitation.org := members[invitation.org][user := invitation.role]];
      joins := joins + multiset{token};
      if !statusSaves {
        return Some(StorageFailure);
      }
      invitations := invitations[token := invitation.(status := Accepted)];
      error := None;
    }
  }
}
