/** Who owns an organization: exactly one owner each, and when one user may own two. */
module OrganizationOwnership {
  import opened Wrappers
  import opened Organizations

  /** Each organization has exactly one member with the owner role, its `ownerUserId`. */
  ghost predicate OneOwner(state: State) {
    && state.owners.Keys == state.members.Keys
    && forall org, user :: org in state.owners && user in state.members[org] ==>
         (state.members[org][user] == Owner <==> user == state.owners[org])
  }

  ghost predicate OwnersAreMembers(state: State) {
    && state.owners.Keys == state.members.Keys
    && forall org <- state.owners :: state.owners[org] in state.members[org]
  }

  ghost predicate Owned(state: State) {
    OneOwner(state) && OwnersAreMembers(state)
  }

  lemma CreateKeepsOwned(state: State, org: OrgId, user: UserId)
    requires Owned(state)
    ensures Owned(CreateOrganization(state, org, user, true).0)
  {
    hide Owns;
  }

  lemma HalfCreateBreaksOwned(state: State, org: OrgId, user: UserId)
    requires CreateOrganization(state, org, user, true).1.None?
    ensures !Owned(CreateOrganization(state, org, user, false).0)
  {
    var next := CreateOrganization(state, org, user, false).0;
    hide Owns;
    assert org in next.owners && next.members[org] == map[];
  }

  lemma CreateKeepsOwnedIff(state: State, org: OrgId, user: UserId, completes: bool)
    requires Owned(state)
    ensures Owned(CreateOrganization(state, org, user, completes).0) <==>
            !StopsHalfway(state, Create(org, user, completes))
  {
    hide Owned;
    if completes {
      CreateKeepsOwned(state, org, user);
    } else if CreateOrganization(state, org, user, true).1.None? {
      HalfCreateBreaksOwned(state, org, user);
    }
  }

  lemma TransferKeepsOwnedIff(state: State, org: OrgId, to: UserId, from: UserId, completes: bool)
    requires Owned(state)
    ensures Owned(TransferOwnership(state, org, to, from, completes).0) <==>
            !StopsHalfway(state, Transfer(org, to, from, completes))
  {
    var next := TransferOwnership(state, org, to, from, completes).0;
    if TransferError(state, org, to, from).None? && !completes {
      assert org in next.owners && to in next.members[org] && next.members[org][to] == Owner
          && next.owners[org] == from;
    }
  }

  lemma AcceptKeepsOwned(state: State, token: Token, user: UserId, now: int, completes: bool)
    requires Owned(state)
    ensures Owned(AcceptInvitation(state, token, user, now, completes).0)
  {
    var next := AcceptInvitation(state, token, user, now, completes).0;
    if next.members != state.members {
      var org := state.invitations[token].org;
      assert user != state.owners[org];
    }
  }

  lemma SetRoleKeepsOwned(state: State, org: OrgId, target: UserId, actor: UserId, role: Grantable)
    requires Owned(state)
    ensures Owned(SetRole(state, org, target, actor, role).0)
  {
  }

  lemma RemoveKeepsOwned(state: State, org: OrgId, target: UserId, actor: UserId)
    requires Owned(state)
    ensures Owned(RemoveMember(state, org, target, actor).0)
  {
  }

  lemma InviteKeepsOwned(state: State, org: OrgId, email: string, role: Grantable, token: Token, now: int)
    requires Owned(state)
    ensures Owned(CreateInvitation(state, org, email, role, token, now).0)
  {
  }

  /** Every call keeps one owner per organization, unless it stops between its saves
      while creating or transferring. */
  lemma StepKeepsOwnedIff(state: State, step: Step)
    requires Owned(state)
    ensures Owned(Next(state, step)) <==> (step.Accept? || !StopsHalfway(state, step))
  {
    hide Owned, CreateOrganization, SetRole, RemoveMember, TransferOwnership, AcceptInvitation;
    match step
    case Create(org, user, completes) => CreateKeepsOwnedIff(state, org, user, completes);
    case Transfer(org, to, from, completes) => TransferKeepsOwnedIff(state, org, to, from, completes);
    case Accept(token, user, now, completes) => AcceptKeepsOwned(state, token, user, now, completes);
    case ChangeRole(org, target, actor, role) => SetRoleKeepsOwned(state, org, target, actor, role);
    case Remove(org, target, actor) => RemoveKeepsOwned(state, org, target, actor);
    case Invite(org, email, role, token, now) => InviteKeepsOwned(state, org, email, role, token, now);
  }

  ghost predicate Trace(states: seq<State>, steps: seq<Step>) {
    && |states| == |steps| + 1
    && states[0].owners == map[] && states[0].members == map[] && states[0].invitations == map[]
    && states[0].removals == multiset{} && states[0].joins == multiset{}
    && forall i :: 0 <= i < |steps| ==> states[i + 1] == Next(states[i], steps[i])
  }

  /** No creation and no transfer stops between its saves. */
  ghost predicate OwnersAreSaved(states: seq<State>, steps: seq<Step>)
    requires |states| == |steps| + 1
  {
    forall i :: 0 <= i < |steps| ==> steps[i].Accept? || !StopsHalfway(states[i], steps[i])
  }

  lemma {:induction false} RunsKeepOneOwner(states: seq<State>, steps: seq<Step>, k: nat)
    requires Trace(states, steps) && OwnersAreSaved(states, steps) && k < |states|
    ensures Owned(states[k])
  {
    hide StopsHalfway, Next;
    if k > 0 {
      RunsKeepOneOwner(states, steps, k - 1);
      StepKeepsOwnedIff(states[k - 1], steps[k - 1]);
    }
  }

  /** Where the step, once completed, puts `user` in `org`; None of an option where it
      says nothing about them. */
  function Assigned(state: State, step: Step, org: OrgId, user: UserId): Option<Option<Role>> {
    match step
    case Create(o, u, _) => if (o, u) == (org, user) then Some(Some(Owner)) else None
    case ChangeRole(o, target, _, role) => if (o, target) == (org, user) then Some(Some(role)) else None
    case Remove(o, target, _) => if (o, target) == (org, user) then Some(Option<Role>.None) else None
    case Transfer(o, to, from, _) =>
      if (o, to) == (org, user) then Some(Some(Owner)) else if (o, from) == (org, user) then Some(Some(Admin)) else None
    case Invite(_, _, _, _, _) => None
    case Accept(token, u, _, _) =>
      if token in state.invitations && (state.invitations[token].org, u) == (org, user) then
        Some(Some(state.invitations[token].role))
      else None
  }

  /** Every call that succeeds gives those it names their roles and leaves everyone else's
      as they are; a call that is refused changes nobody's. */
  lemma RolesChangeOnlyAsAssigned(state: State, step: Step, org: OrgId, user: UserId)
    requires !StopsHalfway(state, step)
    ensures RoleOf(Next(state, step), org, user) ==
            if Perform(state, step).1.None? && Assigned(state, step, org, user).Some?
            then Assigned(state, step, org, user).value
            else RoleOf(state, org, user)
  {
    hide Owns, EmailIsMember, HasWaiting, AcceptError, WithStatus;
    match step
    case Create(o, u, completes) => CreateAssigns(state, o, u, org, user);
    case Accept(token, u, now, completes) => AcceptAssigns(state, token, u, now, org, user);
    case _ =>
  }

  lemma CreateAssigns(state: State, o: OrgId, u: UserId, org: OrgId, user: UserId)
    ensures RoleOf(CreateOrganization(state, o, u, true).0, org, user) ==
            if CreateOrganization(state, o, u, true).1.None? && (o, u) == (org, user) then Some(Owner)
            else RoleOf(state, org, user)
  {
  }

  lemma AcceptAssigns(state: State, token: Token, u: UserId, now: int, org: OrgId, user: UserId)
    ensures var (next, error) := AcceptInvitation(state, token, u, now, true);
            RoleOf(next, org, user) ==
            if error.None? && (state.invitations[token].org, u) == (org, user) then Some(state.invitations[token].role)
            else RoleOf(state, org, user)
  {
  }

  /** No user owns two organizations. */
  ghost predicate OwnsAtMostOne(state: State) {
    forall org, org' :: org in state.owners && org' in state.owners && state.owners[org] == state.owners[org'] ==>
      org == org'
  }

  /** What a step does to the owners. */
  lemma OwnersAfter(state: State, step: Step)
    ensures Next(state, step).owners ==
            match step
            case Create(org, user, _) =>
              if Owns(state, user) || org in state.owners || org in state.members then state.owners
              else state.owners[org := user]
            case Transfer(org, to, from, completes) =>
              if Perform(state, step).1.None? then state.owners[org := to] else state.owners
            case _ => state.owners
  {
    hide Owns, EmailIsMember, HasWaiting, TargetError, AcceptError, WithStatus;
  }

  /** A transfer that goes through gives the organization to someone who owns none. */
  ghost predicate GivesToOwnerless(state: State, step: Step) {
    step.Transfer? && Perform(state, step).1.None? ==> !Owns(state, step.to)
  }

  /** From any tables, a call lets a user own two organizations exactly when it is a
      transfer that goes through to someone who owns one. */
  lemma StepKeepsOwnsAtMostOneIff(state: State, step: Step)
    requires OwnsAtMostOne(state)
    ensures OwnsAtMostOne(Next(state, step)) <==> GivesToOwnerless(state, step)
  {
    OwnersAfter(state, step);
    var owners := Next(state, step).owners;
    if step.Transfer? && Perform(state, step).1.None? {
      TransferGives(state, step.org, step.to, step.from, step.completes);
    }
    hide Next, Perform;
    if step.Transfer? && Perform(state, step).1.None? && Owns(state, step.to) {
      var other :| other in state.owners && state.owners[other] == step.to;
      assert other != step.org && owners[other] == owners[step.org];
    }
  }

  lemma TransferGives(state: State, org: OrgId, to: UserId, from: UserId, completes: bool)
    requires TransferOwnership(state, org, to, from, completes).1.None?
    ensures org in state.owners && state.owners[org] == from != to
  {
  }

  /** Where every transfer that goes through gives to someone who owns nothing, no user
      ever owns two, whatever stops halfway. */
  lemma {:induction false} RunsKeepOwnsAtMostOne(states: seq<State>, steps: seq<Step>, k: nat)
    requires Trace(states, steps) && k < |states|
    requires forall i :: 0 <= i < |steps| ==> GivesToOwnerless(states[i], steps[i])
    ensures OwnsAtMostOne(states[k])
  {
    hide Next, GivesToOwnerless;
    if k > 0 {
      RunsKeepOwnsAtMostOne(states, steps, k - 1);
      StepKeepsOwnsAtMostOneIff(states[k - 1], steps[k - 1]);
    }
  }

  /** Two organizations with these members in the first. */
  function TwoOrganizations(org: OrgId, other: OrgId, ann: UserId, bob: UserId, members: map<UserId, Role>,
                            invitations: map<Token, Invitation>, joins: multiset<Token>): State
  {
    State(map[org := ann, other := bob], map[org := members, other := map[bob := Owner]], invitations,
          map[], multiset{}, joins, 0)
  }

  function ToBob(org: OrgId, token: Token, status: Status): map<Token, Invitation> {
    map[token := Invitation(org, "b@c", Member, status, INVITATION_EXPIRY_MS)]
  }

  lemma AnnCreates(s0: State, org: OrgId, ann: UserId)
    requires s0 == State(map[], map[], map[], map[], multiset{}, multiset{}, 0)
    ensures Next(s0, Create(org, ann, true)) ==
            State(map[org := ann], map[org := map[ann := Owner]], map[], map[], multiset{}, multiset{}, 0)
  {
  }

  lemma BobCreates(s1: State, org: OrgId, other: OrgId, ann: UserId, bob: UserId)
    requires s1 == State(map[org := ann], map[org := map[ann := Owner]], map[], map[], multiset{}, multiset{}, 0)
    requires org != other && ann != bob
    ensures Next(s1, Create(other, bob, true)) ==
      TwoOrganizations(org, other, ann, bob, map[ann := Owner], map[], multiset{})
  {
    assert !Owns(s1, bob);
  }

  lemma BobIsInvited(org: OrgId, other: OrgId, ann: UserId, bob: UserId, token: Token)
    requires org != other && ann != bob
    ensures Next(TwoOrganizations(org, other, ann, bob, map[ann := Owner], map[], multiset{}),
                 Invite(org, "b@c", Member, token, 0)) ==
            TwoOrganizations(org, other, ann, bob, map[ann := Owner], ToBob(org, token, Waiting), multiset{})
  {
    var state := TwoOrganizations(org, other, ann, bob, map[ann := Owner], map[], multiset{});
    assert !EmailIsMember(state, org, "b@c") && !HasWaiting(state, org, "b@c");
  }

  lemma BobJoins(org: OrgId, other: OrgId, ann: UserId, bob: UserId, token: Token)
    requires org != other && ann != bob
    ensures Next(TwoOrganizations(org, other, ann, bob, map[ann := Owner], ToBob(org, token, Waiting), multiset{}),
                 Accept(token, bob, 0, true)) ==
            TwoOrganizations(org, other, ann, bob, map[ann := Owner, bob := Member], ToBob(org, token, Accepted),
                multiset{token})
  {
    var state := TwoOrganizations(org, other, ann, bob, map[ann := Owner], ToBob(org, token, Waiting), multiset{});
    assert RoleOf(state, org, bob).None?;
    var joined := map[ann := Owner, bob := Member];
    assert state.members[org][bob := Member] == joined;
    assert state.members[org := joined] == map[org := joined, other := map[bob := Owner]];
    assert WithStatus(state, token, Accepted) == ToBob(org, token, Accepted);
  }

  lemma BobIsPromoted(s: State, org: OrgId, other: OrgId, ann: UserId, bob: UserId, invitations: map<Token, Invitation>,
                      joins: multiset<Token>)
    requires org != other && ann != bob
    requires s == TwoOrganizations(org, other, ann, bob, map[ann := Owner, bob := Member], invitations, joins)
    ensures !OwnsAtMostOne(Next(s, Transfer(org, bob, ann, true)))
  {
    var next := Next(s, Transfer(org, bob, ann, true));
    assert org in next.owners && other in next.owners && next.owners[org] == next.owners[other];
  }

  /** Nothing stops a transfer to a user who owns another organization. */
  lemma TransferToAnOwnerGivesTwo(org: OrgId, other: OrgId, ann: UserId, bob: UserId, token: Token)
    returns (states: seq<State>, steps: seq<Step>)
    requires org != other && ann != bob
    ensures Trace(states, steps) && |steps| == 5 && !OwnsAtMostOne(states[5])
  {
    hide Next, OwnsAtMostOne, TwoOrganizations, ToBob;
    var s0 := State(map[], map[], map[], map[], multiset{}, multiset{}, 0);
    var s1 := State(map[org := ann], map[org := map[ann := Owner]], map[], map[], multiset{}, multiset{}, 0);
    var s2 := TwoOrganizations(org, other, ann, bob, map[ann := Owner], map[], multiset{});
    var s3 := TwoOrganizations(org, other, ann, bob, map[ann := Owner], ToBob(org, token, Waiting), multiset{});
    var s4 := TwoOrganizations(org, other, ann, bob, map[ann := Owner, bob := Member], ToBob(org, token, Accepted),
        multiset{token});
    var transfer := Transfer(org, bob, ann, true);
    AnnCreates(s0, org, ann);
    BobCreates(s1, org, other, ann, bob);
    BobIsInvited(org, other, ann, bob, token);
    BobJoins(org, other, ann, bob, token);
    BobIsPromoted(s4, org, other, ann, bob, ToBob(org, token, Accepted), multiset{token});
    states := [s0, s1, s2, s3, s4, Next(s4, transfer)];
    steps := [Create(org, ann, true), Create(other, bob, true), Invite(org, "b@c", Member, token, 0),
              Accept(token, bob, 0, true), transfer];
  }
}
