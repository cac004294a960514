/** What each organization call is for: on which grounds it is refused, what it leaves
    behind when it goes through, and that it touches nothing else. */
module OrganizationCalls {
  import opened Wrappers
  import opened Organizations
  import opened OrganizationOwnership

  /** Apart from its history, the call changes at most this organization and this invitation. */
  ghost predicate TouchesOnly(state: State, next: State, org: Option<OrgId>, token: Option<Token>) {
    && next.emails == state.emails
    && (forall o :: Some(o) != org ==>
        (o in next.owners <==> o in state.owners) && (o in next.members <==> o in state.members))
    && (forall o :: Some(o) != org && o in state.owners ==> next.owners[o] == state.owners[o])
    && (forall o :: Some(o) != org && o in state.members ==> next.members[o] == state.members[o])
    && (forall t :: Some(t) != token ==> (t in next.invitations <==> t in state.invitations))
    && (forall t :: Some(t) != token && t in state.invitations ==> next.invitations[t] == state.invitations[t])
  }

  /** Nothing but the clock. */
  ghost predicate Unchanged(state: State, next: State) {
    next == state.(clock := next.clock)
  }

  // ---------------------------------------------------------------------------
  // Grounds of refusal and effects, call by call
  // ---------------------------------------------------------------------------

  /** A creation is refused to whoever owns an organization; otherwise its founder is the
      owner and only member, or, when the second save fails, nobody is a member. */
  lemma CreationIs(state: State, org: OrgId, user: UserId, completes: bool)
    ensures var (next, error) := CreateOrganization(state, org, user, completes);
            var unused := org !in state.owners && org !in state.members;
            && TouchesOnly(state, next, Some(org), None)
            && (error == Some(OrgAlreadyExists) <==> exists o :: o in state.owners && state.owners[o] == user)
            && (error.None? <==> !Owns(state, user) && unused && completes)
            && (error.Some? ==> error.value in {OrgAlreadyExists, StorageFailure})
            && (Owns(state, user) || !unused ==> next == state)
            && (!Owns(state, user) && unused ==>
                 && org in next.owners && next.owners[org] == user && org in next.members
                 && next.members[org] == if completes then map[user := Owner] else map[])
  {
  }

  /** The two calls on another member: not on oneself, not on someone who is no member,
      not on the owner. */
  lemma TargetErrorIs(state: State, org: OrgId, target: UserId, actor: UserId)
    ensures var error := TargetError(state, org, target, actor);
            var isMember := org in state.members && target in state.members[org];
            && (error == Some(CannotModifyOwnRole) <==> target == actor)
            && (error == Some(MemberNotFound) <==> target != actor && !isMember)
            && (error == Some(CannotRemoveOwner) <==>
                target != actor && isMember && state.members[org][target] == Owner)
            && (error.None? <==> target != actor && isMember && state.members[org][target] != Owner)
  {
  }

  /** A role change gives the target the role, and a removal takes the target out; nobody
      else is affected. */
  lemma MemberCallsAre(state: State, org: OrgId, target: UserId, actor: UserId, role: Grantable)
    ensures var refused := TargetError(state, org, target, actor);
            var (changed, error) := SetRole(state, org, target, actor, role);
            var (removed, error') := RemoveMember(state, org, target, actor);
            && error == error' == refused
            && (refused.Some? ==> changed == removed == state)
            && TouchesOnly(state, changed, Some(org), None) && TouchesOnly(state, removed, Some(org), None)
            && changed.owners == removed.owners == state.owners
            && (refused.None? ==>
                 && RoleOf(changed, org, target) == Some(role) && RoleOf(removed, org, target) == None
                 && forall other :: other != target ==>
                      RoleOf(changed, org, other) == RoleOf(removed, org, other) == RoleOf(state, org, other))
  {
  }

  /** A transfer goes from the owner to another member: on any other ground it is refused,
      in this order. */
  lemma TransferIs(state: State, org: OrgId, to: UserId, from: UserId, completes: bool)
    ensures var (next, error) := TransferOwnership(state, org, to, from, completes);
            var isOwner := org in state.owners && state.owners[org] == from && RoleOf(state, org, from) == Some(Owner);
            && TouchesOnly(state, next, Some(org), None)
            && (error == Some(OrgNotFound) <==> to != from && org !in state.owners)
            && (error == Some(TransferNotAllowed) <==> to == from || (org in state.owners && !isOwner))
            && (error == Some(MemberNotFound) <==> to != from && isOwner && RoleOf(state, org, to).None?)
            && (error.None? <==> to != from && isOwner && RoleOf(state, org, to).Some? && completes)
            && (to == from || !isOwner || RoleOf(state, org, to).None? ==> next == state)
            && (to != from && isOwner && RoleOf(state, org, to).Some? ==>
                 && RoleOf(next, org, to) == Some(Owner) && RoleOf(next, org, from) == Some(Admin)
                 && (forall other :: other != to && other != from ==>
                     RoleOf(next, org, other) == RoleOf(state, org, other))
                 && org in next.owners && next.owners[org] == if completes then to else from)
  {
  }

  /** An invitation is refused for an address whose user is a member or that has one waiting;
      otherwise one row is added, with the organization, the address and the role asked for. */
  lemma InvitationIs(state: State, org: OrgId, email: string, role: Grantable, token: Token, now: int)
    ensures var (next, error) := CreateInvitation(state, org, email, role, token, now);
            var member := exists user :: org in state.members && user in state.members[org]
                                         && user in state.emails && state.emails[user] == email;
            var waiting := exists t :: t in state.invitations && state.invitations[t].org == org
                                       && state.invitations[t].email == email && state.invitations[t].status == Waiting;
            && next.clock == now
            && (error == Some(AlreadyMember) <==> member)
            && (error == Some(DuplicateInvitation) <==> !member && waiting)
            && (error.None? <==> !member && !waiting && org in state.owners && token !in state.invitations)
            && (error.Some? ==> Unchanged(state, next))
            && (error.None? ==>
                 && TouchesOnly(state, next, None, Some(token))
                 && token in next.invitations
                 && next.invitations[token].org == org && next.invitations[token].email == email
                 && next.invitations[token].role == role && next.invitations[token].status == Waiting
                 && next.invitations[token].expiresAt == now + 604800000)
  {
    assert HasWaiting(state, org, email) <==>
           exists t :: t in state.invitations && state.invitations[t].org == org
                       && state.invitations[t].email == email && state.invitations[t].status == Waiting by {
      if t :| t in state.invitations && state.invitations[t].org == org
              && state.invitations[t].email == email && state.invitations[t].status == Waiting {
        assert IsWaiting(state.invitations[t], org, email);
      }
    }
  }

  /** An acceptance is refused in this order; one that is refused changes at most the
      status of the invitation, to expired. */
  lemma AcceptanceIsRefusedIff(state: State, token: Token, user: UserId, now: int, completes: bool)
    requires token in state.invitations ==> state.invitations[token].org in state.members
    ensures var (next, error) := AcceptInvitation(state, token, user, now, completes);
            next.clock == now &&
            if token !in state.invitations then error == Some(InvitationNotFound) && Unchanged(state, next)
            else
              var invitation := state.invitations[token];
              var accepted, late := invitation.status == Accepted, invitation.expiresAt < now;
              var isMember := user in state.members[invitation.org];
              && (error == Some(InvitationAlreadyAccepted) <==> accepted)
              && (error == Some(InvitationExpired) <==> !accepted && late)
              && (error == Some(AlreadyMember) <==> !accepted && !late && isMember)
              && (error.None? <==> !accepted && !late && !isMember && completes)
              && (accepted || (!late && isMember) ==> Unchanged(state, next))
              && (!accepted && late ==>
                   next == state.(clock := next.clock, invitations := next.invitations)
                   && token in next.invitations && next.invitations[token] == invitation.(status := Expired)
                   && TouchesOnly(state, next, None, Some(token)))
  {
  }

  /** Otherwise the user has the invitation's role in its organization, and the invitation
      is accepted unless the second save fails. */
  lemma AcceptanceIs(state: State, token: Token, user: UserId, now: int, completes: bool)
    requires AcceptError(state, token, user, now).None?
    ensures var next := AcceptInvitation(state, token, user, now, completes).0;
            var invitation := state.invitations[token];
            && TouchesOnly(state, next, Some(invitation.org), Some(token)) && next.owners == state.owners
            && next.clock == now && token in next.invitations
            && next.invitations[token] == (if completes then invitation.(status := Accepted) else invitation)
            && RoleOf(next, invitation.org, user) == Some(invitation.role)
            && forall other :: other != user ==>
                RoleOf(next, invitation.org, other) == RoleOf(state, invitation.org, other)
  {
    hide AcceptError;
  }

  // ---------------------------------------------------------------------------
  // An invitation is good for what it was sent for
  // ---------------------------------------------------------------------------

  /** What an invitation was sent for: everything but its status. */
  ghost predicate SameTerms(a: Invitation, b: Invitation) {
    a.org == b.org && a.email == b.email && a.role == b.role && a.expiresAt == b.expiresAt
  }

  lemma StepKeepsTerms(state: State, step: Step, token: Token)
    requires token in state.invitations
    ensures token in Next(state, step).invitations
            && SameTerms(Next(state, step).invitations[token], state.invitations[token])
  {
    hide Owns, EmailIsMember, HasWaiting, TargetError, TransferError, RoleOf, INVITATION_EXPIRY_MS;
    match step
    case Invite(_, _, _, _, _) =>
    case Accept(_, _, _, _) =>
    case _ =>
  }

  lemma {:induction false} TermsStay(states: seq<State>, steps: seq<Step>, i: nat, k: nat, token: Token)
    requires Trace(states, steps) && i <= k < |states| && token in states[i].invitations
    ensures token in states[k].invitations && SameTerms(states[k].invitations[token], states[i].invitations[token])
  {
    hide Next;
    if i < k {
      TermsStay(states, steps, i, k - 1, token);
      StepKeepsTerms(states[k - 1], steps[k - 1], token);
    }
  }

  /** On every run: whoever takes up an invitation gets exactly the role it was sent with,
      in the organization it was sent for, whatever happened in between. */
  lemma SentRoleIsGiven(states: seq<State>, steps: seq<Step>, i: nat, k: nat)
    requires Trace(states, steps) && i < k < |steps|
    requires steps[i].Invite? && Perform(states[i], steps[i]).1.None?
    requires steps[k].Accept? && steps[k].token == steps[i].token && Perform(states[k], steps[k]).1.None?
    ensures RoleOf(states[k + 1], steps[i].org, steps[k].user) == Some(steps[i].role)
  {
    var token := steps[i].token;
    assert token in states[i + 1].invitations && states[i + 1].invitations[token].role == steps[i].role
           && states[i + 1].invitations[token].org == steps[i].org;
    TermsStay(states, steps, i + 1, k, token);
    hide AcceptError;
    assert states[k + 1] == AcceptInvitation(states[k], token, steps[k].user, steps[k].now, true).0;
  }
}
