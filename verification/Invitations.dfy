/** Invitations are one-time, and memberships are conserved. */
module Invitations {
  import opened Wrappers
  import opened Organizations
  import opened OrganizationOwnership

  function AcceptedFor(invitations: map<Token, Invitation>, org: OrgId): set<Token> {
    set token | token in invitations && invitations[token].org == org && invitations[token].status == Accepted
  }

  /** Members and removals balance the founder and the accepted invitations. */
  ghost predicate Balanced(state: State, org: OrgId) {
    org in state.members ==>
      |state.members[org].Keys| + state.removals[org] == 1 + |AcceptedFor(state.invitations, org)|
  }

  /** Members, invitations and removals refer to organizations. */
  ghost predicate Referenced(state: State) {
    && state.owners.Keys == state.members.Keys
    && (forall token <- state.invitations :: state.invitations[token].org in state.members)
    && (forall org :: org !in state.members ==> state.removals[org] == 0)
  }

  ghost predicate Conserved(state: State) {
    Referenced(state) && forall org :: Balanced(state, org)
  }

  lemma CreationBalances(state: State, org: OrgId, user: UserId, completes: bool, other: OrgId)
    requires Referenced(state) && Balanced(state, other) && !StopsHalfway(state, Create(org, user, completes))
    ensures Balanced(CreateOrganization(state, org, user, completes).0, other)
  {
    var (next, error) := CreateOrganization(state, org, user, completes);
    if error.None? && other == org {
      assert AcceptedFor(state.invitations, org) == {};
      assert next.members[org].Keys == {user};
    }
  }

  lemma RemovalBalances(state: State, org: OrgId, target: UserId, actor: UserId, other: OrgId)
    requires Balanced(state, other)
    ensures Balanced(RemoveMember(state, org, target, actor).0, other)
  {
    var (next, error) := RemoveMember(state, org, target, actor);
    if error.None? && other == org {
      assert next.members[org].Keys == state.members[org].Keys - {target};
    }
  }

  lemma RoleChangeBalances(state: State, org: OrgId, target: UserId, actor: UserId, role: Grantable, other: OrgId)
    requires Balanced(state, other)
    ensures Balanced(SetRole(state, org, target, actor, role).0, other)
  {
    var (next, error) := SetRole(state, org, target, actor, role);
    if error.None? && other == org {
      assert next.members[org].Keys == state.members[org].Keys;
    }
  }

  lemma TransferBalances(state: State, org: OrgId, to: UserId, from: UserId, completes: bool, other: OrgId)
    requires Balanced(state, other)
    ensures Balanced(TransferOwnership(state, org, to, from, completes).0, other)
  {
    var next := TransferOwnership(state, org, to, from, completes).0;
    if TransferError(state, org, to, from).None? && other == org {
      assert next.members[org].Keys == state.members[org].Keys;
    }
  }

  lemma InvitingBalances(state: State, org: OrgId, email: string, role: Grantable, token: Token, now: int, other: OrgId)
    requires Balanced(state, other)
    ensures Balanced(CreateInvitation(state, org, email, role, token, now).0, other)
  {
    var (next, error) := CreateInvitation(state, org, email, role, token, now);
    if error.None? {
      assert AcceptedFor(next.invitations, other) == AcceptedFor(state.invitations, other);
    }
  }

  lemma RefusalBalances(state: State, token: Token, user: UserId, now: int, completes: bool, other: OrgId)
    requires Balanced(state, other) && AcceptError(state, token, user, now).Some?
    ensures Balanced(AcceptInvitation(state, token, user, now, completes).0, other)
  {
    var next := AcceptInvitation(state, token, user, now, completes).0;
    assert AcceptedFor(next.invitations, other) == AcceptedFor(state.invitations, other);
  }

  lemma AcceptingCountsOne(invitations: map<Token, Invitation>, token: Token, other: OrgId)
    requires token in invitations && invitations[token].status != Accepted
    ensures |AcceptedFor(invitations[token := invitations[token].(status := Accepted)], other)| ==
            |AcceptedFor(invitations, other)| + if invitations[token].org == other then 1 else 0
  {
    var after := invitations[token := invitations[token].(status := Accepted)];
    if invitations[token].org == other {
      assert AcceptedFor(after, other) == AcceptedFor(invitations, other) + {token};
    } else {
      assert AcceptedFor(after, other) == AcceptedFor(invitations, other);
    }
  }

  lemma CompletedAcceptanceIs(state: State, token: Token, user: UserId, now: int)
    requires AcceptError(state, token, user, now).None?
    ensures var invitation := state.invitations[token];
            var next := AcceptInvitation(state, token, user, now, true).0;
            && invitation.status != Accepted && user !in state.members[invitation.org]
            && next.members == state.members[invitation.org := state.members[invitation.org][user := invitation.role]]
            && next.invitations == state.invitations[token := invitation.(status := Accepted)]
            && next.removals == state.removals
  {
  }

  lemma CompletedAcceptanceBalances(state: State, token: Token, user: UserId, now: int, other: OrgId)
    requires Balanced(state, other) && AcceptError(state, token, user, now).None?
    ensures Balanced(AcceptInvitation(state, token, user, now, true).0, other)
  {
    hide AcceptedFor, AcceptInvitation, AcceptError;
    CompletedAcceptanceIs(state, token, user, now);
    AcceptingCountsOne(state.invitations, token, other);
    if other == state.invitations[token].org {
      var next := AcceptInvitation(state, token, user, now, true).0;
      assert next.members[other].Keys == state.members[other].Keys + {user};
    }
  }

  /** Only an acceptance adds to either side, and it adds one to both. */
  lemma AcceptanceBalances(state: State, token: Token, user: UserId, now: int, completes: bool, other: OrgId)
    requires Balanced(state, other) && !StopsHalfway(state, Accept(token, user, now, completes))
    ensures Balanced(AcceptInvitation(state, token, user, now, completes).0, other)
  {
    hide Balanced, AcceptInvitation, AcceptError;
    if AcceptError(state, token, user, now).Some? {
      RefusalBalances(state, token, user, now, completes, other);
    } else {
      CompletedAcceptanceBalances(state, token, user, now, other);
    }
  }

  lemma StepKeepsBalanced(state: State, step: Step, other: OrgId)
    requires Referenced(state) && Balanced(state, other) && (step.Transfer? || !StopsHalfway(state, step))
    ensures Balanced(Next(state, step), other)
  {
    hide Referenced, Balanced, StopsHalfway;
    hide CreateOrganization, SetRole, RemoveMember, TransferOwnership, CreateInvitation, AcceptInvitation;
    match step
    case Create(org, user, completes) => CreationBalances(state, org, user, completes, other);
    case ChangeRole(org, target, actor, role) => RoleChangeBalances(state, org, target, actor, role, other);
    case Remove(org, target, actor) => RemovalBalances(state, org, target, actor, other);
    case Transfer(org, to, from, completes) => TransferBalances(state, org, to, from, completes, other);
    case Invite(org, email, role, token, now) => InvitingBalances(state, org, email, role, token, now, other);
    case Accept(token, user, now, completes) => AcceptanceBalances(state, token, user, now, completes, other);
  }

  lemma SetRoleKeepsReferenced(state: State, org: OrgId, target: UserId, actor: UserId, role: Grantable)
    requires Referenced(state)
    ensures Referenced(SetRole(state, org, target, actor, role).0)
  {
  }

  lemma AcceptKeepsReferenced(state: State, token: Token, user: UserId, now: int, completes: bool)
    requires Referenced(state)
    ensures Referenced(AcceptInvitation(state, token, user, now, completes).0)
  {
  }

  lemma CreateKeepsReferenced(state: State, org: OrgId, user: UserId, completes: bool)
    requires Referenced(state)
    ensures Referenced(CreateOrganization(state, org, user, completes).0)
  {
  }

  lemma RemoveKeepsReferenced(state: State, org: OrgId, target: UserId, actor: UserId)
    requires Referenced(state)
    ensures Referenced(RemoveMember(state, org, target, actor).0)
  {
  }

  lemma TransferKeepsReferenced(state: State, org: OrgId, to: UserId, from: UserId, completes: bool)
    requires Referenced(state)
    ensures Referenced(TransferOwnership(state, org, to, from, completes).0)
  {
  }

  lemma InviteKeepsReferenced(state: State, org: OrgId, email: string, role: Grantable, token: Token, now: int)
    requires Referenced(state)
    ensures Referenced(CreateInvitation(state, org, email, role, token, now).0)
  {
  }

  lemma StepKeepsReferenced(state: State, step: Step)
    requires Referenced(state)
    ensures Referenced(Next(state, step))
  {
    hide Referenced, CreateOrganization, SetRole, RemoveMember, TransferOwnership, CreateInvitation, AcceptInvitation;
    match step
    case Create(org, user, completes) => CreateKeepsReferenced(state, org, user, completes);
    case ChangeRole(org, target, actor, role) => SetRoleKeepsReferenced(state, org, target, actor, role);
    case Remove(org, target, actor) => RemoveKeepsReferenced(state, org, target, actor);
    case Transfer(org, to, from, completes) => TransferKeepsReferenced(state, org, to, from, completes);
    case Invite(org, email, role, token, now) => InviteKeepsReferenced(state, org, email, role, token, now);
    case Accept(token, user, now, completes) => AcceptKeepsReferenced(state, token, user, now, completes);
  }

  lemma StepKeepsConserved(state: State, step: Step)
    requires Conserved(state) && (step.Transfer? || !StopsHalfway(state, step))
    ensures Conserved(Next(state, step))
  {
    hide Next, Balanced, StopsHalfway;
    StepKeepsReferenced(state, step);
    forall org ensures Balanced(Next(state, step), org) {
      StepKeepsBalanced(state, step, org);
    }
  }

  /** A creation that stops halfway leaves an organization of nobody. */
  lemma HalfCreationUnbalances(state: State, org: OrgId, user: UserId)
    requires Referenced(state) && CreateOrganization(state, org, user, true).1.None?
    ensures !Balanced(CreateOrganization(state, org, user, false).0, org)
  {
    var next := CreateOrganization(state, org, user, false).0;
    hide Owns;
    assert next.members[org].Keys == {} && next.removals[org] == 0;
  }

  /** An acceptance that stops halfway makes a member whom no invitation accounts for. */
  lemma HalfAcceptanceUnbalances(state: State, token: Token, user: UserId, now: int)
    requires Conserved(state) && AcceptError(state, token, user, now).None?
    ensures !Balanced(AcceptInvitation(state, token, user, now, false).0, state.invitations[token].org)
  {
    var org := state.invitations[token].org;
    var next := AcceptInvitation(state, token, user, now, false).0;
    assert Balanced(state, org);
    assert next.members[org].Keys == state.members[org].Keys + {user};
  }

  /** Exactly a creation or an acceptance that stops halfway upsets the balance; a
      transfer that does not moves nobody. */
  lemma StepKeepsConservedIff(state: State, step: Step)
    requires Conserved(state)
    ensures Conserved(Next(state, step)) <==> (step.Transfer? || !StopsHalfway(state, step))
  {
    if step.Transfer? || !StopsHalfway(state, step) {
      StepKeepsConserved(state, step);
    } else {
      match step
      case Create(org, user, _) => HalfCreationUnbalances(state, org, user);
      case Accept(token, user, now, _) => HalfAcceptanceUnbalances(state, token, user, now);
    }
  }

  /** No creation and no acceptance stops between its saves. */
  ghost predicate MembersAreSaved(states: seq<State>, steps: seq<Step>)
    requires |states| == |steps| + 1
  {
    forall i :: 0 <= i < |steps| ==> steps[i].Transfer? || !StopsHalfway(states[i], steps[i])
  }

  /** On every run whose creations and acceptances complete, for each organization:
      current members + removals = 1 + accepted invitations. */
  lemma {:induction false} MembershipIsConserved(states: seq<State>, steps: seq<Step>, k: nat)
    requires Trace(states, steps) && MembersAreSaved(states, steps) && k < |states|
    ensures Conserved(states[k])
  {
    hide Conserved, Next, StopsHalfway;
    if k > 0 {
      MembershipIsConserved(states, steps, k - 1);
      StepKeepsConservedIff(states[k - 1], steps[k - 1]);
    } else {
      NothingIsConserved(states[0]);
    }
  }

  lemma NothingIsConserved(state: State)
    requires state.owners == map[] && state.members == map[] && state.invitations == map[]
        && state.removals == multiset{}
    ensures Conserved(state)
  {
  }

  predicate IsAccepted(invitations: map<Token, Invitation>, token: Token) {
    token in invitations && invitations[token].status == Accepted
  }

  /** The token has given one membership if it is accepted, and none otherwise. */
  ghost predicate OneTime(state: State, token: Token) {
    state.joins[token] == if IsAccepted(state.invitations, token) then 1 else 0
  }

  ghost predicate OneWaiting(invitations: map<Token, Invitation>) {
    forall token, token', org, email :: token in invitations && token' in invitations ==>
      IsWaiting(invitations[token], org, email) && IsWaiting(invitations[token'], org, email) ==> token == token'
  }

  lemma AcceptKeepsOneTimeIff(state: State, step: Step, token: Token)
    requires OneTime(state, token) && step.Accept?
    ensures OneTime(Next(state, step), token) <==> !(step.token == token && StopsHalfway(state, step))
  {
  }

  /** An acceptance that stops before its second save leaves the token open: the next
      user to present it joins too. No other call does. */
  lemma StepKeepsOneTimeIff(state: State, step: Step, token: Token)
    requires OneTime(state, token)
    ensures OneTime(Next(state, step), token) <==> !(step.Accept? && step.token == token && StopsHalfway(state, step))
  {
    if step.Accept? {
      AcceptKeepsOneTimeIff(state, step, token);
    }
  }

  /** A token whose own acceptances complete never yields two memberships, whatever else
      stops halfway. */
  lemma {:induction false} TokensAreOneTime(states: seq<State>, steps: seq<Step>, k: nat, token: Token)
    requires Trace(states, steps) && k < |states|
    requires forall i :: 0 <= i < |steps| && steps[i].Accept? && steps[i].token == token ==>
      !StopsHalfway(states[i], steps[i])
    ensures OneTime(states[k], token) && states[k].joins[token] <= 1
  {
    if k > 0 {
      TokensAreOneTime(states, steps, k - 1, token);
      StepKeepsOneTimeIff(states[k - 1], steps[k - 1], token);
    }
  }

  lemma StepKeepsOneWaiting(state: State, step: Step)
    requires OneWaiting(state.invitations)
    ensures OneWaiting(Next(state, step).invitations)
  {
    var before, after := state.invitations, Next(state, step).invitations;
    if step.Invite? && after != before {
      forall token, org, email | token in before && IsWaiting(before[token], org, email)
        ensures !(org == step.org && email == step.email)
      {
      }
    }
  }

  /** At most one invitation of each organization and address waits, on every run,
      halfway stops included. */
  lemma {:induction false} InvitationsWaitOnce(states: seq<State>, steps: seq<Step>, k: nat)
    requires Trace(states, steps) && k < |states|
    ensures OneWaiting(states[k].invitations)
  {
    if k > 0 {
      InvitationsWaitOnce(states, steps, k - 1);
      StepKeepsOneWaiting(states[k - 1], steps[k - 1]);
    }
  }

  lemma StepKeepsAccepted(state: State, step: Step, token: Token)
    requires IsAccepted(state.invitations, token)
    ensures var after := Next(state, step).invitations;
            IsAccepted(after, token) && after[token] == state.invitations[token]
  {
    hide Owns, EmailIsMember, HasWaiting, RoleOf, TargetError;
  }

  /** Accepted is final whatever the clock does. */
  lemma {:induction false} AcceptedIsFinal(states: seq<State>, steps: seq<Step>, i: nat, k: nat, token: Token)
    requires Trace(states, steps) && i <= k < |states| && IsAccepted(states[i].invitations, token)
    ensures IsAccepted(states[k].invitations, token) && states[k].invitations[token] == states[i].invitations[token]
  {
    hide Next;
    if i < k {
      AcceptedIsFinal(states, steps, i, k - 1, token);
      StepKeepsAccepted(states[k - 1], steps[k - 1], token);
    }
  }

  predicate IsExpired(state: State, token: Token) {
    token in state.invitations && state.invitations[token].status == Expired
  }

  /** Expired invitations are past their date by the latest time read. */
  ghost predicate ExpiredArePast(state: State) {
    forall token <- state.invitations :: IsExpired(state, token) ==> state.invitations[token].expiresAt < state.clock
  }

  /** The step does not read an earlier time than one read before. */
  predicate ClockAdvances(state: State, step: Step) {
    match step
    case Invite(_, _, _, _, now) => state.clock <= now
    case Accept(_, _, now, _) => state.clock <= now
    case _ => true
  }

  lemma StepKeepsExpiredPast(state: State, step: Step)
    requires ExpiredArePast(state) && ClockAdvances(state, step)
    ensures ExpiredArePast(Next(state, step))
    ensures forall token :: IsExpired(state, token) ==>
              IsExpired(Next(state, step), token) && Next(state, step).invitations[token] == state.invitations[token]
  {
    hide CreateOrganization, TransferOwnership, SetRole, RemoveMember;
    match step
    case Accept(token, user, now, completes) => AcceptKeepsExpiredPast(state, token, user, now, completes);
    case Invite(org, email, role, token, now) => InviteKeepsExpiredPast(state, org, email, role, token, now);
    case _ => MembersKeepInvitations(state, step);
  }

  lemma MembersKeepInvitations(state: State, step: Step)
    requires !step.Accept? && !step.Invite?
    ensures Next(state, step).invitations == state.invitations && Next(state, step).clock == state.clock
  {
  }

  lemma AcceptKeepsExpiredPast(state: State, token: Token, user: UserId, now: int, completes: bool)
    requires ExpiredArePast(state) && state.clock <= now
    ensures var next := AcceptInvitation(state, token, user, now, completes).0;
            && ExpiredArePast(next)
            && forall other :: IsExpired(state, other) ==>
                 IsExpired(next, other) && next.invitations[other] == state.invitations[other]
  {
  }

  lemma InviteKeepsExpiredPast(state: State, org: OrgId, email: string, role: Grantable, token: Token, now: int)
    requires ExpiredArePast(state) && state.clock <= now
    ensures var next := CreateInvitation(state, org, email, role, token, now).0;
            && ExpiredArePast(next)
            && forall other :: IsExpired(state, other) ==>
                 IsExpired(next, other) && next.invitations[other] == state.invitations[other]
  {
    hide EmailIsMember, HasWaiting;
    var (next, error) := CreateInvitation(state, org, email, role, token, now);
    assert error.None? ==> token !in state.invitations && next.invitations[token].status == Waiting;
  }

  lemma {:induction false} RunsKeepExpiredPast(states: seq<State>, steps: seq<Step>, k: nat)
    requires Trace(states, steps) && k < |states|
    requires forall i :: 0 <= i < |steps| ==> ClockAdvances(states[i], steps[i])
    ensures ExpiredArePast(states[k])
  {
    if k > 0 {
      RunsKeepExpiredPast(states, steps, k - 1);
      StepKeepsExpiredPast(states[k - 1], steps[k - 1]);
    }
  }

  /** Expired is final under a clock that never goes back. */
  lemma {:induction false} ExpiredIsFinal(states: seq<State>, steps: seq<Step>, i: nat, k: nat, token: Token)
    requires Trace(states, steps) && i <= k < |states| && IsExpired(states[i], token)
    requires forall j :: 0 <= j < |steps| ==> ClockAdvances(states[j], steps[j])
    ensures IsExpired(states[k], token) && states[k].invitations[token] == states[i].invitations[token]
  {
    hide Next, ClockAdvances, ExpiredArePast;
    if i < k {
      ExpiredIsFinal(states, steps, i, k - 1, token);
      RunsKeepExpiredPast(states, steps, k - 1);
      StepKeepsExpiredPast(states[k - 1], steps[k - 1]);
    }
  }

  /** Only the date is looked at: an expired invitation is taken up exactly when the
      clock reads its date or earlier and the user is not yet a member. */
  lemma ExpiredIsTakenUpIff(state: State, token: Token, user: UserId, now: int)
    requires Conserved(state) && IsExpired(state, token)
    ensures AcceptInvitation(state, token, user, now, true).1.None? <==>
            now <= state.invitations[token].expiresAt && user !in state.members[state.invitations[token].org]
  {
  }

  /** An invitation can be taken up for exactly seven days, by anyone who is no member. */
  lemma InvitationLastsSevenDays(state: State, org: OrgId, email: string, role: Grantable, token: Token, sent: int,
                                 user: UserId, now: int)
    requires Conserved(state) && CreateInvitation(state, org, email, role, token, sent).1.None?
    ensures var invited := CreateInvitation(state, org, email, role, token, sent).0;
            AcceptInvitation(invited, token, user, now, true).1.None? <==>
            now <= sent + 7 * 24 * 60 * 60 * 1000 && user !in state.members[org]
  {
  }

  /** A waiting invitation past its date still refuses a second one, until someone
      presents it; then the second goes through. */
  lemma LapsedInvitationBlocksUntilTried(state: State, token: Token, user: UserId, role: Grantable, unused: Token,
                                         now: int)
    requires Conserved(state) && OneWaiting(state.invitations) && token in state.invitations
        && unused !in state.invitations
    requires state.invitations[token].status == Waiting && state.invitations[token].expiresAt < now
    requires !EmailIsMember(state, state.invitations[token].org, state.invitations[token].email)
    ensures var org, email := state.invitations[token].org, state.invitations[token].email;
            && CreateInvitation(state, org, email, role, unused, now) ==
                (state.(clock := now), Some(DuplicateInvitation))
            && var tried := AcceptInvitation(state, token, user, now, true).0;
            CreateInvitation(tried, org, email, role, unused, now).1.None?
  {
    var org, email := state.invitations[token].org, state.invitations[token].email;
    assert IsWaiting(state.invitations[token], org, email);
    var tried := AcceptInvitation(state, token, user, now, true).0;
    forall other | other in tried.invitations ensures !IsWaiting(tried.invitations[other], org, email) {
      assert other != token ==> tried.invitations[other] == state.invitations[other];
    }
  }
}
