/** Who belongs to a conversation and who administers it. */
module Membership {
  import opened Wrappers
  import opened Ledger

  datatype Role = Admin | Member
  datatype Kind = Direct | Group

  /** A membership row; `left` is leftAt !== null. */
  datatype Membership = Membership(role: Role, joinedAt: nat, left: bool, lastReadSeq: nat)
  type Members = map<Account, Membership>

  /** A key version: its id and one encrypted bundle per account. */
  datatype Keys = Keys(keyId: KeyId, bundles: map<Account, Bundle>)

  /** A conversation row with its membership rows. */
  datatype Room = Room(kind: Kind, members: Members, keys: Option<Keys>)

  /** `publicKey` is None where the column is null or empty. */
  datatype User = User(publicKey: Option<string>)
  type Users = map<Account, User>

  datatype Error =
    | ConversationNotFound
    | DirectConversation
    | NotMember(who: Account)
    | NotAdmin(who: Account)
    | AlreadyMember(who: Account)
    | NoSuchParticipant(who: Account)
    | MissingKey(who: Account)
    | InvalidParticipants
    | GroupNameRequired
    | CreationFailed
    | NoEncryptionKey(who: Account)
    | DuplicateRow
    | SyncFailed

  function Active(members: Members): set<Account> {
    set a | a in members && !members[a].left
  }

  function ActiveAdmins(members: Members): set<Account> {
    set a | a in members && !members[a].left && members[a].role == Admin
  }

  /** A direct conversation in which both are active. */
  predicate IsDirectBetween(room: Room, a: Account, b: Account) {
    room.kind == Direct && a in Active(room.members) && b in Active(room.members)
  }

  /** A conversation that anyone is in has someone to administer it. */
  ghost predicate HasAdmin(members: Members) {
    Active(members) != {} ==> ActiveAdmins(members) != {}
  }

  // ---------------------------------------------------------------------------
  // addParticipant and removeParticipant
  // ---------------------------------------------------------------------------

  /** The checks that both operations make on the conversation and the requestor. */
  function CheckAdmin(room: Room, requestor: Account): Option<Error> {
    if room.kind == Direct then Some(DirectConversation)
    else if requestor !in room.members || room.members[requestor].left then Some(NotMember(requestor))
    else if room.members[requestor].role != Admin then Some(NotAdmin(requestor))
    else None
  }

  /** A first join, or a rejoin that keeps the row's join time and read mark. */
  function Joined(members: Members, a: Account, now: nat): Members {
    if a in members then members[a := members[a].(left := false, role := Member)]
    else members[a := Membership(Member, now, false, 0)]
  }

  /** The save at the end of an add. The row it writes was looked up before: one that was
      known then keeps its join time and read mark, and a new one starts unread. */
  function Saved(members: Members, a: Account, known: bool, now: nat): Members {
    if !known && a in members then members[a := members[a].(left := false, role := Member, lastReadSeq := 0)]
    else Joined(members, a, now)
  }

  function Departed(members: Members, a: Account): Members
    requires a in members
  {
    members[a := members[a].(left := true)]
  }

  /** The checks of an add on the newcomer. */
  function NewcomerError(members: Members, users: Users, newcomer: Account): Option<Error> {
    if newcomer in members && !members[newcomer].left then Some(AlreadyMember(newcomer))
    else if newcomer !in users then Some(NoSuchParticipant(newcomer))
    else if users[newcomer].publicKey.None? then Some(MissingKey(newcomer))
    else None
  }

  /** addParticipant up to the saved membership row, when nothing comes in between. */
  function AddMember(room: Room, users: Users, newcomer: Account, requestor: Account, now: nat): Result<Room, Error> {
    if CheckAdmin(room, requestor).Some? then Err(CheckAdmin(room, requestor).value)
    else if NewcomerError(room.members, users, newcomer).Some? then
      Err(NewcomerError(room.members, users, newcomer).value)
    else Ok(room.(members := Joined(room.members, newcomer, now)))
  }

  /** removeParticipant up to the saved membership row, likewise. The code
      has no guard for the last admin, though its comment lists one. */
  function RemoveMember(room: Room, target: Account, requestor: Account): Result<Room, Error> {
    if CheckAdmin(room, requestor).Some? then Err(CheckAdmin(room, requestor).value)
    else if target !in room.members || room.members[target].left then Err(NotMember(target))
    else Ok(room.(members := Departed(room.members, target)))
  }

  // ---------------------------------------------------------------------------
  // leaveConversation
  // ---------------------------------------------------------------------------

  /** The leaver is the last active admin and others stay behind. */
  ghost predicate NeedsHeir(members: Members, leaver: Account)
    requires leaver in members
  {
    members[leaver].role == Admin && ActiveAdmins(members) - {leaver} == {} && Active(members) - {leaver} != {}
  }

  /** The longest-standing active member other than the leaver. */
  ghost predicate IsHeir(members: Members, leaver: Account, heir: Account) {
    && heir in Active(members) && heir != leaver
    && forall a :: a in Active(members) && a != leaver ==> members[heir].joinedAt <= members[a].joinedAt
  }

  /** What the query for an heir gives. */
  ghost predicate ChosenHeir(members: Members, leaver: Account, heir: Option<Account>) {
    && (heir.None? <==> Active(members) - {leaver} == {})
    && (heir.Some? ==> IsHeir(members, leaver, heir.value))
  }

  function Promoted(members: Members, heir: Account): Members
    requires heir in members
  {
    members[heir := members[heir].(role := Admin)]
  }

  // ---------------------------------------------------------------------------
  // The effect of each operation on who is active
  // ---------------------------------------------------------------------------

  lemma JoinAddsOne(members: Members, a: Account, now: nat)
    ensures Active(Joined(members, a, now)) == Active(members) + {a}
    ensures ActiveAdmins(Joined(members, a, now)) == ActiveAdmins(members) - {a}
    ensures a in members ==>
              Joined(members, a, now)[a].joinedAt == members[a].joinedAt
              && Joined(members, a, now)[a].lastReadSeq == members[a].lastReadSeq
    ensures a !in members ==> Joined(members, a, now)[a].joinedAt == now && Joined(members, a, now)[a].lastReadSeq == 0
    ensures OthersStay(members, Joined(members, a, now), a)
  {
  }

  /** Nobody else's row is touched, and none is dropped. */
  ghost predicate OthersStay(members: Members, members': Members, a: Account) {
    && members'.Keys == members.Keys + {a}
    && forall b :: b in members && b != a ==> members'[b] == members[b]
  }

  /** Whatever has happened to the row since it was looked up. */
  lemma SavingAddsOne(members: Members, a: Account, known: bool, now: nat)
    ensures Active(Saved(members, a, known, now)) == Active(members) + {a}
    ensures ActiveAdmins(Saved(members, a, known, now)) == ActiveAdmins(members) - {a}
    ensures OthersStay(members, Saved(members, a, known, now), a)
    ensures Saved(members, a, known, now)[a].joinedAt == if a in members then members[a].joinedAt else now
    ensures Saved(members, a, known, now)[a].lastReadSeq == if a in members && known then members[a].lastReadSeq else 0
  {
  }

  lemma DepartureRemovesOne(members: Members, a: Account)
    requires a in members
    ensures Active(Departed(members, a)) == Active(members) - {a}
    ensures ActiveAdmins(Departed(members, a)) == ActiveAdmins(members) - {a}
    ensures OthersStay(members, Departed(members, a), a)
    ensures Departed(members, a)[a].joinedAt == members[a].joinedAt
            && Departed(members, a)[a].lastReadSeq == members[a].lastReadSeq
  {
  }

  lemma PromotionAddsAnAdmin(members: Members, heir: Account)
    requires heir in Active(members)
    ensures Active(Promoted(members, heir)) == Active(members)
    ensures ActiveAdmins(Promoted(members, heir)) == ActiveAdmins(members) + {heir}
  {
  }

  /** An heir who has left in the meantime gets the role, and nobody else anything. */
  lemma PromotionKeepsActive(members: Members, heir: Account)
    requires heir in members
    ensures Active(Promoted(members, heir)) == Active(members)
    ensures ActiveAdmins(Promoted(members, heir)) == ActiveAdmins(members) + ({heir} * Active(members))
    ensures OthersStay(members, Promoted(members, heir), heir)
    ensures Promoted(members, heir)[heir].joinedAt == members[heir].joinedAt
            && Promoted(members, heir)[heir].lastReadSeq == members[heir].lastReadSeq
  {
  }

  /** Why an add is turned away: each ground, in the order of the checks; with none of them
      it goes through. */
  lemma AddIsRefusedIff(room: Room, users: Users, newcomer: Account, requestor: Account, now: nat)
    ensures var result := AddMember(room, users, newcomer, requestor, now);
            var active, admins := Active(room.members), ActiveAdmins(room.members);
            var allowed := room.kind == Group && requestor in admins;
            var admits := allowed && newcomer !in active;
            && (room.kind == Direct ==> result == Err(DirectConversation))
            && (room.kind == Group && requestor !in active ==> result == Err(NotMember(requestor)))
            && (room.kind == Group && requestor in active - admins ==> result == Err(NotAdmin(requestor)))
            && (allowed && newcomer in active ==> result == Err(AlreadyMember(newcomer)))
            && (admits && newcomer !in users ==> result == Err(NoSuchParticipant(newcomer)))
            && (admits && newcomer in users && users[newcomer].publicKey.None? ==> result == Err(MissingKey(newcomer)))
            && (admits && newcomer in users && users[newcomer].publicKey.Some? ==>
                 && result.Ok? && result.value.kind == room.kind && result.value.keys == room.keys
                 && OthersStay(room.members, result.value.members, newcomer))
  {
  }

  /** And a removal. */
  lemma RemoveIsRefusedIff(room: Room, target: Account, requestor: Account)
    ensures var result := RemoveMember(room, target, requestor);
            var active, admins := Active(room.members), ActiveAdmins(room.members);
            && (room.kind == Direct ==> result == Err(DirectConversation))
            && (room.kind == Group && requestor !in active ==> result == Err(NotMember(requestor)))
            && (room.kind == Group && requestor in active - admins ==> result == Err(NotAdmin(requestor)))
            && (room.kind == Group && requestor in admins && target !in active ==> result == Err(NotMember(target)))
            && (room.kind == Group && requestor in admins && target in active ==>
                 && result.Ok? && result.value.kind == room.kind && result.value.keys == room.keys
                 && OthersStay(room.members, result.value.members, target)
                 && Active(result.value.members) == active - {target})
  {
  }

  /** Adding someone never costs the conversation its admin. */
  lemma AddKeepsAdmin(room: Room, users: Users, newcomer: Account, requestor: Account, now: nat)
    requires AddMember(room, users, newcomer, requestor, now).Ok?
    ensures var members := AddMember(room, users, newcomer, requestor, now).value.members;
            && HasAdmin(members)
            && requestor in ActiveAdmins(members)
            && Active(members) == Active(room.members) + {newcomer}
  {
    JoinAddsOne(room.members, newcomer, now);
    assert requestor in ActiveAdmins(room.members) - {newcomer};
  }

  /** Removing someone keeps an admin exactly when the requestor does not remove
      themselves, or another admin stays, or nobody does. */
  lemma RemoveKeepsAdminIff(room: Room, target: Account, requestor: Account)
    requires RemoveMember(room, target, requestor).Ok?
    ensures HasAdmin(RemoveMember(room, target, requestor).value.members) <==>
            || target != requestor
            || ActiveAdmins(room.members) != {requestor}
            || Active(room.members) == {requestor}
  {
    DepartureRemovesOne(room.members, target);
    assert requestor in ActiveAdmins(room.members);
    assert requestor in Active(room.members);
    if target != requestor {
      assert requestor in ActiveAdmins(room.members) - {target};
    } else {
      assert ActiveAdmins(room.members) - {target} == {} <==> ActiveAdmins(room.members) == {requestor};
      assert Active(room.members) - {target} == {} <==> Active(room.members) == {requestor};
    }
  }

  /** The run that the missing guard lets through: a sole admin removes themselves
      and leaves a group that nobody administers. */
  lemma SelfRemovalOrphansAGroup()
    ensures var members := map["a" := Membership(Admin, 0, false, 0), "b" := Membership(Member, 0, false, 0)];
            var room := Room(Group, members, None);
            && HasAdmin(members)
            && RemoveMember(room, "a", "a").Ok?
            && !HasAdmin(RemoveMember(room, "a", "a").value.members)
  {
    var members := map["a" := Membership(Admin, 0, false, 0), "b" := Membership(Member, 0, false, 0)];
    assert "a" in ActiveAdmins(members);
    assert ActiveAdmins(members) == {"a"};
    assert "b" in Active(members);
    RemoveKeepsAdminIff(Room(Group, members, None), "a", "a");
  }

  /** What leaveConversation's two writes leave behind: an admin, the leaver gone,
      nobody else's activity changed, and the heir an admin when one was needed. */
  lemma LeaveKeepsAdmin(members: Members, leaver: Account, heir: Option<Account>)
    requires leaver in Active(members) && HasAdmin(members)
    requires NeedsHeir(members, leaver) <==> heir.Some?
    requires heir.Some? ==> IsHeir(members, leaver, heir.value)
    ensures var promoted := if heir.Some? then Promoted(members, heir.value) else members;
            var after := Departed(promoted, leaver);
            && HasAdmin(promoted) && HasAdmin(after)
            && Active(after) == Active(members) - {leaver}
            && ActiveAdmins(after) ==
                 ActiveAdmins(members) - {leaver} + (if heir.Some? then {heir.value} else {})
  {
    var promoted := if heir.Some? then Promoted(members, heir.value) else members;
    if heir.Some? {
      PromotionAddsAnAdmin(members, heir.value);
      assert heir.value in ActiveAdmins(promoted) - {leaver};
    } else if members[leaver].role == Member && Active(members) != {} {
      var keeper :| keeper in ActiveAdmins(members);
      assert keeper in ActiveAdmins(promoted) - {leaver};
    }
    DepartureRemovesOne(promoted, leaver);
    if Active(members) - {leaver} != {} {
      var keeper :| keeper in ActiveAdmins(promoted) - {leaver};
      assert keeper in ActiveAdmins(Departed(promoted, leaver));
    }
  }
}
