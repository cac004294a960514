/** The conversations service's rotation, and its adds, removals and leaves, are runs of
    the conversation protocol, whatever fails inside them. */
module OperationRefinement {
  import opened Wrappers
  import opened Ledger
  import opened MessageIndex
  import opened Membership
  import Sync = SyncProtocol
  import opened Conversations
  import opened ConversationsService

  /** `c` after the service's rotation in call `call` has ended. */
  ghost predicate EndsAs(c: Conversation, call: CallId, end: Conversation, room: Room, ledger: seq<Entry>) {
    && end.room == room
    && end.topic == c.topic.(store := c.topic.store.(ledger := ledger))
    && end.calls == c.calls - {call}
  }

  /** One run after another. */
  lemma TraceAppend(states: seq<Conversation>, steps: seq<Step>, states': seq<Conversation>, steps': seq<Step>)
    requires Trace(states, steps) && Trace(states', steps') && states'[0] == states[|steps|]
    ensures Trace(states + states'[1..], steps + steps')
  {
    hide Enabled, Next;
    var all, allSteps := states + states'[1..], steps + steps';
    forall i | 0 <= i < |allSteps| ensures Enabled(all[i], allSteps[i]) && all[i + 1] == Next(all[i], allSteps[i]) {
      if i >= |steps| {
        var k := i - |steps|;
        assert allSteps[i] == steps'[k] && all[i + 1] == states'[k + 1] && all[i] == states'[k];
      }
    }
  }

  /** A rotation once the members were read. */
  lemma TakenRotationEnds(c: Conversation, call: CallId, users: Users, keyId: KeyId, wrap: Wrap, payer: Account,
                          faults: Faults)
    returns (states: seq<Conversation>, steps: seq<Step>)
    requires call in c.calls && c.calls[call] == Taken(Active(c.room.members)) && Active(c.room.members) != {}
    ensures Trace(states, steps) && states[0] == c
    ensures var (room, ledger) := Rotated(c.room, c.topic.store.ledger, users, keyId, wrap, payer, faults);
            EndsAs(c, call, states[|steps|], room, ledger)
  {
    var accounts := Active(c.room.members);
    hide Active, ActiveAdmins, CheckAdmin, NewcomerError, ChosenHeir, Saved, Promoted, Departed, MarkedRead,
         Sync.Enabled;
    if !AllKeyed(accounts, users) || faults.delivery.Lost? {
      states, steps := [c, Next(c, Abandon(call))], [Abandon(call)];
    } else {
      var keys := Keys(keyId, Bundles(accounts, users, wrap));
      var submit := SubmitKeys(call, keys, payer);
      var last := if faults.delivery.Delivered? && faults.saved then SaveKeys(call) else Abandon(call);
      var c1 := Next(c, submit);
      assert Moves(c, submit, c1);
      var c2 := Next(c1, last);
      assert Moves(c1, last, c2);
      assert c1.calls - {call} == c.calls - {call};
      states, steps := [c, c1, c2], [submit, last];
      hide Moves;
      MovesMakeATrace(states, steps);
    }
  }

  /** Every way the service's rotation can end is reached by single steps: the members
      are read, and then the exchange is submitted and saved, or the rotation gives up
      at the call that failed. */
  lemma RotationIsARun(c: Conversation, call: CallId, users: Users, keyId: KeyId, wrap: Wrap, payer: Account,
                       faults: Faults)
    returns (states: seq<Conversation>, steps: seq<Step>)
    requires call in c.calls && c.calls[call].Due?
    requires c.calls[call].evenForNobody ==> Active(c.room.members) != {}
    ensures Trace(states, steps) && states[0] == c
    ensures var (room, ledger) := Rotated(c.room, c.topic.store.ledger, users, keyId, wrap, payer, faults);
            EndsAs(c, call, states[|steps|], room, ledger)
  {
    var c1 := Next(c, TakeMembers(call));
    if Active(c.room.members) == {} {
      states, steps := [c, c1], [TakeMembers(call)];
    } else {
      var rest, last := TakenRotationEnds(c1, call, users, keyId, wrap, payer, faults);
      TraceAppend([c, c1], [TakeMembers(call)], rest, last);
      assert c1.calls - {call} == c.calls - {call};
      hide Rotated, Trace, Active;
      states, steps := [c, c1] + rest[1..], [TakeMembers(call)] + last;
    }
  }

  /** `c` after an operation that changed the members to those of `room` and rotated. */
  ghost predicate EndsRotated(c: Conversation, end: Conversation, room: Room, users: Users, keyId: KeyId, wrap: Wrap,
                              payer: Account, faults: Faults)
  {
    var (room', ledger) := Rotated(room, c.topic.store.ledger, users, keyId, wrap, payer, faults);
    && end.room == room'
    && end.topic == c.topic.(store := c.topic.store.(ledger := ledger))
    && end.calls == c.calls
  }

  /** A run that has changed the members, and the rotation it owes. */
  lemma ThenRotates(c: Conversation, states: seq<Conversation>, steps: seq<Step>, call: CallId, users: Users,
                    keyId: KeyId, wrap: Wrap, payer: Account, faults: Faults)
    returns (states': seq<Conversation>, steps': seq<Step>)
    requires Trace(states, steps) && states[0] == c && call !in c.calls
    requires var changed := states[|steps|];
             && changed.topic == c.topic && changed.calls.Keys == c.calls.Keys + {call} && changed.calls[call].Due?
             && changed.calls - {call} == c.calls
             && (changed.calls[call].evenForNobody ==> Active(changed.room.members) != {})
    ensures Trace(states', steps') && states'[0] == c
    ensures EndsRotated(c, states'[|steps'|], states[|steps|].room, users, keyId, wrap, payer, faults)
  {
    var changed := states[|steps|];
    var rest, last := RotationIsARun(changed, call, users, keyId, wrap, payer, faults);
    TraceAppend(states, steps, rest, last);
    hide Rotated, Trace, Active;
    states', steps' := states + rest[1..], steps + last;
    assert states'[|steps'|] == rest[|last|];
  }

  /** addParticipant: the checks, then the row is saved, then the rotation runs as far
      as it gets. */
  lemma AddIsARun(c: Conversation, call: CallId, users: Users, newcomer: Account, requestor: Account, now: nat,
                  keyId: KeyId, wrap: Wrap, payer: Account, faults: Faults)
    returns (states: seq<Conversation>, steps: seq<Step>)
    requires call !in c.calls && AddMember(c.room, users, newcomer, requestor, now).Ok?
    ensures Trace(states, steps) && states[0] == c
    ensures EndsRotated(c, states[|steps|], AddMember(c.room, users, newcomer, requestor, now).value,
                        users, keyId, wrap, payer, faults)
  {
    hide Sync.Next, Sync.Enabled, Active, ActiveAdmins;
    var known := newcomer in c.room.members;
    var c1 := Goto(c, call, Admitted(ToAdd(newcomer)));
    var c2 := Goto(c1, call, Joining(newcomer, known));
    var c3 := Next(c2, SaveMember(call, now));
    SavingAddsOne(c.room.members, newcomer, known, now);
    assert newcomer in Active(c3.room.members);
    assert Moves(c, AskAdd(call, newcomer, requestor), c1);
    assert Moves(c1, FindNewcomer(call, users), c2);
    assert Moves(c2, SaveMember(call, now), c3);
    assert c3.room == AddMember(c.room, users, newcomer, requestor, now).value;
    assert c3.calls - {call} == c.calls;
    hide Moves;
    steps := [AskAdd(call, newcomer, requestor), FindNewcomer(call, users), SaveMember(call, now)];
    MovesMakeATrace([c, c1, c2, c3], steps);
    states, steps := ThenRotates(c, [c, c1, c2, c3], steps, call, users, keyId, wrap, payer, faults);
  }

  /** removeParticipant likewise. */
  lemma RemoveIsARun(c: Conversation, call: CallId, users: Users, target: Account, requestor: Account,
                     keyId: KeyId, wrap: Wrap, payer: Account, faults: Faults)
    returns (states: seq<Conversation>, steps: seq<Step>)
    requires call !in c.calls && RemoveMember(c.room, target, requestor).Ok?
    ensures Trace(states, steps) && states[0] == c
    ensures EndsRotated(c, states[|steps|], RemoveMember(c.room, target, requestor).value,
                        users, keyId, wrap, payer, faults)
  {
    hide Sync.Next, Sync.Enabled, ActiveAdmins;
    var c1 := Goto(c, call, Admitted(ToRemove(target)));
    var c2 := Goto(c1, call, Going(target));
    var c3 := Next(c2, MarkLeft(call));
    assert Moves(c, AskRemove(call, target, requestor), c1);
    assert Moves(c1, FindTarget(call), c2);
    assert Moves(c2, MarkLeft(call), c3);
    assert c3.calls - {call} == c.calls;
    hide Moves, Active;
    steps := [AskRemove(call, target, requestor), FindTarget(call), MarkLeft(call)];
    MovesMakeATrace([c, c1, c2, c3], steps);
    states, steps := ThenRotates(c, [c, c1, c2, c3], steps, call, users, keyId, wrap, payer, faults);
  }

  /** The queries of a leave, and the promotion of the heir if one is needed. */
  lemma LeaverGoes(c: Conversation, call: CallId, leaver: Account, heir: Option<Account>)
    returns (states: seq<Conversation>, steps: seq<Step>)
    requires call !in c.calls && leaver in Active(c.room.members)
    requires NeedsHeir(c.room.members, leaver) <==> heir.Some?
    requires heir.Some? ==> IsHeir(c.room.members, leaver, heir.value)
    ensures Trace(states, steps) && states[0] == c
    ensures var members := if heir.Some? then Promoted(c.room.members, heir.value) else c.room.members;
            states[|steps|] == Goto(WithMembers(c, members), call, Going(leaver))
  {
    hide Moves, Active, ActiveAdmins, IsHeir, Next, Enabled;
    if leaver !in ActiveAdmins(c.room.members) {
      PlainMemberLeaves(c, call, leaver);
      states, steps := [c, Goto(c, call, Going(leaver))], [AskLeave(call, leaver)];
    } else {
      AsksToLeave(c, call, leaver);
      var c1 := Goto(c, call, Resigning(leaver));
      if ActiveAdmins(c.room.members) - {leaver} != {} {
        var other :| other in ActiveAdmins(c.room.members) - {leaver};
        SeesAnotherAdmin(c1, call, leaver, other);
        states, steps := [c, c1, Goto(c1, call, Going(leaver))], [AskLeave(call, leaver), SeekAdmins(call)];
      } else {
        SeesNoOther(c1, call, leaver);
        var c2 := Goto(c1, call, Heirless(leaver));
        LastAdminNeedsHeirIff(c.room.members, leaver);
        var rest, last := HeirlessGoes(c2, call, leaver, heir);
        states, steps := [c, c1] + rest, [AskLeave(call, leaver), SeekAdmins(call)] + last;
      }
    }
    MovesMakeATrace(states, steps);
  }

  lemma HeirlessGoes(c: Conversation, call: CallId, leaver: Account, heir: Option<Account>)
    returns (states: seq<Conversation>, steps: seq<Step>)
    requires call in c.calls && c.calls[call] == Heirless(leaver)
    requires Active(c.room.members) - {leaver} != {} <==> heir.Some?
    requires heir.Some? ==> IsHeir(c.room.members, leaver, heir.value)
    ensures |states| == |steps| + 1 && states[0] == c
    ensures forall i :: 0 <= i < |steps| ==> Moves(states[i], steps[i], states[i + 1])
    ensures var members := if heir.Some? then Promoted(c.room.members, heir.value) else c.room.members;
            states[|steps|] == Goto(WithMembers(c, members), call, Going(leaver))
  {
    assert heir.Some? ==> heir.value in c.room.members;
    hide Moves, Active, IsHeir;
    if heir.None? {
      ChoosesNobody(c, call, leaver);
      states, steps := [c, Goto(c, call, Going(leaver))], [ChooseHeir(call, None)];
    } else {
      HeirIsPromoted(c, call, leaver, heir.value);
      var c1 := Goto(c, call, Promoting(leaver, heir.value));
      states := [c, c1, Goto(WithMembers(c1, Promoted(c.room.members, heir.value)), call, Going(leaver))];
      steps := [ChooseHeir(call, heir), SaveHeir(call)];
    }
  }

  lemma PlainMemberLeaves(c: Conversation, call: CallId, leaver: Account)
    requires call !in c.calls && leaver in Active(c.room.members) && leaver !in ActiveAdmins(c.room.members)
    ensures Moves(c, AskLeave(call, leaver), Goto(c, call, Going(leaver)))
    ensures !NeedsHeir(c.room.members, leaver)
  {
  }

  lemma LastAdminNeedsHeirIff(members: Members, leaver: Account)
    requires leaver in ActiveAdmins(members) && ActiveAdmins(members) - {leaver} == {}
    ensures NeedsHeir(members, leaver) <==> Active(members) - {leaver} != {}
  {
  }

  lemma HeirIsPromoted(c: Conversation, call: CallId, leaver: Account, heir: Account)
    requires call in c.calls && c.calls[call] == Heirless(leaver) && IsHeir(c.room.members, leaver, heir)
    ensures var chosen := Goto(c, call, Promoting(leaver, heir));
            && Moves(c, ChooseHeir(call, Some(heir)), chosen)
            && Moves(chosen, SaveHeir(call),
                Goto(WithMembers(chosen, Promoted(c.room.members, heir)), call, Going(leaver)))
  {
    hide ActiveAdmins, Promoted;
    assert heir in Active(c.room.members) - {leaver};
  }

  /** leaveConversation: the heir, if one is needed, then the departure, then the rotation. */
  lemma LeaveIsARun(c: Conversation, call: CallId, users: Users, leaver: Account, heir: Option<Account>,
                    keyId: KeyId, wrap: Wrap, payer: Account, faults: Faults)
    returns (states: seq<Conversation>, steps: seq<Step>)
    requires call !in c.calls && leaver in Active(c.room.members)
    requires NeedsHeir(c.room.members, leaver) <==> heir.Some?
    requires heir.Some? ==> IsHeir(c.room.members, leaver, heir.value)
    ensures Trace(states, steps) && states[0] == c
    ensures var promoted := if heir.Some? then Promoted(c.room.members, heir.value) else c.room.members;
            EndsRotated(c, states[|steps|], c.room.(members := Departed(promoted, leaver)), users, keyId, wrap, payer,
                faults)
  {
    states, steps := LeaverGoes(c, call, leaver, heir);
    hide Trace, NeedsHeir, IsHeir, Sync.Next, Sync.Enabled;
    var going := states[|steps|];
    var gone := Next(going, MarkLeft(call));
    TraceSnoc(states, steps, MarkLeft(call));
    assert gone.calls - {call} == c.calls;
    states, steps := ThenRotates(c, states + [gone], steps + [MarkLeft(call)], call, users, keyId, wrap, payer, faults);
  }

  /** sendMessage up to its insert: exactly when the service would let it through it is a
      run, which leaves the topic with what the insert leaves and nothing else changed. */
  lemma SendIsARun(c: Conversation, call: CallId, sender: Account) returns (states: seq<Conversation>, steps: seq<Step>)
    requires call !in c.calls && SendError(c.room, sender).None?
    ensures Trace(states, steps) && states[0] == c
    ensures states[|steps|] == c.(topic := c.topic.(store := InsertPlaceholder(c.topic.store, sender)))
  {
    var c1 := Goto(c, call, Loaded(sender, c.room.keys));
    var c2 := Goto(c1, call, Cleared(sender));
    var c3 := c.(topic := c.topic.(store := InsertPlaceholder(c.topic.store, sender)));
    assert c2.calls - {call} == c.calls;
    hide InsertPlaceholder, CheckAdmin, NewcomerError, ChosenHeir, MarkedRead, Saved;
    assert Moves(c, LoadForSend(call, sender), c1);
    assert Moves(c1, ClearSend(call), c2);
    assert Moves(c2, InsertSend(call), c3);
    hide Moves;
    steps := [LoadForSend(call, sender), ClearSend(call), InsertSend(call)];
    states := [c, c1, c2, c3];
    MovesMakeATrace(states, steps);
  }

  /** markAsRead is a run that moves the reader's mark to the last-message mark it read. */
  lemma ReadIsARun(c: Conversation, call: CallId, reader: Account) returns (states: seq<Conversation>, steps: seq<Step>)
    requires call !in c.calls
    ensures Trace(states, steps) && states[0] == c
    ensures states[|steps|] == WithMembers(c, MarkedRead(c.room.members, reader, c.topic.store.lastMessageSeq))
  {
    var upTo := c.topic.store.lastMessageSeq;
    var c1 := Goto(c, call, Reading(reader, upTo));
    var c2 := WithMembers(c, MarkedRead(c.room.members, reader, upTo));
    assert c1.calls - {call} == c.calls;
    hide CheckAdmin, NewcomerError, ChosenHeir, MarkedRead, Saved;
    assert Moves(c, LoadForRead(call, reader), c1);
    assert Moves(c1, SaveRead(call), c2);
    hide Moves;
    steps := [LoadForRead(call, reader), SaveRead(call)];
    states := [c, c1, c2];
    MovesMakeATrace(states, steps);
  }

  /** A rotation either leaves the stored keys alone or stores one bundle for each
      active member, the fresh key wrapped for that member's own public key, after
      submitting exactly that; it never stores without having submitted, and it stores
      exactly when nothing failed. */
  lemma RotationStoresWhatItSubmitted(room: Room, ledger: seq<Entry>, users: Users, keyId: KeyId, wrap: Wrap,
                                      payer: Account, faults: Faults)
    ensures var (room', ledger') := Rotated(room, ledger, users, keyId, wrap, payer, faults);
            var submits := Active(room.members) != {} && AllKeyed(Active(room.members), users)
                && !faults.delivery.Lost?;
            var complete := submits && faults.delivery.Delivered? && faults.saved;
            && room'.members == room.members && room'.kind == room.kind
            && (!submits ==> ledger' == ledger)
            && (submits ==>
                 && |ledger'| == |ledger| + 1 && ledger'[..|ledger|] == ledger && ledger'[|ledger|].payer == payer
                 && ledger'[|ledger|].payload.KeyExchange? && ledger'[|ledger|].payload.keyId == keyId
                 && EachTheirOwn(ledger'[|ledger|].payload.keys, Active(room.members), users, wrap))
            && (!complete ==> room'.keys == room.keys)
            && (complete ==>
                 && room'.keys.Some? && room'.keys.value.keyId == keyId
                 && room'.keys.value.bundles == ledger'[|ledger|].payload.keys
                 && EachTheirOwn(room'.keys.value.bundles, Active(room'.members), users, wrap))
  {
  }

}
