/** The conversations service with its tables in fields, proved against the membership
    functions. That its operations are runs of the conversation protocol is shown in
    OperationRefinement. */
module ConversationsService {
  import opened Wrappers
  import opened Ledger
  import opened Membership
  import Conversations
  import opened Unread

  type ConversationId = nat
  type TopicId = string

  /** A conversation row with its membership rows. */
  datatype Record = Record(topic: TopicId, room: Room, lastMessageSeq: nat)

  /** The conversation after its member has read it up to its last message. */
  function ReadRecord(record: Record, reader: Account): Record {
    var members := Conversations.MarkedRead(record.room.members, reader, record.lastMessageSeq);
    record.(room := record.room.(members := members))
  }

  predicate NothingUnread(record: Record, reader: Account) {
    reader in record.room.members ==> UnreadCount(record.lastMessageSeq, record.room.members[reader].lastReadSeq) == 0
  }

  /** Reading leaves that member nothing unread, moves nobody else's mark, and changes
      neither who is active nor who administers. */
  lemma ReadingLeavesNothingUnread(record: Record, reader: Account)
    ensures var after := ReadRecord(record, reader);
            && NothingUnread(after, reader)
            && after.room.members.Keys == record.room.members.Keys
            && (forall a <- record.room.members :: a != reader ==> after.room.members[a] == record.room.members[a])
            && Active(after.room.members) == Active(record.room.members)
            && ActiveAdmins(after.room.members) == ActiveAdmins(record.room.members)
  {
    Conversations.MarkingKeepsActive(record.room.members, reader, record.lastMessageSeq);
  }

  /** The rows of a conversation that was just created; the last save is that of its members. */
  function NewRecord(topic: TopicId, kind: Kind, founder: Account, others: set<Account>, now: nat, membersSaved: bool,
                     keys: Keys): Record
  {
    Record(topic, Room(kind, if membersSaved then Conversations.Founding(founder, others, now)
        else map[], Some(keys)), 0)
  }

  /** It holds its topic, kind and keys, everyone named and nobody else, the founder its
      only admin, and nothing unread. */
  lemma NewRecordIs(topic: TopicId, kind: Kind, founder: Account, others: set<Account>, now: nat, membersSaved: bool,
                    keys: Keys)
    ensures var record := NewRecord(topic, kind, founder, others, now, membersSaved, keys);
            && record.topic == topic && record.room.kind == kind && record.room.keys == Some(keys)
            && record.lastMessageSeq == 0
            && (!membersSaved ==> record.room.members == map[])
            && (membersSaved ==>
                 && record.room.members.Keys == Active(record.room.members) == {founder} + others
                 && ActiveAdmins(record.room.members) == {founder}
                 && forall a :: a in record.room.members ==>
                      record.room.members[a].joinedAt == now && NothingUnread(record, a))
  {
    Conversations.FoundingIs(founder, others, now);
  }

  /** How a submission to the ledger can end; `Unacknowledged` reached consensus but
      its receipt did not come back. */
  datatype Delivery = Delivered | Lost | Unacknowledged

  /** What the environment does to one call: ledger outcomes and database outcomes. */
  datatype Faults = Faults(topicCreated: bool, delivery: Delivery, saved: bool, membersSaved: bool)

  /** The bundle that wraps this call's fresh key for an account's public key, with what is
      drawn at random for that account. */
  type Wrap = (Account, string) -> Bundle

  ghost predicate AllKeyed(accounts: set<Account>, users: Users) {
    forall a :: a in accounts ==> a in users && users[a].publicKey.Some?
  }

  /** The error names one of the accounts, which is no user or has no public key. */
  ghost predicate NamesUnkeyed(error: Error, accounts: set<Account>, users: Users) {
    match error
    case NoSuchParticipant(a) => a in accounts && a !in users
    case MissingKey(a) => a in accounts && a in users && users[a].publicKey.None?
    case _ => false
  }

  /** The record has these accounts, each with the key wrapped for its own public key. */
  ghost predicate EachTheirOwn(record: map<Account, Bundle>, accounts: set<Account>, users: Users, wrap: Wrap)
    requires AllKeyed(accounts, users)
  {
    && (forall a :: a in record <==> a in accounts)
    && (forall a :: a in record ==> record[a] == wrap(a, users[a].publicKey.value))
  }

  /** One bundle for each account. */
  ghost function Bundles(accounts: set<Account>, users: Users, wrap: Wrap): (record: map<Account, Bundle>)
    requires AllKeyed(accounts, users)
    ensures EachTheirOwn(record, accounts, users, wrap)
  {
    map a | a in accounts :: wrap(a, users[a].publicKey.value)
  }

  /** What one rotation makes of the stored keys and the topic. */
  ghost function Rotated(room: Room, ledger: seq<Entry>, users: Users, keyId: KeyId, wrap: Wrap, payer: Account,
                         faults: Faults): (Room, seq<Entry>)
  {
    var accounts := Active(room.members);
    if accounts == {} || !AllKeyed(accounts, users) || faults.delivery.Lost? then (room, ledger)
    else
      var keys := Keys(keyId, Bundles(accounts, users, wrap));
      var ledger' := ledger + [Entry(payer, KeyExchange(keys.keyId, keys.bundles), None)];
      if faults.delivery.Delivered? && faults.saved then (room.(keys := Some(keys)), ledger') else (room, ledger')
  }

  class Service {
    var conversations: map<ConversationId, Record>
    var topics: map<TopicId, seq<Entry>>
    const operator: Account

    ghost predicate Valid()
      reads this
    {
      && (forall id :: id in conversations ==> conversations[id].topic in topics)
      && (forall i, j :: i in conversations && j in conversations && i != j ==>
          conversations[i].topic != conversations[j].topic)
    }

    constructor (operator: Account)
      ensures Valid() && conversations == map[] && topics == map[] && this.operator == operator
    {
      this.operator := operator;
      conversations, topics := map[], map[];
    }

    /** Fill a record with one bundle per account; None when an account has no user or
        no public key. */
    method CollectBundles(accounts: set<Account>, users: Users, wrap: Wrap)
      returns (bundles: Result<map<Account, Bundle>, Error>)
      ensures bundles.Ok? <==> AllKeyed(accounts, users)
      ensures bundles.Ok? ==> bundles.value == Bundles(accounts, users, wrap)
      ensures bundles.Ok? ==> EachTheirOwn(bundles.value, accounts, users, wrap)
      ensures bundles.Err? ==> NamesUnkeyed(bundles.error, accounts, users)
    {
      var record: map<Account, Bundle> := map[];
      var rest := accounts;
      while rest != {}
        invariant rest <= accounts && AllKeyed(accounts - rest, users)
        invariant record == Bundles(accounts - rest, users, wrap)
        decreases rest
      {
        var a :| a in rest;
        if a !in users {
          return Err(NoSuchParticipant(a));
        }
        if users[a].publicKey.None? {
          return Err(MissingKey(a));
        }
        assert accounts - (rest - {a}) == (accounts - rest) + {a};
        record := record[a := wrap(a, users[a].publicKey.value)];
        rest := rest - {a};
      }
      assert accounts - rest == accounts;
      bundles := Ok(record);
    }

    /** Save one conversation's rows. */
    method SaveRoom(id: ConversationId, room: Room)
      requires Valid() && id in conversations
      modifies this`conversations
      ensures Valid() && conversations == old(conversations)[id := old(conversations)[id].(room := room)]
    {
      conversations := conversations[id := conversations[id].(room := room)];
    }

    /** rotateKeysForConversation, and the second half of addParticipant. `missing` says
        which active member has no user or no key; only addParticipant passes it on. */
    method RotateKeys(id: ConversationId, users: Users, keyId: KeyId, wrap: Wrap, faults: Faults)
      returns (missing: Option<Error>)
      requires Valid() && id in conversations
      modifies this`conversations, this`topics
      ensures Valid()
      ensures missing.None? <==> AllKeyed(Active(old(conversations)[id].room.members), users)
      ensures missing.Some? ==> NamesUnkeyed(missing.value, Active(old(conversations)[id].room.members), users)
      ensures var record := old(conversations)[id];
              var (room, ledger) :=
                Rotated(record.room, old(topics)[record.topic], users, keyId, wrap, operator, faults);
              && conversations == old(conversations)[id := record.(room := room)]
              && topics == old(topics)[record.topic := ledger]
      ensures var accounts := Active(old(conversations)[id].room.members);
              accounts != {} && AllKeyed(accounts, users) && faults.delivery.Delivered? && faults.saved ==>
                && conversations[id].room.keys.Some? && conversations[id].room.keys.value.keyId == keyId
                && EachTheirOwn(conversations[id].room.keys.value.bundles, accounts, users, wrap)
    {
      var record := conversations[id];
      var accounts := Active(record.room.members);
      var bundles := CollectBundles(accounts, users, wrap);
      missing := if bundles.Err? then Some(bundles.error) else None;
      assert conversations == conversations[id := record];
      assert topics == topics[record.topic := topics[record.topic]];
      if accounts == {} || bundles.Err? || faults.delivery.Lost? {
        return;
      }
      var exchange := Entry(operator, KeyExchange(keyId, bundles.value), None);
      topics := topics[record.topic := topics[record.topic] + [exchange]];
      if faults.delivery.Delivered? && faults.saved {
        conversations := conversations[id := record.(room := record.room.(keys := Some(Keys(keyId, bundles.value))))];
      }
    }

    /** A saved member change and the rotation that follows it. */
    method SaveAndRotate(id: ConversationId, members: Members, users: Users, keyId: KeyId, wrap: Wrap, faults: Faults)
      returns (missing: Option<Error>)
      requires Valid() && id in conversations
      modifies this`conversations, this`topics
      ensures Valid()
      ensures missing.None? <==> AllKeyed(Active(members), users)
      ensures missing.Some? ==> NamesUnkeyed(missing.value, Active(members), users)
      ensures var record := old(conversations)[id];
              var (room, ledger) := Rotated(record.room.(members := members), old(topics)[record.topic], users, keyId,
                                            wrap, operator, faults);
              && conversations == old(conversations)[id := record.(room := room)]
              && topics == old(topics)[record.topic := ledger]
    {
      hide Valid, Rotated, AllKeyed, EachTheirOwn, Active;
      SaveRoom(id, conversations[id].room.(members := members));
      missing := RotateKeys(id, users, keyId, wrap, faults);
    }

    /** addParticipant. When an active member's key is missing the call fails after the
        newcomer's row was saved; a failed submission or save is only logged. */
    method AddParticipant(id: ConversationId, newcomer: Account, requestor: Account, now: nat, users: Users,
                          keyId: KeyId, wrap: Wrap, faults: Faults) returns (result: Result<(), Error>)
      requires Valid()
      modifies this`conversations, this`topics
      ensures Valid()
      ensures id !in old(conversations) ==>
                result == Err(ConversationNotFound) && conversations == old(conversations) && topics == old(topics)
      ensures id in old(conversations) ==>
                var record := old(conversations)[id];
                match AddMember(record.room, users, newcomer, requestor, now)
                case Err(error) => result == Err(error) && conversations == old(conversations) && topics == old(topics)
                case Ok(room) =>
                  var (room', ledger) := Rotated(room, old(topics)[record.topic], users, keyId, wrap, operator, faults);
                  && (result.Ok? <==> AllKeyed(Active(room.members), users))
                  && (result.Err? ==> NamesUnkeyed(result.error, Active(room.members), users))
                  && conversations == old(conversations)[id := record.(room := room')]
                  && topics == old(topics)[record.topic := ledger]
    {
      if id !in conversations {
        return Err(ConversationNotFound);
      }
      var record := conversations[id];
      var added := AddMember(record.room, users, newcomer, requestor, now);
      if added.Err? {
        return Err(added.error);
      }
      assert added.value == record.room.(members := added.value.members);
      hide Valid, Rotated, AddMember;
      var missing := SaveAndRotate(id, added.value.members, users, keyId, wrap, faults);
      result := if missing.Some? then Err(missing.value) else Ok(());
    }

    /** removeParticipant. It ends by showing the conversation to the requestor, which
        fails when the requestor removed themselves, after everything was saved. */
    method RemoveParticipant(id: ConversationId, target: Account, requestor: Account, users: Users,
                             keyId: KeyId, wrap: Wrap, faults: Faults) returns (result: Result<(), Error>)
      requires Valid()
      modifies this`conversations, this`topics
      ensures Valid()
      ensures id !in old(conversations) ==>
                result == Err(ConversationNotFound) && conversations == old(conversations) && topics == old(topics)
      ensures id in old(conversations) ==>
                var record := old(conversations)[id];
                match RemoveMember(record.room, target, requestor)
                case Err(error) => result == Err(error) && conversations == old(conversations) && topics == old(topics)
                case Ok(room) =>
                  var (room', ledger) := Rotated(room, old(topics)[record.topic], users, keyId, wrap, operator, faults);
                  && result == (if target == requestor then Err(NotMember(requestor)) else Ok(()))
                  && conversations == old(conversations)[id := record.(room := room')]
                  && topics == old(topics)[record.topic := ledger]
    {
      if id !in conversations {
        return Err(ConversationNotFound);
      }
      hide Valid, AllKeyed;
      var record := conversations[id];
      var removed := RemoveMember(record.room, target, requestor);
      if removed.Err? {
        return Err(removed.error);
      }
      assert removed.value == record.room.(members := removed.value.members);
      var _ := SaveAndRotate(id, removed.value.members, users, keyId, wrap, faults);
      var members := conversations[id].room.members;
      result := if requestor in members && !members[requestor].left then Ok(()) else Err(NotMember(requestor));
    }

    /** The longest-standing active member other than the leaver, if any. */
    method NextAdmin(members: Members, leaver: Account) returns (heir: Option<Account>)
      ensures heir.None? <==> Active(members) - {leaver} == {}
      ensures heir.Some? ==> IsHeir(members, leaver, heir.value)
    {
      heir := None;
      var others := Active(members) - {leaver};
      var rest := others;
      while rest != {}
        invariant rest <= others && (heir.None? <==> rest == others)
        invariant heir.Some? ==> heir.value in others
        invariant heir.Some? ==>
                    forall a :: a in others - rest ==> members[heir.value].joinedAt <= members[a].joinedAt
        decreases rest
      {
        var a :| a in rest;
        if heir.None? || members[a].joinedAt < members[heir.value].joinedAt {
          heir := Some(a);
        }
        rest := rest - {a};
      }
    }

    /** The promotion that leaveConversation makes when the last active admin leaves. */
    method PromoteHeir(members: Members, leaver: Account) returns (members': Members, heir: Option<Account>)
      requires leaver in Active(members)
      ensures heir.Some? <==> NeedsHeir(members, leaver)
      ensures heir.Some? ==> IsHeir(members, leaver, heir.value)
      ensures members' == if heir.Some? then Promoted(members, heir.value) else members
    {
      members', heir := members, None;
      if members[leaver].role == Admin {
        var otherAdmins := ActiveAdmins(members) - {leaver};
        if otherAdmins == {} {
          heir := NextAdmin(members, leaver);
          if heir.Some? {
            members' := Promoted(members, heir.value);
          }
        }
      }
    }

    /** leaveConversation: promote an heir if the last admin leaves, mark the leaver,
        rotate. `heir` is whoever was promoted. */
    method LeaveConversation(id: ConversationId, leaver: Account, users: Users, keyId: KeyId, wrap: Wrap,
                             faults: Faults)
      returns (result: Result<(), Error>, heir: Option<Account>)
      requires Valid()
      modifies this`conversations, this`topics
      ensures Valid()
      ensures id !in old(conversations) ==> result == Err(ConversationNotFound)
      ensures id in old(conversations) && leaver !in Active(old(conversations)[id].room.members) ==>
                result == Err(NotMember(leaver))
      ensures id in old(conversations) && leaver in Active(old(conversations)[id].room.members) ==>
                var record := old(conversations)[id];
                var members := record.room.members;
                && result == Ok(())
                && (heir.Some? <==> NeedsHeir(members, leaver))
                && (heir.Some? ==> IsHeir(members, leaver, heir.value))
                && var promoted := if heir.Some? then Promoted(members, heir.value) else members;
                   var (room', ledger) := Rotated(record.room.(members := Departed(promoted, leaver)),
                                                  old(topics)[record.topic], users, keyId, wrap, operator, faults);
                   && conversations == old(conversations)[id := record.(room := room')]
                   && topics == old(topics)[record.topic := ledger]
      ensures result.Err? ==> conversations == old(conversations) && topics == old(topics)
    {
      heir := None;
      if id !in conversations {
        return Err(ConversationNotFound), None;
      }
      hide Valid, Rotated, AllKeyed, NeedsHeir, IsHeir, EachTheirOwn, Promoted, Departed;
      var record := conversations[id];
      var members := record.room.members;
      if leaver !in members || members[leaver].left {
        return Err(NotMember(leaver)), None;
      }
      assert leaver in Active(members);
      hide Active, ActiveAdmins;
      var promoted;
      promoted, heir := PromoteHeir(members, leaver);
      var _ := SaveAndRotate(id, Departed(promoted, leaver), users, keyId, wrap, faults);
      result := Ok(());
    }

    /** markAsRead: the member of the topic's conversation has nothing unread any more. */
    method MarkAsRead(topic: TopicId, reader: Account)
      requires Valid()
      modifies this`conversations
      ensures Valid() && conversations.Keys == old(conversations.Keys)
      ensures forall id <- conversations ::
                conversations[id] ==
                  if old(conversations)[id].topic == topic then ReadRecord(old(conversations)[id], reader)
                                     else old(conversations)[id]
      ensures forall id <- conversations :: conversations[id].topic == topic ==>
        NothingUnread(conversations[id], reader)
    {
      var matching := set id | id in conversations && conversations[id].topic == topic;
      if matching == {} {
        forall id | id in conversations ensures conversations[id].topic != topic {
          assert id !in matching;
        }
        return;
      }
      var id :| id in matching;
      var record := conversations[id];
      ReadingLeavesNothingUnread(record, reader);
      var lastSeq := if record.lastMessageSeq > 0 then record.lastMessageSeq else Conversations.READ_ALL;
      if reader in record.room.members {
        var members := record.room.members[reader := record.room.members[reader].(lastReadSeq := lastSeq)];
        SaveRoom(id, record.room.(members := members));
      }
      assert conversations[id] == ReadRecord(record, reader);
      hide ReadRecord, NothingUnread;
    }

    /** The direct conversations in which both accounts are active. */
    method FindExistingDirectConversation(a: Account, b: Account) returns (found: Option<ConversationId>)
      ensures found.None? <==> SharedDirects(conversations, a, b) == {}
      ensures found.Some? ==> found.value in SharedDirects(conversations, a, b)
    {
      var mine := set id | id in conversations && a in Active(conversations[id].room.members);
      var shared := set id | id in mine && b in Active(conversations[id].room.members);
      var direct := set id | id in shared && conversations[id].room.kind == Direct;
      assert direct == SharedDirects(conversations, a, b);
      if direct == {} {
        return None;
      }
      var id :| id in direct;
      found := Some(id);
    }

    /** createConversation from the topic on: the key exchange, the conversation's row and
        its members' rows. */
    method Establish(founder: Account, kind: Kind, everyone: set<Account>, now: nat, id: ConversationId, topic: TopicId,
                     keys: Keys, faults: Faults)
      returns (result: Result<ConversationId, Error>)
      requires Valid() && id !in conversations && topic !in topics
      modifies this`conversations, this`topics
      ensures Valid()
      ensures result == if Succeeds(faults) then Ok(id) else Err(CreationFailed)
      ensures result.Ok? <==> id in conversations && founder in Active(conversations[id].room.members)
      ensures topics == if !faults.topicCreated then old(topics)
                        else old(topics)[topic := if faults.delivery.Lost? then []
                                                  else [Entry(operator, KeyExchange(keys.keyId, keys.bundles), None)]]
      ensures conversations ==
                if !faults.topicCreated || !faults.delivery.Delivered? || !faults.saved then old(conversations)
                else old(conversations)[id :=
                  NewRecord(topic, kind, founder, everyone - {founder}, now, faults.membersSaved, keys)]
    {
      if !faults.topicCreated {
        return Err(CreationFailed);
      }
      var exchange := Entry(operator, KeyExchange(keys.keyId, keys.bundles), None);
      topics := topics[topic := if faults.delivery.Lost? then [] else [exchange]];
      if !faults.delivery.Delivered? || !faults.saved {
        return Err(CreationFailed);
      }
      var members := if faults.membersSaved then Conversations.Founding(founder, everyone - {founder}, now) else map[];
      conversations := conversations[id := Record(topic, Room(kind, members, Some(keys)), 0)];
      result := if faults.membersSaved then Ok(id) else Err(CreationFailed);
    }

    /** createConversation. `id` and `topic` are what the id generator and the ledger
        would hand out. */
    method CreateConversation(founder: Account, kind: Kind, named: bool, others: seq<Account>, users: Users, now: nat,
                              id: ConversationId, topic: TopicId, keyId: KeyId, wrap: Wrap, faults: Faults)
      returns (result: Result<ConversationId, Error>)
      requires Valid() && id !in conversations && topic !in topics
      modifies this`conversations, this`topics
      ensures Valid()
      ensures var everyone := {founder} + set a | a in others;
              match CreationError(founder, kind, named, others, users)
              case Some(error) => result == Err(error) && conversations == old(conversations) && topics == old(topics)
              case None =>
                if kind == Direct && SharedDirects(old(conversations), founder, others[0]) != {} then
                  && result.Ok? && result.value in SharedDirects(old(conversations), founder, others[0])
                  && conversations == old(conversations) && topics == old(topics)
                else if !AllKeyed(everyone, users) then
                  && result.Err? && NamesUnkeyed(result.error, everyone, users)
                  && conversations == old(conversations) && topics == old(topics)
                else
                  && (result == if Succeeds(faults) then Ok(id) else Err(CreationFailed))
                  && topics == (if !faults.topicCreated then old(topics)
                                else old(topics)[topic := if faults.delivery.Lost? then []
                                  else [Entry(operator, KeyExchange(keyId, Bundles(everyone, users, wrap)), None)]])
                  && conversations == (if !faults.topicCreated || !faults.delivery.Delivered? || !faults.saved
                       then old(conversations)
                       else old(conversations)[id := NewRecord(topic, kind, founder, everyone - {founder}, now,
                              faults.membersSaved, Keys(keyId, Bundles(everyone, users, wrap)))])
    {
      hide AllKeyed, NamesUnkeyed, NewRecord, Bundles, IsDirectBetween, Valid;
      if kind == Group && !named {
        return Err(GroupNameRequired);
      }
      if (kind == Direct && |others| != 1) || (kind == Group && |others| < 2) || founder in others {
        return Err(InvalidParticipants);
      }
      var accounts := [founder] + others;
      for i := 0 to |accounts|
        invariant FirstUnknown(accounts, users) == FirstUnknown(accounts[i..], users)
      {
        if accounts[i] !in users {
          return Err(NoSuchParticipant(accounts[i]));
        }
      }
      AllKnown(accounts, users);
      var everyone := {founder} + set a | a in others;
      if kind == Direct {
        var existing := FindExistingDirectConversation(founder, others[0]);
        if existing.Some? {
          return Ok(existing.value);
        }
      }
      var bundles := CollectBundles(everyone, users, wrap);
      if bundles.Err? {
        return Err(bundles.error);
      }
      result := Establish(founder, kind, everyone, now, id, topic, Keys(keyId, bundles.value), faults);
    }
  }

  ghost function SharedDirects(conversations: map<ConversationId, Record>, a: Account, b: Account)
    : (shared: set<ConversationId>)
    ensures forall id :: id in shared <==>
              id in conversations && conversations[id].room.kind == Direct
              && {a, b} <= Active(conversations[id].room.members)
  {
    set id | id in conversations && IsDirectBetween(conversations[id].room, a, b)
  }

  /** The first account that is no user. */
  function FirstUnknown(accounts: seq<Account>, users: Users): Option<Account> {
    if accounts == [] then None
    else if accounts[0] !in users then Some(accounts[0])
    else FirstUnknown(accounts[1..], users)
  }

  lemma {:induction false} AllKnown(accounts: seq<Account>, users: Users)
    ensures FirstUnknown(accounts, users).None? <==> forall a :: a in accounts ==> a in users
    ensures FirstUnknown(accounts, users).Some? ==>
              FirstUnknown(accounts, users).value in accounts && FirstUnknown(accounts, users).value !in users
  {
    if accounts != [] {
      AllKnown(accounts[1..], users);
      assert accounts == [accounts[0]] + accounts[1..];
    }
  }

  /** Which validation turns a creation away: in the order of the checks, and on exactly
      these grounds. */
  lemma CreationIsRefusedIff(founder: Account, kind: Kind, named: bool, others: seq<Account>, users: Users)
    ensures var error := CreationError(founder, kind, named, others, users);
            var nameless := kind == Group && !named;
            var misfit := founder in others || |others| == 0 || (kind == Direct <==> |others| != 1);
            && (error == Some(GroupNameRequired) <==> nameless)
            && (error == Some(InvalidParticipants) <==> !nameless && misfit)
            && (error.None? <==> !nameless && !misfit && founder in users && forall a :: a in others ==> a in users)
            && (error.Some? && !nameless && !misfit ==>
                 && error.value.NoSuchParticipant? && error.value.who !in users
                 && (error.value.who == founder || (founder in users && error.value.who in others)))
  {
    AllKnown([founder] + others, users);
  }

  /** The first validation that createConversation fails, if any. */
  function CreationError(founder: Account, kind: Kind, named: bool, others: seq<Account>, users: Users)
    : (error: Option<Error>)
    ensures error.None? && kind == Direct ==> |others| == 1
  {
    if kind == Group && !named then Some(GroupNameRequired)
    else if (kind == Direct && |others| != 1) || (kind == Group && |others| < 2) || founder in others then
      Some(InvalidParticipants)
    else match FirstUnknown([founder] + others, users)
      case Some(a) => Some(NoSuchParticipant(a))
      case None => None
  }

  predicate Succeeds(faults: Faults) {
    faults.topicCreated && faults.delivery.Delivered? && faults.saved && faults.membersSaved
  }
}
