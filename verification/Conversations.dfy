/** One conversation as a whole: its topic and index, its members, and the key
    rotations that follow a member change, with failure possible at every call. */
module Conversations {
  import opened Wrappers
  import opened Ledger
  import opened MessageIndex
  import Sync = SyncProtocol
  import opened IndexCompleteness
  import opened LastMessage
  import opened Membership

  type CallId = nat

  datatype Change = ToAdd(newcomer: Account) | ToRemove(target: Account)

  /** Where one call of the services is suspended, with what it has read so far. */
  datatype Call =
    // sendMessage
    | Loaded(sender: Account, keys: Option<Keys>)            // the conversation was read
    | Cleared(sender: Account)                               // every check passed
    // addParticipant and removeParticipant
    | Admitted(change: Change)                               // the requestor was found an active admin
    | Joining(newcomer: Account, known: bool)                // the newcomer may join; had they a row?
    // leaveConversation
    | Resigning(leaver: Account)                             // an active admin wants to leave
    | Heirless(leaver: Account)                              // no other active admin was found
    | Promoting(leaver: Account, heir: Account)              // the heir was chosen
    | Going(leaver: Account)                                 // about to be marked as left
    // the rotation that follows a member change
    | Due(evenForNobody: bool)                               // the member change was saved
    | Taken(accounts: set<Account>)                          // the active members were read
    | Submitted(wrapped: Keys, taken: set<Account>)          // the new exchange is on the ledger
    // markAsRead
    | Reading(reader: Account, upTo: nat)                    // the last-message mark was read

  /** `stale` is a history variable: a member changed since the last rotation that went
      through. */
  datatype Conversation = Conversation(topic: Sync.Topic, room: Room, calls: map<CallId, Call>, stale: bool)

  datatype Step =
    | OnTopic(step: Sync.Step)
    | LoadForSend(call: CallId, sender: Account)
    | ClearSend(call: CallId)
    | InsertSend(call: CallId)
    | AskAdd(call: CallId, newcomer: Account, requestor: Account)
    | FindNewcomer(call: CallId, users: Users)
    | SaveMember(call: CallId, now: nat)
    | AskRemove(call: CallId, target: Account, requestor: Account)
    | FindTarget(call: CallId)
    | AskLeave(call: CallId, leaver: Account)
    | SeekAdmins(call: CallId)
    | ChooseHeir(call: CallId, heir: Option<Account>)
    | SaveHeir(call: CallId)
    | MarkLeft(call: CallId)
    | TakeMembers(call: CallId)
    | SubmitKeys(call: CallId, keys: Keys, payer: Account)
    | SaveKeys(call: CallId)
    | LoadForRead(call: CallId, reader: Account)
    | SaveRead(call: CallId)
    | Abandon(call: CallId)           // a check fails, or any awaited call throws
    | Restart

  const READ_ALL: nat := 9999999

  /** sendMessage's check of the keys of the conversation it read. */
  predicate HoldsBundle(keys: Option<Keys>, sender: Account) {
    keys.Some? && sender in keys.value.bundles && keys.value.bundles[sender] != ""
  }

  /** The checks of sendMessage before the row is inserted, when nothing comes in between. */
  function SendError(room: Room, sender: Account): (error: Option<Error>)
    ensures error == Some(NotMember(sender)) <==> sender !in Active(room.members)
    ensures error == Some(NoEncryptionKey(sender)) <==>
              sender in Active(room.members)
              && (room.keys.None? || sender !in room.keys.value.bundles || room.keys.value.bundles[sender] == "")
    ensures error.Some? ==> error.value in {NotMember(sender), NoEncryptionKey(sender)}
  {
    if sender !in room.members || room.members[sender].left then Some(NotMember(sender))
    else if !HoldsBundle(room.keys, sender) then Some(NoEncryptionKey(sender))
    else None
  }

  /** markAsRead: up to the last-message mark, or to a large number if that is 0. */
  function MarkedRead(members: Members, reader: Account, lastMessageSeq: nat): Members {
    if reader in members then
      members[reader := members[reader].(lastReadSeq := if lastMessageSeq > 0 then lastMessageSeq else READ_ALL)]
    else members
  }

  ghost predicate Enabled(c: Conversation, step: Step) {
    match step
    case OnTopic(s) => !s.Send? && !s.Crash? && Sync.Enabled(c.topic, s)
    case LoadForSend(call, _) => call !in c.calls
    case ClearSend(call) =>
      && call in c.calls && c.calls[call].Loaded?
      && c.calls[call].sender in Active(c.room.members) && HoldsBundle(c.calls[call].keys, c.calls[call].sender)
    case InsertSend(call) => call in c.calls && c.calls[call].Cleared?
    case AskAdd(call, _, requestor) => call !in c.calls && CheckAdmin(c.room, requestor).None?
    case FindNewcomer(call, users) =>
      && call in c.calls && c.calls[call].Admitted? && c.calls[call].change.ToAdd?
      && NewcomerError(c.room.members, users, c.calls[call].change.newcomer).None?
    case SaveMember(call, _) => call in c.calls && c.calls[call].Joining?
    case AskRemove(call, _, requestor) => call !in c.calls && CheckAdmin(c.room, requestor).None?
    case FindTarget(call) =>
      && call in c.calls && c.calls[call].Admitted? && c.calls[call].change.ToRemove?
      && c.calls[call].change.target in Active(c.room.members)
    case AskLeave(call, leaver) => call !in c.calls && leaver in Active(c.room.members)
    case SeekAdmins(call) => call in c.calls && c.calls[call].Resigning?
    case ChooseHeir(call, heir) =>
      call in c.calls && c.calls[call].Heirless? && ChosenHeir(c.room.members, c.calls[call].leaver, heir)
    case SaveHeir(call) => call in c.calls && c.calls[call].Promoting? && c.calls[call].heir in c.room.members
    case MarkLeft(call) => call in c.calls && c.calls[call].Going? && c.calls[call].leaver in c.room.members
    case TakeMembers(call) => call in c.calls && c.calls[call].Due?
    case SubmitKeys(call, keys, _) =>
      call in c.calls && c.calls[call].Taken? && keys.bundles.Keys == c.calls[call].accounts
    case SaveKeys(call) => call in c.calls && c.calls[call].Submitted?
    case LoadForRead(call, _) => call !in c.calls
    case SaveRead(call) => call in c.calls && c.calls[call].Reading?
    case Abandon(call) => call in c.calls
    case Restart => true
  }

  function Goto(c: Conversation, call: CallId, at: Call): Conversation {
    c.(calls := c.calls[call := at])
  }

  function Done(c: Conversation, call: CallId): Conversation {
    c.(calls := c.calls - {call})
  }

  function WithMembers(c: Conversation, members: Members): Conversation {
    c.(room := c.room.(members := members))
  }

  ghost function Next(c: Conversation, step: Step): Conversation
    requires Enabled(c, step)
  {
    match step
    case OnTopic(s) => c.(topic := Sync.Next(c.topic, s))
    case LoadForSend(call, sender) => Goto(c, call, Loaded(sender, c.room.keys))
    case ClearSend(call) => Goto(c, call, Cleared(c.calls[call].sender))
    case InsertSend(call) => Done(c, call).(topic := Sync.Next(c.topic, Sync.Send(c.calls[call].sender)))
    case AskAdd(call, newcomer, _) => Goto(c, call, Admitted(ToAdd(newcomer)))
    case FindNewcomer(call, _) =>
      var newcomer := c.calls[call].change.newcomer;
      Goto(c, call, Joining(newcomer, newcomer in c.room.members))
    case SaveMember(call, now) =>
      var members := Saved(c.room.members, c.calls[call].newcomer, c.calls[call].known, now);
      Goto(WithMembers(c, members), call, Due(true)).(stale := true)
    case AskRemove(call, target, _) => Goto(c, call, Admitted(ToRemove(target)))
    case FindTarget(call) => Goto(c, call, Going(c.calls[call].change.target))
    case AskLeave(call, leaver) =>
      Goto(c, call, if leaver in ActiveAdmins(c.room.members) then Resigning(leaver) else Going(leaver))
    case SeekAdmins(call) =>
      var leaver := c.calls[call].leaver;
      Goto(c, call, if ActiveAdmins(c.room.members) - {leaver} == {} then Heirless(leaver) else Going(leaver))
    case ChooseHeir(call, heir) =>
      var leaver := c.calls[call].leaver;
      Goto(c, call, if heir.Some? then Promoting(leaver, heir.value) else Going(leaver))
    case SaveHeir(call) =>
      Goto(WithMembers(c, Promoted(c.room.members, c.calls[call].heir)), call, Going(c.calls[call].leaver))
    case MarkLeft(call) =>
      Goto(WithMembers(c, Departed(c.room.members, c.calls[call].leaver)), call, Due(false)).(stale := true)
    case TakeMembers(call) =>
      if Active(c.room.members) == {} && !c.calls[call].evenForNobody then Done(c, call)
      else Goto(c, call, Taken(Active(c.room.members)))
    case SubmitKeys(call, keys, payer) =>
      Goto(c, call, Submitted(keys, c.calls[call].accounts)).(
        topic := Sync.Next(c.topic, Sync.Post(payer, KeyExchange(keys.keyId, keys.bundles))))
    case SaveKeys(call) => Done(c, call).(room := c.room.(keys := Some(c.calls[call].wrapped)), stale := false)
    case LoadForRead(call, reader) => Goto(c, call, Reading(reader, c.topic.store.lastMessageSeq))
    case SaveRead(call) =>
      Done(WithMembers(c, MarkedRead(c.room.members, c.calls[call].reader, c.calls[call].upTo)), call)
    case Abandon(call) => Done(c, call)
    case Restart => c.(topic := Sync.Next(c.topic, Sync.Crash), calls := map[])
  }

  /** The states of a run, in order. */
  ghost predicate Trace(states: seq<Conversation>, steps: seq<Step>) {
    && |states| == |steps| + 1
    && forall i :: 0 <= i < |steps| ==> Enabled(states[i], steps[i]) && states[i + 1] == Next(states[i], steps[i])
  }

  /** One more step at the end of a run. */
  lemma TraceSnoc(states: seq<Conversation>, steps: seq<Step>, step: Step)
    requires Trace(states, steps) && Enabled(states[|steps|], step)
    ensures Trace(states + [Next(states[|steps|], step)], steps + [step])
  {
    hide Enabled, Next;
  }

  // ---------------------------------------------------------------------------
  // Creation
  // ---------------------------------------------------------------------------

  function Founding(founder: Account, others: set<Account>, now: nat): Members {
    map a | a in {founder} + others :: Membership(if a == founder then Admin else Member, now, false, 0)
  }

  /** The founder administers, the others are plain members, and nobody has read anything. */
  lemma FoundingIs(founder: Account, others: set<Account>, now: nat)
    ensures var members := Founding(founder, others, now);
            && members.Keys == {founder} + others
            && Active(members) == {founder} + others && ActiveAdmins(members) == {founder}
            && forall a :: a in members ==> members[a].joinedAt == now && members[a].lastReadSeq == 0
  {
  }

  /** A conversation as createConversation leaves it: a fresh topic that holds one key
      exchange, saved with the same keys, and one membership row for each participant.
      `membersSaved` is false when the last save failed. */
  ghost function Created(kind: Kind, founder: Account, others: set<Account>, keys: Keys, payer: Account, now: nat,
                         membersSaved: bool): Conversation
  {
    Conversation(
      Sync.Next(Sync.NEW_TOPIC, Sync.Post(payer, KeyExchange(keys.keyId, keys.bundles))),
      Room(kind, if membersSaved then Founding(founder, others, now) else map[], Some(keys)),
      map[], !membersSaved)
  }

  // ---------------------------------------------------------------------------
  // The stored key is never ahead of the ledger
  // ---------------------------------------------------------------------------

  /** The key id and the bundles went out together in one exchange on this topic. */
  ghost predicate Exchanged(ledger: seq<Entry>, keys: Keys) {
    exists j :: 0 <= j < |ledger| && ledger[j].payload == KeyExchange(keys.keyId, keys.bundles)
  }

  /** Some exchange among the first `n` entries has a bundle for `a`. */
  ghost predicate KeyedBefore(ledger: seq<Entry>, n: nat, a: Account) {
    exists j :: 0 <= j < n && j < |ledger| && ledger[j].payload.KeyExchange? && a in ledger[j].payload.keys
  }

  ghost predicate KeysOnLedger(c: Conversation) {
    && (c.room.keys.Some? ==> Exchanged(c.topic.store.ledger, c.room.keys.value))
    && (forall call :: call in c.calls ==> CallOnLedger(c.topic.store.ledger, c.calls[call]))
  }

  /** A call that carries keys read or submitted them from or on this topic, and one that
      cleared its sender did so by such keys. */
  ghost predicate CallOnLedger(ledger: seq<Entry>, call: Call) {
    match call
    case Loaded(_, keys) => keys.Some? ==> Exchanged(ledger, keys.value)
    case Cleared(sender) => KeyedBefore(ledger, |ledger|, sender)
    case Submitted(wrapped, _) => Exchanged(ledger, wrapped)
    case _ => true
  }

  /** Whatever a member sends is preceded on the topic by an exchange that includes them. */
  ghost predicate SendersKeyed(st: Store) {
    && (forall r :: r in st.inflight && r < |st.rows| ==> KeyedBefore(st.ledger, |st.ledger|, st.rows[r].sender))
    && (forall j :: 0 <= j < |st.ledger| && st.ledger[j].origin.Some? && st.ledger[j].origin.value < |st.rows| ==>
         KeyedBefore(st.ledger, j, st.rows[st.ledger[j].origin.value].sender))
  }

  ghost predicate ConversationSound(c: Conversation) {
    && Sync.TopicSound(c.topic)
    && KeysOnLedger(c)
    && SendersKeyed(c.topic.store)
  }

  /** The topic step that a conversation step performs, if any. */
  ghost function TopicStep(c: Conversation, step: Step): Option<Sync.Step>
    requires Enabled(c, step)
  {
    match step
    case OnTopic(s) => Some(s)
    case InsertSend(call) => Some(Sync.Send(c.calls[call].sender))
    case SubmitKeys(_, keys, payer) => Some(Sync.Post(payer, KeyExchange(keys.keyId, keys.bundles)))
    case Restart => Some(Sync.Crash)
    case _ => None
  }

  /** A conversation run is, seen from its topic, a run of the sync protocol. */
  lemma StepProjects(c: Conversation, step: Step)
    requires Enabled(c, step)
    ensures match TopicStep(c, step)
            case None => Next(c, step).topic == c.topic
            case Some(s) => Sync.Enabled(c.topic, s) && Next(c, step).topic == Sync.Next(c.topic, s)
  {
  }

  /** Any call may fail where it is suspended, and the process may restart: what was under
      way is lost and nothing that was saved. */
  lemma AnythingMayFail(c: Conversation, call: CallId)
    ensures call in c.calls ==> Enabled(c, Abandon(call)) && Next(c, Abandon(call)) == c.(calls := c.calls - {call})
    ensures Enabled(c, Restart)
    ensures var c' := Next(c, Restart);
            && c'.calls == map[] && c'.room == c.room && c'.stale == c.stale
            && c'.topic.store == c.topic.store.(inflight := map[]) && c'.topic.workers == map[]
                && c'.topic.cursor == None
  {
  }

  /** The rotation after an add is made even when nobody is active any more; the one after
      a departure only for somebody. */
  lemma RotationStartsIff(c: Conversation, call: CallId, now: nat, call': CallId)
    requires Enabled(c, SaveMember(call, now)) && Enabled(c, MarkLeft(call'))
    ensures forall members ::
              var added := WithMembers(Next(c, SaveMember(call, now)), members);
              var departed := WithMembers(Next(c, MarkLeft(call')), members);
              && Enabled(added, TakeMembers(call)) && Enabled(departed, TakeMembers(call'))
              && call in Next(added, TakeMembers(call)).calls
              && Next(added, TakeMembers(call)).calls[call] == Taken(Active(members))
              && (call' in Next(departed, TakeMembers(call')).calls <==> Active(members) != {})
  {
    hide Saved, Departed;
  }

  lemma KeyedBeforeGrows(ledger: seq<Entry>, longer: seq<Entry>)
    requires ledger <= longer
    ensures forall n: nat, m: nat, a :: n <= m && n <= |ledger| && KeyedBefore(ledger, n, a) ==>
      KeyedBefore(longer, m, a)
    ensures forall keys :: Exchanged(ledger, keys) ==> Exchanged(longer, keys)
  {
    forall n: nat, m: nat, a | n <= m && n <= |ledger| && KeyedBefore(ledger, n, a) ensures KeyedBefore(longer, m, a) {
      var j :| 0 <= j < n && j < |ledger| && ledger[j].payload.KeyExchange? && a in ledger[j].payload.keys;
      assert longer[j] == ledger[j];
    }
    forall keys | Exchanged(ledger, keys) ensures Exchanged(longer, keys) {
      var j :| 0 <= j < |ledger| && ledger[j].payload == KeyExchange(keys.keyId, keys.bundles);
      assert longer[j] == ledger[j];
    }
  }

  lemma SendersStayKeyed(st: Store, st': Store)
    requires SendersKeyed(st) && st.ledger <= st'.ledger && |st.rows| <= |st'.rows|
    requires forall r :: 0 <= r < |st.rows| ==> st'.rows[r].sender == st.rows[r].sender
    requires forall j :: 0 <= j < |st.ledger| && st.ledger[j].origin.Some? ==> st.ledger[j].origin.value < |st.rows|
    requires forall j :: |st.ledger| <= j < |st'.ledger| && st'.ledger[j].origin.Some? ==>
               st'.ledger[j].origin.value in st.inflight && st'.ledger[j].origin.value < |st.rows|
    requires forall r :: r in st'.inflight && r < |st'.rows| ==>
               || (r in st.inflight && r < |st.rows|)
               || KeyedBefore(st.ledger, |st.ledger|, st'.rows[r].sender)
    ensures SendersKeyed(st')
  {
    KeyedBeforeGrows(st.ledger, st'.ledger);
    forall j | 0 <= j < |st'.ledger| && st'.ledger[j].origin.Some? && st'.ledger[j].origin.value < |st'.rows|
      ensures KeyedBefore(st'.ledger, j, st'.rows[st'.ledger[j].origin.value].sender)
    {
      var r := st'.ledger[j].origin.value;
      if j < |st.ledger| {
        assert st.ledger[j] == st'.ledger[j];
        assert KeyedBefore(st.ledger, j, st.rows[r].sender);
      } else {
        assert KeyedBefore(st.ledger, |st.ledger|, st.rows[r].sender);
      }
    }
  }

  lemma TopicStepKeepsSenders(t: Sync.Topic, step: Sync.Step)
    requires Sync.TopicSound(t) && SendersKeyed(t.store) && Sync.Enabled(t, step)
    requires step.Send? ==> KeyedBefore(t.store.ledger, |t.store.ledger|, step.sender)
    ensures SendersKeyed(Sync.Next(t, step).store)
    ensures t.store.ledger <= Sync.Next(t, step).store.ledger
  {
    hide KeyedBefore, HasSeq, ResolveSender;
    SendersStayKeyed(t.store, Sync.Next(t, step).store);
  }

  lemma ExchangeKeys(ledger: seq<Entry>, keys: Keys, a: Account)
    requires Exchanged(ledger, keys) && a in keys.bundles
    ensures KeyedBefore(ledger, |ledger|, a)
  {
    var j :| 0 <= j < |ledger| && ledger[j].payload == KeyExchange(keys.keyId, keys.bundles);
  }

  lemma CallsStayOnLedger(ledger: seq<Entry>, longer: seq<Entry>, calls: map<CallId, Call>)
    requires ledger <= longer && forall call :: call in calls ==> CallOnLedger(ledger, calls[call])
    ensures forall call :: call in calls ==> CallOnLedger(longer, calls[call])
  {
    KeyedBeforeGrows(ledger, longer);
    hide KeyedBefore, Exchanged;
  }

  /** What the step leaves the calls with is on the ledger as it then is. */
  lemma StepKeepsCallsOnLedger(c: Conversation, step: Step)
    requires KeysOnLedger(c) && Enabled(c, step) && TopicStep(c, step).None?
    ensures KeysOnLedger(Next(c, step))
  {
    if step.ClearSend? {
      ExchangeKeys(c.topic.store.ledger, c.calls[step.call].keys.value, c.calls[step.call].sender);
    }
    hide Exchanged, KeyedBefore, CheckAdmin, NewcomerError, ChosenHeir, MarkedRead, Saved, Promoted, Departed;
  }

  lemma TopicStepKeepsCallsOnLedger(c: Conversation, step: Step)
    requires KeysOnLedger(c) && Enabled(c, step) && TopicStep(c, step).Some?
    requires c.topic.store.ledger <= Next(c, step).topic.store.ledger
    ensures KeysOnLedger(Next(c, step))
  {
    var ledger, ledger' := c.topic.store.ledger, Next(c, step).topic.store.ledger;
    CallsStayOnLedger(ledger, ledger', c.calls);
    KeyedBeforeGrows(ledger, ledger');
    if step.SubmitKeys? {
      assert ledger'[|ledger|].payload == KeyExchange(step.keys.keyId, step.keys.bundles);
      assert Exchanged(ledger', step.keys);
    }
    hide Exchanged, KeyedBefore, Sync.Next, Sync.Enabled;
  }

  lemma StepKeepsConversationSound(c: Conversation, step: Step)
    requires ConversationSound(c) && Enabled(c, step)
    ensures ConversationSound(Next(c, step))
  {
    assert step.InsertSend? ==> CallOnLedger(c.topic.store.ledger, c.calls[step.call]);
    hide KeysOnLedger, SendersKeyed, Sync.TopicSound, Sync.Next, Sync.Enabled, Next, Enabled;
    StepProjects(c, step);
    if TopicStep(c, step).Some? {
      var s := TopicStep(c, step).value;
      Sync.StepKeepsSound(c.topic, s);
      TopicStepKeepsSenders(c.topic, s);
      TopicStepKeepsCallsOnLedger(c, step);
    } else {
      StepKeepsCallsOnLedger(c, step);
    }
  }

  /** On every run of a created conversation, at every point of every operation: the
      stored key id and bundles were submitted together on the topic before they were
      stored, and each message a member sent follows an exchange that includes them. */
  lemma {:induction false} StoredKeysAreOnTheLedger(states: seq<Conversation>, steps: seq<Step>, i: nat)
    requires Trace(states, steps) && i < |states| && ConversationSound(states[0])
    ensures ConversationSound(states[i])
  {
    if i > 0 {
      StoredKeysAreOnTheLedger(states, steps, i - 1);
      StepKeepsConversationSound(states[i - 1], steps[i - 1]);
    }
  }

  lemma CreatedIsSound(kind: Kind, founder: Account, others: set<Account>, keys: Keys, payer: Account, now: nat,
                       membersSaved: bool)
    ensures ConversationSound(Created(kind, founder, others, keys, payer, now, membersSaved))
    ensures Inv(Created(kind, founder, others, keys, payer, now, membersSaved).topic)
    ensures MarkIndexed(Created(kind, founder, others, keys, payer, now, membersSaved).topic)
    ensures OwnNumbers(Created(kind, founder, others, keys, payer, now, membersSaved).topic.store)
    ensures Created(kind, founder, others, keys, payer, now, membersSaved).topic.store.ledger ==
              [Entry(payer, KeyExchange(keys.keyId, keys.bundles), None)]
  {
    var c := Created(kind, founder, others, keys, payer, now, membersSaved);
    assert c.topic.store.ledger[0].payload == KeyExchange(keys.keyId, keys.bundles);
  }

  /** The step adopts no placeholder, or does so harmlessly. */
  ghost predicate HarmlessStep(c: Conversation, step: Step)
    requires Enabled(c, step)
  {
    step.OnTopic? ==> Harmless(c.topic, step.step)
  }

  ghost predicate HarmlessTrace(states: seq<Conversation>, steps: seq<Step>) {
    Trace(states, steps) && forall i :: 0 <= i < |steps| ==> HarmlessStep(states[i], steps[i])
  }

  /** One harmless step keeps the index complete and every number in place. */
  lemma StepKeepsIndex(c: Conversation, step: Step)
    requires Enabled(c, step) && HarmlessStep(c, step) && Inv(c.topic) && MarkIndexed(c.topic)
    ensures Inv(Next(c, step).topic) && MarkIndexed(Next(c, step).topic)
    ensures Stable(c.topic.store.rows, Next(c, step).topic.store.rows)
  {
    hide Inv, MarkIndexed, Sync.Next;
    StepProjects(c, step);
    if TopicStep(c, step).Some? {
      var s := TopicStep(c, step).value;
      StepKeepsInv(c.topic, s);
      StepKeepsMarkIndexed(c.topic, s);
    }
  }

  /** The index of a conversation is complete at every point of every harmless run. */
  lemma {:induction false} ConversationIndexIsComplete(states: seq<Conversation>, steps: seq<Step>, i: nat)
    requires HarmlessTrace(states, steps) && i < |states|
    requires Inv(states[0].topic) && MarkIndexed(states[0].topic)
    ensures Inv(states[i].topic) && MarkIndexed(states[i].topic)
    ensures Stable(states[0].topic.store.rows, states[i].topic.store.rows)
  {
    hide Inv, MarkIndexed, HarmlessStep, Next;
    if i > 0 {
      ConversationIndexIsComplete(states, steps, i - 1);
      StepKeepsIndex(states[i - 1], steps[i - 1]);
      StableTransitive(states[0].topic.store.rows, states[i - 1].topic.store.rows, states[i].topic.store.rows);
    }
  }

  ghost predicate PairedTrace(states: seq<Conversation>, steps: seq<Step>) {
    && Trace(states, steps)
    && forall i :: 0 <= i < |steps| && steps[i].OnTopic? ==> Paired(states[i].topic, steps[i].step)
  }

  lemma PairedStepKeepsOwnNumbers(c: Conversation, step: Step)
    requires Enabled(c, step) && Inv(c.topic) && OwnNumbers(c.topic.store)
    requires step.OnTopic? ==> Paired(c.topic, step.step)
    ensures HarmlessStep(c, step) && Inv(Next(c, step).topic) && OwnNumbers(Next(c, step).topic.store)
  {
    hide Inv, OwnNumbers, Harmless, Sync.Next;
    StepProjects(c, step);
    if TopicStep(c, step).Some? {
      var s := TopicStep(c, step).value;
      PairedStepIsHarmless(c.topic, s);
      StepKeepsInv(c.topic, s);
    }
  }

  /** Where each adopted message is the placeholder's own submission, every run is harmless. */
  lemma {:induction false} PairedTracesAreHarmless(states: seq<Conversation>, steps: seq<Step>, i: nat)
    requires PairedTrace(states, steps) && i < |states|
    requires Inv(states[0].topic) && OwnNumbers(states[0].topic.store)
    ensures Inv(states[i].topic) && OwnNumbers(states[i].topic.store)
    ensures forall k :: 0 <= k < i ==> HarmlessStep(states[k], steps[k])
  {
    hide Inv, OwnNumbers, HarmlessStep, Paired, Next;
    if i > 0 {
      PairedTracesAreHarmless(states, steps, i - 1);
      PairedStepKeepsOwnNumbers(states[i - 1], steps[i - 1]);
    }
  }

  /** A send with nothing in between has an effect exactly when its sender is active and
      holds a bundle of the stored key, and the topic has no placeholder. */
  lemma SendGoesThroughIff(c: Conversation, call: CallId, sender: Account)
    requires call !in c.calls
    ensures var loaded := Next(c, LoadForSend(call, sender));
            && (Enabled(loaded, ClearSend(call)) <==> SendError(c.room, sender).None?)
            && (Enabled(loaded, ClearSend(call)) ==>
                 var cleared := Next(loaded, ClearSend(call));
                 && Enabled(cleared, InsertSend(call))
                 && (Next(cleared, InsertSend(call)).topic != c.topic <==> !HasSeq(c.topic.store.rows, 0)))
  {
    if !HasSeq(c.topic.store.rows, 0) {
      assert |InsertPlaceholder(c.topic.store, sender).rows| == |c.topic.store.rows| + 1;
    }
  }

  // ---------------------------------------------------------------------------
  // The stored bundles are a set of members that was once active
  // ---------------------------------------------------------------------------

  /** The sets of active members at each point up to state `i`. */
  ghost function OnceActive(states: seq<Conversation>, i: nat): set<set<Account>> {
    set n: nat | n <= i && n < |states| :: Active(states[n].room.members)
  }

  /** The account sets that a conversation carries all lie in `known`. */
  ghost predicate KeySetsIn(c: Conversation, known: set<set<Account>>) {
    && (c.room.keys.Some? ==> c.room.keys.value.bundles.Keys in known)
    && (forall call :: call in c.calls && c.calls[call].Taken? ==> c.calls[call].accounts in known)
    && (forall call :: call in c.calls && c.calls[call].Submitted? ==> c.calls[call].wrapped.bundles.Keys in known)
  }

  lemma StepCarriesKeySets(c: Conversation, step: Step, known: set<set<Account>>)
    requires Enabled(c, step) && KeySetsIn(c, known) && Active(c.room.members) in known
    ensures KeySetsIn(Next(c, step), known)
  {
  }

  /** Even with operations interleaved, the accounts in the stored key map are the
      members that were active when the rotation that stored it read them. */
  lemma {:induction false} StoredKeysNameOnceActiveMembers(states: seq<Conversation>, steps: seq<Step>, i: nat)
    requires Trace(states, steps) && i < |states| && KeySetsIn(states[0], OnceActive(states, 0))
    ensures KeySetsIn(states[i], OnceActive(states, i))
  {
    if i > 0 {
      StoredKeysNameOnceActiveMembers(states, steps, i - 1);
      StepCarriesKeySets(states[i - 1], steps[i - 1], OnceActive(states, i - 1));
      assert OnceActive(states, i - 1) <= OnceActive(states, i);
    }
  }

  // ---------------------------------------------------------------------------
  // Admins, step by step
  // ---------------------------------------------------------------------------

  /** Someone other than the leaver administers whoever stays. */
  ghost predicate Succeeded(members: Members, leaver: Account) {
    Active(members) - {leaver} != {} ==> ActiveAdmins(members) - {leaver} != {}
  }

  /** What the save of a member and the mark of a departure must find, whatever was
      checked before, so that whoever is in the conversation has an admin. */
  ghost predicate LeavesAnAdmin(c: Conversation, step: Step)
    requires Enabled(c, step)
  {
    match step
    case SaveMember(call, _) => ActiveAdmins(c.room.members) - {c.calls[call].newcomer} != {}
    case MarkLeft(call) => Succeeded(c.room.members, c.calls[call].leaver)
    case _ => true
  }

  lemma DepartureKeepsAdminIff(members: Members, leaver: Account)
    requires leaver in members
    ensures HasAdmin(Departed(members, leaver)) <==> Succeeded(members, leaver)
  {
    DepartureRemovesOne(members, leaver);
  }

  lemma SavingKeepsAdminIff(members: Members, newcomer: Account, known: bool, now: nat)
    ensures HasAdmin(Saved(members, newcomer, known, now)) <==> ActiveAdmins(members) - {newcomer} != {}
  {
    SavingAddsOne(members, newcomer, known, now);
    assert newcomer in Active(members) + {newcomer};
  }

  lemma PromotionKeepsAdmin(members: Members, heir: Account)
    requires HasAdmin(members) && heir in members
    ensures HasAdmin(Promoted(members, heir))
  {
    PromotionKeepsActive(members, heir);
  }

  lemma MarkingKeepsActive(members: Members, reader: Account, lastMessageSeq: nat)
    ensures Active(MarkedRead(members, reader, lastMessageSeq)) == Active(members)
    ensures ActiveAdmins(MarkedRead(members, reader, lastMessageSeq)) == ActiveAdmins(members)
  {
  }

  lemma MarkingKeepsAdmin(members: Members, reader: Account, lastMessageSeq: nat)
    requires HasAdmin(members)
    ensures HasAdmin(MarkedRead(members, reader, lastMessageSeq))
  {
    MarkingKeepsActive(members, reader, lastMessageSeq);
  }

  /** With every check and every save a step of its own, a step keeps an admin exactly
      when a departure leaves one or nobody, and a newcomer finds one. */
  lemma StepKeepsAdminIff(c: Conversation, step: Step)
    requires HasAdmin(c.room.members) && Enabled(c, step)
    ensures HasAdmin(Next(c, step).room.members) <==> LeavesAnAdmin(c, step)
  {
    hide HasAdmin, CheckAdmin, NewcomerError, ChosenHeir, Saved, Promoted, Departed, MarkedRead;
    hide Sync.Next, Sync.Enabled;
    match step
    case SaveMember(call, now) => SavingKeepsAdminIff(c.room.members, c.calls[call].newcomer, c.calls[call].known, now);
    case SaveHeir(call) => PromotionKeepsAdmin(c.room.members, c.calls[call].heir);
    case MarkLeft(call) => DepartureKeepsAdminIff(c.room.members, c.calls[call].leaver);
    case SaveRead(call) => MarkingKeepsAdmin(c.room.members, c.calls[call].reader, c.calls[call].upTo);
    case _ =>
  }

  /** On every interleaving, with failure possible at every call: whoever is in the
      conversation has an admin throughout exactly when every save and every departure
      met the condition. */
  lemma RunsKeepAdminIff(states: seq<Conversation>, steps: seq<Step>)
    requires Trace(states, steps) && HasAdmin(states[0].room.members)
    ensures (forall i :: 0 <= i < |states| ==> HasAdmin(states[i].room.members)) <==>
            (forall k :: 0 <= k < |steps| ==> LeavesAnAdmin(states[k], steps[k]))
  {
    hide HasAdmin, LeavesAnAdmin, Next, Enabled;
    forall k | 0 <= k < |steps| && HasAdmin(states[k].room.members)
      ensures HasAdmin(states[k + 1].room.members) <==> LeavesAnAdmin(states[k], steps[k])
    {
      StepKeepsAdminIff(states[k], steps[k]);
    }
    var i := 0;
    while i < |steps| && LeavesAnAdmin(states[i], steps[i])
      invariant i <= |steps| && forall j :: 0 <= j <= i ==> HasAdmin(states[j].room.members)
      invariant forall j :: 0 <= j < i ==> LeavesAnAdmin(states[j], steps[j])
    {
      i := i + 1;
    }
    assert i < |steps| ==> !HasAdmin(states[i + 1].room.members);
  }

  // ---------------------------------------------------------------------------
  // Current keys, by what the rotation read
  // ---------------------------------------------------------------------------

  /** A submitted rotation wraps the key for the members it took. */
  ghost predicate WrapsTaken(c: Conversation) {
    forall call :: call in c.calls && c.calls[call].Submitted? ==>
      c.calls[call].wrapped.bundles.Keys == c.calls[call].taken
  }

  lemma StepKeepsWrapsTaken(c: Conversation, step: Step)
    requires WrapsTaken(c) && Enabled(c, step)
    ensures WrapsTaken(Next(c, step))
  {
    hide CheckAdmin, NewcomerError, ChosenHeir, Saved, Promoted, Departed, Sync.Next, Sync.Enabled, MarkedRead;
  }

  /** Unless a member change is still to be followed by a rotation that goes through,
      the stored bundles name exactly the active members. */
  ghost predicate KeysCurrent(c: Conversation) {
    !c.stale ==> c.room.keys.Some? && c.room.keys.value.bundles.Keys == Active(c.room.members)
  }

  /** The members whom the rotation took are those active when it is saved. */
  ghost predicate TookTheActive(c: Conversation, step: Step)
    requires Enabled(c, step)
  {
    step.SaveKeys? ==> c.calls[step.call].taken == Active(c.room.members)
  }

  lemma StepKeepsKeysCurrentIff(c: Conversation, step: Step)
    requires KeysCurrent(c) && WrapsTaken(c) && Enabled(c, step)
    ensures KeysCurrent(Next(c, step)) <==> TookTheActive(c, step)
  {
    hide Active, ActiveAdmins, HoldsBundle, CheckAdmin, NewcomerError, ChosenHeir, Saved, Promoted, Departed;
    hide Sync.Next, Sync.Enabled, MarkedRead;
    match step
    case SaveHeir(call) => PromotionKeepsActive(c.room.members, c.calls[call].heir);
    case SaveRead(call) => MarkingKeepsActive(c.room.members, c.calls[call].reader, c.calls[call].upTo);
    case _ =>
  }

  /** Step `j` is where the rotation that has come to step `k` in call `call` read the members. */
  ghost predicate TookAt(steps: seq<Step>, call: CallId, j: nat, k: nat)
    requires k <= |steps|
  {
    j < k && steps[j] == TakeMembers(call) && forall i :: j < i < k ==> steps[i] != TakeMembers(call)
  }

  /** What a rotation carries is what was active where it read the members. */
  ghost predicate CarriesWhatItTook(states: seq<Conversation>, steps: seq<Step>, k: nat, call: CallId)
    requires |states| == |steps| + 1 && k < |states|
  {
    call in states[k].calls && (states[k].calls[call].Taken? || states[k].calls[call].Submitted?) ==>
      exists j: nat :: TookAt(steps, call, j, k)
                       && (if states[k].calls[call].Taken? then states[k].calls[call].accounts
                           else states[k].calls[call].taken)
                          == Active(states[j].room.members)
  }

  lemma RotationStepsOnly(c: Conversation, step: Step, call: CallId)
    requires Enabled(c, step) && call in Next(c, step).calls
    ensures Next(c, step).calls[call].Taken? ==>
              || (step == TakeMembers(call) && Next(c, step).calls[call].accounts == Active(c.room.members))
              || (step != TakeMembers(call) && call in c.calls && c.calls[call] == Next(c, step).calls[call])
    ensures Next(c, step).calls[call].Submitted? ==>
              && step != TakeMembers(call) && call in c.calls
              && (c.calls[call] == Next(c, step).calls[call]
                  || (c.calls[call].Taken? && c.calls[call].accounts == Next(c, step).calls[call].taken))
  {
    hide CheckAdmin, NewcomerError, ChosenHeir, Saved, Promoted, Departed, Sync.Next, Sync.Enabled, MarkedRead, Active;
  }

  lemma {:induction false} RotationsCarryWhatTheyTook(states: seq<Conversation>, steps: seq<Step>, k: nat, call: CallId)
    requires Trace(states, steps) && k < |states| && states[0].calls == map[]
    ensures CarriesWhatItTook(states, steps, k, call)
  {
    if k > 0 && call in states[k].calls && (states[k].calls[call].Taken? || states[k].calls[call].Submitted?) {
      RotationsCarryWhatTheyTook(states, steps, k - 1, call);
      RotationStepsOnly(states[k - 1], steps[k - 1], call);
      hide Next, Enabled;
      if steps[k - 1] == TakeMembers(call) {
        assert TookAt(steps, call, k - 1, k);
      } else {
        var j: nat :| TookAt(steps, call, j, k - 1)
                      && (if states[k - 1].calls[call].Taken? then states[k - 1].calls[call].accounts
                          else states[k - 1].calls[call].taken) == Active(states[j].room.members);
        assert TookAt(steps, call, j, k);
      }
    }
  }

  /** From where a rotation read the members to where it is saved, who is active must
      have come out the same. */
  ghost predicate SameActive(states: seq<Conversation>, steps: seq<Step>, k: nat)
    requires |states| == |steps| + 1 && k < |steps|
  {
    steps[k].SaveKeys? ==>
      forall j: nat :: TookAt(steps, steps[k].call, j, k) ==>
        Active(states[j].room.members) == Active(states[k].room.members)
  }

  /** Along a run, the condition at a save is what happened since the members were read. */
  lemma TookTheActiveIff(states: seq<Conversation>, steps: seq<Step>, k: nat)
    requires Trace(states, steps) && k < |steps| && states[0].calls == map[]
    ensures TookTheActive(states[k], steps[k]) <==> SameActive(states, steps, k)
  {
    if steps[k].SaveKeys? {
      var call := steps[k].call;
      RotationsCarryWhatTheyTook(states, steps, k, call);
      assert call in states[k].calls && states[k].calls[call].Submitted?;
      var j: nat :| TookAt(steps, call, j, k) && states[k].calls[call].taken == Active(states[j].room.members);
      assert forall i: nat :: TookAt(steps, call, i, k) ==> i == j;
    }
  }

  lemma {:induction false} RunsWrapTaken(states: seq<Conversation>, steps: seq<Step>, i: nat)
    requires Trace(states, steps) && i < |states| && WrapsTaken(states[0])
    ensures WrapsTaken(states[i])
  {
    hide WrapsTaken, Next;
    if i > 0 {
      RunsWrapTaken(states, steps, i - 1);
      StepKeepsWrapsTaken(states[i - 1], steps[i - 1]);
    }
  }

  /** On every interleaving, failures included: the stored bundles are current whenever no
      rotation is owed, throughout the run, exactly when at each save whoever was active
      where that rotation read the members is active again. */
  lemma RunsKeepKeysCurrentIff(states: seq<Conversation>, steps: seq<Step>)
    requires Trace(states, steps) && states[0].calls == map[] && KeysCurrent(states[0])
    ensures (forall i :: 0 <= i < |states| ==> KeysCurrent(states[i])) <==>
            (forall k :: 0 <= k < |steps| ==> SameActive(states, steps, k))
  {
    hide KeysCurrent, SameActive, TookTheActive, Next, Enabled;
    forall k | 0 <= k < |steps| && KeysCurrent(states[k])
      ensures KeysCurrent(states[k + 1]) <==> SameActive(states, steps, k)
    {
      RunsWrapTaken(states, steps, k);
      TookTheActiveIff(states, steps, k);
      StepKeepsKeysCurrentIff(states[k], steps[k]);
    }
    var i := 0;
    while i < |steps| && SameActive(states, steps, i)
      invariant i <= |steps| && forall j :: 0 <= j <= i ==> KeysCurrent(states[j])
      invariant forall j :: 0 <= j < i ==> SameActive(states, steps, j)
    {
      i := i + 1;
    }
    assert i < |steps| ==> !KeysCurrent(states[i + 1]);
  }

  // ---------------------------------------------------------------------------
  // One membership operation at a time
  // ---------------------------------------------------------------------------

  /** The call changes members or rotates keys. */
  predicate Changes(call: Call) {
    !call.Loaded? && !call.Cleared? && !call.Reading?
  }

  /** A member change starts only when none is under way, and nobody removes themselves. */
  ghost predicate SerialStep(c: Conversation, step: Step) {
    && (step.AskAdd? || step.AskRemove? || step.AskLeave? ==>
         forall call :: call in c.calls ==> !Changes(c.calls[call]))
    && (step.AskRemove? ==> step.target != step.requestor)
  }

  ghost predicate SerialTrace(states: seq<Conversation>, steps: seq<Step>) {
    && Trace(states, steps)
    && forall i :: 0 <= i < |steps| ==> SerialStep(states[i], steps[i])
  }

  /** What the one change under way has checked still holds. */
  ghost predicate StillHolds(members: Members, call: Call) {
    match call
    case Admitted(ToAdd(_)) => ActiveAdmins(members) != {}
    case Admitted(ToRemove(target)) => ActiveAdmins(members) - {target} != {}
    case Joining(newcomer, _) => ActiveAdmins(members) - {newcomer} != {}
    case Promoting(leaver, heir) => heir in Active(members) && heir != leaver
    case Going(leaver) => Succeeded(members, leaver)
    case Taken(accounts) => accounts == Active(members)
    case Submitted(_, taken) => taken == Active(members)
    case _ => true
  }

  ghost predicate OneOperation(c: Conversation) {
    && (forall p, q :: p in c.calls && q in c.calls && Changes(c.calls[p]) && Changes(c.calls[q]) ==> p == q)
    && (forall p :: p in c.calls ==> StillHolds(c.room.members, c.calls[p]))
  }

  /** One operation at a time meets both conditions. */
  lemma SerialStepsMeetTheConditions(c: Conversation, step: Step)
    requires OneOperation(c) && Enabled(c, step)
    ensures LeavesAnAdmin(c, step) && TookTheActive(c, step)
  {
    assert step.SaveMember? || step.MarkLeft? || step.SaveKeys? ==> StillHolds(c.room.members, c.calls[step.call]);
    hide Succeeded, CheckAdmin, NewcomerError, ChosenHeir, Sync.Enabled, HoldsBundle;
  }

  /** What a call holds depends on who is active and who administers, and on nothing else. */
  lemma HoldsAlike(members: Members, members': Members, call: Call)
    requires Active(members') == Active(members) && ActiveAdmins(members') == ActiveAdmins(members)
    ensures StillHolds(members', call) <==> StillHolds(members, call)
  {
    hide Active, ActiveAdmins;
  }

  /** The calls of a step: the one it moves, and the rest, which it leaves alone. */
  lemma OnlyItsCallMoves(c: Conversation, step: Step, p: CallId)
    requires Enabled(c, step) && p in Next(c, step).calls && (!step.OnTopic? && !step.Restart? ==> p != step.call)
    ensures p in c.calls && Next(c, step).calls[p] == c.calls[p]
  {
    hide CheckAdmin, NewcomerError, ChosenHeir, Saved, Promoted, Departed, Sync.Next, Sync.Enabled, MarkedRead,
         Active, ActiveAdmins;
  }

  /** Starting and checking: the moved call holds what it found. */
  lemma CheckHolds(c: Conversation, step: Step)
    requires HasAdmin(c.room.members) && OneOperation(c) && Enabled(c, step) && SerialStep(c, step)
    requires step.AskAdd? || step.FindNewcomer? || step.AskRemove? || step.FindTarget?
    ensures step.call in Next(c, step).calls && StillHolds(c.room.members, Next(c, step).calls[step.call])
  {
    assert step.FindNewcomer? || step.FindTarget? ==> StillHolds(c.room.members, c.calls[step.call]);
    if step.AskRemove? {
      assert step.requestor in ActiveAdmins(c.room.members) - {step.target};
    } else if step.AskAdd? {
      assert step.requestor in ActiveAdmins(c.room.members);
    } else if step.FindNewcomer? {
      var newcomer := c.calls[step.call].change.newcomer;
      assert newcomer !in ActiveAdmins(c.room.members);
      assert ActiveAdmins(c.room.members) - {newcomer} == ActiveAdmins(c.room.members);
    }
    hide Active;
  }

  lemma LeaveHolds(c: Conversation, step: Step)
    requires HasAdmin(c.room.members) && OneOperation(c) && Enabled(c, step)
    requires step.AskLeave? || step.SeekAdmins? || step.ChooseHeir?
    ensures step.call in Next(c, step).calls && StillHolds(c.room.members, Next(c, step).calls[step.call])
  {
    if step.AskLeave? && step.leaver !in ActiveAdmins(c.room.members) {
      assert ActiveAdmins(c.room.members) - {step.leaver} == ActiveAdmins(c.room.members);
      assert step.leaver in Active(c.room.members);
    }
    hide Active, ActiveAdmins;
  }

  lemma HeirHolds(c: Conversation, call: CallId)
    requires OneOperation(c) && Enabled(c, SaveHeir(call))
    ensures StillHolds(Next(c, SaveHeir(call)).room.members, Going(c.calls[call].leaver))
  {
    var heir := c.calls[call].heir;
    assert StillHolds(c.room.members, c.calls[call]);
    PromotionKeepsActive(c.room.members, heir);
    assert heir in ActiveAdmins(Promoted(c.room.members, heir)) - {c.calls[call].leaver};
  }

  /** A step moves its call to where what it holds is true, and, if it changes the
      members, finds no other change under way. */
  lemma StepKeepsOneOperation(c: Conversation, step: Step)
    requires HasAdmin(c.room.members) && OneOperation(c) && Enabled(c, step) && SerialStep(c, step)
    ensures OneOperation(Next(c, step))
  {
    var c' := Next(c, step);
    forall p, q | p in c'.calls && q in c'.calls && Changes(c'.calls[p]) && Changes(c'.calls[q]) ensures p == q {
      ChangesBefore(c, step, p);
      ChangesBefore(c, step, q);
    }
    forall p | p in c'.calls ensures StillHolds(c'.room.members, c'.calls[p]) {
      if !step.OnTopic? && !step.Restart? && p == step.call {
        MovedCallHolds(c, step);
      } else {
        OtherCallHolds(c, step, p);
      }
    }
  }

  /** A call that changes something did so before, or is the one that now starts. */
  lemma ChangesBefore(c: Conversation, step: Step, p: CallId)
    requires Enabled(c, step) && p in Next(c, step).calls && Changes(Next(c, step).calls[p])
    ensures || (p in c.calls && Changes(c.calls[p]))
            || ((step.AskAdd? || step.AskRemove? || step.AskLeave?) && p == step.call)
  {
    hide CheckAdmin, NewcomerError, ChosenHeir, Saved, Promoted, Departed, Sync.Next, Sync.Enabled, MarkedRead,
         Active, ActiveAdmins;
  }

  lemma MovedCallHolds(c: Conversation, step: Step)
    requires HasAdmin(c.room.members) && OneOperation(c) && Enabled(c, step) && SerialStep(c, step)
    requires !step.OnTopic? && !step.Restart? && step.call in Next(c, step).calls
    ensures StillHolds(Next(c, step).room.members, Next(c, step).calls[step.call])
  {
    if step.AskAdd? || step.FindNewcomer? || step.AskRemove? || step.FindTarget? {
      CheckHolds(c, step);
    } else if step.AskLeave? || step.SeekAdmins? || step.ChooseHeir? {
      LeaveHolds(c, step);
    } else if step.SaveHeir? {
      HeirHolds(c, step.call);
    } else {
      assert step.SubmitKeys? ==> StillHolds(c.room.members, c.calls[step.call]);
    }
    hide StillHolds, CheckAdmin, NewcomerError, ChosenHeir, Saved, Promoted, Departed, Sync.Next, Sync.Enabled,
         MarkedRead;
    hide HasAdmin, OneOperation, ActiveAdmins;
  }

  lemma OtherCallHolds(c: Conversation, step: Step, p: CallId)
    requires OneOperation(c) && Enabled(c, step) && p in Next(c, step).calls
    requires !step.OnTopic? && !step.Restart? ==> p != step.call
    ensures StillHolds(Next(c, step).room.members, Next(c, step).calls[p])
  {
    OnlyItsCallMoves(c, step, p);
    var members, members' := c.room.members, Next(c, step).room.members;
    assert StillHolds(members, c.calls[p]);
    if step.SaveMember? || step.SaveHeir? || step.MarkLeft? {
      assert Changes(c.calls[step.call]) && !Changes(c.calls[p]);
    } else {
      assert Active(members') == Active(members) && ActiveAdmins(members') == ActiveAdmins(members) by {
        if step.SaveRead? {
          MarkingKeepsActive(members, c.calls[step.call].reader, c.calls[step.call].upTo);
        }
      }
      HoldsAlike(members, members', c.calls[p]);
    }
  }

  lemma {:induction false} SerialTracesMeetTheConditions(states: seq<Conversation>, steps: seq<Step>, i: nat)
    requires SerialTrace(states, steps) && i < |states|
    requires HasAdmin(states[0].room.members) && OneOperation(states[0])
    ensures HasAdmin(states[i].room.members) && OneOperation(states[i])
    ensures forall k :: 0 <= k < i ==> LeavesAnAdmin(states[k], steps[k]) && TookTheActive(states[k], steps[k])
  {
    hide HasAdmin, OneOperation, LeavesAnAdmin, TookTheActive, SerialStep, Next;
    if i > 0 {
      SerialTracesMeetTheConditions(states, steps, i - 1);
      SerialStepsMeetTheConditions(states[i - 1], steps[i - 1]);
      StepKeepsAdminIff(states[i - 1], steps[i - 1]);
      StepKeepsOneOperation(states[i - 1], steps[i - 1]);
    }
  }

  /** On every serial run, with failure possible at every call: whoever is in the
      conversation has an admin, and whenever the last member change was followed by
      a rotation that went through, the stored key map names exactly the active
      members. */
  lemma SerialRunsKeepAdminsAndKeys(states: seq<Conversation>, steps: seq<Step>, i: nat)
    requires SerialTrace(states, steps) && i < |states| && states[0].calls == map[]
    requires HasAdmin(states[0].room.members) && KeysCurrent(states[0])
    ensures HasAdmin(states[i].room.members) && KeysCurrent(states[i])
  {
    assert OneOperation(states[0]);
    hide HasAdmin, OneOperation, KeysCurrent, LeavesAnAdmin, TookTheActive, SameActive, SerialStep, Next;
    SerialTracesMeetTheConditions(states, steps, |steps|);
    RunsKeepAdminIff(states, steps);
    forall k | 0 <= k < |steps| ensures SameActive(states, steps, k) {
      TookTheActiveIff(states, steps, k);
    }
    RunsKeepKeysCurrentIff(states, steps);
  }

  lemma CreatedIsSerial(kind: Kind, founder: Account, others: set<Account>, keys: Keys, payer: Account, now: nat,
                        membersSaved: bool)
    requires keys.bundles.Keys == {founder} + others
    ensures var c := Created(kind, founder, others, keys, payer, now, membersSaved);
            HasAdmin(c.room.members) && KeysCurrent(c) && c.calls == map[]
    ensures membersSaved ==>
              var c := Created(kind, founder, others, keys, payer, now, true);
              KeySetsIn(c, {Active(c.room.members)})
  {
    var c := Created(kind, founder, others, keys, payer, now, membersSaved);
    if membersSaved {
      assert Active(c.room.members) == {founder} + others;
      assert founder in ActiveAdmins(c.room.members);
    } else {
      assert Active(c.room.members) == {};
    }
  }

  // ---------------------------------------------------------------------------
  // Runs that the separate steps allow
  // ---------------------------------------------------------------------------

  ghost predicate Moves(c: Conversation, step: Step, next: Conversation) {
    Enabled(c, step) && Next(c, step) == next
  }

  lemma MovesMakeATrace(states: seq<Conversation>, steps: seq<Step>)
    requires |states| == |steps| + 1 && forall i :: 0 <= i < |steps| ==> Moves(states[i], steps[i], states[i + 1])
    ensures Trace(states, steps)
  {
    hide Enabled, Next;
    forall i | 0 <= i < |steps| ensures Enabled(states[i], steps[i]) && states[i + 1] == Next(states[i], steps[i]) {
      assert Moves(states[i], steps[i], states[i + 1]);
    }
  }

  lemma FourMoves(c0: Conversation, s0: Step, c1: Conversation, s1: Step, c2: Conversation, s2: Step, c3: Conversation,
                  s3: Step, c4: Conversation)
    requires Moves(c0, s0, c1) && Moves(c1, s1, c2) && Moves(c2, s2, c3) && Moves(c3, s3, c4)
    ensures Trace([c0, c1, c2, c3, c4], [s0, s1, s2, s3])
  {
    hide Moves;
    MovesMakeATrace([c0, c1, c2, c3, c4], [s0, s1, s2, s3]);
  }

  /** Two more steps at the end of a run. */
  lemma TwoMore(states: seq<Conversation>, steps: seq<Step>, s: Step, s': Step)
    requires Trace(states, steps) && Enabled(states[|steps|], s) && Enabled(Next(states[|steps|], s), s')
    ensures var mid := Next(states[|steps|], s);
            Trace(states + [mid, Next(mid, s')], steps + [s, s'])
  {
    var mid := Next(states[|steps|], s);
    TraceSnoc(states, steps, s);
    hide Enabled, Next;
    TraceSnoc(states + [mid], steps + [s], s');
    assert states + [mid] + [Next(mid, s')] == states + [mid, Next(mid, s')];
    assert steps + [s] + [s'] == steps + [s, s'];
  }

  lemma AsksToLeave(c: Conversation, call: CallId, leaver: Account)
    requires call !in c.calls && leaver in ActiveAdmins(c.room.members)
    ensures Moves(c, AskLeave(call, leaver), Goto(c, call, Resigning(leaver)))
  {
  }

  lemma SeesAnotherAdmin(c: Conversation, call: CallId, leaver: Account, other: Account)
    requires call in c.calls && c.calls[call] == Resigning(leaver)
    requires other in ActiveAdmins(c.room.members) && other != leaver
    ensures Moves(c, SeekAdmins(call), Goto(c, call, Going(leaver)))
  {
    assert other in ActiveAdmins(c.room.members) - {leaver};
  }

  lemma SeesNoOther(c: Conversation, call: CallId, leaver: Account)
    requires call in c.calls && c.calls[call] == Resigning(leaver)
    requires ActiveAdmins(c.room.members) - {leaver} == {}
    ensures Moves(c, SeekAdmins(call), Goto(c, call, Heirless(leaver)))
  {
  }

  lemma ChoosesNobody(c: Conversation, call: CallId, leaver: Account)
    requires call in c.calls && c.calls[call] == Heirless(leaver) && Active(c.room.members) - {leaver} == {}
    ensures Moves(c, ChooseHeir(call, None), Goto(c, call, Going(leaver)))
  {
  }

  lemma AsksAnAdmin(c: Conversation, call: CallId, account: Account, requestor: Account)
    requires call !in c.calls && c.room.kind == Group && requestor in ActiveAdmins(c.room.members)
    ensures Moves(c, AskRemove(call, account, requestor), Goto(c, call, Admitted(ToRemove(account))))
    ensures Moves(c, AskAdd(call, account, requestor), Goto(c, call, Admitted(ToAdd(account))))
  {
  }

  lemma FindsTheTarget(c: Conversation, call: CallId, target: Account)
    requires call in c.calls && c.calls[call] == Admitted(ToRemove(target)) && target in Active(c.room.members)
    ensures Moves(c, FindTarget(call), Goto(c, call, Going(target)))
  {
  }

  lemma FindsANewcomer(c: Conversation, call: CallId, newcomer: Account, users: Users)
    requires call in c.calls && c.calls[call] == Admitted(ToAdd(newcomer)) && newcomer !in c.room.members
    requires newcomer in users && users[newcomer].publicKey.Some?
    ensures Moves(c, FindNewcomer(call, users), Goto(c, call, Joining(newcomer, false)))
  {
  }

  /** Two departures that were both found to leave the other admin behind. */
  lemma BothDepart(c: Conversation, a: Account, b: Account, member: Account)
    requires ActiveAdmins(c.room.members) == {a, b} && Active(c.room.members) == {a, b, member} && member !in {a, b}
    requires a != b && 0 in c.calls && 1 in c.calls && c.calls[0] == Going(a) && c.calls[1] == Going(b)
    ensures Enabled(c, MarkLeft(0)) && Enabled(Next(c, MarkLeft(0)), MarkLeft(1))
    ensures !HasAdmin(Next(Next(c, MarkLeft(0)), MarkLeft(1)).room.members)
  {
    assert a in Active(c.room.members) && b in Active(c.room.members);
    DepartureRemovesOne(c.room.members, a);
    DepartureRemovesOne(Departed(c.room.members, a), b);
    assert member in Active(Next(Next(c, MarkLeft(0)), MarkLeft(1)).room.members);
  }

  /** Two admins who leave at once each see the other and promote nobody: the group
      is left without an admin. */
  lemma ConcurrentLeavesOrphanAGroup(c: Conversation, a: Account, b: Account, member: Account)
    returns (states: seq<Conversation>)
    requires ActiveAdmins(c.room.members) == {a, b} && a != b
    requires Active(c.room.members) == {a, b, member} && member !in {a, b} && c.calls == map[]
    ensures var steps := [AskLeave(0, a), AskLeave(1, b), SeekAdmins(0), SeekAdmins(1), MarkLeft(0), MarkLeft(1)];
            && Trace(states, steps) && states[0] == c && |states| == 7
            && !HasAdmin(states[6].room.members)
  {
    hide Moves, HasAdmin, Active, ActiveAdmins, Next, Enabled;
    var steps := [AskLeave(0, a), AskLeave(1, b), SeekAdmins(0), SeekAdmins(1), MarkLeft(0), MarkLeft(1)];
    var c1 := Goto(c, 0, Resigning(a));
    var c2 := Goto(c1, 1, Resigning(b));
    var c3 := Goto(c2, 0, Going(a));
    var c4 := Goto(c3, 1, Going(b));
    AsksToLeave(c, 0, a);
    AsksToLeave(c1, 1, b);
    SeesAnotherAdmin(c2, 0, a, b);
    SeesAnotherAdmin(c3, 1, b, a);
    BothDepart(c4, a, b, member);
    FourMoves(c, steps[0], c1, steps[1], c2, steps[2], c3, steps[3], c4);
    hide Goto, Trace;
    TwoMore([c, c1, c2, c3, c4], steps[..4], MarkLeft(0), MarkLeft(1));
    assert steps == steps[..4] + [MarkLeft(0), MarkLeft(1)];
    var c5 := Next(c4, MarkLeft(0));
    states := [c, c1, c2, c3, c4] + [c5, Next(c5, MarkLeft(1))];
  }

  /** Two admins who remove each other: both checks come before both departures, each
      requestor is someone else than their target, and nobody is left to administer. */
  lemma MutualRemovalOrphansAGroup(c: Conversation, a: Account, b: Account, member: Account)
    returns (states: seq<Conversation>)
    requires ActiveAdmins(c.room.members) == {a, b} && a != b && c.room.kind == Group
    requires Active(c.room.members) == {a, b, member} && member !in {a, b} && c.calls == map[]
    ensures var steps := [AskRemove(0, b, a), AskRemove(1, a, b), FindTarget(0), FindTarget(1),
                          MarkLeft(0), MarkLeft(1)];
            && Trace(states, steps) && states[0] == c && |states| == 7
            && !HasAdmin(states[6].room.members)
  {
    hide Moves, HasAdmin, Active, ActiveAdmins, Next, Enabled;
    var steps := [AskRemove(0, b, a), AskRemove(1, a, b), FindTarget(0), FindTarget(1), MarkLeft(0), MarkLeft(1)];
    var c1 := Goto(c, 0, Admitted(ToRemove(b)));
    var c2 := Goto(c1, 1, Admitted(ToRemove(a)));
    var c3 := Goto(c2, 0, Going(b));
    var c4 := Goto(c3, 1, Going(a));
    AsksAnAdmin(c, 0, b, a);
    AsksAnAdmin(c1, 1, a, b);
    FindsTheTarget(c2, 0, b);
    FindsTheTarget(c3, 1, a);
    BothDepart(c4, b, a, member);
    FourMoves(c, steps[0], c1, steps[1], c2, steps[2], c3, steps[3], c4);
    hide Goto, Trace;
    TwoMore([c, c1, c2, c3, c4], steps[..4], MarkLeft(0), MarkLeft(1));
    assert steps == steps[..4] + [MarkLeft(0), MarkLeft(1)];
    var c5 := Next(c4, MarkLeft(0));
    states := [c, c1, c2, c3, c4] + [c5, Next(c5, MarkLeft(1))];
  }

  /** A leave of the only member and admin, up to its departure, while an add waits to save
      the newcomer's row. */
  lemma LeaveDuringAnAdd(c: Conversation, a: Account, newcomer: Account, users: Users)
    returns (states: seq<Conversation>)
    requires ActiveAdmins(c.room.members) == Active(c.room.members) == {a} && c.room.kind == Group && c.calls == map[]
    requires newcomer !in c.room.members && newcomer in users && users[newcomer].publicKey.Some?
    ensures Trace(states, [AskAdd(0, newcomer, a), FindNewcomer(0, users), AskLeave(1, a), SeekAdmins(1),
                           ChooseHeir(1, None)])
    ensures states[0] == c && states[5].room == c.room
    ensures 0 in states[5].calls && states[5].calls[0] == Joining(newcomer, false)
    ensures 1 in states[5].calls && states[5].calls[1] == Going(a)
  {
    hide Active, ActiveAdmins, Moves, Enabled, Next;
    var c1 := Goto(c, 0, Admitted(ToAdd(newcomer)));
    var c2 := Goto(c1, 0, Joining(newcomer, false));
    var c3 := Goto(c2, 1, Resigning(a));
    var c4 := Goto(c3, 1, Heirless(a));
    var c5 := Goto(c4, 1, Going(a));
    AsksAnAdmin(c, 0, newcomer, a);
    FindsANewcomer(c1, 0, newcomer, users);
    AsksToLeave(c2, 1, a);
    SeesNoOther(c3, 1, a);
    ChoosesNobody(c4, 1, a);
    states := [c, c1, c2, c3, c4, c5];
    MovesMakeATrace(states, [AskAdd(0, newcomer, a), FindNewcomer(0, users), AskLeave(1, a), SeekAdmins(1),
                             ChooseHeir(1, None)]);
  }

  /** An add whose requestor, alone and the only admin, leaves before the newcomer's row
      is saved: the newcomer is a plain member of a group that nobody administers. */
  lemma AddAfterTheLastAdminLeft(c: Conversation, a: Account, newcomer: Account, users: Users, now: nat)
    returns (states: seq<Conversation>)
    requires ActiveAdmins(c.room.members) == Active(c.room.members) == {a} && c.room.kind == Group && c.calls == map[]
    requires newcomer !in c.room.members && newcomer in users && users[newcomer].publicKey.Some?
    ensures var steps := [AskAdd(0, newcomer, a), FindNewcomer(0, users), AskLeave(1, a), SeekAdmins(1),
                          ChooseHeir(1, None), MarkLeft(1), SaveMember(0, now)];
            && Trace(states, steps) && states[0] == c && |states| == 8
            && !HasAdmin(states[7].room.members)
  {
    hide HasAdmin, Active, ActiveAdmins, Enabled, Next;
    var first := [AskAdd(0, newcomer, a), FindNewcomer(0, users), AskLeave(1, a), SeekAdmins(1), ChooseHeir(1, None)];
    var begun := LeaveDuringAnAdd(c, a, newcomer, users);
    AddAfterDeparture(begun[5], a, newcomer, now);
    TwoMore(begun, first, MarkLeft(1), SaveMember(0, now));
    hide Trace;
    var c6 := Next(begun[5], MarkLeft(1));
    states := begun + [c6, Next(c6, SaveMember(0, now))];
    assert first + [MarkLeft(1), SaveMember(0, now)] ==
           [AskAdd(0, newcomer, a), FindNewcomer(0, users), AskLeave(1, a), SeekAdmins(1),
            ChooseHeir(1, None), MarkLeft(1), SaveMember(0, now)];
  }

  lemma AddAfterDeparture(c: Conversation, a: Account, newcomer: Account, now: nat)
    requires ActiveAdmins(c.room.members) == Active(c.room.members) == {a}
    requires 0 in c.calls && 1 in c.calls && c.calls[0] == Joining(newcomer, false) && c.calls[1] == Going(a)
    ensures Enabled(c, MarkLeft(1)) && Enabled(Next(c, MarkLeft(1)), SaveMember(0, now))
    ensures var c1 := Next(c, MarkLeft(1));
            Moves(c, MarkLeft(1), c1) && Moves(c1, SaveMember(0, now), Next(c1, SaveMember(0, now)))
    ensures !HasAdmin(Next(Next(c, MarkLeft(1)), SaveMember(0, now)).room.members)
  {
    assert a in Active(c.room.members);
    DepartureRemovesOne(c.room.members, a);
    SavingKeepsAdminIff(Departed(c.room.members, a), newcomer, false, now);
  }

  /** A rotation that read the members before a removal and is saved after it: the stored
      bundles still name the one who was removed. */
  lemma OverlappingRotationsSaveOldKeys(c: Conversation, late: CallId, call: CallId, target: Account,
                                        requestor: Account)
    requires late in c.calls && c.calls[late].Submitted? && WrapsTaken(c)
    requires c.calls[late].taken == Active(c.room.members)
    requires call !in c.calls && RemoveMember(c.room, target, requestor).Ok?
    ensures var steps := [AskRemove(call, target, requestor), FindTarget(call), MarkLeft(call), SaveKeys(late)];
            exists states: seq<Conversation> :: Trace(states, steps) && states[0] == c && !KeysCurrent(states[4])
  {
    var steps := [AskRemove(call, target, requestor), FindTarget(call), MarkLeft(call), SaveKeys(late)];
    DepartureRemovesOne(c.room.members, target);
    AsksAnAdmin(c, call, target, requestor);
    var c1 := Goto(c, call, Admitted(ToRemove(target)));
    FindsTheTarget(c1, call, target);
    var c2 := Goto(c1, call, Going(target));
    assert target in Active(c.room.members) && late != call;
    hide Active, ActiveAdmins, CheckAdmin, Departed;
    var c3 := Goto(WithMembers(c2, Departed(c2.room.members, target)), call, Due(false)).(stale := true);
    assert Moves(c2, MarkLeft(call), c3);
    var c4 := Next(c3, SaveKeys(late));
    assert Moves(c3, SaveKeys(late), c4);
    assert !KeysCurrent(c4);
    hide Moves, KeysCurrent;
    MovesMakeATrace([c, c1, c2, c3, c4], steps);
  }
}
