/** The messaging service and the sync service with their state in fields, proved
    against the index functions. */
module MessagingService {
  import opened Wrappers
  import opened Ledger
  import opened MessageIndex
  import opened SyncProtocol
  import opened Membership
  import Conversations

  type TopicId = string

  /** What the Mirror Node answers with when asked about a topic. */
  datatype Mirror = Unreachable | Serving(visible: nat)

  /** The end of the batch that the Mirror Node returns after `after`. */
  function ServedTo(mirror: Mirror, st: Store, after: nat): (upto: nat)
    requires mirror.Serving?
    ensures after <= upto <= after + MIRROR_NODE_BATCH_SIZE
    ensures after == upto || (upto <= |st.ledger| && upto <= mirror.visible)
    ensures upto < after + MIRROR_NODE_BATCH_SIZE ==> upto >= |st.ledger| || upto >= mirror.visible
  {
    BatchEnd(if mirror.visible < |st.ledger| then mirror.visible else |st.ledger|, after)
  }

  /** The tables after one sync of `topic` from `from`: unchanged when the topic is
      unknown or the Mirror Node unreachable. */
  function AfterSync(stores: map<TopicId, Store>, topic: TopicId, from: nat, mirror: Mirror): map<TopicId, Store> {
    if topic in stores && mirror.Serving? then
      stores[topic := SyncBatch(stores[topic], from, ServedTo(mirror, stores[topic], from))]
    else stores
  }

  /** How far that sync got; None when it threw. */
  function SyncedTo(stores: map<TopicId, Store>, topic: TopicId, from: nat, mirror: Mirror): Option<nat> {
    if topic in stores && mirror.Serving? then Some(ServedTo(mirror, stores[topic], from)) else None
  }

  ghost predicate AllDistinct(stores: map<TopicId, Store>) {
    forall topic :: topic in stores ==> Distinct(stores[topic].rows)
  }

  /** One pass of the loop of syncFromMirrorNode: skip the message, adopt its sender's
      placeholder, or insert a row. */
  method IndexMessage(rows: seq<Row>, ledger: seq<Entry>, seqNo: nat) returns (rows': seq<Row>, isNew: bool)
    requires 0 < seqNo <= |ledger|
    ensures rows' == IndexOne(rows, ledger, seqNo) && isNew == !HasSeq(rows, seqNo)
  {
    rows', isNew := rows, !HasSeq(rows, seqNo);
    if isNew {
      var message := EntryAt(ledger, seqNo);
      var pending := PendingOf(rows, ResolveSender(message));
      if pending.Some? {
        rows' := rows[pending.value := rows[pending.value].(seqNo := seqNo)];
      } else {
        rows' := rows + [Row(seqNo, ResolveSender(message), DetectKind(message))];
      }
    }
  }

  /** The loop of syncFromMirrorNode over one fetched batch, and the mark it leaves. */
  method IndexBatch(st: Store, after: nat, upto: nat) returns (st': Store, maxSequence: nat)
    requires Distinct(st.rows) && after <= upto && (after == upto || upto <= |st.ledger|)
    ensures st' == SyncBatch(st, after, upto) && maxSequence == upto
    ensures Distinct(st'.rows)
  {
    hide IndexOne, Distinct, Stable;
    var rows := st.rows;
    maxSequence := after;
    var newCount := 0;
    while maxSequence < upto
      invariant after <= maxSequence <= upto
      invariant Distinct(rows) && rows == IndexRange(st.rows, st.ledger, after, maxSequence)
      invariant newCount == Missing(st.rows, after, maxSequence)
    {
      SyncIndexesItsBatch(st.rows, st.ledger, after, maxSequence);
      IndexOneIsStable(rows, st.ledger, maxSequence + 1);
      var isNew;
      rows, isNew := IndexMessage(rows, st.ledger, maxSequence + 1);
      if isNew {
        newCount := newCount + 1;
      }
      maxSequence := maxSequence + 1;
    }
    var last := if newCount > 0 && maxSequence > st.lastMessageSeq then maxSequence else st.lastMessageSeq;
    st' := st.(rows := rows, lastMessageSeq := last);
  }

  /** The tables and the topics the service works on. `stores` has each topic's index
      rows and contents, `rooms` its conversation and membership rows. */
  class Messaging {
    var stores: map<TopicId, Store>
    var rooms: map<TopicId, Room>

    ghost predicate Valid()
      reads this
    {
      stores.Keys == rooms.Keys && AllDistinct(stores)
    }

    constructor ()
      ensures Valid() && stores == map[] && rooms == map[]
    {
      stores, rooms := map[], map[];
    }

    /** sendMessage up to the saved placeholder and the started submission. */
    method SendMessage(sender: Account, topic: TopicId) returns (result: Result<RowId, Error>)
      requires Valid()
      modifies this`stores
      ensures Valid() && stores.Keys == old(stores.Keys)
      ensures topic !in rooms ==> result == Err(ConversationNotFound)
      ensures topic in rooms && Conversations.SendError(rooms[topic], sender).Some? ==>
                result == Err(Conversations.SendError(rooms[topic], sender).value)
      ensures topic in rooms && Conversations.SendError(rooms[topic], sender).None? ==>
                result == (if HasSeq(old(stores)[topic].rows, 0) then Err(DuplicateRow)
                    else Ok(|old(stores)[topic].rows|))
      ensures stores == if result.Ok? then old(stores)[topic := InsertPlaceholder(old(stores)[topic], sender)]
                        else old(stores)
    {
      if topic !in rooms {
        return Err(ConversationNotFound);
      }
      var room := rooms[topic];
      if sender !in room.members || room.members[sender].left {
        return Err(NotMember(sender));
      }
      if room.keys.None? || sender !in room.keys.value.bundles || room.keys.value.bundles[sender] == "" {
        return Err(NoEncryptionKey(sender));
      }
      var st := stores[topic];
      var saved := InsertRow(st.rows, Row(0, sender, "message"));
      if saved.None? {
        return Err(DuplicateRow);
      }
      var id := |st.rows|;
      WritesKeepDistinct(st.rows);
      stores := stores[topic := st.(rows := saved.value, inflight := st.inflight[id := Unlanded])];
      result := Ok(id);
    }

    /** The continuation that runs when a submission is confirmed. */
    method ConfirmSubmission(topic: TopicId, id: RowId)
      requires Valid() && topic in stores
      requires id in stores[topic].inflight && stores[topic].inflight[id].Landed? && id < |stores[topic].rows|
      modifies this`stores
      ensures Valid()
      ensures stores == old(stores)[topic := MessageIndex.Confirm(old(stores)[topic], id)]
    {
      var st := stores[topic];
      var updated := UpdateSeq(st.rows, id, st.inflight[id].seqNo);
      var rows := if updated.Some? then updated.value else st.rows;
      WritesKeepDistinct(st.rows);
      stores := stores[topic := st.(rows := rows, inflight := st.inflight - {id})];
    }

    /** Fetch one batch after `after` and index it, message by message. */
    method SyncFromMirrorNode(topic: TopicId, after: nat, mirror: Mirror) returns (result: Result<nat, Error>)
      requires Valid()
      modifies this`stores
      ensures Valid() && stores == AfterSync(old(stores), topic, after, mirror)
      ensures match SyncedTo(old(stores), topic, after, mirror)
              case Some(upto) => result == Ok(upto)
              case None => result == Err(if topic in rooms then SyncFailed else ConversationNotFound)
    {
      if topic !in rooms {
        return Err(ConversationNotFound);
      }
      if mirror.Unreachable? {
        return Err(SyncFailed);
      }
      var st := stores[topic];
      var st', maxSequence := IndexBatch(st, after, ServedTo(mirror, st, after));
      stores := stores[topic := st'];
      result := Ok(maxSequence);
    }

    /** The highest indexed sequence number of a topic, 0 when it has none. */
    method GetLastSyncedSequence(topic: TopicId) returns (last: nat)
      ensures last == if topic in stores then MaxSeq(stores[topic].rows) else 0
    {
      last := 0;
      if topic in stores {
        var rows := stores[topic].rows;
        for i := 0 to |rows|
          invariant last == MaxSeq(rows[..i])
        {
          assert rows[..i + 1][..i] == rows[..i];
          if rows[i].seqNo > last {
            last := rows[i].seqNo;
          }
        }
        assert rows[..|rows|] == rows;
      }
    }
  }

  // ---------------------------------------------------------------------------
  // MessageSyncService
  // ---------------------------------------------------------------------------

  /** The cursor a sync starts from: the cached one, or the database's. */
  function StartCursor(cursors: map<TopicId, nat>, stores: map<TopicId, Store>, topic: TopicId): (from: nat)
    ensures topic in cursors ==> from == cursors[topic]
    ensures topic !in cursors && topic in stores ==>
              && (from == 0 || HasSeq(stores[topic].rows, from))
              && forall row :: row in stores[topic].rows ==> row.seqNo <= from
    ensures topic !in cursors && topic !in stores ==> from == 0
  {
    if topic in cursors then cursors[topic]
    else if topic in stores then MaxSeq(stores[topic].rows)
    else 0
  }

  class MessageSync {
    const messaging: Messaging
    var lastSyncedSequences: map<TopicId, nat>
    var events: seq<(TopicId, Synced)>

    ghost predicate Valid()
      reads this, messaging
    {
      messaging.Valid()
    }

    constructor (messaging: Messaging)
      requires messaging.Valid()
      ensures Valid() && this.messaging == messaging && lastSyncedSequences == map[] && events == []
    {
      this.messaging := messaging;
      lastSyncedSequences, events := map[], [];
    }

    /** Sync one topic from its cursor. The cursor is cached even when the sync then
        fails; it moves, and one event goes out, when the sync got further. */
    method SyncConversation(topic: TopicId, mirror: Mirror)
      requires Valid()
      modifies this`lastSyncedSequences, this`events, messaging`stores
      ensures Valid()
      ensures var from := StartCursor(old(lastSyncedSequences), old(messaging.stores), topic);
              && messaging.stores == AfterSync(old(messaging.stores), topic, from, mirror)
              && match SyncedTo(old(messaging.stores), topic, from, mirror)
                 case Some(upto) =>
                   && lastSyncedSequences == old(lastSyncedSequences)[topic := upto]
                   && events == old(events) + SyncEvents(topic, from, Some(upto))
                 case None =>
                   && lastSyncedSequences == old(lastSyncedSequences)[topic := from]
                   && events == old(events)
    {
      hide AfterSync, AllDistinct, MaxSeq;
      var lastSequence := 0;
      if topic in lastSyncedSequences {
        lastSequence := lastSyncedSequences[topic];
      } else {
        lastSequence := messaging.GetLastSyncedSequence(topic);
        lastSyncedSequences := lastSyncedSequences[topic := lastSequence];
      }
      assert old(lastSyncedSequences)[topic := lastSequence] == lastSyncedSequences;
      var newLast := messaging.SyncFromMirrorNode(topic, lastSequence, mirror);
      if newLast.Ok? {
        if newLast.value > lastSequence {
          lastSyncedSequences := lastSyncedSequences[topic := newLast.value];
          events := events + [(topic, Synced(lastSequence, newLast.value))];
        }
      }
    }

    /** The scheduled job: sync every conversation in turn; one that fails does not
        stop the next. */
    method SyncAllConversations(topics: seq<TopicId>, mirrors: map<TopicId, Mirror>)
      requires Valid()
      requires forall i :: 0 <= i < |topics| ==> topics[i] in mirrors
      modifies this`lastSyncedSequences, this`events, messaging`stores
      ensures Valid()
      ensures var all := AllSynced(old(messaging.stores), old(lastSyncedSequences), topics, mirrors);
              messaging.stores == all.0 && lastSyncedSequences == all.1 && events == old(events) + all.2
    {
      for n := 0 to |topics|
        invariant Valid()
        invariant var all := AllSynced(old(messaging.stores), old(lastSyncedSequences), topics[..n], mirrors);
                  messaging.stores == all.0 && lastSyncedSequences == all.1 && events == old(events) + all.2
      {
        assert topics[..n + 1][..n] == topics[..n];
        SyncConversation(topics[n], mirrors[topics[n]]);
      }
      assert topics[..|topics|] == topics;
    }
  }

  /** The event of one sync, if it got further. */
  function SyncEvents(topic: TopicId, from: nat, upto: Option<nat>): seq<(TopicId, Synced)> {
    if upto.Some? && upto.value > from then [(topic, Synced(from, upto.value))] else []
  }

  /** The tables, the cursors and the events of syncing the topics one after another. */
  function AllSynced(stores: map<TopicId, Store>, cursors: map<TopicId, nat>, topics: seq<TopicId>,
                     mirrors: map<TopicId, Mirror>): (map<TopicId, Store>, map<TopicId, nat>, seq<(TopicId, Synced)>)
    requires forall i :: 0 <= i < |topics| ==> topics[i] in mirrors
  {
    if topics == [] then (stores, cursors, [])
    else
      var n := |topics| - 1;
      var before := AllSynced(stores, cursors, topics[..n], mirrors);
      var from := StartCursor(before.1, before.0, topics[n]);
      var upto := SyncedTo(before.0, topics[n], from, mirrors[topics[n]]);
      (AfterSync(before.0, topics[n], from, mirrors[topics[n]]),
       before.1[topics[n] := if upto.Some? then upto.value else from],
       before.2 + SyncEvents(topics[n], from, upto))
  }

  /** One sync of a known topic that the Mirror Node serves: it starts at the cached cursor,
      or else at the highest indexed number, indexes what is served of the next 100 messages
      and no other, caches where it got and says so once. Anything else changes no table. */
  lemma SyncIsOfOneTopic(stores: map<TopicId, Store>, cursors: map<TopicId, nat>, topic: TopicId, mirror: Mirror)
    requires AllDistinct(stores)
    ensures var from := StartCursor(cursors, stores, topic);
            var upto := SyncedTo(stores, topic, from, mirror);
            var stores' := AfterSync(stores, topic, from, mirror);
            && (upto.Some? <==> topic in stores && mirror.Serving?)
            && (upto.None? ==> stores' == stores && SyncEvents(topic, from, upto) == [])
            && (forall other :: other in stores' <==> other in stores)
            && (forall other :: other in stores && other != topic ==> stores'[other] == stores[other])
            && (upto.Some? ==>
                 && SyncEvents(topic, from, upto) ==
                      (if from < |stores[topic].ledger|
                          && from < mirror.visible then [(topic, Synced(from, upto.value))] else [])
                 && stores'[topic].ledger == stores[topic].ledger && stores'[topic].inflight == stores[topic].inflight
                 && Stable(stores[topic].rows, stores'[topic].rows)
                 && forall s: nat :: s > 0 ==>
                      (HasSeq(stores'[topic].rows, s) <==>
                        || HasSeq(stores[topic].rows, s)
                        || (from < s <= from + 100 && s <= mirror.visible && s <= |stores[topic].ledger|)))
  {
    var from := StartCursor(cursors, stores, topic);
    if topic in stores && mirror.Serving? {
      var upto := ServedTo(mirror, stores[topic], from);
      assert upto > from <==> from < |stores[topic].ledger| && from < mirror.visible;
      if upto > from {
        SyncIndexesItsBatch(stores[topic].rows, stores[topic].ledger, from, upto);
      }
    }
  }

  /** Syncing all topics leaves each as if it alone had been synced, from its own
      cursor: a topic's failure or backlog never shows in another. */
  lemma {:induction false} TopicsSyncIndependently(stores: map<TopicId, Store>, cursors: map<TopicId, nat>,
                                                   topics: seq<TopicId>, mirrors: map<TopicId, Mirror>, topic: TopicId)
    requires forall i :: 0 <= i < |topics| ==> topics[i] in mirrors
    requires forall i, j :: 0 <= i < j < |topics| ==> topics[i] != topics[j]
    requires topic in stores
    ensures var (stores', cursors', events) := AllSynced(stores, cursors, topics, mirrors);
            var from := StartCursor(cursors, stores, topic);
            && (forall e :: (topic, e) in events <==>
                 topic in topics && (topic, e) in SyncEvents(topic, from,
                     SyncedTo(stores, topic, from, mirrors[topic])))
            && topic in stores'
            && stores'[topic] == (if topic in topics then AfterSync(stores, topic, from, mirrors[topic])[topic]
                                  else stores[topic])
            && (topic in topics ==>
                 && topic in cursors'
                 && match SyncedTo(stores, topic, from, mirrors[topic])
                    case Some(upto) => cursors'[topic] == upto
                    case None => cursors'[topic] == from)
            && (topic !in topics ==>
                 && (topic in cursors' <==> topic in cursors)
                 && StartCursor(cursors', stores', topic) == from)
  {
    hide SyncBatch, HasSeq, ServedTo, MaxSeq;
    if topics != [] {
      var n := |topics| - 1;
      TopicsSyncIndependently(stores, cursors, topics[..n], mirrors, topic);
      assert topics == topics[..n] + [topics[n]];
      assert topics[n] !in topics[..n];
    }
  }
}
