/** One topic of the sync service between its syncs is a topic of the interleaved protocol
    with no worker, and one sync of it is the protocol's undisturbed sync. */
module ServiceSync {
  import opened Wrappers
  import opened Ledger
  import opened MessageIndex
  import opened SyncProtocol
  import opened SyncRefinement
  import opened MessagingService

  /** The events of one topic, in order. */
  function EventsOf(events: seq<(TopicId, Synced)>, topic: TopicId): (own: seq<Synced>)
    ensures forall e :: e in own <==> (topic, e) in events
  {
    if events == [] then []
    else
      var last := events[|events| - 1];
      EventsOf(events[..|events| - 1], topic) + if last.0 == topic then [last.1] else []
  }

  /** `mark` is the protocol's history variable. */
  function TopicIn(stores: map<TopicId, Store>, cursors: map<TopicId, nat>, events: seq<(TopicId, Synced)>,
                   topic: TopicId, mark: nat): Topic
    requires topic in stores
  {
    Topic(stores[topic], if topic in cursors then Some(cursors[topic]) else None, mark, map[], EventsOf(events, topic))
  }

  /** What SyncConversation leaves of the tables, the cursors and the events of one topic
      is what an undisturbed sync of the protocol leaves, started where the protocol starts. */
  lemma ServiceSyncsUndisturbed(stores: map<TopicId, Store>, cursors: map<TopicId, nat>, events: seq<(TopicId, Synced)>,
                                topic: TopicId, mirror: Mirror, mark: nat)
    requires topic in stores && mirror.Serving?
    requires topic in cursors ==> cursors[topic] <= |stores[topic].ledger|
    requires Sound(stores[topic])
    ensures var t := TopicIn(stores, cursors, events, topic, mark);
            var from := StartCursor(cursors, stores, topic);
            var upto := SyncedTo(stores, topic, from, mirror).value;
            && from == StartOf(t) && upto <= |stores[topic].ledger|
            && TopicIn(AfterSync(stores, topic, from, mirror), cursors[topic := upto],
                       events + SyncEvents(topic, from, Some(upto)), topic, if topic in cursors then mark else from)
               == SyncedTopic(t, from, upto - from)
  {
    SoundMarks(stores[topic]);
    hide Sound, SyncBatch, MaxSeq, EventsOf, SyncEvents;
    var from := StartCursor(cursors, stores, topic);
    OneEventMore(events, topic, from, SyncedTo(stores, topic, from, mirror).value);
  }

  lemma OneEventMore(events: seq<(TopicId, Synced)>, topic: TopicId, from: nat, upto: nat)
    ensures EventsOf(events + SyncEvents(topic, from, Some(upto)), topic) ==
            if upto > from then EventsOf(events, topic) + [Synced(from, upto)] else EventsOf(events, topic)
  {
    var all := events + SyncEvents(topic, from, Some(upto));
    if upto > from {
      assert all[..|all| - 1] == events;
    } else {
      assert all == events;
    }
  }

  /** So it is a run of the protocol, and every theorem about runs holds across it. */
  lemma ServiceSyncIsARun(stores: map<TopicId, Store>, cursors: map<TopicId, nat>, events: seq<(TopicId, Synced)>,
                          topic: TopicId, mirror: Mirror, mark: nat) returns (steps: seq<Step>)
    requires topic in stores && mirror.Serving?
    requires topic in cursors ==> cursors[topic] <= |stores[topic].ledger|
    requires Sound(stores[topic])
    ensures var t := TopicIn(stores, cursors, events, topic, mark);
            var from := StartCursor(cursors, stores, topic);
            var upto := SyncedTo(stores, topic, from, mirror).value;
            && Valid(t, steps)
            && Run(t, steps) ==
                 TopicIn(AfterSync(stores, topic, from, mirror), cursors[topic := upto],
                         events + SyncEvents(topic, from, Some(upto)), topic, if topic in cursors then mark else from)
  {
    var t := TopicIn(stores, cursors, events, topic, mark);
    var from := StartCursor(cursors, stores, topic);
    var upto := SyncedTo(stores, topic, from, mirror).value;
    ServiceSyncsUndisturbed(stores, cursors, events, topic, mirror, mark);
    assert Distinct(t.store.rows) && upto - from <= MIRROR_NODE_BATCH_SIZE;
    hide Sound, AfterSync, SyncedTopic, SyncEvents, Valid, Run;
    steps := UndisturbedSyncIsARun(t, 0, upto - from);
  }
}
