/** Presence: which account is online in which conversation, by which socket. The
    gateway's two socket maps and the presence hashes, and what each handler makes of
    them when it runs whole. */
module Presence {
  type SocketId = string
  type TopicId = string
  type Account = string

  /** A field of a topic's presence hash. */
  datatype Seat = Seat(topic: TopicId, account: Account)

  /** What is broadcast to the room of a topic. */
  datatype Event = Online(seat: Seat) | Offline(seat: Seat)

  /** The gateway's own records: rooms per socket in the order joined, account per
      socket, socket per presence entry, and everything broadcast. */
  datatype Books = Books(rooms: map<SocketId, seq<TopicId>>, accounts: map<SocketId, Account>,
                         presence: map<Seat, SocketId>, events: seq<Event>)

  ghost predicate NoDuplicates(topics: seq<TopicId>) {
    forall i, j :: 0 <= i < j < |topics| ==> topics[i] != topics[j]
  }

  function AddTopic(topics: seq<TopicId>, topic: TopicId): (r: seq<TopicId>)
    ensures forall t :: t in r <==> t in topics || t == topic
    ensures NoDuplicates(topics) ==> NoDuplicates(r)
  {
    if topic in topics then topics else topics + [topic]
  }

  function DropTopic(topics: seq<TopicId>, topic: TopicId): (r: seq<TopicId>)
    ensures forall t :: t in r <==> t in topics && t != topic
    ensures NoDuplicates(topics) ==> NoDuplicates(r)
  {
    if topics == [] then []
    else
      var init := topics[..|topics| - 1];
      assert NoDuplicates(topics) ==> NoDuplicates(init) && topics[|topics| - 1] !in init;
      var rest := DropTopic(init, topic);
      assert forall i :: 0 <= i < |rest| ==> rest[i] in rest;
      if topics[|topics| - 1] == topic then rest else rest + [topics[|topics| - 1]]
  }

  function Connected(books: Books, socket: SocketId, account: Account): Books {
    books.(accounts := books.accounts[socket := account], rooms := books.rooms[socket := []])
  }

  function Tracked(books: Books, socket: SocketId, account: Account): (r: Books)
    ensures socket in r.rooms && socket in r.accounts
  {
    books.(accounts := if socket in books.accounts then books.accounts else books.accounts[socket := account],
           rooms := if socket in books.rooms then books.rooms else books.rooms[socket := []])
  }

  /** The room is noted for a socket that is still tracked. */
  function RoomEntered(books: Books, socket: SocketId, topic: TopicId): Books {
    if socket !in books.rooms then books
    else books.(rooms := books.rooms[socket := AddTopic(books.rooms[socket], topic)])
  }

  function RoomExited(books: Books, socket: SocketId, topic: TopicId): Books {
    if socket !in books.rooms then books
    else books.(rooms := books.rooms[socket := DropTopic(books.rooms[socket], topic)])
  }

  /** The first half of a join: the socket is tracked even when the join is refused. */
  function RoomJoined(books: Books, socket: SocketId, account: Account, topic: TopicId, isMember: bool): Books {
    var tracked := Tracked(books, socket, account);
    if isMember then RoomEntered(tracked, socket, topic) else tracked
  }

  /** The second half: write the presence entry and broadcast it. */
  function Announced(books: Books, socket: SocketId, account: Account, topic: TopicId): Books {
    books.(presence := books.presence[Seat(topic, account) := socket],
           events := books.events + [Online(Seat(topic, account))])
  }

  /** A leave removes the account's entry, whichever socket wrote it. */
  function LeftRoom(books: Books, socket: SocketId, account: Account, topic: TopicId): Books {
    RoomExited(books, socket, topic).(presence := books.presence - {Seat(topic, account)},
                                      events := books.events + [Offline(Seat(topic, account))])
  }

  predicate Holds(presence: map<Seat, SocketId>, seat: Seat, socket: SocketId) {
    seat in presence && presence[seat] == socket
  }

  /** The presence left after cleaning `topics`, in order, of the entries of one socket. */
  function Cleaned(presence: map<Seat, SocketId>, socket: SocketId, account: Account, topics: seq<TopicId>)
    : map<Seat, SocketId>
  {
    if topics == [] then presence
    else
      var before := Cleaned(presence, socket, account, topics[..|topics| - 1]);
      var seat := Seat(topics[|topics| - 1], account);
      if Holds(before, seat, socket) then before - {seat} else before
  }

  /** The topics whose entry that removes. */
  function Removed(presence: map<Seat, SocketId>, socket: SocketId, account: Account, topics: seq<TopicId>)
    : seq<TopicId>
  {
    if topics == [] then []
    else
      var init, last := topics[..|topics| - 1], topics[|topics| - 1];
      Removed(presence, socket, account, init) +
      if Holds(Cleaned(presence, socket, account, init), Seat(last, account), socket) then [last] else []
  }

  function Offlines(topics: seq<TopicId>, account: Account): seq<Event> {
    if topics == [] then []
    else Offlines(topics[..|topics| - 1], account) + [Offline(Seat(topics[|topics| - 1], account))]
  }

  function Disconnected(books: Books, socket: SocketId): Books {
    var cleaned :=
      if socket in books.accounts && books.accounts[socket] != "" && socket in books.rooms then
        var account, topics := books.accounts[socket], books.rooms[socket];
        books.(presence := Cleaned(books.presence, socket, account, topics),
               events := books.events + Offlines(Removed(books.presence, socket, account, topics), account))
      else books;
    Untracked(cleaned, socket)
  }

  function Untracked(books: Books, socket: SocketId): Books {
    books.(rooms := books.rooms - {socket}, accounts := books.accounts - {socket})
  }

  function Expired(books: Books, topic: TopicId): Books {
    books.(presence := map seat | seat in books.presence && seat.topic != topic :: books.presence[seat])
  }

  /** hkeys of a topic's presence hash. */
  function OnlineAccounts(presence: map<Seat, SocketId>, topic: TopicId): (online: set<Account>)
    ensures forall x :: x in online <==> Seat(topic, x) in presence
  {
    set seat | seat in presence && seat.topic == topic :: seat.account
  }

  const NO_BOOKS := Books(map[], map[], map[], [])

  lemma {:induction false} CleanedIs(presence: map<Seat, SocketId>, socket: SocketId, account: Account,
                                     topics: seq<TopicId>)
    ensures var after := Cleaned(presence, socket, account, topics);
            forall seat ::
              && (seat in after <==>
                   seat in presence && !(seat.account == account && seat.topic in topics && presence[seat] == socket))
              && (seat in after ==> after[seat] == presence[seat])
  {
    if topics != [] {
      CleanedIs(presence, socket, account, topics[..|topics| - 1]);
      assert topics == topics[..|topics| - 1] + [topics[|topics| - 1]];
    }
  }

  // What a listener to every broadcast can rebuild.

  function Replay(events: seq<Event>): set<Seat> {
    if events == [] then {}
    else
      var before := Replay(events[..|events| - 1]);
      match events[|events| - 1]
      case Online(seat) => before + {seat}
      case Offline(seat) => before - {seat}
  }

  lemma {:induction false} OfflinesReplay(events: seq<Event>, topics: seq<TopicId>, account: Account)
    ensures Replay(events + Offlines(topics, account)) ==
            Replay(events) - (set topic | topic in topics :: Seat(topic, account))
  {
    if topics == [] {
      assert events + Offlines(topics, account) == events;
    } else {
      var init, last := topics[..|topics| - 1], topics[|topics| - 1];
      OfflinesReplay(events, init, account);
      var all := events + Offlines(topics, account);
      assert all[..|all| - 1] == events + Offlines(init, account);
      assert Replay(all) == Replay(events + Offlines(init, account)) - {Seat(last, account)};
      assert forall topic :: topic in topics <==> topic in init || topic == last;
      hide Replay, Offlines;
    }
  }

  lemma {:induction false} RemovedAre(presence: map<Seat, SocketId>, socket: SocketId, account: Account,
                                      topics: seq<TopicId>)
    ensures forall topic :: topic in Removed(presence, socket, account, topics) <==>
                            topic in topics && Holds(presence, Seat(topic, account), socket)
  {
    if topics != [] {
      var init, last := topics[..|topics| - 1], topics[|topics| - 1];
      RemovedAre(presence, socket, account, init);
      CleanedIs(presence, socket, account, init);
      assert topics == init + [last];
    }
  }
}
