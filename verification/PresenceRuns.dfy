/** Runs of the presence protocol that go wrong, one for each condition of its theorems. */
module PresenceRuns {
  import opened Presence
  import opened PresenceProtocol
  import opened PresenceExactness
  import opened SerialPresence
  import opened PresenceRefinement

  /** Two sockets of an account, the older of them in the room, and nothing under way: a
      page that is reloaded. */
  ghost predicate Reloading(state: State, older: SocketId, newer: SocketId, account: Account, topic: TopicId) {
    && older != newer && account != "" && Quiet(state)
    && state.live == map[older := account, newer := account] == state.books.accounts
    && state.books.rooms.Keys == {older, newer} && state.books.rooms[older] == [topic] && state.books.rooms[newer] == []
    && state.books.presence == map[Seat(topic, account) := older]
    && state.books.events == [Online(Seat(topic, account))]
  }

  lemma ReloadingIsReached(older: SocketId, newer: SocketId, account: Account, topic: TopicId)
    requires older != newer && account != ""
    ensures var steps := [Connect(older, account), BeginJoin(0, older, topic), Enter(0), WriteEntry(0),
                          BroadcastOnline(0), Connect(newer, account)];
            exists states: seq<State> ::
              Trace(states, steps) && states[0] == EMPTY && Reloading(states[6], older, newer, account, topic)
  {
    var steps := [Connect(older, account), BeginJoin(0, older, topic), Enter(0), WriteEntry(0), BroadcastOnline(0),
                  Connect(newer, account)];
    hide Moves, Enabled, Next;
    var seat := Seat(topic, account);
    var s0 := EMPTY;
    var s1 := EMPTY.(live := map[older := account], books := Connected(NO_BOOKS, older, account));
    Connects(s0, older, account);
    var s2 := Goto(s1, 0, Joining(older, seat));
    BeginsJoin(s1, 0, older, topic);
    var s3 := Goto(s2, 0, Entered(older, seat)).(books := RoomEntered(s2.books, older, topic));
    Enters(s2, 0);
    var s4 := Goto(s3, 0, Listed(older, seat)).(books := Write(s3.books, seat, older));
    Writes(s3, 0);
    var s5 := Done(s4, 0).(books := Broadcast(s4.books, [Online(seat)]));
    TellsOnline(s4, 0);
    var s6 := s5.(live := s5.live[newer := account], books := Connected(s5.books, newer, account));
    Connects(s5, newer, account);
    assert s6.calls == map[];
    assert AddTopic([], topic) == [topic] && [] + [Online(seat)] == [Online(seat)];
    assert s6.books.accounts == s6.live;
    MovesMakeATrace([s0, s1, s2, s3, s4, s5, s6], steps);
  }

  /** A join that goes through between the look-up and the deletion of a disconnect. */
  lemma JoinBeforeDeletion(state: State, call: CallId, older: SocketId, newer: SocketId, seat: Seat)
    returns (states: seq<State>, steps: seq<Step>)
    requires call in state.calls && state.calls[call] == Joining(newer, seat) && seat.account != ""
    requires older in state.closing && state.closing[older] == Closing(seat.account, [seat.topic], true, [])
    ensures Trace(states, steps) && states[0] == state
    ensures steps == [Enter(call), WriteEntry(call), BroadcastOnline(call), DeleteEntry(older, true), Finish(older)]
    ensures var end := states[5];
            && end.live == state.live && end.calls == state.calls - {call} && end.closing == state.closing - {older}
            && end.books.presence == state.books.presence - {seat}
            && end.books.rooms == RoomEntered(state.books, newer, seat.topic).rooms - {older}
  {
    hide Moves, Enabled, Next, AddTopic, Replay, Offlines;
    steps := [Enter(call), WriteEntry(call), BroadcastOnline(call), DeleteEntry(older, true), Finish(older)];
    Enters(state, call);
    var s1 := Goto(state, call, Entered(newer, seat)).(books := RoomEntered(state.books, newer, seat.topic));
    Writes(s1, call);
    var s2 := Goto(s1, call, Listed(newer, seat)).(books := Write(s1.books, seat, newer));
    TellsOnline(s2, call);
    var s3 := Done(s2, call).(books := Broadcast(s2.books, [Online(seat)]));
    assert [seat.topic][1..] == [] && [] + [seat.topic] == [seat.topic];
    Deletes(s3, older, true);
    var s4 := s3.(closing := s3.closing[older := Closing(seat.account, [], false, [seat.topic])],
                  books := Delete(s3.books, seat));
    Finishes(s4, older);
    var s5 := s4.(closing := s4.closing - {older},
                  books := Untracked(Broadcast(s4.books, Offlines([seat.topic], seat.account)), older));
    states := [state, s1, s2, s3, s4, s5];
    MovesMakeATrace(states, steps);
  }

  /** A disconnect that finds its entry while a join of the same seat is suspended. */
  lemma LookUpDuringAJoin(state: State, call: CallId, older: SocketId, newer: SocketId, topic: TopicId)
    returns (states: seq<State>, steps: seq<Step>)
    requires call !in state.calls && older != newer && older in state.live && newer in state.live
    requires older in state.books.accounts && older in state.books.rooms && state.books.rooms[older] == [topic]
    requires state.live[newer] == state.books.accounts[older] != ""
    requires newer in state.books.accounts && newer in state.books.rooms
    requires Holds(state.books.presence, Seat(topic, state.live[newer]), older)
    ensures Trace(states, steps) && states[0] == state
    ensures steps == [BeginJoin(call, newer, topic), Disconnect(older), LookUp(older)]
    ensures var account := state.live[newer];
            states[3] == State(state.live - {older}, state.closing[older := Closing(account, [topic], true, [])],
                               state.calls[call := Joining(newer, Seat(topic, account))], state.books)
  {
    hide Moves, Enabled, Next;
    var account := state.live[newer];
    steps := [BeginJoin(call, newer, topic), Disconnect(older), LookUp(older)];
    BeginsJoin(state, call, newer, topic);
    var s1 := Goto(state, call, Joining(newer, Seat(topic, account)));
    Disconnects(s1, older);
    var s2 := s1.(live := s1.live - {older}, closing := s1.closing[older := Closing(account, [topic], false, [])]);
    Looks(s2, older);
    var s3 := s2.(closing := s2.closing[older := Closing(account, [topic], true, [])]);
    assert s3.closing == state.closing[older := Closing(account, [topic], true, [])];
    states := [state, s1, s2, s3];
    MovesMakeATrace(states, steps);
  }

  /** On a reload the older socket's disconnect finds its entry, the newer socket's join
      writes its own over it, and the deletion removes that: the account is in the room
      with no entry, and every handler has ended. */
  lemma ReloadHidesTheAccount(state: State, older: SocketId, newer: SocketId, account: Account, topic: TopicId)
    requires Reloading(state, older, newer, account, topic)
    ensures var steps := [BeginJoin(0, newer, topic), Disconnect(older), LookUp(older), Enter(0), WriteEntry(0),
                          BroadcastOnline(0), DeleteEntry(older, true), Finish(older)];
            exists states: seq<State> ::
              && Trace(states, steps) && states[0] == state && Quiet(states[8])
              && InRoom(states[8], newer, Seat(topic, account)) && states[8].books.presence == map[]
  {
    hide Moves, Enabled, Next, Replay, AddTopic;
    var first, begun := LookUpDuringAJoin(state, 0, older, newer, topic);
    var rest, last := JoinBeforeDeletion(first[3], 0, older, newer, Seat(topic, account));
    TraceAppend(first, begun, rest, last);
    hide Trace;
    var states := first + rest[1..];
    assert states[8] == rest[5];
    assert begun + last == [BeginJoin(0, newer, topic), Disconnect(older), LookUp(older), Enter(0), WriteEntry(0),
                            BroadcastOnline(0), DeleteEntry(older, true), Finish(older)];
  }

  /** A leave of the older socket does so with no interleaving at all. */
  lemma OlderSocketsLeaveHidesTheNewer(state: State, older: SocketId, newer: SocketId, account: Account, topic: TopicId)
    requires Reloading(state, older, newer, account, topic)
    ensures var steps := [BeginJoin(0, newer, topic), Enter(0), WriteEntry(0), BroadcastOnline(0),
                          BeginLeave(0, older, topic), Exit(0), RemoveEntry(0), BroadcastOffline(0)];
            exists states: seq<State> ::
              && Trace(states, steps) && states[0] == state && Quiet(states[8])
              && states[4].books.presence == map[Seat(topic, account) := newer]
              && InRoom(states[8], newer, Seat(topic, account)) && states[8].books.presence == map[]
  {
    hide Moves, Enabled, Next, AddTopic, DropTopic, Replay;
    var joined, joining := JoinIsARun(state, 0, newer, topic, true);
    assert joined[4].books.presence == map[Seat(topic, account) := newer];
    assert newer in joined[4].books.rooms && topic in joined[4].books.rooms[newer];
    hide RoomJoined, Announced;
    var left, leaving := LeaveIsARun(joined[4], 0, older, topic);
    TraceAppend(joined, joining, left, leaving);
    hide Trace;
    var states := joined + left[1..];
    assert states[8] == left[4] && states[4] == joined[4];
    assert joining + leaving == [BeginJoin(0, newer, topic), Enter(0), WriteEntry(0), BroadcastOnline(0),
                                 BeginLeave(0, older, topic), Exit(0), RemoveEntry(0), BroadcastOffline(0)];
  }

  /** So does one of the newer socket, which never joined. */
  lemma StrangersLeaveRemovesTheEntry(state: State, older: SocketId, newer: SocketId, account: Account, topic: TopicId)
    requires Reloading(state, older, newer, account, topic)
    ensures var steps := [BeginLeave(0, newer, topic), Exit(0), RemoveEntry(0), BroadcastOffline(0)];
            exists states: seq<State> ::
              && Trace(states, steps) && states[0] == state && Quiet(states[4])
              && OneSocketPerSeat(states[0])
              && InRoom(states[4], older, Seat(topic, account)) && states[4].books.presence == map[]
  {
    hide Moves, Enabled, Next, Replay;
    var states, steps := LeaveIsARun(state, 0, newer, topic);
    hide Trace;
    assert states[4].books.rooms[older] == [topic];
  }

  /** A socket that drops while its join is suspended leaves a ghost. */
  lemma DroppingDuringAJoinLeavesAGhost(socket: SocketId, account: Account, topic: TopicId)
    requires account != ""
    ensures var steps := [Connect(socket, account), BeginJoin(0, socket, topic), Disconnect(socket), Enter(0),
                          WriteEntry(0), BroadcastOnline(0)];
            exists states: seq<State> ::
              && Trace(states, steps) && states[0] == EMPTY && Quiet(states[6])
              && states[6].live == map[] && states[6].books.presence == map[Seat(topic, account) := socket]
  {
    var steps := [Connect(socket, account), BeginJoin(0, socket, topic), Disconnect(socket), Enter(0), WriteEntry(0),
                  BroadcastOnline(0)];
    hide Moves, Enabled, Next;
    var seat := Seat(topic, account);
    var s0 := EMPTY;
    var s1 := EMPTY.(live := map[socket := account], books := Connected(NO_BOOKS, socket, account));
    Connects(s0, socket, account);
    var s2 := Goto(s1, 0, Joining(socket, seat));
    BeginsJoin(s1, 0, socket, topic);
    var s3 := s2.(live := s2.live - {socket}, books := Untracked(s2.books, socket));
    Disconnects(s2, socket);
    var s4 := Goto(s3, 0, Entered(socket, seat));
    Enters(s3, 0);
    var s5 := Goto(s4, 0, Listed(socket, seat)).(books := Write(s4.books, seat, socket));
    Writes(s4, 0);
    var s6 := Done(s5, 0).(books := Broadcast(s5.books, [Online(seat)]));
    TellsOnline(s5, 0);
    assert s6.calls == map[] && s6.live == map[];
    MovesMakeATrace([s0, s1, s2, s3, s4, s5, s6], steps);
  }

  lemma JoinUpToItsBroadcast(state: State, call: CallId, socket: SocketId, topic: TopicId)
    returns (states: seq<State>, steps: seq<Step>)
    requires call !in state.calls && socket in state.live && state.live[socket] != ""
    requires socket in state.books.rooms && socket in state.books.accounts
    ensures Trace(states, steps) && states[0] == state
    ensures steps == [BeginJoin(call, socket, topic), Enter(call), WriteEntry(call)]
    ensures var seat := Seat(topic, state.live[socket]);
            states[3] == Goto(state, call, Listed(socket, seat)).(
              books := Write(RoomEntered(state.books, socket, topic), seat, socket))
  {
    hide Moves, Enabled, Next;
    var seat := Seat(topic, state.live[socket]);
    steps := [BeginJoin(call, socket, topic), Enter(call), WriteEntry(call)];
    BeginsJoin(state, call, socket, topic);
    var s1 := Goto(state, call, Joining(socket, seat));
    Enters(s1, call);
    var s2 := Goto(s1, call, Entered(socket, seat)).(books := RoomEntered(state.books, socket, topic));
    Writes(s2, call);
    var s3 := Goto(s2, call, Listed(socket, seat)).(books := Write(s2.books, seat, socket));
    assert s3.calls == state.calls[call := Listed(socket, seat)];
    states := [state, s1, s2, s3];
    MovesMakeATrace(states, steps);
  }

  /** A join whose broadcast comes after that of a leave which overtook it: listeners take
      for online whoever is neither in the room nor listed. */
  lemma LateBroadcastMisleads(state: State, older: SocketId, newer: SocketId, account: Account, topic: TopicId)
    requires Reloading(state, older, newer, account, topic)
    ensures var steps := [BeginJoin(0, older, topic), Enter(0), WriteEntry(0), BeginLeave(1, older, topic), Exit(1),
                          RemoveEntry(1), BroadcastOffline(1), BroadcastOnline(0)];
            exists states: seq<State> ::
              && Trace(states, steps) && states[0] == state && Quiet(states[8])
              && Seated(states[8]) == {} && states[8].books.presence == map[]
              && Seat(topic, account) in Replay(states[8].books.events)
  {
    hide Moves, Enabled, Next, AddTopic, DropTopic;
    var seat := Seat(topic, account);
    var first, begun := JoinUpToItsBroadcast(state, 0, older, topic);
    var left, leaving := LeaveIsARun(first[3], 1, older, topic);
    TellsOnline(left[4], 0);
    var end := Done(left[4], 0).(books := Broadcast(left[4].books, [Online(seat)]));
    MovesMakeATrace([left[4], end], [BroadcastOnline(0)]);
    TraceAppend(first, begun, left, leaving);
    var states := first + left[1..];
    assert states[7] == left[4];
    TraceAppend(states, begun + leaving, [left[4], end], [BroadcastOnline(0)]);
    hide Trace;
    assert (states + [left[4], end][1..])[8] == end;
    assert begun + leaving + [BroadcastOnline(0)] ==
           [BeginJoin(0, older, topic), Enter(0), WriteEntry(0), BeginLeave(1, older, topic), Exit(1),
            RemoveEntry(1), BroadcastOffline(1), BroadcastOnline(0)];
    assert end.books.events[..|end.books.events| - 1] == left[4].books.events;
  }
}
