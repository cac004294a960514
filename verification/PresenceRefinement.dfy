/** The gateway's handlers, run whole, are runs of the presence protocol. */
module PresenceRefinement {
  import opened Presence
  import opened PresenceProtocol

  ghost predicate Moves(state: State, step: Step, next: State) {
    Enabled(state, step) && Next(state, step) == next
  }

  lemma MovesMakeATrace(states: seq<State>, steps: seq<Step>)
    requires |states| == |steps| + 1 && forall i :: 0 <= i < |steps| ==> Moves(states[i], steps[i], states[i + 1])
    ensures Trace(states, steps)
  {
    hide Enabled, Next;
    forall i | 0 <= i < |steps| ensures Enabled(states[i], steps[i]) && states[i + 1] == Next(states[i], steps[i]) {
      assert Moves(states[i], steps[i], states[i + 1]);
    }
  }

  // ---------------------------------------------------------------------------
  // Single steps
  // ---------------------------------------------------------------------------

  lemma Connects(state: State, socket: SocketId, account: Account)
    requires Enabled(state, Connect(socket, account))
    ensures Moves(state, Connect(socket, account),
                  state.(live := state.live[socket := account], books := Connected(state.books, socket, account)))
  {
  }

  lemma BeginsJoin(state: State, call: CallId, socket: SocketId, topic: TopicId)
    requires call !in state.calls && socket in state.live
    ensures Moves(state, BeginJoin(call, socket, topic),
                  Goto(state, call, Joining(socket, Seat(topic, state.live[socket]))).(
                    books := Tracked(state.books, socket, state.live[socket])))
  {
  }

  lemma Enters(state: State, call: CallId)
    requires call in state.calls && state.calls[call].Joining? && state.calls[call].seat.account != ""
    ensures var socket, seat := state.calls[call].socket, state.calls[call].seat;
            Moves(state, Enter(call),
                  Goto(state, call, Entered(socket, seat)).(books := RoomEntered(state.books, socket, seat.topic)))
  {
  }

  lemma Writes(state: State, call: CallId)
    requires call in state.calls && state.calls[call].Entered?
    ensures var socket, seat := state.calls[call].socket, state.calls[call].seat;
            Moves(state, WriteEntry(call),
                  Goto(state, call, Listed(socket, seat)).(books := Write(state.books, seat, socket)))
  {
  }

  lemma TellsOnline(state: State, call: CallId)
    requires call in state.calls && state.calls[call].Listed?
    ensures Moves(state, BroadcastOnline(call),
                  Done(state, call).(books := Broadcast(state.books, [Online(state.calls[call].seat)])))
  {
  }

  lemma BeginsLeave(state: State, call: CallId, socket: SocketId, topic: TopicId)
    requires call !in state.calls && socket in state.live
    ensures Moves(state, BeginLeave(call, socket, topic),
                  Goto(state, call, Leaving(socket, Seat(topic, state.live[socket]))))
  {
  }

  lemma Exits(state: State, call: CallId)
    requires call in state.calls && state.calls[call].Leaving?
    ensures var socket, seat := state.calls[call].socket, state.calls[call].seat;
            Moves(state, Exit(call),
                  Goto(state, call, Exited(socket, seat)).(books := RoomExited(state.books, socket, seat.topic)))
  {
  }

  lemma Removes(state: State, call: CallId)
    requires call in state.calls && state.calls[call].Exited?
    ensures var socket, seat := state.calls[call].socket, state.calls[call].seat;
            Moves(state, RemoveEntry(call),
                  Goto(state, call, Delisted(socket, seat)).(books := Delete(state.books, seat)))
  {
  }

  lemma TellsOffline(state: State, call: CallId)
    requires call in state.calls && state.calls[call].Delisted?
    ensures Moves(state, BroadcastOffline(call),
                  Done(state, call).(books := Broadcast(state.books, [Offline(state.calls[call].seat)])))
  {
  }

  /** The first step of a disconnect: there are rooms to clean, or it is over at once. */
  lemma Disconnects(state: State, socket: SocketId)
    requires socket in state.live && socket in state.books.accounts && socket in state.books.rooms
    ensures var account, topics := state.books.accounts[socket], state.books.rooms[socket];
            var gone := state.(live := state.live - {socket});
            Moves(state, Disconnect(socket),
                  if account != "" && topics != []
                  then gone.(closing := state.closing[socket := Closing(account, topics, false, [])])
                  else gone.(books := Untracked(state.books, socket)))
  {
  }

  lemma Looks(state: State, socket: SocketId)
    requires socket in state.closing && state.closing[socket].todo != [] && !state.closing[socket].found
    ensures var closing := state.closing[socket];
            Moves(state, LookUp(socket),
                  state.(closing := state.closing[socket :=
                    if Holds(state.books.presence, NextSeat(closing), socket) then closing.(found := true)
                    else closing.(todo := closing.todo[1..])]))
  {
  }

  lemma Deletes(state: State, socket: SocketId, acknowledged: bool)
    requires socket in state.closing && state.closing[socket].todo != [] && state.closing[socket].found
    ensures var closing := state.closing[socket];
            var removed := if acknowledged then closing.removed + [closing.todo[0]] else closing.removed;
            var rest := Closing(closing.account, closing.todo[1..], false, removed);
            Moves(state, DeleteEntry(socket, acknowledged),
                  state.(closing := state.closing[socket := rest],
                         books := Delete(state.books, NextSeat(closing))))
  {
  }

  lemma Finishes(state: State, socket: SocketId)
    requires socket in state.closing && state.closing[socket].todo == []
    ensures var closing := state.closing[socket];
            var events := Offlines(closing.removed, closing.account);
            Moves(state, Finish(socket),
                  state.(closing := state.closing - {socket},
                      books := Untracked(Broadcast(state.books, events), socket)))
  {
  }

  // ---------------------------------------------------------------------------
  // Whole handlers
  // ---------------------------------------------------------------------------

  lemma TraceAppend(states: seq<State>, steps: seq<Step>, states': seq<State>, steps': seq<Step>)
    requires Trace(states, steps) && Trace(states', steps') && states'[0] == states[|steps|]
    ensures Trace(states + states'[1..], steps + steps')
  {
    hide Enabled, Next;
    var all, allSteps := states + states'[1..], steps + steps';
    forall i | 0 <= i < |allSteps| ensures Enabled(all[i], allSteps[i]) && all[i + 1] == Next(all[i], allSteps[i]) {
      if i >= |steps| {
        var k := i - |steps|;
        assert allSteps[i] == steps'[k] && all[i + 1] == states'[k + 1] && all[i] == states'[k];
      }
    }
  }

  /** A join, accepted or refused. */
  lemma JoinIsARun(state: State, call: CallId, socket: SocketId, topic: TopicId, isMember: bool)
    returns (states: seq<State>, steps: seq<Step>)
    requires call !in state.calls && socket in state.live && (isMember ==> state.live[socket] != "")
    ensures Trace(states, steps) && states[0] == state
    ensures steps == if isMember
                     then [BeginJoin(call, socket, topic), Enter(call), WriteEntry(call), BroadcastOnline(call)]
                     else [BeginJoin(call, socket, topic), Abandon(call)]
    ensures var account := state.live[socket];
            var joined := RoomJoined(state.books, socket, account, topic, isMember);
            states[|steps|] == state.(books := if isMember then Announced(joined, socket, account, topic) else joined)
  {
    var account := state.live[socket];
    var seat := Seat(topic, account);
    var s1 := Goto(state, call, Joining(socket, seat)).(books := Tracked(state.books, socket, account));
    BeginsJoin(state, call, socket, topic);
    if isMember {
      Enters(s1, call);
      var s2 := Goto(s1, call, Entered(socket, seat)).(books := RoomEntered(s1.books, socket, topic));
      Writes(s2, call);
      var s3 := Goto(s2, call, Listed(socket, seat)).(books := Write(s2.books, seat, socket));
      TellsOnline(s3, call);
      var s4 := Done(s3, call).(books := Broadcast(s3.books, [Online(seat)]));
      assert s4.calls == state.calls;
      steps := [BeginJoin(call, socket, topic), Enter(call), WriteEntry(call), BroadcastOnline(call)];
      states := [state, s1, s2, s3, s4];
    } else {
      assert Moves(s1, Abandon(call), Done(s1, call));
      assert Done(s1, call).calls == state.calls;
      states, steps := [state, s1, Done(s1, call)], [BeginJoin(call, socket, topic), Abandon(call)];
    }
    hide Moves;
    MovesMakeATrace(states, steps);
  }

  lemma LeaveIsARun(state: State, call: CallId, socket: SocketId, topic: TopicId)
    returns (states: seq<State>, steps: seq<Step>)
    requires call !in state.calls && socket in state.live
    ensures Trace(states, steps) && states[0] == state
    ensures steps == [BeginLeave(call, socket, topic), Exit(call), RemoveEntry(call), BroadcastOffline(call)]
    ensures states[|steps|] == state.(books := LeftRoom(state.books, socket, state.live[socket], topic))
  {
    var seat := Seat(topic, state.live[socket]);
    BeginsLeave(state, call, socket, topic);
    var s1 := Goto(state, call, Leaving(socket, seat));
    Exits(s1, call);
    var s2 := Goto(s1, call, Exited(socket, seat)).(books := RoomExited(s1.books, socket, topic));
    Removes(s2, call);
    var s3 := Goto(s2, call, Delisted(socket, seat)).(books := Delete(s2.books, seat));
    TellsOffline(s3, call);
    var s4 := Done(s3, call).(books := Broadcast(s3.books, [Offline(seat)]));
    assert s4.calls == state.calls;
    steps := [BeginLeave(call, socket, topic), Exit(call), RemoveEntry(call), BroadcastOffline(call)];
    states := [state, s1, s2, s3, s4];
    hide Moves;
    MovesMakeATrace(states, steps);
  }

  /** A disconnect after it has cleaned the first `n` of its rooms. */
  ghost function CleanedTo(state: State, socket: SocketId, account: Account, topics: seq<TopicId>, n: nat): State
    requires n <= |topics|
  {
    var presence := state.books.presence;
    state.(closing := state.closing[socket :=
             Closing(account, topics[n..], false, Removed(presence, socket, account, topics[..n]))],
           books := state.books.(presence := Cleaned(presence, socket, account, topics[..n])))
  }

  /** One room: the look-up and, if the entry names the socket, the deletion. */
  lemma OneRoomIsCleaned(state: State, socket: SocketId, account: Account, topics: seq<TopicId>, n: nat)
    returns (states: seq<State>, steps: seq<Step>)
    requires n < |topics|
    ensures Trace(states, steps) && states[0] == CleanedTo(state, socket, account, topics, n)
    ensures states[|steps|] == CleanedTo(state, socket, account, topics, n + 1)
  {
    var s0, end := CleanedTo(state, socket, account, topics, n), CleanedTo(state, socket, account, topics, n + 1);
    assert topics[n..][0] == topics[n] && topics[n..][1..] == topics[n + 1..];
    var seat := Seat(topics[n], account);
    CleaningOneMore(state.books.presence, socket, account, topics, n);
    hide Moves, Next, Enabled, Cleaned, Removed;
    Looks(s0, socket);
    if Holds(s0.books.presence, seat, socket) {
      var s1 := s0.(closing := s0.closing[socket := s0.closing[socket].(found := true)]);
      Deletes(s1, socket, true);
      assert end.closing == s1.closing[socket := end.closing[socket]];
      assert Moves(s0, LookUp(socket), s1) && Moves(s1, DeleteEntry(socket, true), end);
      states, steps := [s0, s1, end], [LookUp(socket), DeleteEntry(socket, true)];
    } else {
      assert end.closing == s0.closing[socket := end.closing[socket]];
      assert Moves(s0, LookUp(socket), end);
      states, steps := [s0, end], [LookUp(socket)];
    }
    MovesMakeATrace(states, steps);
  }

  lemma CleaningOneMore(presence: map<Seat, SocketId>, socket: SocketId, account: Account, topics: seq<TopicId>, n: nat)
    requires n < |topics|
    ensures var before, removed := Cleaned(presence, socket, account, topics[..n]),
        Removed(presence, socket, account, topics[..n]);
            var seat := Seat(topics[n], account);
            && Cleaned(presence, socket, account, topics[..n + 1]) ==
                 (if Holds(before, seat, socket) then before - {seat} else before)
            && Removed(presence, socket, account, topics[..n + 1]) ==
                 (if Holds(before, seat, socket) then removed + [topics[n]] else removed)
  {
    var init, next := topics[..n], topics[..n + 1];
    assert next[..n] == init && next[n] == topics[n];
    assert Removed(presence, socket, account, init) + [] == Removed(presence, socket, account, init);
  }

  lemma {:induction false} RoomsAreCleaned(state: State, socket: SocketId, account: Account, topics: seq<TopicId>,
                                           n: nat)
    returns (states: seq<State>, steps: seq<Step>)
    requires n <= |topics|
    ensures Trace(states, steps) && states[0] == CleanedTo(state, socket, account, topics, 0)
    ensures states[|steps|] == CleanedTo(state, socket, account, topics, n)
  {
    if n == 0 {
      states, steps := [CleanedTo(state, socket, account, topics, 0)], [];
    } else {
      var before, beforeSteps := RoomsAreCleaned(state, socket, account, topics, n - 1);
      var one, oneSteps := OneRoomIsCleaned(state, socket, account, topics, n - 1);
      TraceAppend(before, beforeSteps, one, oneSteps);
      hide Trace, CleanedTo;
      states, steps := before + one[1..], beforeSteps + oneSteps;
    }
  }

  /** A disconnect: every look-up and deletion, then the broadcasts. */
  lemma DisconnectIsARun(state: State, socket: SocketId) returns (states: seq<State>, steps: seq<Step>)
    requires Consistent(state) && socket in state.live
    ensures Trace(states, steps) && states[0] == state
    ensures states[|steps|] == state.(live := state.live - {socket}, books := Disconnected(state.books, socket))
  {
    var account, topics := state.books.accounts[socket], state.books.rooms[socket];
    var gone := state.(live := state.live - {socket});
    Disconnects(state, socket);
    if account != "" && topics != [] {
      var closing := gone.(closing := state.closing[socket := Closing(account, topics, false, [])]);
      assert topics[0..] == topics;
      assert closing == CleanedTo(gone, socket, account, topics, 0);
      var rest, last := RoomsAreCleaned(gone, socket, account, topics, |topics|);
      var cleaned := rest[|last|];
      assert topics[..|topics|] == topics;
      Finishes(cleaned, socket);
      var end := state.(live := state.live - {socket}, books := Disconnected(state.books, socket));
      assert cleaned.closing - {socket} == state.closing;
      hide Trace, Next, Enabled;
      MovesMakeATrace([state, closing], [Disconnect(socket)]);
      MovesMakeATrace([cleaned, end], [Finish(socket)]);
      TraceAppend([state, closing], [Disconnect(socket)], rest, last);
      TraceAppend([state, closing] + rest[1..], [Disconnect(socket)] + last, [cleaned, end], [Finish(socket)]);
      states := [state, closing] + rest[1..] + [cleaned, end][1..];
      steps := [Disconnect(socket)] + last + [Finish(socket)];
    } else {
      MovesMakeATrace([state, gone.(books := Untracked(state.books, socket))], [Disconnect(socket)]);
      states, steps := [state, gone.(books := Untracked(state.books, socket))], [Disconnect(socket)];
    }
  }

  /** With nothing else under way, a disconnect removes exactly the entries that name the
      socket: an older socket takes no entry of a newer one. */
  lemma DisconnectRemovesItsOwn(state: State, socket: SocketId)
    requires Consistent(state) && NoGhosts(state) && state.calls == map[] && socket in state.live
    ensures var before, after := state.books.presence, Disconnected(state.books, socket).presence;
            forall seat ::
              && (seat in after <==> seat in before && before[seat] != socket)
              && (seat in after ==> after[seat] == before[seat])
  {
    var books := state.books;
    var account := books.accounts[socket];
    CleanedIs(books.presence, socket, account, books.rooms[socket]);
    forall seat | seat in books.presence && books.presence[seat] == socket
      ensures seat.account == account && account != "" && seat.topic in books.rooms[socket]
    {
      assert Accounted(state, socket, seat);
    }
  }
}
