/** Presence with one handler at a time, nothing failing, and one socket per account in
    each room. */
module SerialPresence {
  import opened Presence
  import opened PresenceProtocol
  import opened PresenceExactness

  /** No account has two sockets in one room. */
  ghost predicate OneSocketPerSeat(state: State) {
    forall s: SocketId, s': SocketId, seat: Seat :: InRoom(state, s, seat) && InRoom(state, s', seat) ==> s == s'
  }

  /** A handler starts when no other is under way and, once it has checked, goes through;
      a socket leaves only rooms that it is in; no entry expires. */
  ghost predicate Tidy(state: State, step: Step)
    requires Enabled(state, step)
  {
    && OneSocketPerSeat(state)
    && match step
       case BeginJoin(_, _, _) => Quiet(state)
       case BeginLeave(_, socket, topic) => Quiet(state) && InRoom(state, socket, Seat(topic, state.live[socket]))
       case Disconnect(_) => Quiet(state)
       case Abandon(call) => state.calls[call].Joining? || state.calls[call].Leaving?
       case DeleteEntry(_, acknowledged) => acknowledged
       case SkipTopic(_) => false
       case Expire(topic) => forall seat :: seat in state.books.presence ==> seat.topic != topic
       case _ => true
  }

  ghost predicate Vacant(state: State, seat: Seat) {
    forall socket: SocketId :: !InRoom(state, socket, seat)
  }

  /** What the one call under way has brought about still holds. */
  ghost predicate CallHolds(state: State, call: Call) {
    match call
    case Joining(socket, seat) => socket in state.live
    case Entered(socket, seat) => InRoom(state, socket, seat)
    case Listed(socket, seat) => seat in state.books.presence
    case Leaving(socket, seat) => InRoom(state, socket, seat)
    case Exited(_, seat) => Vacant(state, seat)
    case Delisted(_, seat) => seat !in state.books.presence
  }

  ghost predicate ClosingHolds(state: State, closing: Closing) {
    && (forall topic :: topic in closing.todo ==> Vacant(state, Seat(topic, closing.account)))
    && (forall topic :: topic in closing.removed ==> Seat(topic, closing.account) !in state.books.presence)
  }

  ghost predicate OneHandler(state: State) {
    && (forall k, l :: k in state.calls && l in state.calls ==> k == l)
    && (forall s, t :: s in state.closing && t in state.closing ==> s == t)
    && (state.calls == map[] || state.closing == map[])
    && (forall k :: k in state.calls ==> CallHolds(state, state.calls[k]))
    && (forall s :: s in state.closing ==> ClosingHolds(state, state.closing[s]))
  }

  lemma TidyStepsMeetTheConditions(state: State, step: Step)
    requires Consistent(state) && Complete(state) && OneHandler(state) && Enabled(state, step) && Tidy(state, step)
    ensures LeavesNoGhost(state, step) && KeepsListed(state, step) && TellsTheTruth(state, step)
  {
    match step
    case WriteEntry(call) => assert CallHolds(state, state.calls[call]);
    case BroadcastOnline(call) => assert CallHolds(state, state.calls[call]);
    case RemoveEntry(call) => assert CallHolds(state, state.calls[call]);
    case BroadcastOffline(call) => assert CallHolds(state, state.calls[call]);
    case DeleteEntry(socket, _) =>
      assert ClosingHolds(state, state.closing[socket]);
      assert Vacant(state, NextSeat(state.closing[socket]));
    case Finish(socket) => assert ClosingHolds(state, state.closing[socket]);
    case _ =>
  }

  lemma MovedCallHolds(state: State, step: Step, k: CallId)
    requires Consistent(state) && OneHandler(state) && Enabled(state, step) && Tidy(state, step)
    requires k in Next(state, step).calls && !(k in state.calls && Next(state, step).calls[k] == state.calls[k])
    ensures CallHolds(Next(state, step), Next(state, step).calls[k])
  {
    var next := Next(state, step);
    assert k in state.calls ==> CallHolds(state, state.calls[k]);
    if step.Exit? {
      var Leaving(socket, seat) := state.calls[k];
      forall s: SocketId ensures !InRoom(next, s, seat) {
        assert InRoom(next, s, seat) ==> InRoom(state, s, seat) && s != socket;
      }
    }
  }

  lemma OtherCallHolds(state: State, step: Step, k: CallId)
    requires Consistent(state) && OneHandler(state) && Enabled(state, step) && Tidy(state, step)
    requires k in state.calls && k in Next(state, step).calls && Next(state, step).calls[k] == state.calls[k]
    ensures CallHolds(Next(state, step), Next(state, step).calls[k])
  {
    var next := Next(state, step);
    assert CallHolds(state, state.calls[k]);
    assert step.Connect? || step.Expire?;
    assert forall s: SocketId, seat: Seat :: InRoom(next, s, seat) <==> InRoom(state, s, seat);
  }

  lemma ClosingStaysHeld(state: State, step: Step, socket: SocketId)
    requires Consistent(state) && OneHandler(state) && Enabled(state, step) && Tidy(state, step)
    requires socket in state.closing && socket in Next(state, step).closing
    ensures ClosingHolds(Next(state, step), Next(state, step).closing[socket])
  {
    var next := Next(state, step);
    assert ClosingHolds(state, state.closing[socket]);
    assert step.Connect? || step.Expire? || step.LookUp? || step.DeleteEntry?;
    forall s: SocketId, seat: Seat ensures InRoom(next, s, seat) <==> InRoom(state, s, seat) {
    }
    assert forall seat :: Vacant(state, seat) ==> Vacant(next, seat);
  }

  lemma ClosingStartsHeld(state: State, socket: SocketId)
    requires Consistent(state) && Enabled(state, Disconnect(socket)) && Tidy(state, Disconnect(socket))
    requires socket in Next(state, Disconnect(socket)).closing
    ensures ClosingHolds(Next(state, Disconnect(socket)), Next(state, Disconnect(socket)).closing[socket])
  {
    var next := Next(state, Disconnect(socket));
    forall topic | topic in next.closing[socket].todo ensures Vacant(next, Seat(topic, next.closing[socket].account)) {
      var seat := Seat(topic, next.closing[socket].account);
      assert InRoom(state, socket, seat);
      forall s: SocketId ensures !InRoom(next, s, seat) {
        assert InRoom(next, s, seat) ==> InRoom(state, s, seat) && s != socket;
      }
    }
  }

  lemma TidyStepKeepsOneHandler(state: State, step: Step)
    requires Consistent(state) && OneHandler(state) && Enabled(state, step) && Tidy(state, step)
    ensures OneHandler(Next(state, step))
  {
    OneStaysAlone(state, step);
    var next := Next(state, step);
    forall k | k in next.calls ensures CallHolds(next, next.calls[k]) {
      if k in state.calls && next.calls[k] == state.calls[k] {
        OtherCallHolds(state, step, k);
      } else {
        MovedCallHolds(state, step, k);
      }
    }
    forall s | s in next.closing ensures ClosingHolds(next, next.closing[s]) {
      if s in state.closing {
        ClosingStaysHeld(state, step, s);
      } else {
        ClosingStartsHeld(state, s);
      }
    }
    hide CallHolds, ClosingHolds, Consistent, Next, Enabled, Tidy;
  }

  /** No second handler starts. */
  lemma OneStaysAlone(state: State, step: Step)
    requires OneHandler(state) && Enabled(state, step) && Tidy(state, step)
    ensures var next := Next(state, step);
            && (forall k, l :: k in next.calls && l in next.calls ==> k == l)
            && (forall s, t :: s in next.closing && t in next.closing ==> s == t)
            && (next.calls == map[] || next.closing == map[])
  {
    hide CallHolds, ClosingHolds, Offlines, Expired, RoomEntered, RoomExited, Tracked, Connected, OneSocketPerSeat;
  }

  ghost predicate TidyTrace(states: seq<State>, steps: seq<Step>) {
    && Trace(states, steps) && states[0] == EMPTY
    && forall i :: 0 <= i < |steps| ==> Tidy(states[i], steps[i])
  }

  lemma {:induction false} TidyRunsKeepOneHandler(states: seq<State>, steps: seq<Step>, i: nat)
    requires TidyTrace(states, steps) && i < |states|
    ensures Complete(states[i]) && OneHandler(states[i])
    ensures forall k :: 0 <= k < i ==>
              LeavesNoGhost(states[k], steps[k]) && KeepsListed(states[k], steps[k])
                  && TellsTheTruth(states[k], steps[k])
  {
    assert Complete(EMPTY) && OneHandler(EMPTY) && Consistent(EMPTY);
    hide Complete, OneHandler, Consistent, Tidy, LeavesNoGhost, KeepsListed, TellsTheTruth, Next, Enabled;
    if i > 0 {
      TidyRunsKeepOneHandler(states, steps, i - 1);
      RunsAreConsistent(states, steps, i - 1);
      TidyStepsMeetTheConditions(states[i - 1], steps[i - 1]);
      StepKeepsCompleteIff(states[i - 1], steps[i - 1]);
      TidyStepKeepsOneHandler(states[i - 1], steps[i - 1]);
    }
  }

  /** One handler at a time meets every condition: whenever none is under way, the entries,
      the accounts in the rooms and what the broadcasts have told are the same. */
  lemma TidyRunsAreExact(states: seq<State>, steps: seq<Step>, i: nat)
    requires TidyTrace(states, steps) && i < |states| && Quiet(states[i])
    ensures states[i].books.presence.Keys == Seated(states[i]) == Replay(states[i].books.events)
  {
    TidyRunsKeepOneHandler(states, steps, |steps|);
    assert Consistent(EMPTY) && Told(EMPTY);
    hide Tidy, LeavesNoGhost, KeepsListed, TellsTheTruth, Next, Enabled, Told, Consistent;
    PresenceIsExact(states, steps, i);
    BroadcastsRebuildPresenceIff(states, steps);
    QuietIsRebuilt(states[i]);
  }

  /** So the answer to a join, when no other handler is under way, lists exactly the accounts
      whose socket is in that room. */
  lemma JoinAnswersTheRoom(states: seq<State>, steps: seq<Step>, i: nat, topic: TopicId)
    requires TidyTrace(states, steps) && i < |states| && Quiet(states[i])
    ensures forall x :: x in OnlineAccounts(states[i].books.presence, topic) <==>
                        exists socket: SocketId :: InRoom(states[i], socket, Seat(topic, x))
  {
    TidyRunsAreExact(states, steps, i);
    forall x ensures Seat(topic, x) in Seated(states[i]) <==>
                     exists socket: SocketId :: InRoom(states[i], socket, Seat(topic, x)) {
      if Seat(topic, x) in Seated(states[i]) {
        var socket :| socket in states[i].books.rooms && socket in states[i].live
                      && topic in states[i].books.rooms[socket] && states[i].live[socket] == x;
        assert InRoom(states[i], socket, Seat(topic, x));
      }
    }
    hide TidyTrace;
    forall x ensures x in OnlineAccounts(states[i].books.presence, topic) <==> Seat(topic, x) in Seated(states[i]) {
      assert Seat(topic, x) in states[i].books.presence <==> Seat(topic, x) in states[i].books.presence.Keys;
    }
  }
}
