/** When the presence entries are exactly the accounts in the rooms, and what a listener
    to the broadcasts can rebuild. */
module PresenceExactness {
  import opened Presence
  import opened PresenceProtocol

  // ---------------------------------------------------------------------------
  // Nobody in a room goes unlisted
  // ---------------------------------------------------------------------------

  ghost predicate AboutToWrite(calls: map<CallId, Call>, socket: SocketId, seat: Seat) {
    exists k :: k in calls && calls[k] == Entered(socket, seat)
  }

  /** The socket is in the room, and its join is not still to write the entry. */
  ghost predicate Settled(state: State, socket: SocketId, seat: Seat) {
    InRoom(state, socket, seat) && !AboutToWrite(state.calls, socket, seat)
  }

  ghost predicate Occupied(state: State, seat: Seat) {
    exists socket: SocketId :: Settled(state, socket, seat)
  }

  /** Every account with a settled socket in a room has an entry. */
  ghost predicate Complete(state: State) {
    forall socket: SocketId, seat: Seat :: Settled(state, socket, seat) ==> seat in state.books.presence
  }

  ghost predicate RoomEmpty(state: State, topic: TopicId) {
    forall socket: SocketId, seat: Seat :: Settled(state, socket, seat) ==> seat.topic != topic
  }

  /** What a step must find, so that everyone in a room stays listed: an entry that is
      removed, by whomever, is nobody's, only empty rooms expire, and a write that fails
      was not needed. */
  ghost predicate KeepsListed(state: State, step: Step)
    requires Enabled(state, step)
  {
    match step
    case RemoveEntry(call) => !Occupied(state, state.calls[call].seat)
    case DeleteEntry(socket, _) => !Occupied(state, NextSeat(state.closing[socket]))
    case Expire(topic) => RoomEmpty(state, topic)
    case Abandon(call) =>
      var seat := state.calls[call].seat;
      state.calls[call].Entered? && Settled(Done(state, call), state.calls[call].socket, seat) ==>
        seat in state.books.presence
    case _ => true
  }

  /** Who is settled depends on the connected sockets, their rooms and the pending writes. */
  lemma SettledAlike(state: State, state': State, socket: SocketId, seat: Seat)
    requires InRoom(state', socket, seat) <==> InRoom(state, socket, seat)
    requires forall k :: k in state.calls && state.calls[k].Entered? ==>
               k in state'.calls && state'.calls[k] == state.calls[k]
    requires forall k :: k in state'.calls && state'.calls[k].Entered? ==>
               k in state.calls && state'.calls[k] == state.calls[k]
    ensures Settled(state', socket, seat) <==> Settled(state, socket, seat)
  {
    if AboutToWrite(state.calls, socket, seat) {
      var k :| k in state.calls && state.calls[k] == Entered(socket, seat);
      assert state'.calls[k].Entered?;
    }
    if AboutToWrite(state'.calls, socket, seat) {
      var k :| k in state'.calls && state'.calls[k] == Entered(socket, seat);
      assert state.calls[k].Entered?;
    }
  }

  /** Whoever is settled was so before, or has just written its entry, or failed to. */
  lemma SettledBefore(state: State, step: Step, socket: SocketId, seat: Seat)
    requires Consistent(state) && Enabled(state, step) && Settled(Next(state, step), socket, seat)
    ensures || Settled(state, socket, seat)
            || ((step.WriteEntry? || step.Abandon?) && state.calls[step.call] == Entered(socket, seat))
  {
    var next := Next(state, step);
    if AboutToWrite(state.calls, socket, seat) {
      var k :| k in state.calls && state.calls[k] == Entered(socket, seat);
      assert k in next.calls ==> next.calls[k] != Entered(socket, seat);
    }
    assert step.Enter? ==> next.calls[step.call] == Entered(state.calls[step.call].socket, state.calls[step.call].seat);
  }

  /** A removal or an expiry settles and unsettles nobody. */
  lemma RemovalSettlesAlike(state: State, step: Step, socket: SocketId, seat: Seat)
    requires Enabled(state, step) && (step.RemoveEntry? || step.DeleteEntry? || step.Expire?)
    ensures Settled(Next(state, step), socket, seat) <==> Settled(state, socket, seat)
  {
    SettledAlike(state, Next(state, step), socket, seat);
  }

  lemma RemovalKeepsCompleteIff(state: State, step: Step)
    requires Complete(state) && Enabled(state, step) && (step.RemoveEntry? || step.DeleteEntry? || step.Expire?)
    ensures Complete(Next(state, step)) <==> KeepsListed(state, step)
  {
    var next := Next(state, step);
    forall socket: SocketId, seat: Seat ensures Settled(next, socket, seat) <==> Settled(state, socket, seat) {
      RemovalSettlesAlike(state, step, socket, seat);
    }
    hide Settled;
    if Complete(next) {
      assert KeepsListed(state, step);
    }
  }

  lemma AbandonKeepsCompleteIff(state: State, call: CallId)
    requires Consistent(state) && Complete(state) && Enabled(state, Abandon(call))
    ensures Complete(Next(state, Abandon(call))) <==> KeepsListed(state, Abandon(call))
  {
    var next := Next(state, Abandon(call));
    forall socket: SocketId, seat: Seat | Settled(next, socket, seat) && state.calls[call] != Entered(socket, seat)
      ensures seat in state.books.presence
    {
      SettledBefore(state, Abandon(call), socket, seat);
    }
    hide Settled;
  }

  /** Every step keeps everyone in a room listed, except a removal, an expiry, or a failed
      write that does not meet the condition. */
  lemma StepKeepsCompleteIff(state: State, step: Step)
    requires Consistent(state) && Complete(state) && Enabled(state, step)
    ensures Complete(Next(state, step)) <==> KeepsListed(state, step)
  {
    if step.RemoveEntry? || step.DeleteEntry? || step.Expire? {
      RemovalKeepsCompleteIff(state, step);
    } else if step.Abandon? {
      AbandonKeepsCompleteIff(state, step.call);
    } else {
      var next := Next(state, step);
      assert forall seat :: seat in state.books.presence ==> seat in next.books.presence;
      forall socket: SocketId, seat: Seat | Settled(next, socket, seat) ensures seat in next.books.presence {
        SettledBefore(state, step, socket, seat);
      }
    }
  }

  /** On every interleaving, failures included: everyone in a room is listed throughout
      exactly when every step meets the condition. */
  lemma EveryoneIsListedIff(states: seq<State>, steps: seq<Step>)
    requires Trace(states, steps) && Consistent(states[0]) && Complete(states[0])
    ensures (forall i :: 0 <= i < |states| ==> Complete(states[i])) <==>
            (forall k :: 0 <= k < |steps| ==> KeepsListed(states[k], steps[k]))
  {
    hide Consistent, Complete, KeepsListed, Enabled, Next;
    forall k | 0 <= k < |steps| && Complete(states[k])
      ensures Complete(states[k + 1]) <==> KeepsListed(states[k], steps[k])
    {
      RunsAreConsistent(states, steps, k);
      StepKeepsCompleteIff(states[k], steps[k]);
    }
    var i := 0;
    while i < |steps| && KeepsListed(states[i], steps[i])
      invariant i <= |steps| && forall j :: 0 <= j <= i ==> Complete(states[j])
      invariant forall j :: 0 <= j < i ==> KeepsListed(states[j], steps[j])
    {
      i := i + 1;
    }
    assert i < |steps| ==> !Complete(states[i + 1]);
  }

  /** The seats of the accounts whose socket is in a room. */
  function Seated(state: State): set<Seat> {
    set socket, topic | socket in state.books.rooms && socket in state.live && topic in state.books.rooms[socket]
      :: Seat(topic, state.live[socket])
  }

  predicate Quiet(state: State) {
    state.calls == map[] && state.closing == map[]
  }

  lemma SeatsAreListed(state: State)
    requires NoGhosts(state) && Complete(state) && Quiet(state)
    ensures state.books.presence.Keys == Seated(state)
  {
    forall seat ensures seat in state.books.presence <==> seat in Seated(state) {
      if seat in state.books.presence {
        assert InRoom(state, state.books.presence[seat], seat);
      }
      if seat in Seated(state) {
        var socket :| socket in state.books.rooms && socket in state.live && seat.topic in state.books.rooms[socket]
                      && state.live[socket] == seat.account;
        assert Settled(state, socket, seat);
      }
    }
  }

  /** On every run whose steps meet the two conditions, however it interleaves and
      whatever fails in it: whenever no handler is under way, the presence entries are
      exactly the accounts whose socket is in the room. */
  lemma PresenceIsExact(states: seq<State>, steps: seq<Step>, i: nat)
    requires Trace(states, steps) && states[0] == EMPTY && i < |states| && Quiet(states[i])
    requires forall k :: 0 <= k < |steps| ==> LeavesNoGhost(states[k], steps[k]) && KeepsListed(states[k], steps[k])
    ensures states[i].books.presence.Keys == Seated(states[i])
  {
    NoGhostPresenceIff(states, steps);
    EveryoneIsListedIff(states, steps);
    SeatsAreListed(states[i]);
  }

  // ---------------------------------------------------------------------------
  // What a listener to every broadcast can rebuild
  // ---------------------------------------------------------------------------

  predicate TellsOf(calls: map<CallId, Call>, k: CallId, seat: Seat) {
    k in calls && (calls[k].Listed? || calls[k].Delisted?) && calls[k].seat == seat
  }

  predicate WillTell(closing: map<SocketId, Closing>, s: SocketId, seat: Seat) {
    s in closing && closing[s].account == seat.account && seat.topic in closing[s].removed
  }

  /** A call or a disconnect has changed the entry and is still to broadcast it. */
  ghost predicate Owed(state: State, seat: Seat) {
    (exists k :: TellsOf(state.calls, k, seat)) || (exists s :: WillTell(state.closing, s, seat))
  }

  predicate Agrees(books: Books, seat: Seat) {
    seat in Replay(books.events) <==> seat in books.presence
  }

  /** Where no broadcast is owed, replaying the broadcasts tells whether there is an entry. */
  ghost predicate Told(state: State) {
    forall seat :: !Owed(state, seat) ==> Agrees(state.books, seat)
  }

  /** The step is about the seat: it broadcasts it, or changes its entry. */
  predicate Touches(state: State, step: Step, seat: Seat)
    requires Enabled(state, step)
  {
    match step
    case WriteEntry(call) => seat == state.calls[call].seat
    case RemoveEntry(call) => seat == state.calls[call].seat
    case BroadcastOnline(call) => seat == state.calls[call].seat
    case BroadcastOffline(call) => seat == state.calls[call].seat
    case Abandon(call) => seat == state.calls[call].seat
    case DeleteEntry(socket, _) => seat == NextSeat(state.closing[socket])
    case Finish(socket) => WillTell(state.closing, socket, seat)
    case Expire(topic) => seat.topic == topic
    case _ => false
  }

  /** What a step about the seat must find, so that the broadcasts go on telling its
      entry: the last broadcast owed is true, and what changes unannounced was not there. */
  ghost predicate TruthAt(state: State, step: Step, seat: Seat)
    requires Enabled(state, step)
  {
    match step
    case BroadcastOnline(call) => Owed(Done(state, call), seat) || seat in state.books.presence
    case BroadcastOffline(call) => Owed(Done(state, call), seat) || seat !in state.books.presence
    case Abandon(call) =>
      TellsOf(state.calls, call, seat) ==> Owed(Done(state, call), seat) || Agrees(state.books, seat)
    case DeleteEntry(_, acknowledged) => acknowledged || Owed(state, seat) || seat !in state.books.presence
    case Finish(socket) => Owed(state.(closing := state.closing - {socket}), seat) || seat !in state.books.presence
    case Expire(_) => seat in state.books.presence ==> Owed(state, seat)
    case _ => true
  }

  ghost predicate TellsTheTruth(state: State, step: Step)
    requires Enabled(state, step)
  {
    forall seat: Seat :: Touches(state, step, seat) ==> TruthAt(state, step, seat)
  }

  lemma CallsTellAlike(state: State, step: Step, k: CallId, seat: Seat)
    requires Enabled(state, step) && !Touches(state, step, seat)
    ensures TellsOf(Next(state, step).calls, k, seat) <==> TellsOf(state.calls, k, seat)
  {
  }

  lemma ClosingTellsAlike(state: State, step: Step, s: SocketId, seat: Seat)
    requires MapsAgree(state) && Enabled(state, step) && !Touches(state, step, seat)
    ensures WillTell(Next(state, step).closing, s, seat) <==> WillTell(state.closing, s, seat)
  {
    hide RoomEntered, RoomExited, Tracked, Connected, Offlines, Expired, Untracked;
    if step.DeleteEntry? && step.socket == s {
      var closing := state.closing[s];
      assert seat.topic in closing.removed + [closing.todo[0]] <==>
             seat.topic in closing.removed || seat.topic == closing.todo[0];
    }
  }

  lemma BooksAgreeAlike(state: State, step: Step, seat: Seat)
    requires Enabled(state, step) && !Touches(state, step, seat)
    ensures Agrees(Next(state, step).books, seat) <==> Agrees(state.books, seat)
  {
    var events := Next(state, step).books.events;
    if step.BroadcastOnline? || step.BroadcastOffline? {
      assert events[..|events| - 1] == state.books.events;
    } else if step.Finish? {
      OfflinesReplay(state.books.events, state.closing[step.socket].removed, state.closing[step.socket].account);
    }
  }

  /** A step that is not about the seat leaves it as it was told. */
  lemma OtherSeatsStayTold(state: State, step: Step, seat: Seat)
    requires Consistent(state) && Told(state) && Enabled(state, step) && !Touches(state, step, seat)
    ensures Owed(Next(state, step), seat) || Agrees(Next(state, step).books, seat)
  {
    BooksAgreeAlike(state, step, seat);
    hide Agrees, Next, Touches;
    if k :| TellsOf(state.calls, k, seat) {
      CallsTellAlike(state, step, k, seat);
    } else if s :| WillTell(state.closing, s, seat) {
      ClosingTellsAlike(state, step, s, seat);
    }
  }

  lemma BroadcastToldIff(state: State, step: Step, seat: Seat)
    requires Told(state) && Enabled(state, step) && Touches(state, step, seat)
    requires step.BroadcastOnline? || step.BroadcastOffline? || step.Abandon?
    ensures Owed(Next(state, step), seat) || Agrees(Next(state, step).books, seat) <==> TruthAt(state, step, seat)
  {
    var events := Next(state, step).books.events;
    if !step.Abandon? {
      assert events[..|events| - 1] == state.books.events;
    }
    assert Next(state, step).calls == Done(state, step.call).calls && Next(state, step).closing == state.closing;
    if step.Abandon? && !TellsOf(state.calls, step.call, seat) && Owed(state, seat) {
      if k :| TellsOf(state.calls, k, seat) {
        assert TellsOf(Done(state, step.call).calls, k, seat);
      }
    }
  }

  lemma EntryToldIff(state: State, step: Step, seat: Seat)
    requires Told(state) && Enabled(state, step) && Touches(state, step, seat)
    requires step.WriteEntry? || step.RemoveEntry? || step.Expire?
    ensures Owed(Next(state, step), seat) || Agrees(Next(state, step).books, seat) <==> TruthAt(state, step, seat)
  {
    if !step.Expire? {
      assert TellsOf(Next(state, step).calls, step.call, seat);
    } else {
      assert Next(state, step).calls == state.calls && Next(state, step).closing == state.closing;
      assert Owed(Next(state, step), seat) <==> Owed(state, seat);
      assert Owed(state, seat) || Agrees(state.books, seat);
    }
  }

  lemma DeletionToldIff(state: State, socket: SocketId, acknowledged: bool)
    requires Told(state) && Enabled(state, DeleteEntry(socket, acknowledged))
    ensures var step := DeleteEntry(socket, acknowledged);
            var seat := NextSeat(state.closing[socket]);
            Owed(Next(state, step), seat) || Agrees(Next(state, step).books, seat) <==> TruthAt(state, step, seat)
  {
    var seat := NextSeat(state.closing[socket]);
    var next := Next(state, DeleteEntry(socket, acknowledged));
    if acknowledged {
      assert WillTell(next.closing, socket, seat);
    } else {
      assert forall s :: WillTell(next.closing, s, seat) <==> WillTell(state.closing, s, seat);
      assert next.calls == state.calls;
    }
  }

  lemma FinishToldIff(state: State, socket: SocketId, seat: Seat)
    requires Told(state) && Enabled(state, Finish(socket)) && Touches(state, Finish(socket), seat)
    ensures Owed(Next(state, Finish(socket)), seat) || Agrees(Next(state, Finish(socket)).books, seat)
            <==> TruthAt(state, Finish(socket), seat)
  {
    OfflinesReplay(state.books.events, state.closing[socket].removed, state.closing[socket].account);
  }

  /** The broadcasts go on telling the entries exactly when each seat that the step is
      about meets the condition. */
  lemma StepKeepsToldIff(state: State, step: Step)
    requires Consistent(state) && Told(state) && Enabled(state, step)
    ensures Told(Next(state, step)) <==> TellsTheTruth(state, step)
  {
    forall seat: Seat | !Touches(state, step, seat)
      ensures Owed(Next(state, step), seat) || Agrees(Next(state, step).books, seat)
    {
      OtherSeatsStayTold(state, step, seat);
    }
    forall seat: Seat | Touches(state, step, seat)
      ensures Owed(Next(state, step), seat) || Agrees(Next(state, step).books, seat) <==> TruthAt(state, step, seat)
    {
      if step.DeleteEntry? {
        DeletionToldIff(state, step.socket, step.acknowledged);
      } else if step.Finish? {
        FinishToldIff(state, step.socket, seat);
      } else if step.BroadcastOnline? || step.BroadcastOffline? || step.Abandon? {
        BroadcastToldIff(state, step, seat);
      } else {
        EntryToldIff(state, step, seat);
      }
    }
    hide Owed, Agrees, TruthAt, Touches, Next, Enabled, Consistent;
  }

  /** On every interleaving, failures included: where no broadcast is owed, replaying the
      broadcasts gives the entries throughout exactly when every step meets the condition. */
  lemma BroadcastsRebuildPresenceIff(states: seq<State>, steps: seq<Step>)
    requires Trace(states, steps) && Consistent(states[0]) && Told(states[0])
    ensures (forall i :: 0 <= i < |states| ==> Told(states[i])) <==>
            (forall k :: 0 <= k < |steps| ==> TellsTheTruth(states[k], steps[k]))
  {
    hide Consistent, Told, TellsTheTruth, Enabled, Next;
    forall k | 0 <= k < |steps| && Told(states[k]) ensures Told(states[k + 1]) <==> TellsTheTruth(states[k], steps[k]) {
      RunsAreConsistent(states, steps, k);
      StepKeepsToldIff(states[k], steps[k]);
    }
    var i := 0;
    while i < |steps| && TellsTheTruth(states[i], steps[i])
      invariant i <= |steps| && forall j :: 0 <= j <= i ==> Told(states[j])
      invariant forall j :: 0 <= j < i ==> TellsTheTruth(states[j], steps[j])
    {
      i := i + 1;
    }
    assert i < |steps| ==> !Told(states[i + 1]);
  }

  /** Whenever no handler is under way, the replay is the presence. */
  lemma QuietIsRebuilt(state: State)
    requires Told(state) && Quiet(state)
    ensures Replay(state.books.events) == state.books.presence.Keys
  {
    forall seat ensures seat in Replay(state.books.events) <==> seat in state.books.presence.Keys {
      assert !Owed(state, seat);
      assert Agrees(state.books, seat);
    }
  }
}
