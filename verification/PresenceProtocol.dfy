/** Presence with every handler suspended at every awaited call: joins, leaves and
    disconnects of any number of sockets interleave in any order, and any call may fail. */
module PresenceProtocol {
  import opened Presence

  type CallId = nat

  /** Where a join or a leave is suspended. */
  datatype Call =
    // join_conversation
    | Joining(socket: SocketId, seat: Seat)      // tracked; the membership is being checked
    | Entered(socket: SocketId, seat: Seat)      // the room is noted; about to write the entry
    | Listed(socket: SocketId, seat: Seat)       // the entry is written; about to broadcast
    // leave_conversation
    | Leaving(socket: SocketId, seat: Seat)      // about to forget the room
    | Exited(socket: SocketId, seat: Seat)       // about to remove the entry
    | Delisted(socket: SocketId, seat: Seat)     // the entry is removed; about to broadcast

  /** Where a disconnect is suspended: the rooms still to clean, whether the entry of the
      first of them was found to name the socket, and the rooms cleaned so far. */
  datatype Closing = Closing(account: Account, todo: seq<TopicId>, found: bool, removed: seq<TopicId>)

  /** The sockets that are really connected, those whose disconnect is being handled, the
      calls under way, and the gateway's records. */
  datatype State = State(live: map<SocketId, Account>, closing: map<SocketId, Closing>, calls: map<CallId, Call>,
                         books: Books)

  datatype Step =
    | Connect(socket: SocketId, account: Account)
    | BeginJoin(call: CallId, socket: SocketId, topic: TopicId)
    | Enter(call: CallId)
    | WriteEntry(call: CallId)
    | BroadcastOnline(call: CallId)
    | BeginLeave(call: CallId, socket: SocketId, topic: TopicId)
    | Exit(call: CallId)
    | RemoveEntry(call: CallId)
    | BroadcastOffline(call: CallId)
    | Abandon(call: CallId)                                // no member, or an awaited call throws
    | Disconnect(socket: SocketId)
    | LookUp(socket: SocketId)
    | DeleteEntry(socket: SocketId, acknowledged: bool)    // the reply may be lost
    | SkipTopic(socket: SocketId)                          // the look-up or the deletion throws
    | Finish(socket: SocketId)
    | Expire(topic: TopicId)

  const EMPTY: State := State(map[], map[], map[], NO_BOOKS)

  /** Membership rows are written for accounts of the users table, none of which is empty,
      so the check of a join finds a member only for a token that carries an account. */
  predicate Enabled(state: State, step: Step) {
    match step
    case Connect(socket, _) =>
      && socket !in state.live && socket !in state.closing
      && forall k :: k in state.calls ==> state.calls[k].socket != socket
    case BeginJoin(call, socket, _) => call !in state.calls && socket in state.live
    case Enter(call) => call in state.calls && state.calls[call].Joining? && state.calls[call].seat.account != ""
    case WriteEntry(call) => call in state.calls && state.calls[call].Entered?
    case BroadcastOnline(call) => call in state.calls && state.calls[call].Listed?
    case BeginLeave(call, socket, _) => call !in state.calls && socket in state.live
    case Exit(call) => call in state.calls && state.calls[call].Leaving?
    case RemoveEntry(call) => call in state.calls && state.calls[call].Exited?
    case BroadcastOffline(call) => call in state.calls && state.calls[call].Delisted?
    case Abandon(call) => call in state.calls
    case Disconnect(socket) => socket in state.live
    case LookUp(socket) => socket in state.closing && state.closing[socket].todo != [] && !state.closing[socket].found
    case DeleteEntry(socket, _) =>
      socket in state.closing && state.closing[socket].todo != [] && state.closing[socket].found
    case SkipTopic(socket) => socket in state.closing && state.closing[socket].todo != []
    case Finish(socket) => socket in state.closing && state.closing[socket].todo == []
    case Expire(_) => true
  }

  function Goto(state: State, call: CallId, at: Call): State {
    state.(calls := state.calls[call := at])
  }

  function Done(state: State, call: CallId): State {
    state.(calls := state.calls - {call})
  }

  /** The seat whose entry a disconnect looks at next. */
  function NextSeat(closing: Closing): Seat
    requires closing.todo != []
  {
    Seat(closing.todo[0], closing.account)
  }

  function Write(books: Books, seat: Seat, socket: SocketId): Books {
    books.(presence := books.presence[seat := socket])
  }

  function Delete(books: Books, seat: Seat): Books {
    books.(presence := books.presence - {seat})
  }

  function Broadcast(books: Books, events: seq<Event>): Books {
    books.(events := books.events + events)
  }

  function Next(state: State, step: Step): State
    requires Enabled(state, step)
  {
    var books := state.books;
    match step
    case Connect(socket, account) =>
      state.(live := state.live[socket := account], books := Connected(books, socket, account))
    case BeginJoin(call, socket, topic) =>
      var account := state.live[socket];
      Goto(state, call, Joining(socket, Seat(topic, account))).(books := Tracked(books, socket, account))
    case Enter(call) =>
      var Joining(socket, seat) := state.calls[call];
      Goto(state, call, Entered(socket, seat)).(books := RoomEntered(books, socket, seat.topic))
    case WriteEntry(call) =>
      var Entered(socket, seat) := state.calls[call];
      Goto(state, call, Listed(socket, seat)).(books := Write(books, seat, socket))
    case BroadcastOnline(call) => Done(state, call).(books := Broadcast(books, [Online(state.calls[call].seat)]))
    case BeginLeave(call, socket, topic) => Goto(state, call, Leaving(socket, Seat(topic, state.live[socket])))
    case Exit(call) =>
      var Leaving(socket, seat) := state.calls[call];
      Goto(state, call, Exited(socket, seat)).(books := RoomExited(books, socket, seat.topic))
    case RemoveEntry(call) =>
      var Exited(socket, seat) := state.calls[call];
      Goto(state, call, Delisted(socket, seat)).(books := Delete(books, seat))
    case BroadcastOffline(call) => Done(state, call).(books := Broadcast(books, [Offline(state.calls[call].seat)]))
    case Abandon(call) => Done(state, call)
    case Disconnect(socket) =>
      var gone := state.(live := state.live - {socket});
      if socket in books.accounts && books.accounts[socket] != "" && socket in books.rooms && books.rooms[socket] != []
      then gone.(closing := state.closing[socket := Closing(books.accounts[socket], books.rooms[socket], false, [])])
      else gone.(books := Untracked(books, socket))
    case LookUp(socket) =>
      var closing := state.closing[socket];
      var looked := if Holds(books.presence, NextSeat(closing), socket) then closing.(found := true)
                    else closing.(todo := closing.todo[1..]);
      state.(closing := state.closing[socket := looked])
    case DeleteEntry(socket, acknowledged) =>
      var closing := state.closing[socket];
      var removed := if acknowledged then closing.removed + [closing.todo[0]] else closing.removed;
      state.(closing := state.closing[socket := Closing(closing.account, closing.todo[1..], false, removed)],
             books := Delete(books, NextSeat(closing)))
    case SkipTopic(socket) =>
      var closing := state.closing[socket];
      state.(closing := state.closing[socket := closing.(todo := closing.todo[1..], found := false)])
    case Finish(socket) =>
      var closing := state.closing[socket];
      state.(closing := state.closing - {socket},
             books := Untracked(Broadcast(books, Offlines(closing.removed, closing.account)), socket))
    case Expire(topic) => state.(books := Expired(books, topic))
  }

  ghost predicate Trace(states: seq<State>, steps: seq<Step>) {
    && |states| == |steps| + 1
    && forall i :: 0 <= i < |steps| ==> Enabled(states[i], steps[i]) && states[i + 1] == Next(states[i], steps[i])
  }

  // ---------------------------------------------------------------------------
  // What every step keeps
  // ---------------------------------------------------------------------------

  /** The socket is connected as the seat's account and has joined its topic. */
  predicate InRoom(state: State, socket: SocketId, seat: Seat) {
    && socket in state.live && state.live[socket] == seat.account
    && socket in state.books.rooms && seat.topic in state.books.rooms[socket]
  }

  /** Both maps cover the connected and the closing sockets. */
  ghost predicate MapsAgree(state: State) {
    && state.live.Keys !! state.closing.Keys
    && state.books.rooms.Keys == state.books.accounts.Keys == state.live.Keys + state.closing.Keys
    && (forall s :: s in state.live ==> state.books.accounts[s] == state.live[s])
    && (forall s :: s in state.closing ==> state.books.accounts[s] == state.closing[s].account != "")
  }

  /** Calls are made under their socket's account, and only named accounts get an entry. */
  ghost predicate AccountsAgree(state: State) {
    && (forall k :: k in state.calls && state.calls[k].socket in state.live ==>
         state.live[state.calls[k].socket] == state.calls[k].seat.account)
    && (forall k :: k in state.calls && (state.calls[k].Entered? || state.calls[k].Listed?) ==>
         state.calls[k].seat.account != "")
    && (forall seat :: seat in state.books.presence ==> seat.account != "")
  }

  ghost predicate Consistent(state: State) {
    MapsAgree(state) && AccountsAgree(state)
  }

  /** The step is one of a join or a leave. */
  predicate IsCallStep(step: Step) {
    || step.BeginJoin? || step.Enter? || step.WriteEntry? || step.BroadcastOnline?
    || step.BeginLeave? || step.Exit? || step.RemoveEntry? || step.BroadcastOffline? || step.Abandon?
  }

  lemma CallStepKeepsMapsAgree(state: State, step: Step)
    requires MapsAgree(state) && Enabled(state, step) && IsCallStep(step)
    ensures MapsAgree(Next(state, step))
  {
    hide AddTopic, DropTopic;
    var next := Next(state, step);
    assert next.live == state.live && next.closing == state.closing;
    assert next.books.accounts == state.books.accounts && next.books.rooms.Keys == state.books.rooms.Keys;
  }

  lemma CleaningMovesOne(state: State, step: Step)
    requires Enabled(state, step) && (step.LookUp? || step.DeleteEntry? || step.SkipTopic?)
    ensures var next := Next(state, step);
            && next.live == state.live && next.books.accounts == state.books.accounts
            && next.books.rooms == state.books.rooms && step.socket in next.closing
            && next.closing == state.closing[step.socket := next.closing[step.socket]]
            && next.closing[step.socket].account == state.closing[step.socket].account
  {
  }

  lemma CleaningKeepsMapsAgree(state: State, step: Step)
    requires MapsAgree(state) && Enabled(state, step) && (step.LookUp? || step.DeleteEntry? || step.SkipTopic?)
    ensures MapsAgree(Next(state, step))
  {
    CleaningMovesOne(state, step);
    assert step.socket in state.closing;
    hide Next, Enabled;
  }

  lemma DisconnectKeepsMapsAgree(state: State, socket: SocketId)
    requires MapsAgree(state) && Enabled(state, Disconnect(socket))
    ensures MapsAgree(Next(state, Disconnect(socket)))
  {
  }

  lemma ArrivalKeepsMapsAgree(state: State, socket: SocketId, account: Account)
    requires MapsAgree(state) && Enabled(state, Connect(socket, account))
    ensures MapsAgree(Next(state, Connect(socket, account)))
  {
  }

  lemma FinishKeepsMapsAgree(state: State, socket: SocketId)
    requires MapsAgree(state) && Enabled(state, Finish(socket))
    ensures MapsAgree(Next(state, Finish(socket)))
  {
    hide Offlines;
  }

  lemma ExpiryKeepsMapsAgree(state: State, topic: TopicId)
    requires MapsAgree(state)
    ensures MapsAgree(Next(state, Expire(topic)))
  {
  }

  lemma CallStepKeepsAccountsAgree(state: State, step: Step)
    requires AccountsAgree(state) && Enabled(state, step) && IsCallStep(step)
    ensures AccountsAgree(Next(state, step))
  {
    hide AddTopic, DropTopic;
  }

  lemma SocketStepKeepsAccountsAgree(state: State, step: Step)
    requires AccountsAgree(state) && Enabled(state, step) && !IsCallStep(step)
    ensures AccountsAgree(Next(state, step))
  {
    hide Offlines;
  }

  lemma StepKeepsConsistent(state: State, step: Step)
    requires Consistent(state) && Enabled(state, step)
    ensures Consistent(Next(state, step))
  {
    hide MapsAgree, AccountsAgree, Next, Enabled;
    if IsCallStep(step) {
      CallStepKeepsMapsAgree(state, step);
      CallStepKeepsAccountsAgree(state, step);
    } else {
      if step.LookUp? || step.DeleteEntry? || step.SkipTopic? {
        CleaningKeepsMapsAgree(state, step);
      } else if step.Disconnect? {
        DisconnectKeepsMapsAgree(state, step.socket);
      } else if step.Connect? {
        ArrivalKeepsMapsAgree(state, step.socket, step.account);
      } else if step.Finish? {
        FinishKeepsMapsAgree(state, step.socket);
      } else {
        ExpiryKeepsMapsAgree(state, step.topic);
      }
      SocketStepKeepsAccountsAgree(state, step);
    }
  }

  /** On every run both maps follow the sockets. */
  lemma {:induction false} RunsAreConsistent(states: seq<State>, steps: seq<Step>, i: nat)
    requires Trace(states, steps) && i < |states| && Consistent(states[0])
    ensures Consistent(states[i])
  {
    hide Consistent, Next, Enabled;
    if i > 0 {
      RunsAreConsistent(states, steps, i - 1);
      StepKeepsConsistent(states[i - 1], steps[i - 1]);
    }
  }

  /** Any call may fail where it is suspended, so may each look-up and deletion of a
      disconnect, and any hash may expire. */
  lemma AnythingMayFail(state: State, call: CallId, socket: SocketId, topic: TopicId)
    ensures call in state.calls ==> Enabled(state, Abandon(call)) && Next(state, Abandon(call)) == Done(state, call)
    ensures socket in state.closing && state.closing[socket].todo != [] ==>
              && Enabled(state, SkipTopic(socket))
              && Next(state, SkipTopic(socket)).books == state.books
              && Next(state, SkipTopic(socket)).closing[socket].todo == state.closing[socket].todo[1..]
              && !Next(state, SkipTopic(socket)).closing[socket].found
    ensures Enabled(state, Expire(topic))
    ensures forall seat :: seat in Next(state, Expire(topic)).books.presence <==>
                           seat in state.books.presence && seat.topic != topic
  {
  }

  /** The look-up at `j` found the entry of that seat to name the socket. */
  ghost predicate FoundAt(states: seq<State>, steps: seq<Step>, j: nat, socket: SocketId, seat: Seat)
    requires |states| == |steps| + 1
  {
    j < |steps| && steps[j] == LookUp(socket) && Holds(states[j].books.presence, seat, socket)
  }

  lemma {:induction false} FoundWasLookedUp(states: seq<State>, steps: seq<Step>, k: nat, socket: SocketId)
    requires Trace(states, steps) && k < |states| && states[0].closing == map[]
    requires socket in states[k].closing && states[k].closing[socket].found && states[k].closing[socket].todo != []
    ensures exists j: nat :: j < k && FoundAt(states, steps, j, socket, NextSeat(states[k].closing[socket]))
  {
    var before, step := states[k - 1], steps[k - 1];
    hide RoomEntered, RoomExited, Tracked, Connected, Offlines, Expired, Untracked;
    if socket in before.closing && before.closing[socket] == states[k].closing[socket] {
      FoundWasLookedUp(states, steps, k - 1, socket);
    } else {
      assert step == LookUp(socket);
      assert FoundAt(states, steps, k - 1, socket, NextSeat(states[k].closing[socket]));
    }
  }

  /** On every run a disconnect deletes an entry only after a look-up that found it to name
      the socket; only in between can it have become another's. */
  lemma DeletionsWereFound(states: seq<State>, steps: seq<Step>, k: nat)
    requires Trace(states, steps) && states[0].closing == map[] && k < |steps| && steps[k].DeleteEntry?
    ensures exists j: nat ::
              j < k && FoundAt(states, steps, j, steps[k].socket, NextSeat(states[k].closing[steps[k].socket]))
  {
    FoundWasLookedUp(states, steps, k, steps[k].socket);
  }

  // ---------------------------------------------------------------------------
  // No ghosts
  // ---------------------------------------------------------------------------

  /** A leave of that seat is about to remove the entry. */
  ghost predicate LeaveUnderWay(calls: map<CallId, Call>, seat: Seat) {
    exists k :: k in calls && calls[k].Exited? && calls[k].seat == seat
  }

  /** A disconnect of the socket has still to look at the entry. */
  predicate StillToClean(state: State, socket: SocketId, seat: Seat) {
    socket in state.closing && state.closing[socket].account == seat.account && seat.topic in state.closing[socket].todo
  }

  /** An entry that names the socket is accounted for: the socket is in the room, or the
      entry is about to go. */
  ghost predicate Accounted(state: State, socket: SocketId, seat: Seat) {
    InRoom(state, socket, seat) || LeaveUnderWay(state.calls, seat) || StillToClean(state, socket, seat)
  }

  ghost predicate NoGhosts(state: State) {
    forall seat :: seat in state.books.presence ==> Accounted(state, state.books.presence[seat], seat)
  }

  /** What a step must find, so that every entry stays accounted for: the socket of a
      written entry is still there, and a removal that fails had nothing to remove. */
  ghost predicate LeavesNoGhost(state: State, step: Step)
    requires Enabled(state, step)
  {
    match step
    case WriteEntry(call) => Accounted(state, state.calls[call].socket, state.calls[call].seat)
    case Abandon(call) =>
      var seat := state.calls[call].seat;
      state.calls[call].Exited? && seat in state.books.presence ==>
        Accounted(Done(state, call), state.books.presence[seat], seat)
    case SkipTopic(socket) =>
      var seat := NextSeat(state.closing[socket]);
      Holds(state.books.presence, seat, socket) ==>
        LeaveUnderWay(state.calls, seat) || seat.topic in state.closing[socket].todo[1..]
    case _ => true
  }

  lemma InRoomStaysOverCalls(state: State, step: Step, socket: SocketId, seat: Seat)
    requires Enabled(state, step) && InRoom(state, socket, seat) && IsCallStep(step)
    requires step.Exit? ==> state.calls[step.call] != Leaving(socket, seat)
    requires forall k :: k in state.calls && state.calls[k].socket == socket ==>
      state.calls[k].seat.account == seat.account
    ensures InRoom(Next(state, step), socket, seat)
  {
    hide AddTopic, DropTopic;
  }

  lemma InRoomStays(state: State, step: Step, socket: SocketId, seat: Seat)
    requires Consistent(state) && Enabled(state, step) && InRoom(state, socket, seat) && seat.account != ""
    ensures Accounted(Next(state, step), socket, seat)
  {
    if step.Exit? && state.calls[step.call] == Leaving(socket, seat) {
      assert Next(state, step).calls[step.call] == Exited(socket, seat);
    } else if IsCallStep(step) {
      InRoomStaysOverCalls(state, step, socket, seat);
    } else {
      InRoomStaysOverSockets(state, step, socket, seat);
    }
    hide Next, Enabled;
  }

  lemma InRoomStaysOverSockets(state: State, step: Step, socket: SocketId, seat: Seat)
    requires Consistent(state) && Enabled(state, step) && InRoom(state, socket, seat) && seat.account != ""
    requires !IsCallStep(step)
    ensures InRoom(Next(state, step), socket, seat) || StillToClean(Next(state, step), socket, seat)
  {
    hide Offlines;
  }

  lemma LeaveStaysUnderWay(state: State, step: Step, seat: Seat)
    requires Enabled(state, step) && LeaveUnderWay(state.calls, seat)
    requires step.RemoveEntry? || (step.Abandon? && state.calls[step.call].Exited?) ==>
      seat != state.calls[step.call].seat
    ensures LeaveUnderWay(Next(state, step).calls, seat)
  {
    var k :| k in state.calls && state.calls[k].Exited? && state.calls[k].seat == seat;
    assert k in Next(state, step).calls && Next(state, step).calls[k] == state.calls[k];
  }

  /** A look-up that finds nothing, and a deletion, are of another entry. */
  lemma CleaningStays(state: State, step: Step, socket: SocketId, seat: Seat)
    requires Enabled(state, step) && StillToClean(state, socket, seat) && MapsAgree(state)
    requires step.LookUp? && step.socket == socket ==> Holds(state.books.presence, seat, socket)
    requires (step.DeleteEntry? || step.SkipTopic?) && step.socket == socket ==> seat != NextSeat(state.closing[socket])
    ensures StillToClean(Next(state, step), socket, seat)
  {
    hide Offlines, Expired, Untracked, RoomEntered, RoomExited, Tracked, Connected;
    if (step.LookUp? || step.DeleteEntry? || step.SkipTopic?) && step.socket == socket {
      var todo := state.closing[socket].todo;
      assert todo == [todo[0]] + todo[1..];
    } else {
      assert socket in Next(state, step).closing && Next(state, step).closing[socket] == state.closing[socket];
    }
  }

  lemma EntryWasThere(state: State, step: Step, seat: Seat)
    requires Enabled(state, step) && seat in Next(state, step).books.presence
    requires step.WriteEntry? ==> seat != state.calls[step.call].seat
    ensures seat in state.books.presence && Next(state, step).books.presence[seat] == state.books.presence[seat]
    ensures step.RemoveEntry? ==> seat != state.calls[step.call].seat
    ensures step.DeleteEntry? ==> seat != NextSeat(state.closing[step.socket])
  {
    hide AddTopic, DropTopic, Offlines;
  }

  lemma AccountedStays(state: State, step: Step, seat: Seat)
    requires Consistent(state) && NoGhosts(state) && Enabled(state, step) && seat in Next(state, step).books.presence
    requires step.WriteEntry? ==> seat != state.calls[step.call].seat
    requires step.Abandon? && state.calls[step.call].Exited? ==> seat != state.calls[step.call].seat
    requires step.SkipTopic? ==> !Holds(state.books.presence, NextSeat(state.closing[step.socket]), step.socket)
                                 || seat != NextSeat(state.closing[step.socket])
    ensures Accounted(Next(state, step), Next(state, step).books.presence[seat], seat)
  {
    EntryWasThere(state, step, seat);
    hide Next, Enabled, Consistent;
    var socket := state.books.presence[seat];
    if InRoom(state, socket, seat) {
      InRoomStays(state, step, socket, seat);
    } else if LeaveUnderWay(state.calls, seat) {
      LeaveStaysUnderWay(state, step, seat);
    } else {
      CleaningStays(state, step, socket, seat);
    }
  }

  /** The one entry that a step can leave unaccounted for. */
  predicate IsSuspect(state: State, step: Step, seat: Seat)
    requires Enabled(state, step)
  {
    match step
    case WriteEntry(call) => seat == state.calls[call].seat
    case Abandon(call) => state.calls[call].Exited? && seat == state.calls[call].seat && seat in state.books.presence
    case SkipTopic(socket) => seat == NextSeat(state.closing[socket]) && Holds(state.books.presence, seat, socket)
    case _ => false
  }

  lemma SuspectIsAccountedIff(state: State, step: Step, seat: Seat)
    requires Consistent(state) && NoGhosts(state) && Enabled(state, step) && seat in Next(state, step).books.presence
    requires IsSuspect(state, step, seat)
    ensures Accounted(Next(state, step), Next(state, step).books.presence[seat], seat) <==> LeavesNoGhost(state, step)
  {
    var next := Next(state, step);
    if step.WriteEntry? {
      LeavesAlike(state.calls, next.calls, seat);
    } else if step.SkipTopic? {
      LeavesAlike(state.calls, next.calls, seat);
    }
  }

  lemma LeavesAlike(calls: map<CallId, Call>, calls': map<CallId, Call>, seat: Seat)
    requires calls'.Keys == calls.Keys
    requires forall k :: k in calls && (calls[k].Exited? || calls'[k].Exited?) ==> calls'[k] == calls[k]
    ensures LeaveUnderWay(calls', seat) <==> LeaveUnderWay(calls, seat)
  {
    if k :| k in calls && calls[k].Exited? && calls[k].seat == seat {
      assert calls'[k].Exited?;
    }
  }

  /** Every step accounts for every entry, except a write, or a failed removal, that does not. */
  lemma StepKeepsNoGhostsIff(state: State, step: Step)
    requires Consistent(state) && NoGhosts(state) && Enabled(state, step)
    ensures NoGhosts(Next(state, step)) <==> LeavesNoGhost(state, step)
  {
    var next := Next(state, step);
    forall seat | seat in next.books.presence && !IsSuspect(state, step, seat)
      ensures Accounted(next, next.books.presence[seat], seat)
    {
      AccountedStays(state, step, seat);
    }
    if seat: Seat :| IsSuspect(state, step, seat) {
      SuspectIsAccountedIff(state, step, seat);
      assert forall other: Seat :: IsSuspect(state, step, other) ==> other == seat;
      assert seat in next.books.presence;
    } else {
      assert LeavesNoGhost(state, step) by {
        match step
        case WriteEntry(call) => assert IsSuspect(state, step, state.calls[call].seat);
        case Abandon(call) => assert !IsSuspect(state, step, state.calls[call].seat);
        case SkipTopic(socket) => assert !IsSuspect(state, step, NextSeat(state.closing[socket]));
        case _ =>
      }
    }
  }

  /** On every interleaving, failures included: there are no ghosts throughout exactly
      when every write finds its entry accounted for, and every removal that fails had
      nothing to remove. */
  lemma NoGhostPresenceIff(states: seq<State>, steps: seq<Step>)
    requires Trace(states, steps) && Consistent(states[0]) && NoGhosts(states[0])
    ensures (forall i :: 0 <= i < |states| ==> NoGhosts(states[i])) <==>
            (forall k :: 0 <= k < |steps| ==> LeavesNoGhost(states[k], steps[k]))
  {
    hide Consistent, NoGhosts, LeavesNoGhost, Enabled, Next;
    forall k | 0 <= k < |steps| && NoGhosts(states[k])
      ensures NoGhosts(states[k + 1]) <==> LeavesNoGhost(states[k], steps[k])
    {
      RunsAreConsistent(states, steps, k);
      StepKeepsNoGhostsIff(states[k], steps[k]);
    }
    var i := 0;
    while i < |steps| && LeavesNoGhost(states[i], steps[i])
      invariant i <= |steps| && forall j :: 0 <= j <= i ==> NoGhosts(states[j])
      invariant forall j :: 0 <= j < i ==> LeavesNoGhost(states[j], steps[j])
    {
      i := i + 1;
    }
    assert i < |steps| ==> !NoGhosts(states[i + 1]);
  }
}
