/** The typing indicator of the chat input: keystrokes, sends and a debounced stop, in
    real time. Timers are ideal: each fires at its due time unless cleared before. */
module Typing {
  import opened WhiteSpace
  import opened Wrappers

  const STOP_DELAY_MS: int := 2000

  /** A typing signal sent to the room. */
  datatype Signal = Signal(at: int, typing: bool)

  /** The input's flag, the debounce's timer id, the pending timers with their due
      times, and everything signalled and sent so far. */
  datatype State = State(isTyping: bool, timeoutId: Option<nat>, pending: map<nat, int>, nextId: nat,
                         signals: seq<Signal>, sent: seq<string>, now: int)

  datatype Step = Keystroke(at: int) | Send(at: int, text: string) | Fire(at: int, timer: nat)

  function TrimStart(s: string): string {
    if s != "" && IsSpace(s[0]) then TrimStart(s[1..]) else s
  }

  function TrimEnd(s: string): string {
    if s != "" && IsSpace(s[|s| - 1]) then TrimEnd(s[..|s| - 1]) else s
  }

  function Trim(s: string): string {
    TrimEnd(TrimStart(s))
  }

  lemma {:induction false} TrimStartIsSuffix(s: string)
    ensures exists n: nat :: n <= |s| && TrimStart(s) == s[n..] && forall i :: 0 <= i < n ==> IsSpace(s[i])
  {
    if s != "" && IsSpace(s[0]) {
      TrimStartIsSuffix(s[1..]);
      var n: nat :| n <= |s[1..]| && TrimStart(s[1..]) == s[1..][n..] && forall i :: 0 <= i < n ==> IsSpace(s[1..][i]);
      assert TrimStart(s) == s[n + 1..];
      forall i | 0 <= i < n + 1 ensures IsSpace(s[i]) {
        assert i > 0 ==> s[i] == s[1..][i - 1];
      }
    } else {
      assert s == s[0..];
    }
  }

  lemma {:induction false} TrimEndIsEmptyIff(s: string)
    ensures TrimEnd(s) == "" <==> forall i :: 0 <= i < |s| ==> IsSpace(s[i])
  {
    if s != "" && IsSpace(s[|s| - 1]) {
      TrimEndIsEmptyIff(s[..|s| - 1]);
      forall i | 0 <= i < |s| - 1 ensures s[..|s| - 1][i] == s[i] {
      }
    }
  }

  predicate AllSpaces(s: string) {
    forall i :: 0 <= i < |s| ==> IsSpace(s[i])
  }

  lemma {:induction false} TrimStartLeaves(s: string) returns (before: string)
    ensures s == before + TrimStart(s) && AllSpaces(before)
    ensures TrimStart(s) != "" ==> !IsSpace(TrimStart(s)[0])
  {
    if s != "" && IsSpace(s[0]) {
      before := TrimStartLeaves(s[1..]);
      before := [s[0]] + before;
    } else {
      before := "";
    }
  }

  lemma {:induction false} TrimEndLeaves(s: string) returns (behind: string)
    ensures s == TrimEnd(s) + behind && AllSpaces(behind)
    ensures TrimEnd(s) != "" ==> !IsSpace(TrimEnd(s)[|TrimEnd(s)| - 1])
  {
    if s != "" && IsSpace(s[|s| - 1]) {
      behind := TrimEndLeaves(s[..|s| - 1]);
      behind := behind + [s[|s| - 1]];
    } else {
      behind := "";
    }
  }

  /** Trimming takes off the spaces at both ends and nothing else. */
  lemma TrimIs(s: string) returns (before: string, behind: string)
    ensures s == before + Trim(s) + behind && AllSpaces(before) && AllSpaces(behind)
    ensures Trim(s) != "" ==> !IsSpace(Trim(s)[0]) && !IsSpace(Trim(s)[|Trim(s)| - 1])
  {
    before := TrimStartLeaves(s);
    behind := TrimEndLeaves(TrimStart(s));
    assert Trim(s) != "" ==> Trim(s)[0] == TrimStart(s)[0];
  }

  /** Exactly the texts of spaces alone are ignored. */
  lemma BlankIffAllSpaces(s: string)
    ensures Trim(s) == "" <==> forall i :: 0 <= i < |s| ==> IsSpace(s[i])
  {
    TrimStartIsSuffix(s);
    var n: nat :| n <= |s| && TrimStart(s) == s[n..] && forall i :: 0 <= i < n ==> IsSpace(s[i]);
    TrimEndIsEmptyIff(s[n..]);
    forall i | n <= i < |s| ensures s[i] == s[n..][i - n] {
    }
  }

  /** clearTimeout on the debounce's timer, if it has one. */
  function Cleared(state: State): State {
    if state.timeoutId.Some? then state.(pending := state.pending - {state.timeoutId.value}) else state
  }

  function Cancelled(state: State): State {
    Cleared(state).(timeoutId := None)
  }

  /** The debounced function: clear the last timer and set a new one. */
  function Called(state: State, at: int): State {
    var cleared := Cleared(state);
    cleared.(timeoutId := Some(state.nextId), nextId := state.nextId + 1,
             pending := cleared.pending[state.nextId := at + STOP_DELAY_MS])
  }

  /** Set the flag and signal it, unless it is set so already. */
  function Flagged(state: State, at: int, typing: bool): State {
    if state.isTyping == typing then state
    else state.(isTyping := typing, signals := state.signals + [Signal(at, typing)])
  }

  /** A send of blank text is ignored. */
  function Sent(state: State, at: int, text: string): State {
    if Trim(text) == "" then state
    else
      var stopped := Flagged(Cancelled(state), at, false);
      stopped.(sent := stopped.sent + [Trim(text)])
  }

  /** The debounced callback signals a stop whatever the flag says. */
  function Fired(state: State, at: int, timer: nat): State {
    state.(pending := state.pending - {timer}, isTyping := false, signals := state.signals + [Signal(at, false)],
           timeoutId := None)
  }

  function Next(state: State, step: Step): State {
    var next :=
      match step
      case Keystroke(at) => Called(Flagged(state, at, true), at)
      case Send(at, text) => Sent(state, at, text)
      case Fire(at, timer) => Fired(state, at, timer);
    next.(now := step.at)
  }

  /** Time does not go back, no timer is overdue, and a timer fires at its due time. */
  predicate Enabled(state: State, step: Step) {
    && state.now <= step.at
    && (forall timer <- state.pending :: step.at <= state.pending[timer])
    && (step.Fire? ==> step.timer in state.pending && state.pending[step.timer] == step.at)
  }

  ghost predicate Trace(states: seq<State>, steps: seq<Step>) {
    && |states| == |steps| + 1
    && states[0] == State(false, None, map[], 0, [], [], states[0].now)
    && forall i :: 0 <= i < |steps| ==> Enabled(states[i], steps[i]) && states[i + 1] == Next(states[i], steps[i])
  }

  /** The signals alternate, starting with true, and the flag is the last of them. */
  ghost predicate Alternating(signals: seq<Signal>, isTyping: bool) {
    && (forall i :: 0 <= i < |signals| ==> signals[i].typing == (i % 2 == 0))
    && (isTyping <==> |signals| % 2 == 1)
  }

  /** A timer is pending exactly when the flag is set, it is the debounce's own and the only one. */
  predicate OneTimer(state: State) {
    && (state.isTyping <==> state.timeoutId.Some?)
    && (state.timeoutId.None? ==> state.pending == map[])
    && (state.timeoutId.Some? ==>
          && state.timeoutId.value < state.nextId && state.timeoutId.value in state.pending
          && state.pending == map[state.timeoutId.value := state.pending[state.timeoutId.value]])
  }

  ghost predicate Sound(state: State) {
    OneTimer(state) && Alternating(state.signals, state.isTyping)
  }

  lemma StepIsSound(state: State, step: Step)
    requires Sound(state) && Enabled(state, step)
    ensures Sound(Next(state, step))
  {
    var next := Next(state, step);
    if step.Fire? {
      assert step.timer == state.timeoutId.value;
      assert next.pending == map[];
    } else if step.Send? && Trim(step.text) != "" {
      assert next.pending == map[];
    }
  }

  /** On every timed run the signals alternate and a timer is pending exactly when the flag is set. */
  lemma {:induction false} SignalsAlternate(states: seq<State>, steps: seq<Step>, k: nat)
    requires Trace(states, steps) && k < |states|
    ensures Sound(states[k])
    ensures states[k].isTyping <==> states[k].pending != map[]
  {
    if k > 0 {
      SignalsAlternate(states, steps, k - 1);
      StepIsSound(states[k - 1], steps[k - 1]);
    }
    var state := states[k];
    if state.isTyping {
      assert state.timeoutId.value in state.pending;
    }
  }

  /** What each event signals and sends: a keystroke a true unless one stands, a text with
      anything in it a false if a true stands, a timer a false; blank text nothing. */
  lemma EventsSignal(state: State, step: Step)
    requires Sound(state) && Enabled(state, step)
    ensures var next := Next(state, step);
            var ignored := step.Send? && Trim(step.text) == "";
            && state.now <= step.at == next.now
            && (next.isTyping <==> step.Keystroke? || (ignored && state.isTyping))
            && next.signals == state.signals + (if next.isTyping == state.isTyping then []
                                                else [Signal(step.at, next.isTyping)])
            && next.sent == state.sent + (if step.Send? && !ignored then [Trim(step.text)] else [])
            && (ignored ==> next == state.(now := step.at))
  {
    if step.Fire? {
      assert state.isTyping;
    }
  }

  /** The texts that a run of events sends, in order. */
  function TextsOf(steps: seq<Step>): seq<string> {
    if steps == [] then []
    else
      var last := steps[|steps| - 1];
      TextsOf(steps[..|steps| - 1]) + if last.Send? && Trim(last.text) != "" then [Trim(last.text)] else []
  }

  /** On every timed run exactly the texts that are not blank have been sent, trimmed, in order. */
  lemma {:induction false} TextsAreSent(states: seq<State>, steps: seq<Step>, k: nat)
    requires Trace(states, steps) && k < |states|
    ensures states[k].sent == TextsOf(steps[..k])
  {
    if k > 0 {
      TextsAreSent(states, steps, k - 1);
      SignalsAlternate(states, steps, k - 1);
      EventsSignal(states[k - 1], steps[k - 1]);
      assert steps[..k][..k - 1] == steps[..k - 1];
      hide Next, Enabled, Sound, Trim;
    }
  }

  /** Calls the debounced function again, cancels it, or is its firing. */
  predicate Supersedes(step: Step) {
    match step
    case Keystroke(_) => true
    case Send(_, text) => Trim(text) != ""
    case Fire(_, _) => true
  }

  /** The last call was the keystroke number `j`, with no later call, cancel or firing
      before step `k`. */
  ghost predicate LastCallIs(steps: seq<Step>, k: nat, j: nat)
    requires k <= |steps|
  {
    j < k && steps[j].Keystroke? && forall i :: j < i < k ==> !Supersedes(steps[i])
  }

  /** The pending timer stands for the last call. */
  ghost predicate TimerTracksCall(state: State, steps: seq<Step>, k: nat)
    requires k <= |steps|
  {
    && (state.timeoutId.Some? ==> exists j: nat :: LastCallIs(steps, k, j) && state.timeoutId.value in state.pending
                                             && state.pending[state.timeoutId.value] == steps[j].at + STOP_DELAY_MS)
    && (state.timeoutId.None? ==> forall j: nat :: !LastCallIs(steps, k, j))
  }

  lemma {:induction false} TimerTracksLastCall(states: seq<State>, steps: seq<Step>, k: nat)
    requires Trace(states, steps) && k < |states|
    ensures TimerTracksCall(states[k], steps, k)
  {
    if k > 0 {
      TimerTracksLastCall(states, steps, k - 1);
      SignalsAlternate(states, steps, k - 1);
      var before, step, after := states[k - 1], steps[k - 1], states[k];
      if Supersedes(step) {
        if step.Keystroke? {
          assert LastCallIs(steps, k, k - 1);
        }
      } else {
        assert after.timeoutId == before.timeoutId && after.pending == before.pending;
        forall j: nat ensures LastCallIs(steps, k, j) <==> LastCallIs(steps, k - 1, j) {
        }
        if after.timeoutId.Some? {
          var j: nat :| LastCallIs(steps, k - 1, j)
              && before.pending[before.timeoutId.value] == steps[j].at + STOP_DELAY_MS;
          assert LastCallIs(steps, k, j);
        }
      }
    }
  }

  lemma LastCallIsUnique(steps: seq<Step>, k: nat, i: nat, j: nat)
    requires k <= |steps| && LastCallIs(steps, k, i) && LastCallIs(steps, k, j)
    ensures i == j
  {
    if i < j {
      assert Supersedes(steps[j]);
    } else if j < i {
      assert Supersedes(steps[i]);
    }
  }

  /** The debounced stop can fire at time `t` exactly when its last call was at
      t - 2000 ms, with no later call, cancel or firing. */
  lemma StopFiresIff(states: seq<State>, steps: seq<Step>, k: nat, t: int)
    requires Trace(states, steps) && k < |states| && states[k].now <= t
    ensures (exists timer: nat :: Enabled(states[k], Fire(t, timer))) <==>
            (exists j: nat :: LastCallIs(steps, k, j) && steps[j].at == t - STOP_DELAY_MS)
  {
    var state := states[k];
    TimerTracksLastCall(states, steps, k);
    SignalsAlternate(states, steps, k);
    if state.timeoutId.Some? {
      var id := state.timeoutId.value;
      var j: nat :| LastCallIs(steps, k, j) && state.pending[id] == steps[j].at + STOP_DELAY_MS;
      if state.pending[id] == t {
        assert Enabled(state, Fire(t, id));
      }
      forall i: nat | LastCallIs(steps, k, i) ensures i == j {
        LastCallIsUnique(steps, k, i, j);
      }
      forall timer: nat | Enabled(state, Fire(t, timer)) ensures timer == id {
        assert timer in state.pending;
      }
    } else {
      forall timer: nat ensures !Enabled(state, Fire(t, timer)) {
        assert timer !in state.pending;
      }
    }
  }

  /** The indicator never outlives the last keystroke by more than 2000 ms: while it is
      on, and for any next event, the last call is at most that long ago. */
  lemma IndicatorIsFresh(states: seq<State>, steps: seq<Step>, k: nat)
    requires Trace(states, steps) && k < |steps| && states[k].isTyping
    ensures exists j: nat :: LastCallIs(steps, k, j) && steps[k].at - STOP_DELAY_MS <= steps[j].at
  {
    TimerTracksLastCall(states, steps, k);
    SignalsAlternate(states, steps, k);
  }

  /** Firing always answers a true with a false: it is never a second false. */
  lemma FiringEndsTyping(states: seq<State>, steps: seq<Step>, k: nat)
    requires Trace(states, steps) && k < |steps| && steps[k].Fire?
    ensures states[k].isTyping && !states[k + 1].isTyping && states[k + 1].pending == map[]
    ensures states[k + 1].signals == states[k].signals + [Signal(steps[k].at, false)]
  {
    SignalsAlternate(states, steps, k);
    SignalsAlternate(states, steps, k + 1);
    assert states[k].pending != map[];
  }
}
