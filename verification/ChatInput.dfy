/** The chat input's handlers, the debounce they share and the browser's timers. */
module ChatInput {
  import opened Wrappers
  import opened Typing

  /** The browser's timeouts. */
  class Timers {
    var pending: map<nat, int>
    var nextId: nat

    constructor ()
      ensures pending == map[] && nextId == 0
    {
      pending, nextId := map[], 0;
    }

    method SetTimeout(due: int) returns (id: nat)
      modifies this
      ensures id == old(nextId) && nextId == old(nextId) + 1 && pending == old(pending)[id := due]
    {
      id := nextId;
      pending := pending[id := due];
      nextId := nextId + 1;
    }

    method ClearTimeout(id: nat)
      modifies this`pending
      ensures pending == old(pending) - {id}
    {
      pending := pending - {id};
    }
  }

  class Debounce {
    var timeoutId: Option<nat>
    const ms: int
    const timers: Timers

    constructor (ms: int, timers: Timers)
      ensures timeoutId == None && this.ms == ms && this.timers == timers
    {
      timeoutId := None;
      this.ms, this.timers := ms, timers;
    }

    /** The timers still pending when the last one of this debounce is cleared. */
    function Others(): map<nat, int>
      reads this, timers
    {
      if timeoutId.Some? then timers.pending - {timeoutId.value} else timers.pending
    }

    method Fn(now: int)
      modifies this, timers
      ensures timeoutId == Some(old(timers.nextId)) && timers.nextId == old(timers.nextId) + 1
      ensures timers.pending == old(Others())[old(timers.nextId) := now + ms]
    {
      if timeoutId.Some? {
        timers.ClearTimeout(timeoutId.value);
      }
      var id := timers.SetTimeout(now + ms);
      timeoutId := Some(id);
    }

    method Cancel()
      modifies this, timers
      ensures timeoutId == None && timers.pending == old(Others()) && timers.nextId == old(timers.nextId)
    {
      if timeoutId.Some? {
        timers.ClearTimeout(timeoutId.value);
        timeoutId := None;
      }
    }
  }

  class Input {
    var isTyping: bool
    var signals: seq<Signal>
    var sent: seq<string>
    const stopTyping: Debounce

    constructor (stopTyping: Debounce)
      ensures !isTyping && signals == [] && sent == [] && this.stopTyping == stopTyping
    {
      isTyping, signals, sent := false, [], [];
      this.stopTyping := stopTyping;
    }

    ghost predicate Valid()
      reads this, stopTyping, stopTyping.timers
    {
      stopTyping.ms == STOP_DELAY_MS
    }

    ghost function View(now: int): State
      reads this, stopTyping, stopTyping.timers
    {
      State(isTyping, stopTyping.timeoutId, stopTyping.timers.pending, stopTyping.timers.nextId, signals, sent, now)
    }

    method HandleTyping(now: int)
      requires Valid()
      modifies this, stopTyping, stopTyping.timers
      ensures Valid() && View(now) == Next(old(View(now)), Keystroke(now))
    {
      if !isTyping {
        isTyping := true;
        signals := signals + [Signal(now, true)];
      }
      stopTyping.Fn(now);
    }

    method HandleSend(now: int, text: string)
      requires Valid()
      modifies this, stopTyping, stopTyping.timers
      ensures Valid() && View(now) == Next(old(View(now)), Send(now, text))
    {
      var trimmed := Trim(text);
      if trimmed == "" {
        return;
      }
      stopTyping.Cancel();
      if isTyping {
        isTyping := false;
        signals := signals + [Signal(now, false)];
      }
      sent := sent + [trimmed];
    }

    /** A timer comes due: it leaves the browser's list, and its callback runs. */
    method HandleTimer(now: int, timer: nat)
      requires Valid()
      modifies this, stopTyping, stopTyping.timers
      ensures Valid() && View(now) == Next(old(View(now)), Fire(now, timer))
    {
      stopTyping.timers.ClearTimeout(timer);
      isTyping := false;
      signals := signals + [Signal(now, false)];
      stopTyping.timeoutId := None;
    }
  }
}
