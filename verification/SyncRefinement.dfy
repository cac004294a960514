/** The sync service's one-piece sync is the interleaved protocol with nothing in
    between: every undisturbed call is a run of single steps. */
module SyncRefinement {
  import opened Wrappers
  import opened Ledger
  import opened MessageIndex
  import opened SyncProtocol

  /** The topic with worker `w` in its loop, the messages up to `hi` dealt with. */
  function LoopedTo(t: Topic, w: WorkerId, b: Batch, hi: nat): Topic
    requires b.done <= hi <= |t.store.ledger|
  {
    t.(store := t.store.(rows := IndexRange(t.store.rows, t.store.ledger, b.done, hi)),
       workers := map[w := Checking(b.(done := hi, newCount := Missing(t.store.rows, b.done, hi)))])
  }

  /** The same after one more message. */
  function OneMore(t: Topic, w: WorkerId, b: Batch): Topic
    requires b.done < |t.store.ledger|
  {
    var s := b.done + 1;
    t.(store := t.store.(rows := IndexOne(t.store.rows, t.store.ledger, s)),
       workers := map[w := Checking(b.(done := s, newCount := b.newCount + if HasSeq(t.store.rows, s) then 0 else 1))])
  }

  /** A message that is already indexed takes one step. */
  lemma KnownMessageRuns(t: Topic, w: WorkerId, b: Batch)
    requires t.workers == map[w := Checking(b)] && b.done < b.upto <= |t.store.ledger|
    requires HasSeq(t.store.rows, b.done + 1)
    ensures Valid(t, [Check(w)]) && Run(t, [Check(w)]) == OneMore(t, w, b)
  {
    hide Valid, Run;
    RunOne(t, Check(w));
    assert Next(t, Check(w)).workers == map[w := Checking(b.(done := b.done + 1))];
  }

  /** A new one takes three: the check, the search for a placeholder, the write. */
  lemma NewMessageRuns(t: Topic, w: WorkerId, b: Batch)
    requires t.workers == map[w := Checking(b)] && b.done < b.upto <= |t.store.ledger|
    requires !HasSeq(t.store.rows, b.done + 1)
    ensures Valid(t, [Check(w), Find(w), Write(w)])
    ensures Run(t, [Check(w), Find(w), Write(w)]) == OneMore(t, w, b)
  {
    hide Valid, Run;
    var p := PendingOf(t.store.rows, ResolveSender(EntryAt(t.store.ledger, b.done + 1)));
    var found, writing := Goto(t, w, Finding(b)), Goto(t, w, Writing(b, p));
    WriteIndexesOne(t, w, b, p);
    hide WrittenRows, IndexOne;
    RunThree(t, Check(w), found, Find(w), writing, Write(w));
  }

  /** The write at the end of the three puts in the row that IndexOne would. */
  lemma WriteIndexesOne(t: Topic, w: WorkerId, b: Batch, p: Option<RowId>)
    requires t.workers == map[w := Checking(b)] && b.done < b.upto <= |t.store.ledger|
    requires !HasSeq(t.store.rows, b.done + 1)
    requires p == PendingOf(t.store.rows, ResolveSender(EntryAt(t.store.ledger, b.done + 1)))
    ensures var writing := Goto(t, w, Writing(b, p));
            && Enabled(writing, Write(w))
            && WrittenRows(writing, w) == Some(IndexOne(t.store.rows, t.store.ledger, b.done + 1))
            && Next(writing, Write(w)) == OneMore(t, w, b)
  {
    var writing := Goto(t, w, Writing(b, p));
    assert writing.workers == map[w := Writing(b, p)];
    assert forall i :: 0 <= i < |t.store.rows| ==> t.store.rows[i].seqNo != b.done + 1;
    hide PendingOf, ResolveSender, DetectKind;
  }

  lemma LoopedToOneMore(t: Topic, w: WorkerId, b: Batch, hi: nat)
    requires Distinct(t.store.rows) && b.done < hi <= |t.store.ledger|
    ensures OneMore(LoopedTo(t, w, b, hi - 1), w, b.(done := hi - 1, newCount := Missing(t.store.rows, b.done, hi - 1)))
            == LoopedTo(t, w, b, hi)
  {
    var mid := IndexRange(t.store.rows, t.store.ledger, b.done, hi - 1);
    assert HasSeq(mid, hi) <==> HasSeq(t.store.rows, hi) by {
      SyncIndexesItsBatch(t.store.rows, t.store.ledger, b.done, hi - 1);
    }
    hide IndexOne, HasSeq, Distinct, Stable, Covered, ResolveSender, DetectKind, PendingOf, EntryAt;
    assert IndexRange(t.store.rows, t.store.ledger, b.done, hi) == IndexOne(mid, t.store.ledger, hi);
    var before := Missing(t.store.rows, b.done, hi - 1);
    assert Missing(t.store.rows, b.done, hi) == before + if HasSeq(t.store.rows, hi) then 0 else 1;
    hide IndexRange, Missing;
    var looped := LoopedTo(t, w, b, hi - 1);
    assert looped.store.rows == mid;
    hide LoopedTo;
    assert OneMore(looped, w, b.(done := hi - 1, newCount := before)).workers
        == map[w := Checking(b.(done := hi, newCount := before + if HasSeq(mid, hi) then 0 else 1))];
  }

  lemma OneMessageRuns(t: Topic, w: WorkerId, b: Batch) returns (steps: seq<Step>)
    requires t.workers == map[w := Checking(b)] && b.done < b.upto <= |t.store.ledger|
    ensures Valid(t, steps) && Run(t, steps) == OneMore(t, w, b)
  {
    if HasSeq(t.store.rows, b.done + 1) {
      KnownMessageRuns(t, w, b);
      steps := [Check(w)];
    } else {
      NewMessageRuns(t, w, b);
      steps := [Check(w), Find(w), Write(w)];
    }
  }

  /** The loop over the messages up to `hi`. */
  lemma {:induction false} LoopRuns(t: Topic, w: WorkerId, b: Batch, hi: nat) returns (steps: seq<Step>)
    requires Distinct(t.store.rows) && t.workers == map[w := Checking(b)]
    requires b.newCount == 0 && b.done <= hi <= b.upto <= |t.store.ledger|
    ensures Valid(t, steps) && Run(t, steps) == LoopedTo(t, w, b, hi)
    decreases hi - b.done
  {
    if b.done == hi {
      steps := [];
    } else {
      hide IndexRange, Missing, OneMore, Valid, Run, Distinct;
      var first := LoopRuns(t, w, b, hi - 1);
      LoopedToOneMore(t, w, b, hi);
      var rest := OneMessageRuns(LoopedTo(t, w, b, hi - 1), w,
                                 b.(done := hi - 1, newCount := Missing(t.store.rows, b.done, hi - 1)));
      RunAppend(t, first, rest);
      steps := first + rest;
    }
  }

  /** The topic after a whole undisturbed sync of `count` messages from `from`. */
  function SyncedTopic(t: Topic, from: nat, count: nat): Topic
    requires from + count <= |t.store.ledger|
  {
    Topic(SyncBatch(t.store, from, from + count), Some(from + count), if t.cursor.Some? then t.mark else from,
          map[], if count > 0 then t.events + [Synced(from, from + count)] else t.events)
  }

  function Fetched(after: nat, count: nat, loaded: nat): Batch {
    Batch(after, after + count, after, 0, loaded)
  }

  lemma LoadAndFetch(ready: Topic, w: WorkerId, from: nat, count: nat)
    requires ready.workers == map[w := Ready(from)]
    requires count <= MIRROR_NODE_BATCH_SIZE && from + count <= |ready.store.ledger|
    ensures var fetched := ready.(workers := map[w := Checking(Fetched(from, count, ready.store.lastMessageSeq))]);
            && Valid(ready, [Load(w), Fetch(w, count)]) && Run(ready, [Load(w), Fetch(w, count)]) == fetched
            && SyncedTopic(fetched, from, count) == SyncedTopic(ready, from, count)
  {
    hide SyncBatch, Valid, Run;
    var loaded := ready.(workers := map[w := Loaded(from, ready.store.lastMessageSeq)]);
    RunTwo(ready, Load(w), loaded, Fetch(w, count));
  }

  /** From the load of the conversation to the publication. */
  lemma FetchedSyncRuns(ready: Topic, w: WorkerId, from: nat, count: nat) returns (steps: seq<Step>)
    requires Distinct(ready.store.rows) && ready.workers == map[w := Ready(from)] && ready.cursor == Some(from)
    requires count <= MIRROR_NODE_BATCH_SIZE && from + count <= |ready.store.ledger|
    ensures Valid(ready, steps) && Run(ready, steps) == SyncedTopic(ready, from, count)
  {
    hide SyncBatch, LoopedTo, Distinct, Next, Enabled, Valid, Run, SyncedTopic;
    var b := Fetched(from, count, ready.store.lastMessageSeq);
    var fetched := ready.(workers := map[w := Checking(b)]);
    LoadAndFetch(ready, w, from, count);
    var loop := LoopRuns(fetched, w, b, from + count);
    var tail := LoopEndRuns(fetched, w, b);
    RunAppend(fetched, loop, tail);
    RunAppend(ready, [Load(w), Fetch(w, count)], loop + tail);
    steps := [Load(w), Fetch(w, count)] + (loop + tail);
  }

  /** From the end of the loop to the publication. */
  lemma LoopEndRuns(t: Topic, w: WorkerId, b: Batch) returns (steps: seq<Step>)
    requires b.after == b.done <= b.upto <= |t.store.ledger| && b.loaded == t.store.lastMessageSeq
    requires t.cursor == Some(b.after)
    ensures Valid(LoopedTo(t, w, b, b.upto), steps)
    ensures Run(LoopedTo(t, w, b, b.upto), steps) == SyncedTopic(t, b.after, b.upto - b.after)
  {
    hide Valid, Run, IndexRange, Missing;
    var looped := LoopedTo(t, w, b, b.upto);
    var finished := Next(looped, Finish(w));
    assert finished.workers == map[w := Publishing(b.after, b.upto)];
    assert finished.store == SyncBatch(t.store, b.after, b.upto);
    RunTwo(looped, Finish(w), finished, Publish(w));
    assert Next(finished, Publish(w)).workers == map[];
    steps := [Finish(w), Publish(w)];
  }

  /** A whole undisturbed sync: cursor, load, fetch, loop, last-message mark, publication. */
  lemma UndisturbedSyncIsARun(t: Topic, w: WorkerId, count: nat) returns (steps: seq<Step>)
    requires Distinct(t.store.rows) && t.workers == map[] && count <= MIRROR_NODE_BATCH_SIZE
    requires StartOf(t) + count <= |t.store.ledger|
    ensures Valid(t, steps)
    ensures Run(t, steps) == SyncedTopic(t, StartOf(t), count)
  {
    var from := StartOf(t);
    var ready := t.(cursor := Some(from), mark := if t.cursor.Some? then t.mark else from,
                    workers := map[w := Ready(from)]);
    var begin := BeginRuns(t, w, from, ready);
    var rest := FetchedSyncRuns(ready, w, from, count);
    RunAppend(t, begin, rest);
    steps := begin + rest;
  }

  lemma BeginRuns(t: Topic, w: WorkerId, from: nat, ready: Topic) returns (steps: seq<Step>)
    requires t.workers == map[]
    requires from == StartOf(t)
    requires ready == t.(cursor := Some(from), mark := if t.cursor.Some? then t.mark else from,
                         workers := map[w := Ready(from)])
    ensures Valid(t, steps) && Run(t, steps) == ready
  {
    var t1 := Next(t, Begin(w));
    hide Valid, Run;
    if t.cursor.Some? {
      RunOne(t, Begin(w));
      steps := [Begin(w)];
      assert t1.workers == map[w := Ready(from)];
    } else {
      assert t1.workers == map[w := Missed];
      var t2 := Next(t1, Query(w));
      assert t2.workers == map[w := Seeding(from)];
      RunThree(t, Begin(w), t1, Query(w), t2, Seed(w));
      steps := [Begin(w), Query(w), Seed(w)];
    }
  }

  /** Where the next sync of a topic starts. */
  function StartOf(t: Topic): nat {
    if t.cursor.Some? then t.cursor.value else MaxSeq(t.store.rows)
  }

  /** The topic is where `rounds` rounds from `st` and `cursor` lead. */
  ghost predicate AfterRounds(t: Topic, st: Store, cursor: nat, rounds: nat)
    requires cursor <= |st.ledger|
  {
    && t.workers == map[] && t.store == StoreAfter(st, cursor, rounds) && Distinct(t.store.rows)
    && StartOf(t) == CursorAfter(|st.ledger|, cursor, rounds)
    && (rounds > 0 ==> t.cursor.Some?)
  }

  lemma OneRound(t: Topic, w: WorkerId, st: Store, cursor: nat, rounds: nat) returns (steps: seq<Step>)
    requires cursor <= |st.ledger| && Distinct(st.rows) && AfterRounds(t, st, cursor, rounds)
    ensures Valid(t, steps) && AfterRounds(Run(t, steps), st, cursor, rounds + 1)
  {
    RoundsCover(st, cursor, rounds + 1);
    var from := StartOf(t);
    var upto := BatchEnd(|t.store.ledger|, from);
    hide Valid, Run, SyncBatch, Distinct;
    steps := UndisturbedSyncIsARun(t, w, upto - from);
  }

  /** Undisturbed rounds on a ledger that does not grow are a run, and leave the store and
      the cursor that the batches add up to. */
  lemma {:induction false} RoundsAreARun(t: Topic, w: WorkerId, rounds: nat) returns (steps: seq<Step>)
    requires Distinct(t.store.rows) && t.workers == map[] && StartOf(t) <= |t.store.ledger|
    ensures Valid(t, steps) && AfterRounds(Run(t, steps), t.store, StartOf(t), rounds)
  {
    if rounds == 0 {
      steps := [];
    } else {
      hide Valid, Run, AfterRounds, Distinct, StartOf;
      var first := RoundsAreARun(t, w, rounds - 1);
      var round := OneRound(Run(t, first), w, t.store, StartOf(t), rounds - 1);
      RunAppend(t, first, round);
      steps := first + round;
    }
  }

  /** Once the ledger stops growing, ceil(remaining / 100) undisturbed rounds bring the
      cursor to its end and index everything above where they started. */
  lemma QuietSyncsConverge(t: Topic, w: WorkerId) returns (steps: seq<Step>)
    requires Distinct(t.store.rows) && t.workers == map[] && StartOf(t) < |t.store.ledger|
    ensures Valid(t, steps)
    ensures Run(t, steps).cursor == Some(|t.store.ledger|) && Run(t, steps).store.ledger == t.store.ledger
    ensures Covered(Run(t, steps).store.rows, StartOf(t), |t.store.ledger|)
  {
    var rounds := RoundsNeeded(|t.store.ledger| - StartOf(t));
    steps := RoundsAreARun(t, w, rounds);
    SyncConverges(t.store, StartOf(t), rounds);
  }
}
