/** The marks and events of a topic: which steps keep them in order, and why all do when
    one sync runs at a time. */
module SerialSync {
  import opened Wrappers
  import opened Ledger
  import opened MessageIndex
  import opened SyncProtocol

  /** The intervals run end to end from `from` to `to`, each of them forward. */
  ghost predicate Chain(events: seq<Synced>, from: nat, to: nat) {
    && (if events == [] then from == to
        else events[0].previousSequence == from && events[|events| - 1].lastSequence == to)
    && (forall i :: 0 <= i < |events| ==> events[i].previousSequence < events[i].lastSequence)
    && (forall i :: 0 < i < |events| ==> events[i - 1].lastSequence == events[i].previousSequence)
  }

  /** The events emitted since the process started run from the start mark to the cursor. */
  ghost predicate Tiled(t: Topic) {
    if t.cursor.Some? then Chain(t.events, t.mark, t.cursor.value) else t.events == []
  }

  /** A publication is empty or starts at the cursor, and a seed comes before any event
      and not below the start mark. */
  ghost predicate ContinuesChain(t: Topic, step: Step)
    requires Enabled(t, step)
  {
    match step
    case Publish(w) => t.workers[w].after == t.workers[w].upto || t.cursor == Some(t.workers[w].after)
    case Seed(w) => t.cursor.None? || (t.events == [] && t.mark <= t.workers[w].found)
    case _ => true
  }

  /** The cursor of a running process and the last-message mark never move back, and the
      start mark stays. */
  ghost predicate MarksAdvance(t: Topic, step: Step)
    requires Enabled(t, step)
  {
    var t' := Next(t, step);
    && t'.store.lastMessageSeq >= t.store.lastMessageSeq
    && (t.cursor.Some? && !step.Crash? ==>
         t'.cursor.Some? && t'.cursor.value >= t.cursor.value && t'.mark == t.mark)
  }

  /** No publication or seed falls behind the cursor, and no finished batch, working from
      an older last-message mark, behind the present one. */
  ghost predicate KeepsMarks(t: Topic, step: Step)
    requires Enabled(t, step)
  {
    match step
    case Publish(w) =>
      t.cursor.Some? ==> !(t.workers[w].after < t.workers[w].upto < t.cursor.value)
    case Seed(w) => t.cursor.Some? ==> t.cursor.value <= t.workers[w].found <= t.mark
    case Finish(w) =>
      var b := t.workers[w].batch;
      !(b.newCount > 0 && b.loaded < b.done < t.store.lastMessageSeq)
    case _ => true
  }

  lemma PublishContinuesIff(t: Topic, w: WorkerId)
    requires TopicSound(t) && Tiled(t) && Enabled(t, Publish(w))
    ensures Tiled(Next(t, Publish(w))) <==> ContinuesChain(t, Publish(w))
  {
    var p, events := t.workers[w], t.events;
    assert p.after <= p.upto && t.cursor.Some?;
    hide TopicSound;
    if p.after < p.upto {
      var events' := events + [Synced(p.after, p.upto)];
      assert Next(t, Publish(w)).events == events';
      assert forall i :: 0 <= i < |events| ==> events'[i] == events[i];
      if Chain(events', t.mark, p.upto) {
        assert events != [] ==> events'[|events| - 1].lastSequence == events'[|events|].previousSequence;
      }
    }
  }

  lemma SeedContinuesIff(t: Topic, w: WorkerId)
    requires TopicSound(t) && Tiled(t) && Enabled(t, Seed(w))
    ensures Tiled(Next(t, Seed(w))) <==> ContinuesChain(t, Seed(w))
  {
    hide TopicSound;
    if t.cursor.Some? && t.events != [] {
      ChainAdvances(t.events, t.mark, t.cursor.value);
    }
  }

  /** Exactly these steps keep the events running from the start mark to the cursor. */
  lemma StepKeepsTiledIff(t: Topic, step: Step)
    requires TopicSound(t) && Tiled(t) && Enabled(t, step)
    ensures Tiled(Next(t, step)) <==> ContinuesChain(t, step)
  {
    match step
    case Publish(w) => PublishContinuesIff(t, w);
    case Seed(w) => SeedContinuesIff(t, w);
    case Crash =>
    case _ => OthersLeaveEvents(t, step);
  }

  lemma OthersLeaveEvents(t: Topic, step: Step)
    requires Enabled(t, step) && !step.Publish? && !step.Seed? && !step.Crash?
    ensures var t' := Next(t, step);
            t'.events == t.events && t'.cursor == t.cursor && t'.mark == t.mark
  {
    hide InsertPlaceholder, Land, MessageIndex.Confirm, WrittenRows, HasSeq, PendingOf, MaxSeq, ResolveSender;
  }

  /** Exactly these steps move no mark back: a publication fails it behind another one,
      a finished batch behind another one's last-message mark. */
  lemma StepKeepsMarksIff(t: Topic, step: Step)
    requires TopicSound(t) && Enabled(t, step)
    ensures MarksAdvance(t, step) <==> KeepsMarks(t, step)
  {
    if step.Publish? || step.Seed? {
      hide TopicSound;
    } else {
      OthersAdvanceIff(t, step);
    }
  }

  lemma OthersAdvanceIff(t: Topic, step: Step)
    requires Enabled(t, step) && !step.Publish? && !step.Seed?
    ensures MarksAdvance(t, step) <==> KeepsMarks(t, step)
  {
    hide WrittenRows, HasSeq, PendingOf, MaxSeq, ResolveSender;
  }

  ghost predicate ContinuesAlong(t: Topic, steps: seq<Step>)
    requires Valid(t, steps)
    decreases |steps|
  {
    steps != [] ==> ContinuesChain(t, steps[0]) && ContinuesAlong(Next(t, steps[0]), steps[1..])
  }

  ghost predicate KeepsMarksAlong(t: Topic, steps: seq<Step>)
    requires Valid(t, steps)
    decreases |steps|
  {
    steps != [] ==> KeepsMarks(t, steps[0]) && KeepsMarksAlong(Next(t, steps[0]), steps[1..])
  }

  ghost predicate MarksAdvanceAlong(t: Topic, steps: seq<Step>)
    requires Valid(t, steps)
    decreases |steps|
  {
    steps != [] ==> MarksAdvance(t, steps[0]) && MarksAdvanceAlong(Next(t, steps[0]), steps[1..])
  }

  /** On every run whose publications and seeds continue the chain, however many syncs
      overlap, the events tile the interval from the start mark to the cursor. */
  lemma {:induction false} ContinuedRunsTile(t: Topic, steps: seq<Step>)
    requires TopicSound(t) && Tiled(t) && Valid(t, steps) && ContinuesAlong(t, steps)
    ensures var t' := Run(t, steps);
            && Tiled(t')
            && (t'.cursor.Some? ==> forall k: nat :: t'.mark < k <= t'.cursor.value ==> CoveredByOneEvent(t'.events, k))
    decreases |steps|
  {
    hide Tiled, TopicSound, Next;
    if steps == [] {
      TiledCovers(t);
    } else {
      StepKeepsTiledIff(t, steps[0]);
      StepKeepsSound(t, steps[0]);
      ContinuedRunsTile(Next(t, steps[0]), steps[1..]);
    }
  }

  lemma TiledCovers(t: Topic)
    requires Tiled(t)
    ensures t.cursor.Some? ==> forall k: nat :: t.mark < k <= t.cursor.value ==> CoveredByOneEvent(t.events, k)
  {
    if t.cursor.Some? {
      ChainTiles(t.events, t.mark, t.cursor.value);
    }
  }

  /** The marks only advance along a run exactly when each of its steps keeps them. */
  lemma {:induction false} MarksAdvanceAlongIff(t: Topic, steps: seq<Step>)
    requires TopicSound(t) && Valid(t, steps)
    ensures MarksAdvanceAlong(t, steps) <==> KeepsMarksAlong(t, steps)
    decreases |steps|
  {
    hide TopicSound, Next, MarksAdvance, KeepsMarks;
    if steps != [] {
      StepKeepsMarksIff(t, steps[0]);
      StepKeepsSound(t, steps[0]);
      MarksAdvanceAlongIff(Next(t, steps[0]), steps[1..]);
    }
  }

  // ---------------------------------------------------------------------------
  // One sync at a time
  // ---------------------------------------------------------------------------

  /** A sync starts only when none is running. */
  ghost predicate SerialStep(t: Topic, step: Step) {
    step.Begin? ==> t.workers == map[]
  }

  ghost predicate SerialRun(t: Topic, steps: seq<Step>)
    requires Valid(t, steps)
    decreases |steps|
  {
    steps != [] ==> SerialStep(t, steps[0]) && SerialRun(Next(t, steps[0]), steps[1..])
  }

  /** The one worker works from the cached cursor and a fresh last-message mark. */
  ghost predicate InStep(t: Topic, worker: Worker) {
    match worker
    case Missed => t.cursor.None?
    case Seeding(_) => t.cursor.None?
    case Ready(after) => t.cursor == Some(after)
    case Loaded(after, loaded) => t.cursor == Some(after) && loaded == t.store.lastMessageSeq
    case Checking(b) => t.cursor == Some(b.after) && b.loaded == t.store.lastMessageSeq
    case Finding(b) => t.cursor == Some(b.after) && b.loaded == t.store.lastMessageSeq
    case Writing(b, _) => t.cursor == Some(b.after) && b.loaded == t.store.lastMessageSeq
    case Publishing(after, _) => t.cursor == Some(after)
  }

  ghost predicate OneAtATime(t: Topic) {
    && (forall v, w :: v in t.workers && w in t.workers ==> v == w)
    && (forall w :: w in t.workers ==> InStep(t, t.workers[w]))
  }

  /** One sync at a time never falls behind itself. */
  lemma SerialStepsContinue(t: Topic, step: Step)
    requires TopicSound(t) && OneAtATime(t) && Enabled(t, step)
    ensures ContinuesChain(t, step) && KeepsMarks(t, step)
  {
    assert step.Seed? || step.Publish? || step.Finish? ==> InStep(t, t.workers[step.w]);
  }

  lemma StoreStepStaysSerial(t: Topic, step: Step)
    requires OneAtATime(t) && Enabled(t, step)
    requires step.Send? || step.Submit? || step.Confirm? || step.Fail? || step.Post? || step.Crash?
    ensures OneAtATime(Next(t, step))
  {
    hide HasSeq;
  }

  lemma StartStaysSerial(t: Topic, step: Step)
    requires OneAtATime(t) && Enabled(t, step) && SerialStep(t, step)
    requires step.Begin? || step.Query? || step.Seed? || step.Abort? || step.Publish?
    ensures OneAtATime(Next(t, step))
  {
    hide MaxSeq;
  }

  lemma MoveStaysSerial(t: Topic, step: Step)
    requires OneAtATime(t) && Enabled(t, step)
    requires step.Load? || step.Fetch? || step.Check? || step.Find? || step.Write? || step.Finish?
    ensures OneAtATime(Next(t, step))
  {
    hide HasSeq, PendingOf, ResolveSender, WrittenRows;
  }

  lemma StepStaysSerial(t: Topic, step: Step)
    requires OneAtATime(t) && Enabled(t, step) && SerialStep(t, step)
    ensures OneAtATime(Next(t, step))
  {
    hide OneAtATime;
    if step.Send? || step.Submit? || step.Confirm? || step.Fail? || step.Post? || step.Crash? {
      StoreStepStaysSerial(t, step);
    } else if step.Begin? || step.Query? || step.Seed? || step.Abort? || step.Publish? {
      StartStaysSerial(t, step);
    } else {
      MoveStaysSerial(t, step);
    }
  }

  lemma {:induction false} SerialRunsContinue(t: Topic, steps: seq<Step>)
    requires TopicSound(t) && OneAtATime(t) && Valid(t, steps) && SerialRun(t, steps)
    ensures ContinuesAlong(t, steps) && KeepsMarksAlong(t, steps)
    decreases |steps|
  {
    hide TopicSound, OneAtATime, Next, ContinuesChain, KeepsMarks;
    if steps != [] {
      SerialStepsContinue(t, steps[0]);
      StepStaysSerial(t, steps[0]);
      StepKeepsSound(t, steps[0]);
      SerialRunsContinue(Next(t, steps[0]), steps[1..]);
    }
  }

  /** On every serial run the marks only advance, and the events emitted since the
      process started tile the interval from its start mark to its cursor. */
  lemma SerialSyncsTileTheLedger(t: Topic, steps: seq<Step>)
    requires TopicSound(t) && Tiled(t) && OneAtATime(t) && Valid(t, steps) && SerialRun(t, steps)
    ensures Tiled(Run(t, steps)) && MarksAdvanceAlong(t, steps)
    ensures var t' := Run(t, steps);
            t'.cursor.Some? ==>
              && Chain(t'.events, t'.mark, t'.cursor.value)
              && forall k: nat :: t'.mark < k <= t'.cursor.value ==> CoveredByOneEvent(t'.events, k)
  {
    SerialRunsContinue(t, steps);
    ContinuedRunsTile(t, steps);
    MarksAdvanceAlongIff(t, steps);
  }

  ghost predicate Contains(e: Synced, k: nat) {
    e.previousSequence < k <= e.lastSequence
  }

  ghost predicate OnlyAt(events: seq<Synced>, k: nat, i: nat) {
    && i < |events| && Contains(events[i], k)
    && forall j :: 0 <= j < |events| && Contains(events[j], k) ==> j == i
  }

  /** Exactly one event announces message `k`. */
  ghost predicate CoveredByOneEvent(events: seq<Synced>, k: nat) {
    exists i: nat :: OnlyAt(events, k, i)
  }

  lemma {:induction false} ChainTiles(events: seq<Synced>, from: nat, to: nat)
    requires Chain(events, from, to)
    ensures from <= to
    ensures forall k: nat :: from < k <= to ==> CoveredByOneEvent(events, k)
    ensures forall i, k: nat :: 0 <= i < |events| && Contains(events[i], k) ==> from < k <= to
    decreases |events|
  {
    if events != [] {
      var last := |events| - 1;
      var init := events[..last];
      var mid := events[last].previousSequence;
      assert Chain(init, from, mid);
      ChainTiles(init, from, mid);
      forall k: nat | from < k <= to ensures CoveredByOneEvent(events, k) {
        if k <= mid {
          assert CoveredByOneEvent(init, k);
          var i: nat :| OnlyAt(init, k, i);
          assert forall j :: 0 <= j < last ==> init[j] == events[j];
          assert OnlyAt(events, k, i);
        } else {
          assert forall j :: 0 <= j < last ==> init[j] == events[j];
          assert OnlyAt(events, k, last);
        }
      }
      forall i, k: nat | 0 <= i < |events| && Contains(events[i], k) ensures from < k <= to {
        assert i < last ==> Contains(init[i], k);
      }
    }
  }

  lemma NewTopicIsSerial()
    ensures TopicSound(NEW_TOPIC) && Tiled(NEW_TOPIC) && OneAtATime(NEW_TOPIC)
  {
  }

  lemma {:induction false} ChainAdvances(events: seq<Synced>, from: nat, to: nat)
    requires Chain(events, from, to) && events != []
    ensures from < to
    decreases |events|
  {
    var last := |events| - 1;
    if last > 0 {
      assert Chain(events[..last], from, events[last].previousSequence);
      ChainAdvances(events[..last], from, events[last].previousSequence);
    }
  }

  /** A publication moves the cursor back exactly when another worker has published
      past the end of its batch. */
  lemma PublicationMovesBackIff(t: Topic, w: WorkerId)
    requires TopicSound(t) && Enabled(t, Publish(w)) && t.cursor.Some?
    ensures var p, t' := t.workers[w], Next(t, Publish(w));
            t'.cursor.value < t.cursor.value <==> p.after < p.upto < t.cursor.value
  {
  }

  // ---------------------------------------------------------------------------
  // Two syncs at once
  // ---------------------------------------------------------------------------

  const E := Entry("op", Sealed, None)
  const R1 := Row(1, "op", "message")
  const R2 := Row(2, "op", "message")

  const OVERLAP_MISS := [Post("op", Sealed), Begin(0)]
  const OVERLAP_SEED := OVERLAP_MISS + [Query(0), Seed(0)]
  const OVERLAP_FETCH := [Begin(1), Load(0), Fetch(0, 1)]
  const OVERLAP_GROW := [Post("op", Sealed), Load(1), Fetch(1, 2)]
  const OVERLAP_START := OVERLAP_SEED + OVERLAP_FETCH + OVERLAP_GROW
  const OVERLAP_FIRST := [Check(1), Find(1), Write(1)]
  const OVERLAP_SECOND := [Check(1), Find(1), Write(1)]
  const OVERLAP_AHEAD := [Finish(1), Publish(1)]
  const OVERLAP_BEHIND := [Check(0), Finish(0), Publish(0)]

  const SEEDED := Topic(Store([E], [], map[], 0), Some(0), 0, map[0 := Ready(0)], [])
  const FETCHED := SEEDED.(workers := map[0 := Checking(Batch(0, 1, 0, 0, 0)), 1 := Ready(0)])
  const STARTED := Topic(Store([E, E], [], map[], 0), Some(0), 0,
                         map[0 := Checking(Batch(0, 1, 0, 0, 0)), 1 := Checking(Batch(0, 2, 0, 0, 0))], [])
  const FIRST_IN := STARTED.(store := STARTED.store.(rows := [R1]),
                             workers := STARTED.workers[1 := Checking(Batch(0, 2, 1, 1, 0))])
  const SECOND_IN := STARTED.(store := STARTED.store.(rows := [R1, R2]),
                              workers := STARTED.workers[1 := Checking(Batch(0, 2, 2, 2, 0))])
  const AHEAD := Topic(Store([E, E], [R1, R2], map[], 2), Some(2), 0,
                       map[0 := Checking(Batch(0, 1, 0, 0, 0))], [Synced(0, 2)])
  const BEHIND := Topic(Store([E, E], [R1, R2], map[], 2), Some(1), 0, map[], [Synced(0, 2), Synced(0, 1)])

  lemma OverlapSeeds()
    ensures Valid(NEW_TOPIC, OVERLAP_SEED) && Run(NEW_TOPIC, OVERLAP_SEED) == SEEDED
  {
    var t1 := Next(NEW_TOPIC, Post("op", Sealed));
    var t2 := Next(t1, Begin(0));
    assert t2.workers == map[0 := Missed];
    var t3 := Next(t2, Query(0));
    assert t3.workers == map[0 := Seeding(0)];
    hide Valid, Run;
    RunTwo(NEW_TOPIC, Post("op", Sealed), t1, Begin(0));
    RunTwo(t2, Query(0), t3, Seed(0));
    RunAppend(NEW_TOPIC, OVERLAP_MISS, [Query(0), Seed(0)]);
  }

  lemma OverlapFetches()
    ensures Valid(SEEDED, OVERLAP_FETCH) && Run(SEEDED, OVERLAP_FETCH) == FETCHED
  {
    var t1 := Next(SEEDED, Begin(1));
    assert t1.workers == map[0 := Ready(0), 1 := Ready(0)];
    var t2 := Next(t1, Load(0));
    assert t2.workers == map[0 := Loaded(0, 0), 1 := Ready(0)];
    hide Valid, Run;
    RunThree(SEEDED, Begin(1), t1, Load(0), t2, Fetch(0, 1));
  }

  lemma OverlapGrows()
    ensures Valid(FETCHED, OVERLAP_GROW) && Run(FETCHED, OVERLAP_GROW) == STARTED
  {
    var t1 := Next(FETCHED, Post("op", Sealed));
    assert t1.store.ledger == [E, E];
    var t2 := Next(t1, Load(1));
    assert t2.workers == FETCHED.workers[1 := Loaded(0, 0)];
    hide Valid, Run;
    RunThree(FETCHED, Post("op", Sealed), t1, Load(1), t2, Fetch(1, 2));
  }

  lemma OverlapIndexesFirst()
    ensures Valid(STARTED, OVERLAP_FIRST) && Run(STARTED, OVERLAP_FIRST) == FIRST_IN
  {
    var t1 := STARTED.(workers := STARTED.workers[1 := Finding(Batch(0, 2, 0, 0, 0))]);
    var t2 := STARTED.(workers := STARTED.workers[1 := Writing(Batch(0, 2, 0, 0, 0), None)]);
    hide Valid, Run;
    RunThree(STARTED, Check(1), t1, Find(1), t2, Write(1));
  }

  lemma OverlapIndexesSecond()
    ensures Valid(FIRST_IN, OVERLAP_SECOND) && Run(FIRST_IN, OVERLAP_SECOND) == SECOND_IN
  {
    var t1 := FIRST_IN.(workers := FIRST_IN.workers[1 := Finding(Batch(0, 2, 1, 1, 0))]);
    var t2 := FIRST_IN.(workers := FIRST_IN.workers[1 := Writing(Batch(0, 2, 1, 1, 0), None)]);
    hide Valid, Run;
    RunThree(FIRST_IN, Check(1), t1, Find(1), t2, Write(1));
  }

  lemma OverlapGetsAhead()
    ensures Valid(SECOND_IN, OVERLAP_AHEAD) && Run(SECOND_IN, OVERLAP_AHEAD) == AHEAD
  {
    hide Valid, Run;
    RunTwo(SECOND_IN, Finish(1), Next(SECOND_IN, Finish(1)), Publish(1));
  }

  lemma OverlapFallsBehind()
    ensures Valid(AHEAD, OVERLAP_BEHIND) && Run(AHEAD, OVERLAP_BEHIND) == BEHIND
  {
    var t1 := Next(AHEAD, Check(0));
    assert AHEAD.store.rows[0] == R1;
    assert t1.workers == map[0 := Checking(Batch(0, 1, 1, 0, 0))];
    var t2 := Next(t1, Finish(0));
    assert t2.workers == map[0 := Publishing(0, 1)];
    hide Valid, Run;
    RunThree(AHEAD, Check(0), t1, Finish(0), t2, Publish(0));
  }

  /** Without the serial hypothesis the cursor can move back, and two events announce
      the same message: a worker with an older, shorter batch publishes last. */
  lemma OverlappingSyncsMoveTheCursorBack()
    ensures var ahead := OVERLAP_START + OVERLAP_FIRST + OVERLAP_SECOND + OVERLAP_AHEAD;
            && Valid(NEW_TOPIC, ahead) && Run(NEW_TOPIC, ahead).cursor == Some(2)
            && Valid(NEW_TOPIC, ahead + OVERLAP_BEHIND) && Run(NEW_TOPIC, ahead + OVERLAP_BEHIND).cursor == Some(1)
            && !CoveredByOneEvent(Run(NEW_TOPIC, ahead + OVERLAP_BEHIND).events, 1)
  {
    OverlapSeeds();
    OverlapFetches();
    OverlapGrows();
    RunAppend(NEW_TOPIC, OVERLAP_SEED, OVERLAP_FETCH);
    RunAppend(NEW_TOPIC, OVERLAP_SEED + OVERLAP_FETCH, OVERLAP_GROW);
    OverlapIndexesFirst();
    OverlapIndexesSecond();
    OverlapGetsAhead();
    OverlapFallsBehind();
    RunAppend(NEW_TOPIC, OVERLAP_START, OVERLAP_FIRST);
    RunAppend(NEW_TOPIC, OVERLAP_START + OVERLAP_FIRST, OVERLAP_SECOND);
    RunAppend(NEW_TOPIC, OVERLAP_START + OVERLAP_FIRST + OVERLAP_SECOND, OVERLAP_AHEAD);
    RunAppend(NEW_TOPIC, OVERLAP_START + OVERLAP_FIRST + OVERLAP_SECOND + OVERLAP_AHEAD, OVERLAP_BEHIND);
    assert Contains(BEHIND.events[0], 1) && Contains(BEHIND.events[1], 1);
  }
}
