/** The index is complete between its start mark and its cursor: when, exactly,
    and on which runs. */
module IndexCompleteness {
  import opened Wrappers
  import opened Ledger
  import opened MessageIndex
  import opened SyncProtocol

  /** How far a worker has accounted for the ledger. */
  function Reach(worker: Worker): nat {
    match worker
    case Missed => 0
    case Seeding(_) => 0
    case Ready(after) => after
    case Loaded(after, _) => after
    case Checking(b) => b.done
    case Finding(b) => b.done
    case Writing(b, _) => b.done
    case Publishing(_, upto) => upto
  }

  ghost predicate Complete(t: Topic) {
    t.cursor.Some? ==> Covered(t.store.rows, t.mark, t.cursor.value)
  }

  ghost predicate Inv(t: Topic) {
    && TopicSound(t)
    && Settled(t.store)
    && Complete(t)
    && (forall w :: w in t.workers ==> Covered(t.store.rows, t.mark, Reach(t.workers[w])))
  }

  /** Adopting placeholder `p` for message `s` is harmless when `p` is still a
      placeholder (or already has this very number) and no continuation of `p` is
      still to run, or only one whose number is indexed anyway. */
  ghost predicate Harmless(t: Topic, step: Step)
    requires Enabled(t, step)
  {
    step.Write? && t.workers[step.w].pending.Some? && WrittenRows(t, step.w).Some? ==>
      var p, s := t.workers[step.w].pending.value, t.workers[step.w].batch.done + 1;
      && t.store.rows[p].seqNo in {0, s}
      && (p in t.store.inflight ==>
           && t.store.inflight[p].Landed?
           && HasSeq(WrittenRows(t, step.w).value, t.store.inflight[p].seqNo))
  }

  lemma SubmissionStepKeepsInv(t: Topic, step: Step)
    requires Inv(t) && Enabled(t, step)
    requires step.Send? || step.Submit? || step.Confirm? || step.Fail? || step.Post?
    ensures Inv(Next(t, step)) && Stable(t.store.rows, Next(t, step).store.rows)
  {
    StepKeepsSound(t, step);
    var t' := Next(t, step);
    SubmissionStepIsStable(t, step);
    InvAfterStableChange(t, t');
    assert t'.workers == t.workers;
  }

  lemma SubmissionStepIsStable(t: Topic, step: Step)
    requires Sound(t.store) && Settled(t.store) && Enabled(t, step)
    requires step.Send? || step.Submit? || step.Confirm? || step.Fail? || step.Post?
    ensures forall r :: r in Next(t, step).store.inflight ==> r < |Next(t, step).store.rows|
    ensures Settled(Next(t, step).store) && Stable(t.store.rows, Next(t, step).store.rows)
  {
    match step
    case Confirm(r) => ConfirmIsStable(t.store, r);
    case Send(sender) => SettledAfter(t.store, InsertPlaceholder(t.store, sender));
    case Submit(r, payer, payload) =>
      var st' := Land(t.store, r, payer, payload);
      assert st'.rows[r].seqNo == 0;
      SettledExcept(t.store, st', r);
    case Fail(r) => SettledAfter(t.store, Next(t, step).store);
    case Post(_, _) => SettledAfter(t.store, Next(t, step).store);
  }

  ghost predicate InBounds(st: Store) {
    forall r :: r in st.inflight ==> r < |st.rows| && (st.inflight[r].Landed? ==> st.inflight[r].seqNo > 0)
  }

  lemma ConfirmIsStable(st: Store, r: RowId)
    requires InBounds(st) && Settled(st) && Distinct(st.rows) && r in st.inflight && st.inflight[r].Landed?
    ensures InBounds(MessageIndex.Confirm(st, r)) && Settled(MessageIndex.Confirm(st, r))
    ensures Stable(st.rows, MessageIndex.Confirm(st, r).rows)
  {
    var st' := MessageIndex.Confirm(st, r);
    assert Stable(st.rows, st'.rows) by {
      if st.rows[r].seqNo > 0 {
        var q :| 0 <= q < |st.rows| && st.rows[q].seqNo == st.inflight[r].seqNo;
        assert q != r ==> st'.rows == st.rows;
      }
    }
    SettledAfter(st, st');
  }

  lemma SettledAfter(st: Store, st': Store)
    requires InBounds(st) && Settled(st) && InBounds(st') && Stable(st.rows, st'.rows)
    requires forall r :: r in st'.inflight && r in st.inflight ==>
               st'.inflight[r] == st.inflight[r] && st'.rows[r].seqNo == st.rows[r].seqNo
    requires forall r :: r in st'.inflight && r !in st.inflight ==> st'.rows[r].seqNo == 0
    ensures Settled(st')
  {
    SettledExcept(st, st', |st'.rows|);
  }

  lemma SettledExcept(st: Store, st': Store, skipped: RowId)
    requires InBounds(st) && Settled(st) && InBounds(st') && Stable(st.rows, st'.rows)
    requires forall r :: r in st'.inflight && r in st.inflight && r != skipped ==>
               st'.inflight[r] == st.inflight[r] && st'.rows[r].seqNo == st.rows[r].seqNo
    requires forall r :: r in st'.inflight && (r !in st.inflight || r == skipped) ==> st'.rows[r].seqNo == 0
    ensures Settled(st')
  {
    forall r | r in st'.inflight && st'.rows[r].seqNo != 0
      ensures st'.inflight[r].Landed? && HasSeq(st'.rows, st'.inflight[r].seqNo)
    {
      StableKeepsSeq(st.rows, st'.rows, st.inflight[r].seqNo);
    }
  }

  /** Coverage only grows when no number is taken away. */
  lemma InvAfterStableChange(t: Topic, t': Topic)
    requires Inv(t) && Stable(t.store.rows, t'.store.rows)
    ensures t'.cursor == t.cursor && t'.mark == t.mark ==> Complete(t')
    ensures t'.mark == t.mark ==>
              forall w :: w in t.workers ==> Covered(t'.store.rows, t.mark, Reach(t.workers[w]))
  {
    if t.cursor.Some? {
      StableKeepsCover(t.store.rows, t'.store.rows, t.mark, t.cursor.value);
    }
    forall w | w in t.workers ensures Covered(t'.store.rows, t.mark, Reach(t.workers[w])) {
      StableKeepsCover(t.store.rows, t'.store.rows, t.mark, Reach(t.workers[w]));
    }
  }

  lemma WriteKeepsInv(t: Topic, w: WorkerId)
    requires Inv(t) && Enabled(t, Write(w)) && Harmless(t, Write(w))
    ensures Inv(Next(t, Write(w))) && Stable(t.store.rows, Next(t, Write(w)).store.rows)
  {
    StepKeepsSound(t, Write(w));
    var t' := Next(t, Write(w));
    if WrittenRows(t, w).Some? {
      var b := t.workers[w].batch;
      var rows' := t'.store.rows;
      assert Stable(t.store.rows, rows');
      InvAfterStableChange(t, t');
      assert HasSeq(rows', b.done + 1) by {
        var r := if t.workers[w].pending.Some? then t.workers[w].pending.value else |t.store.rows|;
        assert rows'[r].seqNo == b.done + 1;
      }
      forall r | r in t'.store.inflight
        ensures rows'[r].seqNo == 0
             || (t'.store.inflight[r].Landed? && HasSeq(rows', t'.store.inflight[r].seqNo))
      {
        if t.store.inflight[r].Landed? && HasSeq(t.store.rows, t.store.inflight[r].seqNo) {
          StableKeepsSeq(t.store.rows, rows', t.store.inflight[r].seqNo);
        }
      }
    }
  }

  /** The step moves one worker and touches neither rows nor cursor. */
  predicate IsMove(step: Step) {
    step.Begin? || step.Query? || step.Load? || step.Fetch? || step.Check? || step.Find? || step.Finish?
  }

  /** Where the step takes its worker, everything is accounted for. */
  lemma MoveIsAccountedFor(t: Topic, step: Step)
    requires Inv(t) && Enabled(t, step)
    requires IsMove(step)
    ensures Covered(t.store.rows, t.mark, Reach(Next(t, step).workers[step.w]))
  {
    if step.Begin? || step.Query? {
      assert t.cursor.Some? ==> Covered(t.store.rows, t.mark, t.cursor.value);
    } else {
      assert Covered(t.store.rows, t.mark, Reach(t.workers[step.w]));
    }
  }

  /** A topic that differs in the place of one worker, accounted for, keeps the invariant. */
  lemma RepositionKeepsInv(t: Topic, t': Topic, w: WorkerId)
    requires Inv(t) && TopicSound(t') && w in t'.workers
    requires t'.store.rows == t.store.rows && t'.store.inflight == t.store.inflight
    requires t'.cursor == t.cursor && t'.mark == t.mark && t'.workers == t.workers[w := t'.workers[w]]
    requires Covered(t.store.rows, t.mark, Reach(t'.workers[w]))
    ensures Inv(t')
  {
    hide TopicSound, Covered, Reach;
  }

  lemma MoveKeepsInv(t: Topic, step: Step)
    requires Inv(t) && Enabled(t, step)
    requires IsMove(step)
    ensures Inv(Next(t, step)) && Next(t, step).store.rows == t.store.rows
  {
    StepKeepsSound(t, step);
    MoveIsAccountedFor(t, step);
    hide Inv, TopicSound, Covered, HasSeq, ResolveSender, PendingOf, MaxSeq, Reach;
    RepositionKeepsInv(t, Next(t, step), step.w);
  }

  lemma SeedKeepsInv(t: Topic, w: WorkerId)
    requires Inv(t) && Enabled(t, Seed(w))
    ensures Inv(Next(t, Seed(w))) && Next(t, Seed(w)).store == t.store
  {
    StepKeepsSound(t, Seed(w));
    hide Sound, HasSeq;
  }

  lemma LeaveKeepsInv(t: Topic, step: Step)
    requires Inv(t) && Enabled(t, step) && (step.Publish? || step.Abort? || step.Crash?)
    ensures Inv(Next(t, step)) && Next(t, step).store.rows == t.store.rows
  {
    StepKeepsSound(t, step);
    if step.Publish? {
      assert Covered(t.store.rows, t.mark, Reach(t.workers[step.w]));
    }
    hide TopicSound, Covered, HasSeq;
  }

  lemma WorkerStepKeepsInv(t: Topic, step: Step)
    requires Inv(t) && Enabled(t, step)
    requires IsMove(step) || step.Seed? || step.Publish? || step.Abort? || step.Crash?
    ensures Inv(Next(t, step)) && Stable(t.store.rows, Next(t, step).store.rows)
  {
    hide Inv;
    if step.Seed? {
      SeedKeepsInv(t, step.w);
    } else if step.Publish? || step.Abort? || step.Crash? {
      LeaveKeepsInv(t, step);
    } else {
      MoveKeepsInv(t, step);
    }
  }

  /** One harmless step keeps the invariant and every number already given. */
  lemma StepKeepsInv(t: Topic, step: Step)
    requires Inv(t) && Enabled(t, step) && Harmless(t, step)
    ensures Inv(Next(t, step)) && Stable(t.store.rows, Next(t, step).store.rows)
  {
    match step
    case Send(_) => SubmissionStepKeepsInv(t, step);
    case Submit(_, _, _) => SubmissionStepKeepsInv(t, step);
    case Confirm(_) => SubmissionStepKeepsInv(t, step);
    case Fail(_) => SubmissionStepKeepsInv(t, step);
    case Post(_, _) => SubmissionStepKeepsInv(t, step);
    case Write(w) => WriteKeepsInv(t, w);
    case _ => WorkerStepKeepsInv(t, step);
  }

  ghost predicate HarmlessRun(t: Topic, steps: seq<Step>)
    requires Valid(t, steps)
    decreases |steps|
  {
    steps != [] ==> Harmless(t, steps[0]) && HarmlessRun(Next(t, steps[0]), steps[1..])
  }

  /** On every harmless run, whatever the interleaving and however many workers:
      no positive number ever changes, and each message above the start mark and up
      to the cursor has exactly one row. */
  lemma {:induction false} IndexIsComplete(t: Topic, steps: seq<Step>)
    requires Inv(t) && Valid(t, steps) && HarmlessRun(t, steps)
    ensures var t' := Run(t, steps);
            && Inv(t')
            && Stable(t.store.rows, t'.store.rows)
            && (t'.cursor.Some? ==>
                 forall k: nat :: t'.mark < k <= t'.cursor.value ==> IndexedOnce(t'.store.rows, k))
    decreases |steps|
  {
    if steps != [] {
      var next := Next(t, steps[0]);
      StepKeepsInv(t, steps[0]);
      IndexIsComplete(next, steps[1..]);
      StableTransitive(t.store.rows, next.store.rows, Run(t, steps).store.rows);
    }
  }

  // ---------------------------------------------------------------------------
  // The condition is exact
  // ---------------------------------------------------------------------------

  ghost predicate SubmissionsOnly(steps: seq<Step>) {
    forall i :: 0 <= i < |steps| ==>
      steps[i].Send? || steps[i].Submit? || steps[i].Confirm? || steps[i].Fail? || steps[i].Post?
  }

  ghost predicate StableForever(t: Topic) {
    forall steps :: Valid(t, steps) && SubmissionsOnly(steps) ==>
      Stable(t.store.rows, Run(t, steps).store.rows)
  }

  /** An adoption leaves every number in place now and under every continuation of
      the sends in progress if and only if it is harmless. */
  lemma HarmlessIsExact(t: Topic, w: WorkerId)
    requires Inv(t) && Enabled(t, Write(w))
    ensures Harmless(t, Write(w)) <==>
            Stable(t.store.rows, Next(t, Write(w)).store.rows) && StableForever(Next(t, Write(w)))
  {
    var t' := Next(t, Write(w));
    StepKeepsSound(t, Write(w));
    if Harmless(t, Write(w)) {
      WriteKeepsInv(t, w);
      forall steps | Valid(t', steps) && SubmissionsOnly(steps)
        ensures Stable(t'.store.rows, Run(t', steps).store.rows)
      {
        SubmissionsAreStable(t', steps);
      }
    } else if Stable(t.store.rows, t'.store.rows) {
      var p := t.workers[w].pending.value;
      var moved := MoveAway(t', p, t.workers[w].batch.done + 1);
    }
  }

  lemma {:induction false} SubmissionsAreStable(t: Topic, steps: seq<Step>)
    requires Inv(t) && Valid(t, steps) && SubmissionsOnly(steps)
    ensures Stable(t.store.rows, Run(t, steps).store.rows)
    decreases |steps|
  {
    if steps != [] {
      var next := Next(t, steps[0]);
      SubmissionStepKeepsInv(t, steps[0]);
      SubmissionsAreStable(next, steps[1..]);
      StableTransitive(t.store.rows, next.store.rows, Run(t, steps).store.rows);
    }
  }

  /** A numbered row whose own submission is still out can be carried off its number. */
  lemma MoveAway(t: Topic, p: RowId, s: nat) returns (steps: seq<Step>)
    requires TopicSound(t) && p < |t.store.rows| && t.store.rows[p].seqNo == s && s > 0
    requires p in t.store.inflight
    requires t.store.inflight[p].Landed? ==> !HasSeq(t.store.rows, t.store.inflight[p].seqNo)
    ensures Valid(t, steps) && SubmissionsOnly(steps)
    ensures !Stable(t.store.rows, Run(t, steps).store.rows)
  {
    if t.store.inflight[p].Landed? {
      steps := [Confirm(p)];
      assert steps[1..] == [];
      assert Run(t, steps) == Next(t, Confirm(p));
      assert !(t.store.inflight[p].seqNo == s);
    } else {
      var submit := Submit(p, "", Sealed);
      var next := Next(t, submit);
      RunCons(next, Confirm(p), []);
      RunCons(t, submit, [Confirm(p)]);
      steps := [submit] + [Confirm(p)];
      assert next.store.inflight[p].seqNo == |t.store.ledger| + 1;
    }
  }

  // ---------------------------------------------------------------------------
  // The pairing hypothesis
  // ---------------------------------------------------------------------------

  /** A topic message that a worker pairs with a placeholder is that placeholder's
      own submission. */
  ghost predicate Paired(t: Topic, step: Step)
    requires Enabled(t, step)
  {
    step.Write? && t.workers[step.w].pending.Some? ==>
      EntryAt(t.store.ledger, t.workers[step.w].batch.done + 1).origin == t.workers[step.w].pending
  }

  ghost predicate PairedRun(t: Topic, steps: seq<Step>)
    requires Valid(t, steps)
    decreases |steps|
  {
    steps != [] ==> Paired(t, steps[0]) && PairedRun(Next(t, steps[0]), steps[1..])
  }

  /** A row that was submitted has its submission's number or none. */
  ghost predicate OwnNumbers(st: Store) {
    forall j :: 0 <= j < |st.ledger| && st.ledger[j].origin.Some? && st.ledger[j].origin.value < |st.rows| ==>
      st.rows[st.ledger[j].origin.value].seqNo in {0, j + 1}
  }

  lemma PairedWriteIsHarmless(t: Topic, w: WorkerId)
    requires Inv(t) && OwnNumbers(t.store) && Enabled(t, Write(w)) && Paired(t, Write(w))
    ensures Harmless(t, Write(w))
  {
    if t.workers[w].pending.Some? && WrittenRows(t, w).Some? {
      var p, s := t.workers[w].pending.value, t.workers[w].batch.done + 1;
      assert t.store.ledger[s - 1].origin == Some(p);
      if p in t.store.inflight {
        assert p !in Unlandeds(t.store);
        assert t.store.inflight[p].seqNo == s;
        assert WrittenRows(t, w).value[p].seqNo == s;
      }
    }
  }

  lemma PairedWriteKeepsOwnNumbers(t: Topic, w: WorkerId)
    requires Sound(t.store) && OwnNumbers(t.store) && Enabled(t, Write(w)) && Paired(t, Write(w))
    ensures OwnNumbers(Next(t, Write(w)).store)
  {
    hide ResolveSender, DetectKind;
  }

  lemma StoreStepKeepsOwnNumbers(t: Topic, step: Step)
    requires Sound(t.store) && Settled(t.store) && OwnNumbers(t.store) && Enabled(t, step)
    requires step.Send? || step.Submit? || step.Confirm? || step.Fail? || step.Post?
    ensures OwnNumbers(Next(t, step).store)
  {
    if step.Confirm? {
      assert EntryAt(t.store.ledger, t.store.inflight[step.r].seqNo).origin == Some(step.r);
    }
  }

  lemma PairedStepIsHarmless(t: Topic, step: Step)
    requires Inv(t) && OwnNumbers(t.store) && Enabled(t, step) && Paired(t, step)
    ensures Harmless(t, step)
    ensures OwnNumbers(Next(t, step).store)
  {
    hide Paired, Sound;
    if step.Write? {
      PairedWriteIsHarmless(t, step.w);
      PairedWriteKeepsOwnNumbers(t, step.w);
    } else if step.Send? || step.Submit? || step.Confirm? || step.Fail? || step.Post? {
      StoreStepKeepsOwnNumbers(t, step);
    }
  }

  /** Under the pairing hypothesis every run from a new topic is harmless, so its
      index is complete and its numbers are final. */
  lemma {:induction false} PairingSuffices(t: Topic, steps: seq<Step>)
    requires Inv(t) && OwnNumbers(t.store) && Valid(t, steps) && PairedRun(t, steps)
    ensures HarmlessRun(t, steps)
    ensures Inv(Run(t, steps)) && OwnNumbers(Run(t, steps).store)
    decreases |steps|
  {
    if steps != [] {
      PairedStepIsHarmless(t, steps[0]);
      StepKeepsInv(t, steps[0]);
      PairingSuffices(Next(t, steps[0]), steps[1..]);
    }
  }

  lemma NewTopicSatisfiesInv()
    ensures Inv(NEW_TOPIC) && OwnNumbers(NEW_TOPIC.store)
  {
  }

  const TAGGED := Entry("op", Json(Some("u"), None), None)

  /** A sender's placeholder is out, and a worker has fetched someone else's message
      that carries the sender's tag. */
  const TAGGED_FETCHED := Topic(
    Store([TAGGED], [Row(0, "u", "message")], map[0 := Unlanded], 0),
    Some(0), 0, map[0 := Checking(Batch(0, 1, 0, 0, 0))], [])

  /** The worker has taken the placeholder for it and published. */
  const TAGGED_ADOPTED := Topic(
    Store([TAGGED], [Row(1, "u", "message")], map[0 := Unlanded], 1),
    Some(1), 0, map[], [Synced(0, 1)])

  const TAGGED_BEGIN := [Begin(0), Query(0), Seed(0)]
  const TAGGED_START := TAGGED_BEGIN + [Send("u")]
  const TAGGED_POST := [Post("op", Json(Some("u"), None)), Load(0), Fetch(0, 1)]
  const TAGGED_FETCH := TAGGED_START + TAGGED_POST
  const TAGGED_FIND := [Check(0), Find(0)]
  const TAGGED_ADOPT := [Write(0), Finish(0), Publish(0)]
  const OWN_LANDS := [Submit(0, "op", Sealed), Confirm(0)]

  const TAGGED_SENT := Topic(Store([], [Row(0, "u", "message")], map[0 := Unlanded], 0),
                             Some(0), 0, map[0 := Ready(0)], [])

  lemma StartTagged()
    ensures Valid(NEW_TOPIC, TAGGED_START) && Run(NEW_TOPIC, TAGGED_START) == TAGGED_SENT
  {
    var t1 := Next(NEW_TOPIC, Begin(0));
    assert t1.workers == map[0 := Missed];
    var t2 := Next(t1, Query(0));
    assert t2.workers == map[0 := Seeding(0)];
    var t3 := Next(t2, Seed(0));
    assert t3 == Topic(EMPTY_STORE, Some(0), 0, map[0 := Ready(0)], []);
    hide Valid, Run;
    RunThree(NEW_TOPIC, Begin(0), t1, Query(0), t2, Seed(0));
    RunOne(t3, Send("u"));
    RunAppend(NEW_TOPIC, TAGGED_BEGIN, [Send("u")]);
  }

  lemma PostTagged()
    ensures Valid(TAGGED_SENT, TAGGED_POST) && Run(TAGGED_SENT, TAGGED_POST) == TAGGED_FETCHED
  {
    var post := Post("op", Json(Some("u"), None));
    var t := Next(TAGGED_SENT, post);
    assert t.store.ledger == [TAGGED];
    var t' := Next(t, Load(0));
    assert t'.workers == map[0 := Loaded(0, 0)];
    hide Valid, Run;
    RunThree(TAGGED_SENT, post, t, Load(0), t', Fetch(0, 1));
  }

  lemma FetchTagged()
    ensures Valid(NEW_TOPIC, TAGGED_FETCH) && Run(NEW_TOPIC, TAGGED_FETCH) == TAGGED_FETCHED
  {
    StartTagged();
    PostTagged();
    RunAppend(NEW_TOPIC, TAGGED_START, TAGGED_POST);
  }

  const TAGGED_FOUND := TAGGED_FETCHED.(workers := map[0 := Writing(Batch(0, 1, 0, 0, 0), Some(0))])

  lemma FindTagged()
    ensures Valid(TAGGED_FETCHED, TAGGED_FIND) && Run(TAGGED_FETCHED, TAGGED_FIND) == TAGGED_FOUND
  {
    var t := Next(TAGGED_FETCHED, Check(0));
    assert t.workers == map[0 := Finding(Batch(0, 1, 0, 0, 0))];
    assert t.store.rows[0] == Row(0, "u", "message");
    hide Valid, Run;
    RunTwo(TAGGED_FETCHED, Check(0), t, Find(0));
  }

  lemma AdoptTagged()
    ensures Valid(TAGGED_FOUND, TAGGED_ADOPT) && Run(TAGGED_FOUND, TAGGED_ADOPT) == TAGGED_ADOPTED
  {
    var t := Next(TAGGED_FOUND, Write(0));
    assert t.store.rows == [Row(1, "u", "message")];
    assert t.workers == map[0 := Checking(Batch(0, 1, 1, 1, 0))];
    var t' := Next(t, Finish(0));
    assert t'.workers == map[0 := Publishing(0, 1)];
    hide Valid, Run;
    RunThree(TAGGED_FOUND, Write(0), t, Finish(0), t', Publish(0));
  }

  /** Without it: a message tagged with a sender whose own submission is still out
      takes the sender's placeholder, and the confirmation then carries the row off,
      leaving message 1 below the cursor with no row. */
  lemma UnpairedRunLosesAMessage()
    ensures var steps := TAGGED_FETCH + TAGGED_FIND + TAGGED_ADOPT + OWN_LANDS;
            && Valid(NEW_TOPIC, steps)
            && var t := Run(NEW_TOPIC, steps);
               && t.cursor == Some(1) && t.mark == 0
               && t.store.rows == [Row(2, "u", "message")]
               && !HasSeq(t.store.rows, 1)
  {
    FetchTagged();
    FindTagged();
    AdoptTagged();
    RunAppend(NEW_TOPIC, TAGGED_FETCH, TAGGED_FIND);
    RunAppend(NEW_TOPIC, TAGGED_FETCH + TAGGED_FIND, TAGGED_ADOPT);
    var landed := Next(TAGGED_ADOPTED, Submit(0, "op", Sealed));
    var moved := Next(landed, Confirm(0));
    assert moved.store.rows == [Row(2, "u", "message")];
    RunTwo(TAGGED_ADOPTED, Submit(0, "op", Sealed), landed, Confirm(0));
    RunAppend(NEW_TOPIC, TAGGED_FETCH + TAGGED_FIND + TAGGED_ADOPT, OWN_LANDS);
  }
}
