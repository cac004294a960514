/** The last-message mark of a conversation: the index reaches up to it whatever the
    cursor does. */
module LastMessage {
  import opened Ledger
  import opened SyncProtocol
  import opened IndexCompleteness

  /** What a worker knows that bears on the mark: one that is about to seed found a number
      at or above it, and one that found something new has just seen an indexed number. */
  ghost predicate KnowsTheMark(t: Topic, worker: Worker) {
    match worker
    case Seeding(found) => t.cursor.None? ==> t.store.lastMessageSeq <= found
    case Checking(b) => b.newCount > 0 ==> b.done > 0 && HasSeq(t.store.rows, b.done)
    case _ => true
  }

  /** The last-message mark is an indexed number, and everything between the start mark
      and it is indexed, even where it is above the cursor. */
  ghost predicate MarkIndexed(t: Topic) {
    && (t.store.lastMessageSeq > 0 ==> HasSeq(t.store.rows, t.store.lastMessageSeq))
    && (t.cursor.Some? ==> Covered(t.store.rows, t.mark, t.store.lastMessageSeq))
    && (forall w :: w in t.workers ==> KnowsTheMark(t, t.workers[w]))
  }

  /** Rows that keep their numbers keep what is known of them. */
  lemma StableKeepsKnowledge(t: Topic, t': Topic)
    requires MarkIndexed(t) && Stable(t.store.rows, t'.store.rows)
    requires t'.store.lastMessageSeq == t.store.lastMessageSeq && t'.cursor == t.cursor && t'.mark == t.mark
    ensures t'.store.lastMessageSeq > 0 ==> HasSeq(t'.store.rows, t'.store.lastMessageSeq)
    ensures t'.cursor.Some? ==> Covered(t'.store.rows, t'.mark, t'.store.lastMessageSeq)
    ensures forall w :: w in t.workers ==> KnowsTheMark(t', t.workers[w])
  {
    if t.store.lastMessageSeq > 0 {
      StableKeepsSeq(t.store.rows, t'.store.rows, t.store.lastMessageSeq);
    }
    if t.cursor.Some? {
      StableKeepsCover(t.store.rows, t'.store.rows, t.mark, t.store.lastMessageSeq);
    }
    forall w | w in t.workers ensures KnowsTheMark(t', t.workers[w]) {
      var worker := t.workers[w];
      assert KnowsTheMark(t, worker);
      if worker.Checking? && worker.batch.newCount > 0 {
        StableKeepsSeq(t.store.rows, t'.store.rows, worker.batch.done);
      }
    }
  }

  lemma SubmissionStepKeepsMarkIndexed(t: Topic, step: Step)
    requires Inv(t) && MarkIndexed(t) && Enabled(t, step)
    requires step.Send? || step.Submit? || step.Confirm? || step.Fail? || step.Post?
    ensures MarkIndexed(Next(t, step))
  {
    SubmissionStepKeepsInv(t, step);
    StableKeepsKnowledge(t, Next(t, step));
    hide Inv, Covered, HasSeq, Stable;
  }

  lemma WriteKeepsMarkIndexed(t: Topic, w: WorkerId)
    requires Inv(t) && MarkIndexed(t) && Enabled(t, Write(w)) && Harmless(t, Write(w))
    ensures MarkIndexed(Next(t, Write(w)))
  {
    WriteKeepsInv(t, w);
    if WrittenRows(t, w).Some? {
      WrittenIsIndexed(t, w);
    }
    StableKeepsKnowledge(t, Next(t, Write(w)));
    hide Inv, Covered, HasSeq, Stable, WrittenRows;
  }

  lemma WrittenIsIndexed(t: Topic, w: WorkerId)
    requires Enabled(t, Write(w)) && WrittenRows(t, w).Some?
    ensures HasSeq(WrittenRows(t, w).value, t.workers[w].batch.done + 1)
  {
    var rows := WrittenRows(t, w).value;
    var r := if t.workers[w].pending.Some? then t.workers[w].pending.value else |t.store.rows|;
    assert rows[r].seqNo == t.workers[w].batch.done + 1;
  }

  lemma FinishKeepsMarkIndexed(t: Topic, w: WorkerId)
    requires Inv(t) && MarkIndexed(t) && Enabled(t, Finish(w))
    ensures MarkIndexed(Next(t, Finish(w)))
  {
    var b := t.workers[w].batch;
    assert KnowsTheMark(t, t.workers[w]) && Covered(t.store.rows, t.mark, b.done) && t.cursor.Some?;
    hide Inv, Covered, HasSeq;
  }

  /** A seed moves the start mark up, or, as the first, up to the last-message mark. */
  lemma SeedKeepsMarkIndexed(t: Topic, w: WorkerId)
    requires MarkIndexed(t) && Enabled(t, Seed(w))
    ensures MarkIndexed(Next(t, Seed(w)))
  {
    assert KnowsTheMark(t, t.workers[w]);
    hide HasSeq;
  }

  /** The mark is indexed, so a worker that reads the index finds it or more. */
  lemma MoveKeepsMarkIndexed(t: Topic, step: Step)
    requires TopicSound(t) && MarkIndexed(t) && Enabled(t, step)
    requires (IsMove(step) && !step.Finish?) || step.Publish? || step.Abort? || step.Crash?
    ensures MarkIndexed(Next(t, step))
  {
    assert t.store.lastMessageSeq <= MaxSeq(t.store.rows);
    hide TopicSound, Covered, HasSeq, PendingOf, ResolveSender, MaxSeq;
  }

  lemma StepKeepsMarkIndexed(t: Topic, step: Step)
    requires Inv(t) && MarkIndexed(t) && Enabled(t, step) && Harmless(t, step)
    ensures MarkIndexed(Next(t, step))
  {
    assert TopicSound(t);
    hide Inv, MarkIndexed, Harmless, TopicSound;
    if step.Send? || step.Submit? || step.Confirm? || step.Fail? || step.Post? {
      SubmissionStepKeepsMarkIndexed(t, step);
    } else if step.Write? {
      WriteKeepsMarkIndexed(t, step.w);
    } else if step.Finish? {
      FinishKeepsMarkIndexed(t, step.w);
    } else if step.Seed? {
      SeedKeepsMarkIndexed(t, step.w);
    } else {
      MoveKeepsMarkIndexed(t, step);
    }
  }

  /** On every harmless run, at any interleaving, everything between the start mark and
      the last-message mark is indexed. */
  lemma {:induction false} LastMessageIsIndexed(t: Topic, steps: seq<Step>)
    requires Inv(t) && MarkIndexed(t) && Valid(t, steps) && HarmlessRun(t, steps)
    ensures Inv(Run(t, steps)) && MarkIndexed(Run(t, steps))
    decreases |steps|
  {
    hide Inv, MarkIndexed, Harmless, Next;
    if steps != [] {
      StepKeepsInv(t, steps[0]);
      StepKeepsMarkIndexed(t, steps[0]);
      LastMessageIsIndexed(Next(t, steps[0]), steps[1..]);
    }
  }

  lemma NewTopicMarkIsIndexed()
    ensures MarkIndexed(NEW_TOPIC)
  {
  }
}
