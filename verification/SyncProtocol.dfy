/** Sends, submissions and any number of sync workers on one topic, interleaved at
    every database and network call. */
module SyncProtocol {
  import opened Wrappers
  import opened Ledger
  import opened MessageIndex

  type WorkerId = nat

  /** A worker inside the loop of syncFromMirrorNode: it fetched (after, upto] and
      has dealt with everything up to `done`. `loaded` is the last-message mark it
      read with the conversation. */
  datatype Batch = Batch(after: nat, upto: nat, done: nat, newCount: nat, loaded: nat)

  /** Where one call of syncConversation is suspended. */
  datatype Worker =
    | Missed                                         // not cached: about to read the database mark
    | Seeding(found: nat)                            // database mark read, cache not yet set
    | Ready(after: nat)                              // about to load the conversation
    | Loaded(after: nat, loaded: nat)                // about to fetch
    | Checking(batch: Batch)                         // about to look for the next sequence number
    | Finding(batch: Batch)                          // not indexed: about to look for a placeholder
    | Writing(batch: Batch, pending: Option<RowId>)  // about to adopt it, or to insert
    | Publishing(after: nat, upto: nat)              // about to advance the cursor and emit

  datatype Synced = Synced(previousSequence: nat, lastSequence: nat)

  /** `mark` is a history variable: the highest database mark that seeded the
      cursor since the process started. `events` are the events it emitted. */
  datatype Topic = Topic(
    store: Store,
    cursor: Option<nat>,
    mark: nat,
    workers: map<WorkerId, Worker>,
    events: seq<Synced>)

  datatype Step =
    | Send(sender: Account)
    | Submit(r: RowId, payer: Account, payload: Payload)
    | Confirm(r: RowId)
    | Fail(r: RowId)                 // the submission, or its receipt, failed
    | Post(payer: Account, payload: Payload)  // anything else written to the topic
    | Begin(w: WorkerId)
    | Query(w: WorkerId)
    | Seed(w: WorkerId)
    | Load(w: WorkerId)
    | Fetch(w: WorkerId, count: nat)
    | Check(w: WorkerId)
    | Find(w: WorkerId)
    | Write(w: WorkerId)
    | Finish(w: WorkerId)
    | Publish(w: WorkerId)
    | Abort(w: WorkerId)             // any call the worker awaits throws
    | Crash                          // the process restarts: memory is lost

  predicate Enabled(t: Topic, step: Step) {
    match step
    case Send(_) => true
    case Submit(r, _, _) => r in t.store.inflight && t.store.inflight[r].Unlanded?
    case Confirm(r) => r in t.store.inflight && t.store.inflight[r].Landed? && r < |t.store.rows|
    case Fail(r) => r in t.store.inflight
    case Post(_, _) => true
    case Begin(w) => w !in t.workers
    case Query(w) => w in t.workers && t.workers[w].Missed?
    case Seed(w) => w in t.workers && t.workers[w].Seeding?
    case Load(w) => w in t.workers && t.workers[w].Ready?
    case Fetch(w, count) => w in t.workers && t.workers[w].Loaded? && count <= MIRROR_NODE_BATCH_SIZE
                            && t.workers[w].after + count <= |t.store.ledger|
    case Check(w) => w in t.workers && t.workers[w].Checking? && t.workers[w].batch.done < t.workers[w].batch.upto
    case Find(w) => w in t.workers && t.workers[w].Finding? && t.workers[w].batch.done < |t.store.ledger|
    case Write(w) => w in t.workers && t.workers[w].Writing? && t.workers[w].batch.done < |t.store.ledger|
                     && (t.workers[w].pending.Some? ==> t.workers[w].pending.value < |t.store.rows|)
    case Finish(w) => w in t.workers && t.workers[w].Checking? && t.workers[w].batch.done >= t.workers[w].batch.upto
    case Publish(w) => w in t.workers && t.workers[w].Publishing?
    case Abort(w) => w in t.workers
    case Crash => true
  }

  function Goto(t: Topic, w: WorkerId, worker: Worker): Topic {
    t.(workers := t.workers[w := worker])
  }

  function Next(t: Topic, step: Step): Topic
    requires Enabled(t, step)
  {
    match step
    case Send(sender) => t.(store := InsertPlaceholder(t.store, sender))
    case Submit(r, payer, payload) => t.(store := Land(t.store, r, payer, payload))
    case Confirm(r) => t.(store := MessageIndex.Confirm(t.store, r))
    case Fail(r) => t.(store := t.store.(inflight := t.store.inflight - {r}))
    case Post(payer, payload) =>
      t.(store := t.store.(ledger := t.store.ledger + [Entry(payer, payload, None)]))
    case Begin(w) => Goto(t, w, if t.cursor.Some? then Ready(t.cursor.value) else Missed)
    case Query(w) => Goto(t, w, Seeding(MaxSeq(t.store.rows)))
    case Seed(w) =>
      var found := t.workers[w].found;
      Goto(t, w, Ready(found)).(
        cursor := Some(found),
        mark := if t.cursor.Some? && t.mark > found then t.mark else found)
    case Load(w) => Goto(t, w, Loaded(t.workers[w].after, t.store.lastMessageSeq))
    case Fetch(w, count) =>
      var Loaded(after, loaded) := t.workers[w];
      Goto(t, w, Checking(Batch(after, after + count, after, 0, loaded)))
    case Check(w) =>
      var b := t.workers[w].batch;
      Goto(t, w, if HasSeq(t.store.rows, b.done + 1) then Checking(b.(done := b.done + 1)) else Finding(b))
    case Find(w) =>
      var b := t.workers[w].batch;
      Goto(t, w, Writing(b, PendingOf(t.store.rows, ResolveSender(EntryAt(t.store.ledger, b.done + 1)))))
    case Write(w) =>
      var b := t.workers[w].batch;
      (match WrittenRows(t, w)
       case None => t.(workers := t.workers - {w})
       case Some(rows) => Goto(t, w, Checking(b.(done := b.done + 1, newCount := b.newCount + 1)))
                          .(store := t.store.(rows := rows)))
    case Finish(w) =>
      var b := t.workers[w].batch;
      var last := if b.newCount > 0 && b.done > b.loaded then b.done else t.store.lastMessageSeq;
      Goto(t, w, Publishing(b.after, b.done)).(store := t.store.(lastMessageSeq := last))
    case Publish(w) =>
      var p := t.workers[w];
      var t' := t.(workers := t.workers - {w});
      if p.upto > p.after then t'.(cursor := Some(p.upto), events := t.events + [Synced(p.after, p.upto)])
      else t'
    case Abort(w) => t.(workers := t.workers - {w})
    case Crash => t.(cursor := None, mark := 0, workers := map[], events := [],
                     store := t.store.(inflight := map[]))
  }

  /** The rows after a worker's UPDATE or INSERT; None when the unique constraint rejects it. */
  function WrittenRows(t: Topic, w: WorkerId): Option<seq<Row>>
    requires Enabled(t, Write(w))
  {
    var s := t.workers[w].batch.done + 1;
    var e := EntryAt(t.store.ledger, s);
    match t.workers[w].pending
    case Some(p) => UpdateSeq(t.store.rows, p, s)
    case None => InsertRow(t.store.rows, Row(s, ResolveSender(e), DetectKind(e)))
  }

  const EMPTY_STORE := Store([], [], map[], 0)
  const NEW_TOPIC := Topic(EMPTY_STORE, None, 0, map[], [])

  // ---------------------------------------------------------------------------
  // Runs
  // ---------------------------------------------------------------------------

  ghost predicate Valid(t: Topic, steps: seq<Step>)
    decreases |steps|
  {
    steps != [] ==> Enabled(t, steps[0]) && Valid(Next(t, steps[0]), steps[1..])
  }

  ghost function Run(t: Topic, steps: seq<Step>): Topic
    requires Valid(t, steps)
    decreases |steps|
  {
    if steps == [] then t else Run(Next(t, steps[0]), steps[1..])
  }

  lemma RunCons(t: Topic, step: Step, rest: seq<Step>)
    requires Enabled(t, step) && Valid(Next(t, step), rest)
    ensures Valid(t, [step] + rest)
    ensures Run(t, [step] + rest) == Run(Next(t, step), rest)
  {
    assert ([step] + rest)[1..] == rest;
  }

  lemma {:induction false} RunAppend(t: Topic, first: seq<Step>, rest: seq<Step>)
    requires Valid(t, first) && Valid(Run(t, first), rest)
    ensures Valid(t, first + rest)
    ensures Run(t, first + rest) == Run(Run(t, first), rest)
    decreases |first|
  {
    if first == [] {
      assert first + rest == rest;
    } else {
      RunAppend(Next(t, first[0]), first[1..], rest);
      assert (first + rest)[1..] == first[1..] + rest;
    }
  }

  /** Short runs, given step by step. */
  lemma RunOne(t: Topic, first: Step)
    requires Enabled(t, first)
    ensures Valid(t, [first]) && Run(t, [first]) == Next(t, first)
  {
    hide Enabled, Next;
    assert [first][1..] == [];
  }

  lemma RunTwo(t: Topic, first: Step, mid: Topic, second: Step)
    requires Enabled(t, first) && mid == Next(t, first) && Enabled(mid, second)
    ensures Valid(t, [first, second]) && Run(t, [first, second]) == Next(mid, second)
  {
    hide Enabled, Next;
    RunOne(mid, second);
    assert [first, second][1..] == [second];
  }

  lemma RunThree(t: Topic, first: Step, t1: Topic, second: Step, t2: Topic, third: Step)
    requires Enabled(t, first) && t1 == Next(t, first)
    requires Enabled(t1, second) && t2 == Next(t1, second) && Enabled(t2, third)
    ensures Valid(t, [first, second, third]) && Run(t, [first, second, third]) == Next(t2, third)
  {
    hide Enabled, Next;
    RunTwo(t1, second, t2, third);
    assert [first, second, third][1..] == [second, third];
  }

  // ---------------------------------------------------------------------------
  // Soundness: on every run, with no hypothesis
  // ---------------------------------------------------------------------------

  ghost predicate WorkerSound(t: Topic, worker: Worker) {
    match worker
    case Missed => true
    case Seeding(found) => found <= |t.store.ledger|
    case Ready(after) => after <= |t.store.ledger|
    case Loaded(after, _) => after <= |t.store.ledger|
    case Checking(b) => b.after <= b.done <= b.upto <= |t.store.ledger|
    case Finding(b) => b.after <= b.done < b.upto <= |t.store.ledger|
    case Writing(b, p) => b.after <= b.done < b.upto <= |t.store.ledger| && (p.Some? ==> p.value < |t.store.rows|)
    case Publishing(after, upto) => after <= upto <= |t.store.ledger|
  }

  ghost predicate TopicSound(t: Topic) {
    && Sound(t.store)
    && (t.cursor.Some? ==> t.mark <= |t.store.ledger| && t.cursor.value <= |t.store.ledger|)
    && (forall w :: w in t.workers ==> WorkerSound(t, t.workers[w]))
    && (t.cursor.None? ==> forall w :: w in t.workers ==> t.workers[w].Missed? || t.workers[w].Seeding?)
  }

  lemma SendKeepsStoreSound(st: Store, sender: Account)
    requires Sound(st)
    ensures Sound(InsertPlaceholder(st, sender))
  {
    WritesKeepDistinct(st.rows);
    var st' := InsertPlaceholder(st, sender);
    assert Unlandeds(st') == Unlandeds(st) + (if HasSeq(st.rows, 0) then {} else {|st.rows|});
  }

  lemma LandKeepsStoreSound(st: Store, r: RowId, payer: Account, payload: Payload)
    requires Sound(st) && r in st.inflight && st.inflight[r].Unlanded?
    ensures Sound(Land(st, r, payer, payload))
  {
    assert Unlandeds(Land(st, r, payer, payload)) == Unlandeds(st) - {r};
  }

  lemma ConfirmKeepsStoreSound(st: Store, r: RowId)
    requires Sound(st) && r in st.inflight && st.inflight[r].Landed? && r < |st.rows|
    ensures Sound(MessageIndex.Confirm(st, r))
  {
    WritesKeepDistinct(st.rows);
    assert Unlandeds(MessageIndex.Confirm(st, r)) == Unlandeds(st);
  }

  lemma LossKeepsStoreSound(st: Store, kept: map<RowId, Submission>)
    requires Sound(st) && kept.Items <= st.inflight.Items
    ensures Sound(st.(inflight := kept))
  {
    forall r | r in kept ensures r in st.inflight && st.inflight[r] == kept[r] {
      assert (r, kept[r]) in kept.Items;
    }
    assert Unlandeds(st.(inflight := kept)) <= Unlandeds(st);
  }

  lemma PostKeepsStoreSound(st: Store, payer: Account, payload: Payload)
    requires Sound(st)
    ensures Sound(st.(ledger := st.ledger + [Entry(payer, payload, None)]))
  {
    assert Unlandeds(st.(ledger := st.ledger + [Entry(payer, payload, None)])) == Unlandeds(st);
  }

  /** The store's own steps leave the workers' view of it sound. */
  lemma StoreStepsKeepSound(t: Topic, step: Step)
    requires TopicSound(t) && Enabled(t, step)
    requires step.Send? || step.Submit? || step.Confirm? || step.Fail? || step.Post? || step.Crash?
    ensures TopicSound(Next(t, step))
  {
    hide Sound;
    match step
    case Send(sender) => SendKeepsStoreSound(t.store, sender);
    case Submit(r, payer, payload) => LandKeepsStoreSound(t.store, r, payer, payload);
    case Confirm(r) => ConfirmKeepsStoreSound(t.store, r);
    case Fail(r) => LossKeepsStoreSound(t.store, t.store.inflight - {r});
    case Post(payer, payload) => PostKeepsStoreSound(t.store, payer, payload);
    case Crash => LossKeepsStoreSound(t.store, map[]);
  }

  lemma WriteKeepsStoreSound(t: Topic, w: WorkerId)
    requires TopicSound(t) && Enabled(t, Write(w))
    ensures Sound(Next(t, Write(w)).store)
  {
    WritesKeepDistinct(t.store.rows);
    assert Unlandeds(Next(t, Write(w)).store) == Unlandeds(t.store);
  }

  lemma MarkKeepsStoreSound(st: Store, last: nat)
    requires Sound(st) && last <= |st.ledger|
    ensures Sound(st.(lastMessageSeq := last))
  {
    assert Unlandeds(st.(lastMessageSeq := last)) == Unlandeds(st);
  }

  lemma WriteKeepsSound(t: Topic, w: WorkerId)
    requires TopicSound(t) && Enabled(t, Write(w))
    ensures TopicSound(Next(t, Write(w)))
  {
    WriteKeepsStoreSound(t, w);
    hide Sound, ResolveSender, EntryAt, DetectKind;
  }

  lemma FinishKeepsSound(t: Topic, w: WorkerId)
    requires TopicSound(t) && Enabled(t, Finish(w))
    ensures TopicSound(Next(t, Finish(w)))
  {
    SoundMarks(t.store);
    hide Sound;
    MarkKeepsStoreSound(t.store, Next(t, Finish(w)).store.lastMessageSeq);
  }

  /** Moving one worker to a sound place keeps the topic sound. */
  lemma GotoKeepsSound(t: Topic, w: WorkerId, worker: Worker)
    requires TopicSound(t) && WorkerSound(t, worker) && (t.cursor.None? ==> worker.Missed? || worker.Seeding?)
    ensures TopicSound(Goto(t, w, worker))
  {
    hide Sound;
  }

  lemma CursorStepsKeepSound(t: Topic, step: Step)
    requires TopicSound(t) && Enabled(t, step) && (step.Seed? || step.Publish? || step.Abort?)
    ensures TopicSound(Next(t, step))
  {
    hide Sound;
  }

  /** Steps that move a worker and leave everything else alone. */
  lemma MovesKeepSound(t: Topic, step: Step)
    requires TopicSound(t) && Enabled(t, step)
    requires step.Begin? || step.Query? || step.Load? || step.Fetch? || step.Check? || step.Find?
    ensures TopicSound(Next(t, step))
  {
    SoundMarks(t.store);
    GotoKeepsSound(t, step.w, Next(t, step).workers[step.w]);
    hide Sound, HasSeq, ResolveSender, MaxSeq;
  }

  lemma WorkerStepsKeepSound(t: Topic, step: Step)
    requires TopicSound(t) && Enabled(t, step)
    requires step.Begin? || step.Query? || step.Seed? || step.Load? || step.Fetch? || step.Check? || step.Find?
          || step.Write? || step.Finish? || step.Publish? || step.Abort?
    ensures TopicSound(Next(t, step))
  {
    match step
    case Write(w) => WriteKeepsSound(t, w);
    case Finish(w) => FinishKeepsSound(t, w);
    case Seed(_) => CursorStepsKeepSound(t, step);
    case Publish(_) => CursorStepsKeepSound(t, step);
    case Abort(_) => CursorStepsKeepSound(t, step);
    case _ => MovesKeepSound(t, step);
  }

  /** The marks that a sound store offers are within its ledger. */
  lemma SoundMarks(st: Store)
    requires Sound(st)
    ensures MaxSeq(st.rows) <= |st.ledger| && st.lastMessageSeq <= |st.ledger|
  {
    if MaxSeq(st.rows) > 0 {
      var r :| 0 <= r < |st.rows| && st.rows[r].seqNo == MaxSeq(st.rows);
    }
  }

  lemma StepKeepsSound(t: Topic, step: Step)
    requires TopicSound(t) && Enabled(t, step)
    ensures TopicSound(Next(t, step))
  {
    if step.Send? || step.Submit? || step.Confirm? || step.Fail? || step.Post? || step.Crash? {
      StoreStepsKeepSound(t, step);
    } else {
      WorkerStepsKeepSound(t, step);
    }
  }

  /** On every run from a sound state: numbers denote ledger entries, no two rows
      share one (so at most one holds 0), and no mark passes the ledger. */
  lemma {:induction false} RunsAreSound(t: Topic, steps: seq<Step>)
    requires TopicSound(t) && Valid(t, steps)
    ensures TopicSound(Run(t, steps))
    decreases |steps|
  {
    if steps != [] {
      StepKeepsSound(t, steps[0]);
      RunsAreSound(Next(t, steps[0]), steps[1..]);
    }
  }

  // ---------------------------------------------------------------------------
  // What may happen at any point
  // ---------------------------------------------------------------------------

  /** Any submission in flight may fail, any worker's call may throw, and the process may
      restart, wherever a run has got to; each loses what was under way and no row. */
  lemma AnythingMayFail(t: Topic, r: RowId, w: WorkerId)
    ensures Enabled(t, Crash)
    ensures var crashed := Next(t, Crash);
            && crashed.store == t.store.(inflight := map[]) && crashed.workers == map[] && crashed.cursor == None
    ensures r in t.store.inflight ==>
              && Enabled(t, Fail(r))
              && r !in Next(t, Fail(r)).store.inflight && Next(t, Fail(r)).store.rows == t.store.rows
    ensures w in t.workers ==> Enabled(t, Abort(w)) && Next(t, Abort(w)) == t.(workers := t.workers - {w})
  {
  }

  /** No worker is ever stuck: in a sound topic it has a step of its own. */
  lemma WorkersCanGoOn(t: Topic, w: WorkerId)
    requires TopicSound(t) && w in t.workers
    ensures match t.workers[w]
            case Missed => Enabled(t, Query(w))
            case Seeding(_) => Enabled(t, Seed(w))
            case Ready(_) => Enabled(t, Load(w))
            case Loaded(after, _) =>
              Enabled(t, Fetch(w, 0)) && (after + 100 <= |t.store.ledger| ==> Enabled(t, Fetch(w, 100)))
            case Checking(b) => if b.done < b.upto then Enabled(t, Check(w)) else Enabled(t, Finish(w))
            case Finding(_) => Enabled(t, Find(w))
            case Writing(_, _) => Enabled(t, Write(w))
            case Publishing(_, _) => Enabled(t, Publish(w))
  {
    assert WorkerSound(t, t.workers[w]);
  }

  /** A worker fetches at most 100 messages that the ledger has, right after its cursor, and
      finishes only when it has dealt with each of them. */
  lemma BatchesAreWhole(t: Topic, w: WorkerId, count: nat)
    requires TopicSound(t)
    ensures Enabled(t, Fetch(w, count)) ==>
              var worker := Next(t, Fetch(w, count)).workers[w];
              && count <= 100 && t.workers[w].after + count <= |t.store.ledger|
              && worker.Checking? && worker.batch.done == worker.batch.after == t.workers[w].after
              && worker.batch.upto == t.workers[w].after + count
    ensures Enabled(t, Finish(w)) ==> t.workers[w].batch.done == t.workers[w].batch.upto
  {
    assert w in t.workers ==> WorkerSound(t, t.workers[w]);
  }
}
