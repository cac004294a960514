/** Whom the index says a message is from. */
module Attribution {
  import opened Wrappers
  import opened Ledger
  import opened MessageIndex
  import opened SyncProtocol

  /** The sender that the message itself names, or else the account that paid for it. */
  ghost predicate IsFrom(e: Entry, account: Account) {
    if e.payload.Json? && e.payload.sender.Some? then account == e.payload.sender.value else account == e.payer
  }

  /** The row's number is that of a message from its sender, or of its own submission. */
  ghost predicate Attributed(st: Store, r: RowId)
    requires r < |st.rows|
  {
    0 < st.rows[r].seqNo <= |st.ledger| ==>
      var e := EntryAt(st.ledger, st.rows[r].seqNo);
      e.origin == Some(r) || IsFrom(e, st.rows[r].sender)
  }

  /** A placeholder that a worker is about to adopt is of the sender of its message. */
  ghost predicate AdoptsItsSender(t: Topic, worker: Worker) {
    worker.Writing? && worker.pending.Some? && worker.pending.value < |t.store.rows|
    && worker.batch.done < |t.store.ledger| ==>
      IsFrom(EntryAt(t.store.ledger, worker.batch.done + 1), t.store.rows[worker.pending.value].sender)
  }

  ghost predicate AllAttributed(t: Topic) {
    && (forall r: RowId :: r < |t.store.rows| ==> Attributed(t.store, r))
    && (forall w :: w in t.workers ==> AdoptsItsSender(t, t.workers[w]))
  }

  /** Ledger and rows only grow, and senders stay. */
  ghost predicate Grows(st: Store, st': Store) {
    && st.ledger <= st'.ledger && |st.rows| <= |st'.rows|
    && forall r :: 0 <= r < |st.rows| ==> st'.rows[r].sender == st.rows[r].sender
  }

  lemma StepGrows(t: Topic, step: Step)
    requires Enabled(t, step)
    ensures Grows(t.store, Next(t, step).store)
  {
    hide HasSeq, PendingOf, ResolveSender, DetectKind, MaxSeq;
  }

  /** A row that keeps its number keeps its message. */
  lemma SameNumberStaysAttributed(st: Store, st': Store, r: RowId)
    requires Grows(st, st') && r < |st.rows| && Attributed(st, r)
        && st'.rows[r].seqNo == st.rows[r].seqNo <= |st.ledger|
    ensures Attributed(st', r)
  {
  }

  /** A new number is the row's own, or its sender's message. */
  lemma NewNumberIsAttributed(t: Topic, step: Step, r: RowId)
    requires TopicSound(t) && AllAttributed(t) && Enabled(t, step) && r < |Next(t, step).store.rows|
    requires r < |t.store.rows| ==> Next(t, step).store.rows[r].seqNo != t.store.rows[r].seqNo
    ensures Attributed(Next(t, step).store, r)
  {
    var st, st' := t.store, Next(t, step).store;
    match step
    case Write(w) =>
      assert AdoptsItsSender(t, t.workers[w]) && WorkerSound(t, t.workers[w]);
    case Confirm(c) =>
      assert EntryAt(st.ledger, st.inflight[c].seqNo).origin == Some(c);
    case _ =>
  }

  lemma StepKeepsAttributed(t: Topic, step: Step)
    requires TopicSound(t) && AllAttributed(t) && Enabled(t, step)
    ensures AllAttributed(Next(t, step))
  {
    var t' := Next(t, step);
    StepGrows(t, step);
    forall r: RowId | r < |t'.store.rows| ensures Attributed(t'.store, r) {
      if r < |t.store.rows| && t'.store.rows[r].seqNo == t.store.rows[r].seqNo {
        SameNumberStaysAttributed(t.store, t'.store, r);
      } else {
        NewNumberIsAttributed(t, step, r);
      }
    }
    forall w | w in t'.workers ensures AdoptsItsSender(t', t'.workers[w]) {
      WorkerAdoptsItsSender(t, step, w);
    }
  }

  lemma WorkerAdoptsItsSender(t: Topic, step: Step, w: WorkerId)
    requires TopicSound(t) && AllAttributed(t) && Enabled(t, step) && w in Next(t, step).workers
    ensures AdoptsItsSender(Next(t, step), Next(t, step).workers[w])
  {
    StepGrows(t, step);
    var t' := Next(t, step);
    if w in t.workers && t'.workers[w] == t.workers[w] {
      assert AdoptsItsSender(t, t.workers[w]) && WorkerSound(t, t.workers[w]);
      hide Next, Enabled;
    } else if t'.workers[w].Writing? {
      assert step == Find(w);
    }
  }

  /** On every run, at any interleaving: each number that the index gives to a row is that
      of the row's own submission or of a message from the row's sender. */
  lemma {:induction false} RunsKeepAttributed(t: Topic, steps: seq<Step>)
    requires TopicSound(t) && AllAttributed(t) && Valid(t, steps)
    ensures AllAttributed(Run(t, steps))
    decreases |steps|
  {
    hide AllAttributed, TopicSound, Next, Enabled;
    if steps != [] {
      StepKeepsSound(t, steps[0]);
      StepKeepsAttributed(t, steps[0]);
      RunsKeepAttributed(Next(t, steps[0]), steps[1..]);
    }
  }

  /** What one pass of the sync's loop makes of a message that the index lacks: its
      sender's placeholder, or a new row with its sender and its type. */
  lemma NewMessageIsFiled(rows: seq<Row>, ledger: seq<Entry>, s: nat)
    requires 0 < s <= |ledger| && !HasSeq(rows, s)
    ensures var e, rows' := EntryAt(ledger, s), IndexOne(rows, ledger, s);
            exists r: RowId :: r < |rows'| && rows'[r].seqNo == s && IsFrom(e, rows'[r].sender)
              && (if r < |rows| then rows[r].seqNo == 0 && rows' == rows[r := rows[r].(seqNo := s)]
                  else
                    && r == |rows| && rows'[..r] == rows
                    && (forall p :: 0 <= p < |rows| ==> !(rows[p].seqNo == 0 && IsFrom(e, rows[p].sender)))
                    && rows'[r].kind == DetectKind(e))
  {
    var e, rows' := EntryAt(ledger, s), IndexOne(rows, ledger, s);
    var pending := PendingOf(rows, ResolveSender(e));
    var r := if pending.Some? then pending.value else |rows|;
    assert rows'[r].seqNo == s && IsFrom(e, rows'[r].sender);
  }
}
