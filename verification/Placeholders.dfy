/** What becomes of sendMessage's placeholder rows, and of the sends behind them. */
module Placeholders {
  import opened Wrappers
  import opened Ledger
  import opened MessageIndex
  import opened SyncProtocol

  /** A placeholder that no continuation is left to number. */
  ghost predicate Stranded(t: Topic, p: RowId) {
    p < |t.store.rows| && t.store.rows[p].seqNo == 0 && p !in t.store.inflight
  }

  /** A send is accepted exactly when the topic has no placeholder, and then becomes
      the one placeholder, with its submission pending. */
  lemma SendIsAcceptedIff(st: Store, sender: Account)
    ensures InsertPlaceholder(st, sender) != st <==> !HasSeq(st.rows, 0)
    ensures !HasSeq(st.rows, 0) ==>
              var st' := InsertPlaceholder(st, sender);
              && PendingOf(st'.rows, sender) == Some(|st.rows|)
              && |st.rows| in st'.inflight && st'.inflight[|st.rows|] == Unlanded
              && st'.ledger == st.ledger && st'.rows == st.rows + [Row(0, sender, "message")]
  {
    if !HasSeq(st.rows, 0) {
      assert |InsertPlaceholder(st, sender).rows| == |st.rows| + 1;
    }
  }

  /** A send with nothing in between gets the number at which its message reaches the ledger. */
  lemma UndisturbedSendIsNumbered(t: Topic, sender: Account, payer: Account, payload: Payload)
    requires TopicSound(t) && !HasSeq(t.store.rows, 0)
    ensures var row := |t.store.rows|;
            var sent := Next(t, Send(sender));
            && Enabled(sent, Submit(row, payer, payload))
            && var landed := Next(sent, Submit(row, payer, payload));
            && landed.store.ledger == t.store.ledger + [Entry(payer, payload, Some(row))]
            && Enabled(landed, Confirm(row))
            && var confirmed := Next(landed, Confirm(row));
            && confirmed.store.rows == t.store.rows + [Row(|t.store.ledger| + 1, sender, "message")]
            && confirmed.store.inflight == t.store.inflight
  {
    var row := |t.store.rows|;
    var landed := Next(Next(t, Send(sender)), Submit(row, payer, payload));
    assert row !in t.store.inflight;
    assert landed.store.rows == t.store.rows + [Row(0, sender, "message")];
    assert forall i :: 0 <= i < row ==> landed.store.rows[i].seqNo <= |t.store.ledger|;
    assert landed.store.inflight - {row} == t.store.inflight;
  }

  /** A confirmation numbers its placeholder exactly when no other row took the number
      first; otherwise the placeholder is stranded. */
  lemma ConfirmNumbersIff(t: Topic, p: RowId)
    requires TopicSound(t) && Enabled(t, Confirm(p)) && t.store.rows[p].seqNo == 0
    ensures Next(t, Confirm(p)).store.rows[p].seqNo == t.store.inflight[p].seqNo
            <==> !HasSeq(t.store.rows, t.store.inflight[p].seqNo)
    ensures HasSeq(t.store.rows, t.store.inflight[p].seqNo) ==> Stranded(Next(t, Confirm(p)), p)
  {
  }

  /** A sync that meets a sent message before its confirmation either lets the
      confirmation through or strands the placeholder, and the attributed sender
      decides which: sealed payloads are attributed to the payer. */
  lemma SyncBeforeConfirm(st: Store, p: RowId)
    requires Sound(st) && p in st.inflight && st.inflight[p].Landed? && st.rows[p].seqNo == 0
    requires !HasSeq(st.rows, st.inflight[p].seqNo)
    ensures var s := st.inflight[p].seqNo;
            var synced := st.(rows := IndexOne(st.rows, st.ledger, s));
            var confirmed := MessageIndex.Confirm(synced, p);
            && confirmed.rows[p].seqNo ==
                 (if ResolveSender(EntryAt(st.ledger, s)) == st.rows[p].sender then s else 0)
            && p !in confirmed.inflight
            && HasSeq(confirmed.rows, s)
  {
    var s := st.inflight[p].seqNo;
    var sender := ResolveSender(EntryAt(st.ledger, s));
    var rows := IndexOne(st.rows, st.ledger, s);
    IndexOneIsStable(st.rows, st.ledger, s);
    if sender == st.rows[p].sender {
      assert PendingOf(st.rows, sender) == Some(p);
    } else {
      assert PendingOf(st.rows, sender).None?;
      assert rows[|st.rows|].seqNo == s;
    }
    var confirmed := MessageIndex.Confirm(st.(rows := rows), p);
    assert confirmed.rows == rows;
  }

  /** The step numbers row `p` from a sync worker. */
  ghost predicate Adopts(t: Topic, step: Step, p: RowId)
    requires Enabled(t, step)
  {
    step.Write? && t.workers[step.w].pending == Some(p) && WrittenRows(t, step.w).Some?
  }

  /** Somewhere along the run a worker numbers row `p`. */
  ghost predicate AdoptsAlong(t: Topic, steps: seq<Step>, p: RowId)
    requires Valid(t, steps)
    decreases |steps|
  {
    steps != [] && (Adopts(t, steps[0], p) || AdoptsAlong(Next(t, steps[0]), steps[1..], p))
  }

  /** Every send along the run is turned away with nothing changed. */
  ghost predicate EverySendRejected(t: Topic, steps: seq<Step>)
    requires Valid(t, steps)
    decreases |steps|
  {
    steps != [] ==>
      (steps[0].Send? ==> Next(t, steps[0]) == t) && EverySendRejected(Next(t, steps[0]), steps[1..])
  }

  lemma StrandedUntilAdopted(t: Topic, step: Step, p: RowId)
    requires TopicSound(t) && Enabled(t, step) && Stranded(t, p)
    ensures Stranded(Next(t, step), p) <==> !Adopts(t, step, p)
    ensures step.Send? ==> Next(t, step) == t
  {
    if step.Send? {
      assert HasSeq(t.store.rows, 0);
    }
  }

  /** A stranded placeholder shuts the topic: until some worker adopts it, every send
      on every run is rejected. */
  lemma {:induction false} StrandedPlaceholderBlocksSends(t: Topic, steps: seq<Step>, p: RowId)
    requires TopicSound(t) && Stranded(t, p) && Valid(t, steps)
    ensures !AdoptsAlong(t, steps, p) ==> Stranded(Run(t, steps), p) && EverySendRejected(t, steps)
    decreases |steps|
  {
    if steps != [] {
      StepKeepsSound(t, steps[0]);
      StrandedUntilAdopted(t, steps[0], p);
      if Stranded(Next(t, steps[0]), p) {
        StrandedPlaceholderBlocksSends(Next(t, steps[0]), steps[1..], p);
      }
    }
  }

  /** Nothing on the ledger is attributed to `sender`. */
  ghost predicate Unattributed(ledger: seq<Entry>, sender: Account) {
    forall j :: 0 <= j < |ledger| ==> ResolveSender(ledger[j]) != sender
  }

  /** No worker is about to number row `p`. */
  ghost predicate NotAboutToAdopt(t: Topic, p: RowId) {
    forall w :: w in t.workers && t.workers[w].Writing? ==> t.workers[w].pending != Some(p)
  }

  lemma {:induction false} LedgerOnlyGrows(t: Topic, steps: seq<Step>)
    requires Valid(t, steps)
    ensures |t.store.ledger| <= |Run(t, steps).store.ledger|
    ensures Run(t, steps).store.ledger[..|t.store.ledger|] == t.store.ledger
    decreases |steps|
  {
    if steps != [] {
      var next := Next(t, steps[0]);
      LedgerOnlyGrows(next, steps[1..]);
      assert next.store.ledger[..|t.store.ledger|] == t.store.ledger;
    }
  }

  /** A step that finds nothing attributed to the placeholder's sender brings no worker
      to adopt it. */
  lemma NothingToAdoptItFor(t: Topic, step: Step, p: RowId)
    requires TopicSound(t) && Enabled(t, step) && Stranded(t, p) && NotAboutToAdopt(t, p)
    requires Unattributed(t.store.ledger, t.store.rows[p].sender)
    ensures NotAboutToAdopt(Next(t, step), p) && !Adopts(t, step, p)
    ensures Next(t, step).store.rows[p].sender == t.store.rows[p].sender
  {
    hide TopicSound, HasSeq;
  }

  /** With nothing on the ledger attributed to its sender, which is how sealed
      messages paid for by the operator look, a stranded placeholder is final. */
  lemma {:induction false} SealedTrafficNeverFreesAPlaceholder(t: Topic, steps: seq<Step>, p: RowId)
    requires TopicSound(t) && Stranded(t, p) && Valid(t, steps) && NotAboutToAdopt(t, p)
    requires Unattributed(Run(t, steps).store.ledger, t.store.rows[p].sender)
    ensures Stranded(Run(t, steps), p) && EverySendRejected(t, steps)
    decreases |steps|
  {
    if steps != [] {
      var next := Next(t, steps[0]);
      LedgerOnlyGrows(t, steps);
      var ledger := Run(t, steps).store.ledger;
      assert forall j :: 0 <= j < |t.store.ledger| ==> t.store.ledger[j] == ledger[..|t.store.ledger|][j];
      hide Next, TopicSound, NotAboutToAdopt, Adopts;
      StepKeepsSound(t, steps[0]);
      StrandedUntilAdopted(t, steps[0], p);
      NothingToAdoptItFor(t, steps[0], p);
      SealedTrafficNeverFreesAPlaceholder(next, steps[1..], p);
    }
  }
}
