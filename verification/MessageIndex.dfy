/** The message index of one topic as values: what each database operation of
    MessagingService does to it when nothing runs in between. */
module MessageIndex {
  import opened Wrappers
  import opened Ledger

  const MIRROR_NODE_BATCH_SIZE: nat := 100

  /** A submission made by sendMessage whose continuation has not run yet. */
  datatype Submission = Unlanded | Landed(seqNo: nat)

  datatype Store = Store(
    ledger: seq<Entry>,
    rows: seq<Row>,
    inflight: map<RowId, Submission>,
    lastMessageSeq: nat)

  /** The entry with sequence number `s`; the ledger counts from 1. */
  function EntryAt(ledger: seq<Entry>, s: nat): Entry
    requires 0 < s <= |ledger|
  {
    ledger[s - 1]
  }

  /** What holds of the tables whatever the interleaving was. */
  ghost predicate Sound(st: Store) {
    && Distinct(st.rows)
    && (forall r :: 0 <= r < |st.rows| ==> st.rows[r].seqNo <= |st.ledger|)
    && (forall j :: 0 <= j < |st.ledger| && st.ledger[j].origin.Some? ==>
         st.ledger[j].origin.value < |st.rows| && st.ledger[j].origin.value !in Unlandeds(st))
    && (forall i, j :: 0 <= i < j < |st.ledger| && st.ledger[i].origin.Some? ==>
         st.ledger[i].origin != st.ledger[j].origin)
    && (forall r :: r in st.inflight ==> r < |st.rows|)
    && (forall r :: r in st.inflight && st.inflight[r].Landed? ==>
         && 0 < st.inflight[r].seqNo <= |st.ledger|
         && EntryAt(st.ledger, st.inflight[r].seqNo).origin == Some(r))
    && st.lastMessageSeq <= |st.ledger|
  }

  ghost function Unlandeds(st: Store): set<RowId> {
    set r | r in st.inflight && st.inflight[r].Unlanded?
  }

  /** No continuation that is still to run can move a row that is already numbered. */
  ghost predicate Settled(st: Store)
    requires forall r :: r in st.inflight ==> r < |st.rows|
  {
    forall r :: r in st.inflight ==>
      || st.rows[r].seqNo == 0
      || (st.inflight[r].Landed? && HasSeq(st.rows, st.inflight[r].seqNo))
  }

  // ---------------------------------------------------------------------------
  // sendMessage and its background continuation
  // ---------------------------------------------------------------------------

  /** The placeholder INSERT; rejected, before anything reaches the ledger, while
      the topic has a placeholder. */
  function InsertPlaceholder(st: Store, sender: Account): Store {
    match InsertRow(st.rows, Row(0, sender, "message"))
    case None => st
    case Some(rows) => st.(rows := rows, inflight := st.inflight[|st.rows| := Unlanded])
  }

  /** A pending submission reaches consensus. */
  function Land(st: Store, r: RowId, payer: Account, payload: Payload): Store
    requires r in st.inflight && st.inflight[r].Unlanded?
  {
    st.(ledger := st.ledger + [Entry(payer, payload, Some(r))],
        inflight := st.inflight[r := Landed(|st.ledger| + 1)])
  }

  /** The continuation's UPDATE; a unique violation is dropped on the floor. */
  function Confirm(st: Store, r: RowId): Store
    requires r in st.inflight && st.inflight[r].Landed? && r < |st.rows|
  {
    var rows := match UpdateSeq(st.rows, r, st.inflight[r].seqNo)
                case None => st.rows
                case Some(rows) => rows;
    st.(rows := rows, inflight := st.inflight - {r})
  }

  // ---------------------------------------------------------------------------
  // syncFromMirrorNode
  // ---------------------------------------------------------------------------

  /** Index one topic message: skip it, adopt its sender's placeholder, or insert. */
  function IndexOne(rows: seq<Row>, ledger: seq<Entry>, s: nat): seq<Row>
    requires 0 < s <= |ledger|
  {
    var e := EntryAt(ledger, s);
    if HasSeq(rows, s) then rows
    else match PendingOf(rows, ResolveSender(e))
      case Some(p) => rows[p := rows[p].(seqNo := s)]
      case None => rows + [Row(s, ResolveSender(e), DetectKind(e))]
  }

  /** Index the messages in (lo, hi], oldest first. */
  function IndexRange(rows: seq<Row>, ledger: seq<Entry>, lo: nat, hi: nat): seq<Row>
    requires lo <= hi && (lo == hi || hi <= |ledger|)
    decreases hi - lo
  {
    if lo == hi then rows else IndexOne(IndexRange(rows, ledger, lo, hi - 1), ledger, hi)
  }

  /** How many of the messages in (lo, hi] the index does not have. */
  function Missing(rows: seq<Row>, lo: nat, hi: nat): (n: nat)
    requires lo <= hi
    ensures n == 0 <==> Covered(rows, lo, hi)
    decreases hi - lo
  {
    if lo == hi then 0
    else
      assert Covered(rows, lo, hi) <==> Covered(rows, lo, hi - 1) && HasSeq(rows, hi);
      Missing(rows, lo, hi - 1) + if HasSeq(rows, hi) then 0 else 1
  }

  /** The end of the batch that the Mirror Node returns after `after`, when it serves the
      first `length` messages of the topic. */
  function BatchEnd(length: nat, after: nat): (upto: nat)
    ensures after <= upto <= after + MIRROR_NODE_BATCH_SIZE
    ensures after == upto || upto <= length
  {
    if length <= after then after
    else if after + MIRROR_NODE_BATCH_SIZE <= length then after + MIRROR_NODE_BATCH_SIZE
    else length
  }

  /** One undisturbed sync of the messages in (after, upto]. */
  function SyncBatch(st: Store, after: nat, upto: nat): Store
    requires after <= upto && (after == upto || upto <= |st.ledger|)
  {
    var rows := IndexRange(st.rows, st.ledger, after, upto);
    var last := if Missing(st.rows, after, upto) > 0 && upto > st.lastMessageSeq then upto
                else st.lastMessageSeq;
    st.(rows := rows, lastMessageSeq := last)
  }

  // ---------------------------------------------------------------------------
  // What a sync does to the index
  // ---------------------------------------------------------------------------

  lemma IndexOneIsStable(rows: seq<Row>, ledger: seq<Entry>, s: nat)
    requires 0 < s <= |ledger| && Distinct(rows)
    ensures var rows' := IndexOne(rows, ledger, s);
            Distinct(rows') && Stable(rows, rows') && HasSeq(rows', s)
    ensures IndexOne(rows, ledger, s) == rows <==> HasSeq(rows, s)
    ensures forall k: nat :: k > 0 && k != s ==>
              (HasSeq(IndexOne(rows, ledger, s), k) <==> HasSeq(rows, k))
  {
    var rows' := IndexOne(rows, ledger, s);
    if !HasSeq(rows, s) {
      match PendingOf(rows, ResolveSender(EntryAt(ledger, s))) {
        case Some(p) => assert rows'[p].seqNo == s;
        case None => assert rows'[|rows|].seqNo == s;
      }
      forall k: nat | k > 0 && k != s ensures HasSeq(rows', k) <==> HasSeq(rows, k) {
        if HasSeq(rows, k) {
          StableKeepsSeq(rows, rows', k);
        }
      }
    }
  }

  /** A sync keeps the unique constraint and every number already given, indexes
      its whole batch, and indexes nothing else. */
  lemma {:induction false} SyncIndexesItsBatch(rows: seq<Row>, ledger: seq<Entry>, lo: nat, hi: nat)
    requires lo <= hi <= |ledger| && Distinct(rows)
    ensures var rows' := IndexRange(rows, ledger, lo, hi);
            && Distinct(rows') && Stable(rows, rows') && Covered(rows', lo, hi)
            && (forall k: nat :: k > 0 && !(lo < k <= hi) ==> (HasSeq(rows', k) <==> HasSeq(rows, k)))
    decreases hi - lo
  {
    if lo < hi {
      var mid := IndexRange(rows, ledger, lo, hi - 1);
      SyncIndexesItsBatch(rows, ledger, lo, hi - 1);
      IndexOneIsStable(mid, ledger, hi);
      var rows' := IndexOne(mid, ledger, hi);
      StableTransitive(rows, mid, rows');
      forall k: nat | lo < k <= hi ensures HasSeq(rows', k) {
        if k < hi {
          assert HasSeq(mid, k);
        }
      }
    }
  }

  /** A sync changes no row exactly when its batch is already indexed. */
  lemma {:induction false} SyncIsIdleIffCovered(rows: seq<Row>, ledger: seq<Entry>, lo: nat, hi: nat)
    requires lo <= hi <= |ledger| && Distinct(rows)
    ensures IndexRange(rows, ledger, lo, hi) == rows <==> Covered(rows, lo, hi)
    decreases hi - lo
  {
    if lo < hi {
      var mid := IndexRange(rows, ledger, lo, hi - 1);
      SyncIsIdleIffCovered(rows, ledger, lo, hi - 1);
      SyncIndexesItsBatch(rows, ledger, lo, hi);
      if Covered(rows, lo, hi) {
        assert HasSeq(rows, hi);
      }
    }
  }

  /** Repeating a sync from the same cursor on an unchanged ledger changes nothing. */
  lemma SyncIsIdempotent(st: Store, after: nat, upto: nat)
    requires after <= upto <= |st.ledger| && Distinct(st.rows)
    ensures SyncBatch(SyncBatch(st, after, upto), after, upto) == SyncBatch(st, after, upto)
  {
    var once := SyncBatch(st, after, upto);
    SyncIndexesItsBatch(st.rows, st.ledger, after, upto);
    SyncIsIdleIffCovered(once.rows, once.ledger, after, upto);
  }

  /** The last-message mark moves to the end of the batch exactly when the batch
      brought a message the index lacked; it never moves back. */
  lemma LastMessageSeqMovesIff(st: Store, after: nat, upto: nat)
    requires after <= upto <= |st.ledger|
    ensures var st' := SyncBatch(st, after, upto);
            && st'.lastMessageSeq >= st.lastMessageSeq
            && (st'.lastMessageSeq != st.lastMessageSeq <==>
                 upto > st.lastMessageSeq && !Covered(st.rows, after, upto))
            && (st'.lastMessageSeq != st.lastMessageSeq ==> st'.lastMessageSeq == upto)
  {
  }

  // ---------------------------------------------------------------------------
  // Convergence
  // ---------------------------------------------------------------------------

  /** The cursor after `rounds` successful rounds on a ledger that has stopped growing. */
  function CursorAfter(length: nat, cursor: nat, rounds: nat): nat {
    if rounds == 0 then cursor else BatchEnd(length, CursorAfter(length, cursor, rounds - 1))
  }

  /** The store after the same rounds. */
  function StoreAfter(st: Store, cursor: nat, rounds: nat): (st': Store)
    requires cursor <= |st.ledger|
    ensures st'.ledger == st.ledger && st'.inflight == st.inflight
    ensures CursorAfter(|st.ledger|, cursor, rounds) <= |st.ledger|
  {
    if rounds == 0 then st
    else
      var prev := StoreAfter(st, cursor, rounds - 1);
      var c := CursorAfter(|st.ledger|, cursor, rounds - 1);
      SyncBatch(prev, c, BatchEnd(|prev.ledger|, c))
  }

  /** Each round takes exactly one batch off what remains. */
  lemma {:induction false} RoundsAdvanceByBatches(length: nat, cursor: nat, rounds: nat)
    requires cursor <= length
    ensures CursorAfter(length, cursor, rounds) ==
            if cursor + rounds * MIRROR_NODE_BATCH_SIZE <= length
            then cursor + rounds * MIRROR_NODE_BATCH_SIZE else length
  {
    if rounds > 0 {
      RoundsAdvanceByBatches(length, cursor, rounds - 1);
    }
  }

  /** The number of batches needed: the remaining messages over the batch size, rounded up. */
  function RoundsNeeded(remaining: nat): nat {
    (remaining + MIRROR_NODE_BATCH_SIZE - 1) / MIRROR_NODE_BATCH_SIZE
  }

  /** The cursor reaches the end of the ledger in exactly that many rounds, no
      sooner, and the index then covers everything above the first cursor. */
  lemma SyncConverges(st: Store, cursor: nat, rounds: nat)
    requires cursor <= |st.ledger| && Distinct(st.rows)
    ensures CursorAfter(|st.ledger|, cursor, rounds) == |st.ledger| <==>
            rounds >= RoundsNeeded(|st.ledger| - cursor)
    ensures rounds >= RoundsNeeded(|st.ledger| - cursor) ==>
              Covered(StoreAfter(st, cursor, rounds).rows, cursor, |st.ledger|)
  {
    RoundsAdvanceByBatches(|st.ledger|, cursor, rounds);
    RoundsCover(st, cursor, rounds);
  }

  lemma {:induction false} RoundsCover(st: Store, cursor: nat, rounds: nat)
    requires cursor <= |st.ledger| && Distinct(st.rows)
    ensures var st' := StoreAfter(st, cursor, rounds);
            && Distinct(st'.rows) && Stable(st.rows, st'.rows)
            && Covered(st'.rows, cursor, CursorAfter(|st.ledger|, cursor, rounds))
  {
    if rounds > 0 {
      var prev := StoreAfter(st, cursor, rounds - 1);
      var c := CursorAfter(|st.ledger|, cursor, rounds - 1);
      RoundsCover(st, cursor, rounds - 1);
      var upto := BatchEnd(|prev.ledger|, c);
      SyncIndexesItsBatch(prev.rows, prev.ledger, c, upto);
      var st' := StoreAfter(st, cursor, rounds);
      StableTransitive(st.rows, prev.rows, st'.rows);
      StableKeepsCover(prev.rows, st'.rows, cursor, c);
      forall k: nat | cursor < k <= upto ensures HasSeq(st'.rows, k) {
        if k > c {
          assert c < k <= upto;
        }
      }
    }
  }
}
