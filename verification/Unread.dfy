/** The unread count is a difference of two marks; when that difference counts messages. */
module Unread {
  import opened Ledger
  import opened MessageIndex
  import opened IndexCompleteness
  import opened LastMessage
  import opened Membership
  import opened Conversations

  /** The count shown to a member. */
  function UnreadCount(lastMessageSeq: nat, lastReadSeq: nat): nat {
    if lastMessageSeq > lastReadSeq then lastMessageSeq - lastReadSeq else 0
  }

  /** The number of index rows numbered in (lo, hi]. */
  function RowsIn(rows: seq<Row>, lo: nat, hi: nat): nat {
    if rows == [] then 0
    else
      var last := |rows| - 1;
      RowsIn(rows[..last], lo, hi) + if lo < rows[last].seqNo <= hi then 1 else 0
  }

  lemma {:induction false} RowsInSplits(rows: seq<Row>, lo: nat, mid: nat, hi: nat)
    requires lo <= mid <= hi
    ensures RowsIn(rows, lo, hi) == RowsIn(rows, lo, mid) + RowsIn(rows, mid, hi)
  {
    if rows != [] {
      RowsInSplits(rows[..|rows| - 1], lo, mid, hi);
    }
  }

  lemma {:induction false} AtMostOneRowPerNumber(rows: seq<Row>, k: nat)
    requires Distinct(rows) && k > 0
    ensures RowsIn(rows, k - 1, k) == if HasSeq(rows, k) then 1 else 0
  {
    if rows != [] {
      var last := |rows| - 1;
      var init := rows[..last];
      AtMostOneRowPerNumber(init, k);
      assert HasSeq(rows, k) <==> HasSeq(init, k) || rows[last].seqNo == k by {
        if HasSeq(rows, k) {
          var r :| 0 <= r < |rows| && rows[r].seqNo == k;
          assert r < last ==> init[r] == rows[r];
        }
        if HasSeq(init, k) {
          var r :| 0 <= r < |init| && init[r].seqNo == k;
          assert rows[r].seqNo == k;
        }
      }
      if HasSeq(init, k) {
        var r :| 0 <= r < |init| && init[r].seqNo == k;
        assert rows[r].seqNo == k;
      }
    }
  }

  /** An interval holds no more rows than numbers, and as many exactly when the index
      covers it. */
  lemma {:induction false} RowsInIffCovered(rows: seq<Row>, lo: nat, hi: nat)
    requires Distinct(rows) && lo <= hi
    ensures RowsIn(rows, lo, hi) <= hi - lo
    ensures RowsIn(rows, lo, hi) == hi - lo <==> Covered(rows, lo, hi)
    decreases hi - lo
  {
    if lo == hi {
      EmptyIntervalHasNoRows(rows, lo);
    } else {
      RowsInIffCovered(rows, lo, hi - 1);
      RowsInSplits(rows, lo, hi - 1, hi);
      AtMostOneRowPerNumber(rows, hi);
      assert Covered(rows, lo, hi) <==> Covered(rows, lo, hi - 1) && HasSeq(rows, hi);
    }
  }

  lemma {:induction false} EmptyIntervalHasNoRows(rows: seq<Row>, k: nat)
    ensures RowsIn(rows, k, k) == 0
  {
    if rows != [] {
      EmptyIntervalHasNoRows(rows[..|rows| - 1], k);
    }
  }

  /** The count shown is the number of rows after the read mark and up to the
      last-message mark exactly when the index is complete between the two. */
  lemma UnreadCountsRowsIff(rows: seq<Row>, lastMessageSeq: nat, lastReadSeq: nat)
    requires Distinct(rows)
    ensures UnreadCount(lastMessageSeq, lastReadSeq) == RowsIn(rows, lastReadSeq, lastMessageSeq)
            <==> lastReadSeq >= lastMessageSeq || Covered(rows, lastReadSeq, lastMessageSeq)
  {
    if lastReadSeq <= lastMessageSeq {
      RowsInIffCovered(rows, lastReadSeq, lastMessageSeq);
    } else {
      InvertedIntervalHasNoRows(rows, lastReadSeq, lastMessageSeq);
    }
  }

  lemma {:induction false} InvertedIntervalHasNoRows(rows: seq<Row>, lo: nat, hi: nat)
    requires lo >= hi
    ensures RowsIn(rows, lo, hi) == 0
  {
    if rows != [] {
      InvertedIntervalHasNoRows(rows[..|rows| - 1], lo, hi);
    }
  }

  /** Marking as read brings the count to 0. From then on, as long as the index is
      complete, the count is the number of rows that came after the mark exactly when
      the conversation had a synced message to mark, or has none still. */
  lemma UnreadAfterMarkRead(members: Members, reader: Account, marked: nat, rows: seq<Row>, lastMessageSeq: nat)
    requires reader in members
    requires Distinct(rows) && marked <= lastMessageSeq && Covered(rows, marked, lastMessageSeq)
    ensures var read := MarkedRead(members, reader, marked)[reader].lastReadSeq;
            && UnreadCount(marked, read) == 0
            && (UnreadCount(lastMessageSeq, read) == RowsIn(rows, marked, lastMessageSeq)
                <==> marked > 0 || lastMessageSeq == 0)
  {
    RowsInIffCovered(rows, marked, lastMessageSeq);
  }

  /** Messages confirmed before their sync do not move the last-message mark, so they
      are missing from the count one for one. */
  lemma ConfirmedMessagesAreNotCounted(st: Store, after: nat, upto: nat, lastReadSeq: nat)
    requires Distinct(st.rows) && after <= upto <= |st.ledger| && Covered(st.rows, after, upto)
    requires lastReadSeq <= st.lastMessageSeq <= upto && Covered(st.rows, lastReadSeq, upto)
    ensures var st' := SyncBatch(st, after, upto);
            RowsIn(st'.rows, lastReadSeq, upto) ==
              UnreadCount(st'.lastMessageSeq, lastReadSeq) + (upto - st.lastMessageSeq)
  {
    SyncIsIdleIffCovered(st.rows, st.ledger, after, upto);
    RowsInIffCovered(st.rows, lastReadSeq, upto);
  }

  /** On a harmless run, at every point of it and whatever the cursor does, a member whose
      read mark is not below the start mark is shown the number of rows after it. */
  lemma UnreadIsExactOnRuns(states: seq<Conversation>, steps: seq<Step>, i: nat, reader: Account)
    requires HarmlessTrace(states, steps) && i < |states|
    requires Inv(states[0].topic) && MarkIndexed(states[0].topic)
    requires reader in states[i].room.members
    requires states[i].topic.cursor.Some?
    requires states[i].topic.mark <= states[i].room.members[reader].lastReadSeq
    ensures var st, read := states[i].topic.store, states[i].room.members[reader].lastReadSeq;
            UnreadCount(st.lastMessageSeq, read) == RowsIn(st.rows, read, st.lastMessageSeq)
  {
    ConversationIndexIsComplete(states, steps, i);
    var t, read := states[i].topic, states[i].room.members[reader].lastReadSeq;
    assert Distinct(t.store.rows);
    forall k: nat | read < k <= t.store.lastMessageSeq ensures HasSeq(t.store.rows, k) {
      assert t.mark < k <= t.store.lastMessageSeq;
    }
    UnreadCountsRowsIff(t.store.rows, t.store.lastMessageSeq, read);
  }
}
