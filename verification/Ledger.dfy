/** One conversation's consensus topic, and the PostgreSQL rows that index it. */
module Ledger {
  import opened Wrappers

  type Account = string
  type Bundle = string
  type KeyId = nat

  // Rows are never deleted, so a row is named by its place in insertion order.
  type RowId = nat

  /** What decoding a topic message as JSON yields. `Sealed` is anything that is
      not JSON, which includes every payload that sendMessage encrypts. */
  datatype Payload =
    | Sealed
    | Json(sender: Option<Account>, kind: Option<string>)
    | KeyExchange(keyId: KeyId, keys: map<Account, Bundle>)

  /** `origin` is a history variable: the row whose submission this entry is.
      No operation of the services reads it. */
  datatype Entry = Entry(payer: Account, payload: Payload, origin: Option<RowId>)

  datatype Row = Row(seqNo: nat, sender: Account, kind: string)

  const KNOWN_KINDS: set<string> := {"message", "payment", "payment_request", "payment_split", "system"}

  /** The account a synced message is attributed to. */
  function ResolveSender(e: Entry): (sender: Account)
    ensures e.payload.Json? && e.payload.sender.Some? ==> sender == e.payload.sender.value
    ensures !e.payload.Json? || e.payload.sender.None? ==> sender == e.payer
  {
    match e.payload
    case Json(Some(sender), _) => sender
    case _ => e.payer
  }

  /** The message type stored for a synced message. */
  function DetectKind(e: Entry): (kind: string)
    ensures kind in KNOWN_KINDS
    ensures e.payload.Json? && e.payload.kind.Some? && e.payload.kind.value in KNOWN_KINDS ==>
      kind == e.payload.kind.value
    ensures e.payload.Json? && e.payload.kind.Some? && e.payload.kind.value !in KNOWN_KINDS ==> kind == "system"
    ensures e.payload.Sealed? || (e.payload.Json? && e.payload.kind.None?) ==> kind == "message"
    ensures e.payload.KeyExchange? ==> kind == "system"
  {
    match e.payload
    case Sealed => "message"
    case Json(_, None) => "message"
    case Json(_, Some(kind)) => if kind in KNOWN_KINDS then kind else "system"
    case KeyExchange(_, _) => "system"
  }

  predicate HasSeq(rows: seq<Row>, s: nat) {
    exists r :: 0 <= r < |rows| && rows[r].seqNo == s
  }

  /** The unique constraint on (topic, sequence number). */
  ghost predicate Distinct(rows: seq<Row>) {
    forall i, j :: 0 <= i < j < |rows| ==> rows[i].seqNo != rows[j].seqNo
  }

  /** Every sequence number in (lo, hi] is indexed. */
  ghost predicate Covered(rows: seq<Row>, lo: nat, hi: nat) {
    forall k: nat :: lo < k <= hi ==> HasSeq(rows, k)
  }

  /** Exactly one row holds `k`. */
  ghost predicate IndexedOnce(rows: seq<Row>, k: nat) {
    && HasSeq(rows, k)
    && forall q, r :: 0 <= q < |rows| && 0 <= r < |rows| && rows[q].seqNo == k && rows[r].seqNo == k ==> q == r
  }

  /** No positive sequence number was changed or dropped. */
  ghost predicate Stable(before: seq<Row>, after: seq<Row>) {
    && |before| <= |after|
    && forall r :: 0 <= r < |before| ==>
         && after[r].sender == before[r].sender
         && (before[r].seqNo > 0 ==> after[r].seqNo == before[r].seqNo)
  }

  /** UPDATE of one row's sequence number; None when the unique constraint rejects it. Of
      a table that meets the constraint, exactly the updates go through that keep it. */
  function UpdateSeq(rows: seq<Row>, r: RowId, s: nat): (result: Option<seq<Row>>)
    requires r < |rows|
    ensures Distinct(rows) ==> (result.Some? <==> Distinct(rows[r := rows[r].(seqNo := s)]))
  {
    if exists i :: 0 <= i < |rows| && i != r && rows[i].seqNo == s then
      assert !Distinct(rows[r := rows[r].(seqNo := s)]) by {
        var i :| 0 <= i < |rows| && i != r && rows[i].seqNo == s;
        var rows' := rows[r := rows[r].(seqNo := s)];
        assert rows'[i].seqNo == rows'[r].seqNo;
      }
      None
    else Some(rows[r := rows[r].(seqNo := s)])
  }

  /** INSERT of one row; None when the unique constraint rejects it, and as exactly. */
  function InsertRow(rows: seq<Row>, row: Row): (result: Option<seq<Row>>)
    ensures Distinct(rows) ==> (result.Some? <==> Distinct(rows + [row]))
  {
    if HasSeq(rows, row.seqNo) then
      assert !Distinct(rows + [row]) by {
        var r :| 0 <= r < |rows| && rows[r].seqNo == row.seqNo;
        assert (rows + [row])[r].seqNo == (rows + [row])[|rows|].seqNo;
      }
      None
    else
      assert forall r :: 0 <= r < |rows| ==> rows[r].seqNo != row.seqNo;
      Some(rows + [row])
  }

  /** The placeholder row of `sender`, if any. */
  function PendingOf(rows: seq<Row>, sender: Account): (found: Option<RowId>)
    ensures found.Some? ==>
              found.value < |rows| && rows[found.value].seqNo == 0 && rows[found.value].sender == sender
    ensures found.None? ==>
              forall r :: 0 <= r < |rows| ==> !(rows[r].seqNo == 0 && rows[r].sender == sender)
  {
    if rows == [] then None
    else
      var last := |rows| - 1;
      if rows[last].seqNo == 0 && rows[last].sender == sender then Some(last)
      else PendingOf(rows[..last], sender)
  }

  /** The highest indexed sequence number, 0 for an empty index. */
  function MaxSeq(rows: seq<Row>): (m: nat)
    ensures forall r :: 0 <= r < |rows| ==> rows[r].seqNo <= m
    ensures m == 0 || HasSeq(rows, m)
  {
    if rows == [] then 0
    else
      var last := |rows| - 1;
      var m := MaxSeq(rows[..last]);
      if rows[last].seqNo > m then rows[last].seqNo else m
  }

  lemma StableTransitive(a: seq<Row>, b: seq<Row>, c: seq<Row>)
    requires Stable(a, b) && Stable(b, c)
    ensures Stable(a, c)
  {
    forall r | 0 <= r < |a|
      ensures c[r].sender == a[r].sender && (a[r].seqNo > 0 ==> c[r].seqNo == a[r].seqNo)
    {
      assert b[r].sender == a[r].sender;
    }
  }

  /** Indexed sequence numbers survive every stable change. */
  lemma StableKeepsSeq(before: seq<Row>, after: seq<Row>, s: nat)
    requires Stable(before, after) && s > 0 && HasSeq(before, s)
    ensures HasSeq(after, s)
  {
    var r :| 0 <= r < |before| && before[r].seqNo == s;
    assert after[r].seqNo == s;
  }

  lemma StableKeepsCover(before: seq<Row>, after: seq<Row>, lo: nat, hi: nat)
    requires Stable(before, after) && Covered(before, lo, hi)
    ensures Covered(after, lo, hi)
  {
    forall k: nat | lo < k <= hi ensures HasSeq(after, k) {
      StableKeepsSeq(before, after, k);
    }
  }

  /** The unique constraint survives every accepted INSERT and UPDATE. */
  lemma WritesKeepDistinct(rows: seq<Row>)
    requires Distinct(rows)
    ensures forall row {:trigger InsertRow(rows, row)} ::
              InsertRow(rows, row).Some? ==> Distinct(InsertRow(rows, row).value)
    ensures forall r: RowId, s: nat {:trigger UpdateSeq(rows, r, s)} ::
              r < |rows| && UpdateSeq(rows, r, s).Some? ==> Distinct(UpdateSeq(rows, r, s).value)
  {
  }
}
