/** Notifications: rows, bulk read marks, and paging by creation time. */
module Notifications {
  import opened Wrappers

  type Account = string

  /** Times are in microseconds, as the database keeps them. */
  datatype Notification = Notification(recipient: Account, category: string, createdAt: nat, isRead: bool,
                                       readAt: Option<nat>)

  /** Which rows an UPDATE names: the given ids, or all. */
  datatype Selection = All | Ids(ids: set<nat>)

  datatype Op =
    | Create(recipient: Account, category: string, createdAt: nat)
    | Mark(recipient: Account, selection: Selection, now: nat)

  predicate Hit(rows: seq<Notification>, i: nat, recipient: Account, selection: Selection)
    requires i < |rows|
  {
    rows[i].recipient == recipient && !rows[i].isRead && (selection.All? || i in selection.ids)
  }

  /** UPDATE ... SET isRead, readAt WHERE recipient, unread and selected. */
  function Marked(rows: seq<Notification>, recipient: Account, selection: Selection, now: nat)
    : (rows': seq<Notification>)
    ensures |rows'| == |rows|
  {
    if rows == [] then []
    else
      var last := |rows| - 1;
      Marked(rows[..last], recipient, selection, now) +
      [if Hit(rows, last, recipient, selection) then rows[last].(isRead := true, readAt := Some(now)) else rows[last]]
  }

  /** The number of rows that UPDATE changes. */
  function Affected(rows: seq<Notification>, recipient: Account, selection: Selection): nat {
    if rows == [] then 0
    else
      var last := |rows| - 1;
      Affected(rows[..last], recipient, selection) + if Hit(rows, last, recipient, selection) then 1 else 0
  }

  function Unread(rows: seq<Notification>, recipient: Account): nat {
    if rows == [] then 0
    else
      var last := |rows| - 1;
      Unread(rows[..last], recipient) + if rows[last].recipient == recipient && !rows[last].isRead then 1 else 0
  }

  function Apply(rows: seq<Notification>, op: Op): seq<Notification> {
    match op
    case Create(recipient, category, createdAt) => rows + [Notification(recipient, category, createdAt, false, None)]
    case Mark(recipient, selection, now) => Marked(rows, recipient, selection, now)
  }

  function ApplyAll(ops: seq<Op>): seq<Notification> {
    if ops == [] then [] else Apply(ApplyAll(ops[..|ops| - 1]), ops[|ops| - 1])
  }

  /** The notifications created for `recipient`. */
  function Created(ops: seq<Op>, recipient: Account): nat {
    if ops == [] then 0
    else
      var last := ops[|ops| - 1];
      Created(ops[..|ops| - 1], recipient) + if last.Create? && last.recipient == recipient then 1 else 0
  }

  /** The sum of the `updated` results returned to `recipient`. */
  function Updated(ops: seq<Op>, recipient: Account): nat {
    if ops == [] then 0
    else
      var before, last := ops[..|ops| - 1], ops[|ops| - 1];
      Updated(before, recipient) +
      if last.Mark? && last.recipient == recipient then Affected(ApplyAll(before), recipient, last.selection) else 0
  }

  /** A mark changes exactly the rows it hits: others, and other people's, stay as
      they are, a read row keeps its read time, and a hit row gets this one. */
  lemma {:induction false} MarkTouchesOnlyHits(rows: seq<Notification>, recipient: Account, selection: Selection,
                                               now: nat, i: nat)
    requires i < |rows|
    ensures Marked(rows, recipient, selection, now)[i] ==
            if Hit(rows, i, recipient, selection) then rows[i].(isRead := true, readAt := Some(now)) else rows[i]
  {
    if i < |rows| - 1 {
      MarkTouchesOnlyHits(rows[..|rows| - 1], recipient, selection, now, i);
    }
  }

  /** A mark takes what it reports off its recipient's unread count and nobody else's. */
  lemma {:induction false} MarkConserves(rows: seq<Notification>, recipient: Account, selection: Selection, now: nat,
                                         who: Account)
    ensures Unread(Marked(rows, recipient, selection, now), who) ==
            Unread(rows, who) - if who == recipient then Affected(rows, recipient, selection) else 0
  {
    if rows != [] {
      var last := |rows| - 1;
      MarkConserves(rows[..last], recipient, selection, now, who);
      var rows' := Marked(rows, recipient, selection, now);
      assert rows'[..last] == Marked(rows[..last], recipient, selection, now);
    }
  }

  /** On every run, for each recipient: created = unread + the sum of all results. */
  lemma {:induction false} NotificationsAreConserved(ops: seq<Op>, recipient: Account)
    ensures Created(ops, recipient) == Unread(ApplyAll(ops), recipient) + Updated(ops, recipient)
  {
    if ops != [] {
      var before, last := ops[..|ops| - 1], ops[|ops| - 1];
      NotificationsAreConserved(before, recipient);
      match last
      case Create(_, _, _) =>
        var rows := ApplyAll(ops);
        assert rows[..|rows| - 1] == ApplyAll(before);
      case Mark(r, selection, now) => MarkConserves(ApplyAll(before), r, selection, now, recipient);
    }
  }

  /** On every run a row is read exactly when it has a read time. */
  lemma {:induction false} ReadIffTimed(ops: seq<Op>, i: nat)
    requires i < |ApplyAll(ops)|
    ensures ApplyAll(ops)[i].isRead <==> ApplyAll(ops)[i].readAt.Some?
  {
    var before, last := ops[..|ops| - 1], ops[|ops| - 1];
    if i < |ApplyAll(before)| {
      ReadIffTimed(before, i);
      if last.Mark? {
        MarkTouchesOnlyHits(ApplyAll(before), last.recipient, last.selection, last.now, i);
      }
    }
  }

  /** A read time, once written, stays through every further run, and so do the row's
      recipient and creation time. */
  lemma {:induction false} ReadTimeIsWrittenOnce(ops: seq<Op>, more: seq<Op>, i: nat)
    requires i < |ApplyAll(ops)|
    ensures i < |ApplyAll(ops + more)|
    ensures var row, row' := ApplyAll(ops)[i], ApplyAll(ops + more)[i];
            && row'.recipient == row.recipient && row'.createdAt == row.createdAt
            && (row.readAt.Some? ==> row'.readAt == row.readAt)
  {
    if more == [] {
      assert ops + more == ops;
    } else {
      var init, last := more[..|more| - 1], more[|more| - 1];
      ReadTimeIsWrittenOnce(ops, init, i);
      assert (ops + more)[..|ops + more| - 1] == ops + init;
      ReadIffTimed(ops + init, i);
      if last.Mark? {
        MarkTouchesOnlyHits(ApplyAll(ops + init), last.recipient, last.selection, last.now, i);
      }
    }
  }

  // ---------------------------------------------------------------------------
  // A row is what the run made it
  // ---------------------------------------------------------------------------

  function Creations(ops: seq<Op>): nat {
    if ops == [] then 0 else Creations(ops[..|ops| - 1]) + if ops[|ops| - 1].Create? then 1 else 0
  }

  /** The operation at `k` created row `i`. */
  predicate Creates(ops: seq<Op>, k: nat, i: nat) {
    k < |ops| && ops[k].Create? && Creations(ops[..k]) == i
  }

  /** A mark for this recipient that names row `i`, or all rows. */
  predicate Covers(op: Op, recipient: Account, i: nat) {
    op.Mark? && op.recipient == recipient && (op.selection.All? || i in op.selection.ids)
  }

  /** The operation at `m` is the first after `k` that covers row `i`. */
  predicate FirstMark(ops: seq<Op>, k: nat, m: nat, recipient: Account, i: nat) {
    && k < m < |ops| && Covers(ops[m], recipient, i)
    && forall j :: k < j < m ==> !Covers(ops[j], recipient, i)
  }

  lemma {:induction false} OneRowPerCreation(ops: seq<Op>)
    ensures |ApplyAll(ops)| == Creations(ops)
  {
    if ops != [] {
      OneRowPerCreation(ops[..|ops| - 1]);
    }
  }

  lemma {:induction false} CreationsGrow(ops: seq<Op>, k: nat)
    requires k < |ops| && ops[k].Create?
    ensures Creations(ops[..k]) < Creations(ops)
  {
    var last := |ops| - 1;
    if k < last {
      CreationsGrow(ops[..last], k);
      assert ops[..last][..k] == ops[..k];
    }
  }

  /** On every run, the row that an operation created has what that operation gave it, and
      is read since the first later mark of its recipient that covers it, if there is one. */
  lemma {:induction false} RowsTellTheRun(ops: seq<Op>, k: nat, i: nat)
    requires Creates(ops, k, i)
    ensures i < |ApplyAll(ops)|
    ensures var row := ApplyAll(ops)[i];
            && row.recipient == ops[k].recipient && row.category == ops[k].category && row.createdAt == ops[k].createdAt
            && (row.readAt.None? <==> forall j :: k < j < |ops| ==> !Covers(ops[j], ops[k].recipient, i))
            && (forall m: nat :: FirstMark(ops, k, m, ops[k].recipient, i) ==> row.readAt == Some(ops[m].now))
            && (row.isRead <==> row.readAt.Some?)
  {
    var init, last := ops[..|ops| - 1], ops[|ops| - 1];
    OneRowPerCreation(init);
    if k == |ops| - 1 {
      assert ops[..k] == init;
    } else {
      assert init[..k] == ops[..k];
      RowsTellTheRun(init, k, i);
      if last.Mark? {
        MarkTouchesOnlyHits(ApplyAll(init), last.recipient, last.selection, last.now, i);
      }
      forall m: nat | FirstMark(ops, k, m, ops[k].recipient, i) ensures ApplyAll(ops)[i].readAt == Some(ops[m].now) {
        if m < |init| {
          assert forall j :: k < j <= m ==> init[j] == ops[j];
          assert FirstMark(init, k, m, init[k].recipient, i);
        } else {
          assert forall j :: k < j < |init| ==> init[j] == ops[j];
        }
      }
      assert forall j :: k < j < |init| ==> init[j] == ops[j];
    }
  }

  /** The table's own pass over its rows. */
  method MarkRows(rows: seq<Notification>, recipient: Account, selection: Selection, now: nat)
    returns (rows': seq<Notification>, updated: nat)
    ensures rows' == Marked(rows, recipient, selection, now)
    ensures updated == Affected(rows, recipient, selection)
  {
    rows', updated := [], 0;
    for i := 0 to |rows|
      invariant rows' == Marked(rows[..i], recipient, selection, now)
      invariant updated == Affected(rows[..i], recipient, selection)
    {
      assert rows[..i + 1][..i] == rows[..i];
      if Hit(rows, i, recipient, selection) {
        rows', updated := rows' + [rows[i].(isRead := true, readAt := Some(now))], updated + 1;
      } else {
        rows' := rows' + [rows[i]];
      }
    }
    assert rows[..|rows|] == rows;
  }

  class NotificationTable {
    var rows: seq<Notification>
    ghost var ops: seq<Op>

    ghost predicate Valid()
      reads this
    {
      rows == ApplyAll(ops)
    }

    constructor ()
      ensures Valid() && ops == []
    {
      rows, ops := [], [];
    }

    method SendNotification(recipient: Account, category: string, createdAt: nat) returns (id: nat)
      requires Valid()
      modifies this
      ensures Valid() && ops == old(ops) + [Create(recipient, category, createdAt)]
      ensures id == |old(rows)| && id < |rows|
    {
      id := |rows|;
      rows := rows + [Notification(recipient, category, createdAt, false, None)];
      ops := ops + [Create(recipient, category, createdAt)];
      assert ops[..|ops| - 1] == old(ops);
    }

    /** markAsRead with the given ids, and markAllAsRead with `All`. */
    method MarkAsRead(recipient: Account, selection: Selection, now: nat) returns (updated: nat)
      requires Valid()
      modifies this
      ensures Valid() && ops == old(ops) + [Mark(recipient, selection, now)]
      ensures Updated(ops, recipient) == Updated(old(ops), recipient) + updated
    {
      rows, updated := MarkRows(rows, recipient, selection, now);
      ops := ops + [Mark(recipient, selection, now)];
      assert ops[..|ops| - 1] == old(ops);
    }

    /** The unread count is what was created less what marks have reported. */
    method GetUnreadCount(recipient: Account) returns (unread: nat)
      requires Valid()
      ensures unread == Created(ops, recipient) - Updated(ops, recipient)
    {
      unread := 0;
      for i := 0 to |rows|
        invariant unread == Unread(rows[..i], recipient)
      {
        assert rows[..i + 1][..i] == rows[..i];
        if rows[i].recipient == recipient && !rows[i].isRead {
          unread := unread + 1;
        }
      }
      assert rows[..|rows|] == rows;
      NotificationsAreConserved(ops, recipient);
    }
  }
}
