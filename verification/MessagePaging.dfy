/** getMessages: pages of the index, newest page first, each page oldest message first. */
module MessagePaging {
  import opened Wrappers
  import opened Ledger
  import opened WhiteSpace
  import opened Decimal
  import opened Paging

  datatype Response = Response(messages: seq<Row>, cursor: Option<string>, hasMore: bool)

  function SeqKey(row: Row): int {
    row.seqNo
  }

  /** The index, newest first. */
  function Sorted(rows: seq<Row>): seq<Row> {
    SortDescending(rows, SeqKey)
  }

  /** The bound a cursor stands for. An empty cursor, one that is not a number, and
      "0" all mean no bound. */
  function Bound(cursor: Option<string>): (bound: Option<int>)
    ensures bound.Some? ==> bound.value > 0
  {
    if cursor.None? || cursor.value == "" then None
    else match ParseInt(cursor.value)
      case Some(n) => if n > 0 then Some(n) else None
      case None => None
  }

  function Reverse<T>(s: seq<T>): (r: seq<T>)
    ensures |r| == |s|
  {
    if s == [] then [] else Reverse(s[1..]) + [s[0]]
  }

  /** Shape one fetched page: oldest message first, with the lowest number as its cursor. */
  function Respond(page: Page<Row>): Response {
    Response(Reverse(page.items),
             if page.items == [] then None else Some(Print(page.items[|page.items| - 1].seqNo)),
             page.hasMore)
  }

  /** One page of the sorted index. */
  function PageOf(sorted: seq<Row>, size: nat, bound: Option<int>): Response {
    Respond(TakePage(Below(sorted, SeqKey, bound), size))
  }

  function GetMessages(rows: seq<Row>, limit: int, cursor: Option<string>): Response {
    PageOf(Sorted(rows), EffectiveLimit(limit), Bound(cursor))
  }

  lemma CursorsParseBack(k: nat)
    ensures Bound(Some(Print(k))) == if k > 0 then Some(k) else None
  {
    ParsePrint(k, "");
    assert Print(k) + "" == Print(k);
  }

  ghost predicate NewestFirst(sorted: seq<Row>) {
    forall i, j :: 0 <= i < j < |sorted| ==> sorted[j].seqNo < sorted[i].seqNo
  }

  lemma CursorPosition(sorted: seq<Row>, n: nat, size: nat)
    requires NewestFirst(sorted) && size > 0 && n + size < |sorted|
    ensures Start(sorted, SeqKey, Bound(Some(Print(sorted[n + size - 1].seqNo)))) == n + size
  {
    var last := sorted[n + size - 1];
    assert sorted[n + size].seqNo < last.seqNo;
    CursorsParseBack(last.seqNo);
    NextPageStarts(sorted, SeqKey, SeqKey, n, size);
  }

  lemma RespondIs(sorted: seq<Row>, n: nat, size: nat, page: Page<Row>)
    requires NewestFirst(sorted) && n <= |sorted| && size > 0
    requires (page.hasMore <==> n + size < |sorted|) && page.items == PageItems(sorted, n, size)
    ensures page.hasMore ==> Start(sorted, SeqKey, Bound(Respond(page).cursor)) == n + size
  {
    hide Bound, Print, Reverse, Start;
    if n + size < |sorted| {
      CursorPosition(sorted, n, size);
      assert page.items[|page.items| - 1] == sorted[n + size - 1];
    }
  }

  lemma NewestFirstDescends(sorted: seq<Row>)
    requires NewestFirst(sorted)
    ensures Descending(sorted, SeqKey)
  {
  }

  /** A page holds the rows from the position of its bound, oldest first, and its own
      cursor stands for the position after them. */
  lemma PageIs(sorted: seq<Row>, size: nat, bound: Option<int>)
    requires NewestFirst(sorted) && size > 0
    ensures var n := Start(sorted, SeqKey, bound);
            var response := PageOf(sorted, size, bound);
            && (response.hasMore <==> n + size < |sorted|)
            && response.messages == Reverse(PageItems(sorted, n, size))
            && (response.hasMore ==> Start(sorted, SeqKey, Bound(response.cursor)) == n + size)
  {
    hide Bound, Print, Below, TakePage, Reverse, Start, NewestFirst, PageItems, Descending;
    NewestFirstDescends(sorted);
    PageContents(sorted, SeqKey, size, bound);
    RespondIs(sorted, Start(sorted, SeqKey, bound), size, TakePage(Below(sorted, SeqKey, bound), size));
  }

  lemma {:induction false} ReverseAt<T>(s: seq<T>, i: nat)
    requires i < |s|
    ensures Reverse(s)[i] == s[|s| - 1 - i]
  {
    if i < |s| - 1 {
      ReverseAt(s[1..], i);
    }
  }

  lemma {:induction false} ReverseSplits<T>(s: seq<T>, n: nat, m: nat)
    requires n <= m <= |s|
    ensures Reverse(s[n..]) == Reverse(s[m..]) + Reverse(s[n..m])
    decreases m - n
  {
    if n < m {
      ReverseSplits(s, n + 1, m);
      assert s[n..][1..] == s[n + 1..] && s[n..m][1..] == s[n + 1..m];
    }
  }

  lemma {:induction false} ReverseKeepsItems<T>(s: seq<T>)
    ensures multiset(Reverse(s)) == multiset(s)
  {
    if s != [] {
      ReverseKeepsItems(s[1..]);
      assert s == [s[0]] + s[1..];
    }
  }

  /** Sorted by a unique number, the index is strictly newest first. */
  lemma SortedIsNewestFirst(rows: seq<Row>)
    requires Distinct(rows)
    ensures NewestFirst(Sorted(rows)) && multiset(Sorted(rows)) == multiset(rows)
  {
    SortSorts(rows, SeqKey);
    ListingIsStrict(rows, Sorted(rows));
  }

  lemma ListingIsStrict(rows: seq<Row>, sorted: seq<Row>)
    requires Distinct(rows) && multiset(sorted) == multiset(rows) && Descending(sorted, SeqKey)
    ensures NewestFirst(sorted)
  {
    forall i, j | 0 <= i < j < |sorted| ensures sorted[j].seqNo < sorted[i].seqNo {
      assert SeqKey(sorted[i]) >= SeqKey(sorted[j]);
      NumbersDiffer(rows, sorted, i, j);
    }
  }

  lemma NumbersDiffer(rows: seq<Row>, sorted: seq<Row>, i: nat, j: nat)
    requires Distinct(rows) && multiset(sorted) == multiset(rows)
    requires i < j < |sorted|
    ensures sorted[i].seqNo != sorted[j].seqNo
  {
    if sorted[i].seqNo == sorted[j].seqNo {
      var row := sorted[i];
      assert sorted[i] in multiset(sorted) && sorted[j] in multiset(sorted);
      assert sorted[i] in rows && sorted[j] in rows;
      assert sorted == sorted[..j] + [row] + sorted[j + 1..];
      assert row in sorted[..j];
      assert multiset(sorted)[row] >= 2;
      DistinctRowsOccurOnce(rows, row);
    }
  }

  lemma {:induction false} DistinctRowsOccurOnce(rows: seq<Row>, row: Row)
    requires Distinct(rows)
    ensures multiset(rows)[row] <= 1
  {
    if rows != [] {
      DistinctRowsOccurOnce(rows[1..], row);
      assert rows == [rows[0]] + rows[1..];
    }
  }

  lemma ReversedIsOldestFirst(sorted: seq<Row>)
    requires NewestFirst(sorted)
    ensures forall i, j :: 0 <= i < j < |sorted| ==> Reverse(sorted)[i].seqNo < Reverse(sorted)[j].seqNo
  {
    forall i, j | 0 <= i < j < |sorted| ensures Reverse(sorted)[i].seqNo < Reverse(sorted)[j].seqNo {
      ReverseAt(sorted, i);
      ReverseAt(sorted, j);
    }
  }

  lemma ZeroComesFirst(rows: seq<Row>, all: seq<Row>)
    requires multiset(all) == multiset(rows) && HasSeq(rows, 0)
    requires forall i, j :: 0 <= i < j < |all| ==> all[i].seqNo < all[j].seqNo
    ensures |all| > 0 && all[0].seqNo == 0
  {
    var r :| 0 <= r < |rows| && rows[r].seqNo == 0;
    assert rows[r] in multiset(all);
    var i :| 0 <= i < |all| && all[i] == rows[r];
    assert all[0].seqNo <= all[i].seqNo;
  }

  // ---------------------------------------------------------------------------
  // One answer
  // ---------------------------------------------------------------------------

  /** The rows below a number, or all of them. */
  function Admitted(rows: seq<Row>, bound: Option<nat>): set<Row> {
    set row | row in rows && (bound.Some? ==> row.seqNo < bound.value)
  }

  /** The answer holds the newest `size` rows below the bound, or all there are, oldest
      first; it says whether any is left out, and its cursor is its lowest number. */
  ghost predicate Answers(response: Response, rows: seq<Row>, size: nat, bound: Option<nat>) {
    var admitted := Admitted(rows, bound);
    var answered := set row | row in response.messages;
    && answered <= admitted
    && (forall i, j :: 0 <= i < j < |response.messages| ==> response.messages[i].seqNo < response.messages[j].seqNo)
    && (forall row, other :: row in admitted - answered && other in answered ==> row.seqNo < other.seqNo)
    && |response.messages| == (if |admitted| < size then |admitted| else size)
    && (response.hasMore <==> admitted - answered != {})
    && response.cursor == if response.messages == [] then None else Some(Print(response.messages[0].seqNo))
  }

  /** The cursor is a positive number, or there is none. */
  predicate CursorOf(cursor: Option<string>, bound: Option<nat>) {
    match bound
    case Some(k) => k > 0 && cursor == Some(Print(k))
    case None => cursor == None
  }

  /** In the sorted index the rows below a bound are those from its position on. */
  lemma AdmittedAreASuffix(rows: seq<Row>, sorted: seq<Row>, bound: Option<nat>)
    requires NewestFirst(sorted) && multiset(sorted) == multiset(rows)
    ensures Admitted(rows, bound) == (set row | row in sorted[Start(sorted, SeqKey, bound)..])
    ensures |Admitted(rows, bound)| == |sorted| - Start(sorted, SeqKey, bound)
  {
    var n := Start(sorted, SeqKey, bound);
    forall row ensures row in Admitted(rows, bound) <==> row in sorted[n..] {
      assert row in rows <==> row in multiset(sorted);
      if row in sorted {
        var i :| 0 <= i < |sorted| && sorted[i] == row;
        SuffixIsBelow(sorted, bound, i);
      }
    }
    DifferentRowsCount(sorted[n..]);
  }

  lemma SuffixIsBelow(sorted: seq<Row>, bound: Option<nat>, i: nat)
    requires NewestFirst(sorted) && i < |sorted|
    ensures (bound.Some? ==> sorted[i].seqNo < bound.value) <==> sorted[i] in sorted[Start(sorted, SeqKey, bound)..]
  {
    var n := Start(sorted, SeqKey, bound);
    if i >= n {
      assert sorted[n..][i - n] == sorted[i];
      assert i > n ==> sorted[i].seqNo < sorted[n].seqNo;
    } else {
      assert SeqKey(sorted[i]) >= bound.value;
    }
  }

  lemma {:induction false} DifferentRowsCount(sorted: seq<Row>)
    requires NewestFirst(sorted)
    ensures |set row | row in sorted| == |sorted|
  {
    if sorted != [] {
      DifferentRowsCount(sorted[1..]);
      assert (set row | row in sorted) == (set row | row in sorted[1..]) + {sorted[0]};
      assert sorted[0] !in sorted[1..];
    }
  }

  /** A response made of the rows at the start of `rest`, with all of them admitted. */
  lemma ShapedAnswers(response: Response, rows: seq<Row>, size: nat, bound: Option<nat>, items: seq<Row>,
                      rest: seq<Row>)
    requires Admitted(rows, bound) == (set row | row in rest) && |Admitted(rows, bound)| == |rest|
    requires multiset(response.messages) == multiset(items)
    requires forall i, j :: 0 <= i < j < |response.messages| ==> response.messages[i].seqNo < response.messages[j].seqNo
    requires forall row :: row in items ==> row in rest
    requires forall row, other :: row in rest && row !in items && other in items ==> row.seqNo < other.seqNo
    requires |items| == if |rest| < size then |rest| else size
    requires response.hasMore <==> exists row :: row in rest && row !in items
    requires response.cursor == if response.messages == [] then None else Some(Print(response.messages[0].seqNo))
    ensures Answers(response, rows, size, bound)
  {
    hide Print, Admitted;
    assert forall row :: row in response.messages <==> row in multiset(items);
    assert |response.messages| == |multiset(response.messages)| == |items|;
    var admitted, answered := Admitted(rows, bound), set row | row in response.messages;
    if row :| row in rest && row !in items {
      assert row in admitted - answered;
    }
  }

  /** The page that starts at position `n`, as an answer. */
  lemma PageAnswers(rows: seq<Row>, sorted: seq<Row>, size: nat, bound: Option<nat>)
    requires NewestFirst(sorted) && multiset(sorted) == multiset(rows) && size > 0
    ensures Answers(PageOf(sorted, size, bound), rows, size, bound)
  {
    hide Print, Admitted, Bound, SeqKey, Start, Answers, Reverse, PageOf, PageItems, NewestFirst;
    var n := Start(sorted, SeqKey, bound);
    var items, response := PageItems(sorted, n, size), PageOf(sorted, size, bound);
    AdmittedAreASuffix(rows, sorted, bound);
    PageIs(sorted, size, bound);
    PageItemsDescend(sorted, n, size);
    ReverseKeepsItems(items);
    ReversedIsOldestFirst(items);
    PageCursorIsItsOldest(sorted, size, bound);
    PageLeavesTheOldest(sorted, n, size);
    ShapedAnswers(response, rows, size, bound, items, sorted[n..]);
  }

  lemma PageItemsDescend(sorted: seq<Row>, n: nat, size: nat)
    requires NewestFirst(sorted) && n <= |sorted|
    ensures NewestFirst(PageItems(sorted, n, size))
  {
  }

  lemma PageCursorIsItsOldest(sorted: seq<Row>, size: nat, bound: Option<int>)
    requires NewestFirst(sorted)
    ensures var response := PageOf(sorted, size, bound);
            response.cursor == if response.messages == [] then None else Some(Print(response.messages[0].seqNo))
  {
    var items := TakePage(Below(sorted, SeqKey, bound), size).items;
    if items != [] {
      ReverseAt(items, 0);
    }
  }

  lemma PageLeavesTheOldest(sorted: seq<Row>, n: nat, size: nat)
    requires NewestFirst(sorted) && n <= |sorted|
    ensures var items, rest := PageItems(sorted, n, size), sorted[n..];
            && (forall row :: row in items ==> row in rest)
            && (forall row, other :: row in rest && row !in items && other in items ==> row.seqNo < other.seqNo)
            && ((exists row :: row in rest && row !in items) <==> n + size < |sorted|)
            && |items| == if |sorted| - n < size then |sorted| - n else size
  {
    var items, rest := PageItems(sorted, n, size), sorted[n..];
    if n + size < |sorted| {
      assert rest == items + sorted[n + size..];
      assert sorted[n + size] in sorted[n + size..];
      assert sorted[n + size] !in items;
    }
  }

  /** What getMessages answers, for every index, limit and cursor that it hands out. */
  lemma GetMessagesAnswers(rows: seq<Row>, limit: int, cursor: Option<string>, bound: Option<nat>)
    requires Distinct(rows) && CursorOf(cursor, bound)
    ensures Answers(GetMessages(rows, limit, cursor), rows, EffectiveLimit(limit), bound)
  {
    if bound.Some? {
      CursorsParseBack(bound.value);
    }
    SortedIsNewestFirst(rows);
    PageAnswers(rows, Sorted(rows), EffectiveLimit(limit), bound);
    hide Answers, PageOf, Sorted, EffectiveLimit;
  }

  // ---------------------------------------------------------------------------
  // Following the cursors
  // ---------------------------------------------------------------------------

  /** Where one answer starts in the sorted index, and where the next one will. */
  lemma GetMessagesIs(rows: seq<Row>, limit: int, cursor: Option<string>)
    requires Distinct(rows)
    ensures var sorted, size, response := Sorted(rows), EffectiveLimit(limit), GetMessages(rows, limit, cursor);
            var n := Start(sorted, SeqKey, Bound(cursor));
            && (response.hasMore <==> n + size < |sorted|)
            && response.messages == Reverse(PageItems(sorted, n, size))
            && (response.hasMore ==> Start(sorted, SeqKey, Bound(response.cursor)) == n + size)
  {
    SortedIsNewestFirst(rows);
    PageIs(Sorted(rows), EffectiveLimit(limit), Bound(cursor));
    hide PageOf, Bound, Start, Reverse, NewestFirst, Sorted, Distinct, PageItems, EffectiveLimit;
  }

  /** What a client collects by asking again with each cursor and prepending the answers. */
  ghost function Collect(rows: seq<Row>, limit: int, cursor: Option<string>): seq<Row>
    requires Distinct(rows)
    decreases |Sorted(rows)| - Start(Sorted(rows), SeqKey, Bound(cursor))
  {
    GetMessagesIs(rows, limit, cursor);
    var response := GetMessages(rows, limit, cursor);
    if response.hasMore then Collect(rows, limit, response.cursor) + response.messages else response.messages
  }

  lemma {:induction false} CollectsTheRest(rows: seq<Row>, limit: int, cursor: Option<string>)
    requires Distinct(rows)
    ensures Collect(rows, limit, cursor) == Reverse(Sorted(rows)[Start(Sorted(rows), SeqKey, Bound(cursor))..])
    decreases |Sorted(rows)| - Start(Sorted(rows), SeqKey, Bound(cursor))
  {
    hide GetMessages, Bound, Start, Reverse, Sorted, EffectiveLimit, Distinct;
    var sorted, size := Sorted(rows), EffectiveLimit(limit);
    var n := Start(sorted, SeqKey, Bound(cursor));
    GetMessagesIs(rows, limit, cursor);
    if n + size < |sorted| {
      CollectsTheRest(rows, limit, GetMessages(rows, limit, cursor).cursor);
      ReverseSplits(sorted, n, n + size);
    }
  }

  /** From the newest page to the last, for every limit and every index: a client that
      asks again with each cursor collects every row exactly once, in strictly ascending
      order, a placeholder first. */
  lemma PagesGiveEveryRowOnce(rows: seq<Row>, limit: int)
    requires Distinct(rows)
    ensures var all := Collect(rows, limit, None);
            && multiset(all) == multiset(rows)
            && (forall i, j :: 0 <= i < j < |all| ==> all[i].seqNo < all[j].seqNo)
            && (HasSeq(rows, 0) ==> |all| > 0 && all[0].seqNo == 0)
  {
    var sorted := Sorted(rows);
    SortedIsNewestFirst(rows);
    CollectsTheRest(rows, limit, None);
    assert sorted[0..] == sorted;
    ReverseKeepsItems(sorted);
    ReversedIsOldestFirst(sorted);
    if HasSeq(rows, 0) {
      ZeroComesFirst(rows, Reverse(sorted));
    }
  }

  lemma PageCursorRestartsIff(sorted: seq<Row>, n: nat, size: nat)
    requires NewestFirst(sorted) && n <= |sorted| && size > 0 && PageItems(sorted, n, size) != []
    ensures var items := PageItems(sorted, n, size);
            && Reverse(items)[0] == items[|items| - 1]
            && (Bound(Some(Print(items[|items| - 1].seqNo))).None? <==> items[|items| - 1].seqNo == 0)
            && (items[|items| - 1].seqNo == 0 ==> n + size >= |sorted|)
  {
    hide Bound, Print, Reverse;
    var items := PageItems(sorted, n, size);
    ReverseAt(items, 0);
    CursorsParseBack(items[|items| - 1].seqNo);
    assert n + size < |sorted| ==> sorted[n + size].seqNo < sorted[n + size - 1].seqNo;
  }

  /** A page hands out a cursor that starts again from the newest page exactly when its
      oldest row is a placeholder; only the last page does. */
  lemma OwnCursorRestartsIff(sorted: seq<Row>, size: nat, bound: Option<int>)
    requires NewestFirst(sorted) && size > 0
    ensures var response := PageOf(sorted, size, bound);
            response.messages != [] ==>
              && (Bound(response.cursor).None? <==> response.messages[0].seqNo == 0)
              && (Bound(response.cursor).None? ==> !response.hasMore)
  {
    hide Bound, Print, Reverse, Start, Below, TakePage, PageItems, NewestFirst;
    NewestFirstDescends(sorted);
    PageContents(sorted, SeqKey, size, bound);
    var n := Start(sorted, SeqKey, bound);
    if PageItems(sorted, n, size) != [] {
      PageCursorRestartsIff(sorted, n, size);
    }
  }

  /** A client that sends the cursor "0" starts again from the newest page. */
  lemma CursorZeroRestarts(rows: seq<Row>, limit: int)
    ensures GetMessages(rows, limit, Some("0")) == GetMessages(rows, limit, None)
  {
    CursorsParseBack(0);
    assert Print(0) == "0";
  }

  /** What other texts do as cursors: spaces before a number, a plus sign and whatever
      follows the digits make no difference; a negative number, like no number at all,
      starts again. */
  lemma OtherCursors(rows: seq<Row>, limit: int, spaces: string, sign: string, n: nat, rest: string)
    requires forall i :: 0 <= i < |spaces| ==> IsSpace(spaces[i])
    requires sign in {"", "+", "-"} && (rest != "" ==> !IsDigit(rest[0]))
    ensures GetMessages(rows, limit, Some("")) == GetMessages(rows, limit, None)
    ensures GetMessages(rows, limit, Some(spaces + (sign + (Print(n) + rest)))) ==
            GetMessages(rows, limit, if sign == "-" then None else Some(Print(n)))
    ensures (sign == "" && rest != "" ==> !IsSpace(rest[0]) && rest[0] != '+' && rest[0] != '-') ==>
              GetMessages(rows, limit, Some(spaces + (sign + rest))) == GetMessages(rows, limit, None)
  {
    ParseSigned(spaces, sign, n, rest);
    CursorsParseBack(n);
    if sign == "" && rest != "" ==> !IsSpace(rest[0]) && rest[0] != '+' && rest[0] != '-' {
      NotANumber(spaces, sign, rest);
    }
    hide ParseInt, Print, PageOf, Sorted, EffectiveLimit;
  }
}
