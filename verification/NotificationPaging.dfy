/** getNotifications: pages of one recipient's notifications, newest first, with a
    cursor that keeps only the milliseconds of a creation time. */
module NotificationPaging {
  import opened Wrappers
  import opened Paging
  import opened Notifications

  const MICROS_PER_MILLI: int := 1000

  datatype Response = Response(items: seq<Notification>, totalCount: nat, nextCursor: Option<int>, hasMore: bool)

  function TimeKey(n: Notification): int {
    n.createdAt
  }

  /** The cursor an item hands out: toISOString drops the microseconds. */
  function Millis(n: Notification): int {
    n.createdAt / MICROS_PER_MILLI
  }

  /** The same, as the time that the next query compares with. */
  function CutTime(n: Notification): int {
    Millis(n) * MICROS_PER_MILLI
  }

  /** The recipient's rows, optionally of one category. */
  predicate Matches(n: Notification, recipient: Account, category: Option<string>) {
    n.recipient == recipient && (category.None? || n.category == category.value)
  }

  function Matching(rows: seq<Notification>, recipient: Account, category: Option<string>): seq<Notification> {
    if rows == [] then []
    else
      var rest := Matching(rows[1..], recipient, category);
      if Matches(rows[0], recipient, category) then [rows[0]] + rest else rest
  }

  /** Every matching row is listed as often as it is stored, and no other row is. */
  lemma {:induction false} MatchingIs(rows: seq<Notification>, recipient: Account, category: Option<string>,
                                      n: Notification)
    ensures multiset(Matching(rows, recipient, category))[n] ==
            if Matches(n, recipient, category) then multiset(rows)[n] else 0
  {
    if rows != [] {
      MatchingIs(rows[1..], recipient, category, n);
      assert rows == [rows[0]] + rows[1..];
    }
  }

  function Listing(rows: seq<Notification>, recipient: Account, category: Option<string>): seq<Notification> {
    SortDescending(Matching(rows, recipient, category), TimeKey)
  }

  function Bound(cursor: Option<int>): Option<int> {
    match cursor
    case None => None
    case Some(ms) => Some(ms * MICROS_PER_MILLI)
  }

  /** Shape one fetched page: its cursor is its last item's time, when more follow. */
  function Respond(page: Page<Notification>, totalCount: nat): Response {
    Response(page.items, totalCount,
             if page.hasMore && page.items != [] then Some(Millis(page.items[|page.items| - 1])) else None,
             page.hasMore)
  }

  function PageOf(listing: seq<Notification>, size: nat, cursor: Option<int>): Response {
    Respond(TakePage(Below(listing, TimeKey, Bound(cursor)), size), |listing|)
  }

  function GetNotifications(rows: seq<Notification>, recipient: Account, category: Option<string>, cursor: Option<int>,
                            limit: int): Response
  {
    PageOf(Listing(rows, recipient, category), EffectiveLimit(limit), cursor)
  }

  lemma SliceIsBelow(listing: seq<Notification>, n: nat, size: nat, bound: Option<int>)
    requires Descending(listing, TimeKey) && size > 0 && n == Start(listing, TimeKey, bound)
    ensures var items := PageItems(listing, n, size);
            && |items| <= size && Descending(items, TimeKey)
            && forall x <- items :: x in listing && (bound.Some? ==> TimeKey(x) < bound.value)
  {
    var items := PageItems(listing, n, size);
    assert bound.Some? && n < |listing| ==> TimeKey(listing[n]) < bound.value;
    hide Start, TimeKey;
    assert forall i :: 0 <= i < |items| ==> items[i] == listing[n + i];
    hide PageItems;
    forall x | x in items ensures x in listing && (bound.Some? ==> TimeKey(x) < bound.value) {
      var i :| 0 <= i < |items| && items[i] == x;
      assert i > 0 ==> TimeKey(listing[n]) >= TimeKey(listing[n + i]);
    }
  }

  /** A page of the service holds at most the allowed number of the recipient's own rows of
      the category, older than the cursor and newest first, beside the count of all of them. */
  lemma PageHoldsMatches(rows: seq<Notification>, recipient: Account, category: Option<string>, cursor: Option<int>,
                         limit: int)
    ensures var response := GetNotifications(rows, recipient, category, cursor, limit);
            && |response.items| <= EffectiveLimit(limit)
            && Descending(response.items, TimeKey)
            && (forall n <- response.items ::
                 n in rows && Matches(n, recipient, category) && (cursor.Some? ==> TimeKey(n) < Bound(cursor).value))
            && response.totalCount == |Matching(rows, recipient, category)|
  {
    var listing := Listing(rows, recipient, category);
    var response := GetNotifications(rows, recipient, category, cursor, limit);
    ListingIsSorted(rows, recipient, category);
    SortKeepsLength(Matching(rows, recipient, category));
    PageIs(listing, EffectiveLimit(limit), cursor);
    assert response.totalCount == |listing|;
    SliceIsBelow(listing, Start(listing, TimeKey, Bound(cursor)), EffectiveLimit(limit), Bound(cursor));
    hide PageOf, Respond, Start, TakePage, PageItems;
    forall n | n in response.items ensures n in rows && Matches(n, recipient, category) {
      ListedRowMatches(rows, recipient, category, listing, n);
    }
  }

  lemma SortKeepsLength(items: seq<Notification>)
    ensures |SortDescending(items, TimeKey)| == |items|
  {
    SortSorts(items, TimeKey);
    assert |multiset(SortDescending(items, TimeKey))| == |multiset(items)|;
  }

  lemma ListedRowMatches(rows: seq<Notification>, recipient: Account, category: Option<string>,
                         listing: seq<Notification>, n: Notification)
    requires multiset(listing) == multiset(Matching(rows, recipient, category)) && n in listing
    ensures n in rows && Matches(n, recipient, category)
  {
    assert n in multiset(listing);
    MatchingIs(rows, recipient, category, n);
    assert n in multiset(rows);
  }

  lemma CutsAreNoLater()
    ensures forall n :: CutTime(n) <= TimeKey(n)
  {
  }

  lemma CursorCuts(n: Notification)
    ensures Bound(Some(Millis(n))) == Some(CutTime(n))
  {
  }

  lemma PageAt(listing: seq<Notification>, size: nat, bound: Option<int>)
    requires Descending(listing, TimeKey) && size > 0
    ensures var n := Start(listing, TimeKey, bound);
            var response := Respond(TakePage(Below(listing, TimeKey, bound), size), |listing|);
            && (response.hasMore <==> n + size < |listing|)
            && response.items == PageItems(listing, n, size)
            && (response.hasMore ==> response.nextCursor == Some(Millis(listing[n + size - 1])))
  {
    PageContents(listing, TimeKey, size, bound);
  }

  /** A page holds the rows from the position of its cursor, and its own cursor is the
      time of the last of them. */
  lemma PageIs(listing: seq<Notification>, size: nat, cursor: Option<int>)
    requires Descending(listing, TimeKey) && size > 0
    ensures var n := Start(listing, TimeKey, Bound(cursor));
            var response := PageOf(listing, size, cursor);
            && (response.hasMore <==> n + size < |listing|)
            && response.items == PageItems(listing, n, size)
            && (response.hasMore ==> response.nextCursor == Some(Millis(listing[n + size - 1])))
  {
    PageAt(listing, size, Bound(cursor));
  }

  // ---------------------------------------------------------------------------
  // One answer
  // ---------------------------------------------------------------------------

  /** The recipient's rows of the category that are older than the cursor's millisecond. */
  function Admitted(rows: seq<Notification>, recipient: Account, category: Option<string>, cursor: Option<int>)
    : seq<Notification>
  {
    if rows == [] then []
    else
      var n := rows[0];
      (if n.recipient == recipient && (category.Some? ==> n.category == category.value)
          && (cursor.Some? ==> n.createdAt < cursor.value * 1000) then [n] else [])
      + Admitted(rows[1..], recipient, category, cursor)
  }

  /** The items are the `size` newest of all, or all there are, newest first. */
  ghost predicate NewestOf(items: seq<Notification>, all: seq<Notification>, size: nat) {
    && multiset(items) <= multiset(all)
    && Descending(items, TimeKey)
    && (forall n, m :: n in multiset(all) - multiset(items) && m in items ==> n.createdAt <= m.createdAt)
    && |items| == if |all| < size then |all| else size
  }

  /** The answer holds the `size` newest of the admitted rows, or all there are, newest
      first; it says whether any is left out, and then its cursor is the millisecond of
      its last row. It also counts the rows with no regard to the cursor. */
  ghost predicate Answers(response: Response, rows: seq<Notification>, recipient: Account, category: Option<string>,
                          cursor: Option<int>, size: nat)
  {
    var admitted := Admitted(rows, recipient, category, cursor);
    var items := response.items;
    && NewestOf(items, admitted, size)
    && (response.hasMore <==> |admitted| > size)
    && (response.nextCursor.Some? <==> response.hasMore)
    && (response.nextCursor.Some? ==>
         var ms := response.nextCursor.value;
         |items| > 0 && ms * 1000 <= items[|items| - 1].createdAt < (ms + 1) * 1000)
    && response.totalCount == |Admitted(rows, recipient, category, None)|
  }

  lemma {:induction false} BelowCounts(items: seq<Notification>, bound: Option<int>, n: Notification)
    ensures multiset(Below(items, TimeKey, bound))[n] ==
            if bound.Some? && n.createdAt >= bound.value then 0 else multiset(items)[n]
  {
    if items != [] {
      assert items == [items[0]] + items[1..];
      BelowCounts(items[1..], bound, n);
    }
  }

  lemma {:induction false} AdmittedCounts(rows: seq<Notification>, recipient: Account, category: Option<string>,
                                          cursor: Option<int>, n: Notification)
    ensures multiset(Admitted(rows, recipient, category, cursor))[n] ==
            if Matches(n, recipient, category) && (cursor.Some? ==> n.createdAt < cursor.value * 1000)
            then multiset(rows)[n] else 0
  {
    if rows != [] {
      assert rows == [rows[0]] + rows[1..];
      AdmittedCounts(rows[1..], recipient, category, cursor, n);
    }
  }

  /** Filtering before sorting gives the same rows as sorting before filtering. */
  lemma BelowAreAdmitted(rows: seq<Notification>, recipient: Account, category: Option<string>, cursor: Option<int>)
    ensures multiset(Below(Listing(rows, recipient, category), TimeKey, Bound(cursor)))
            == multiset(Admitted(rows, recipient, category, cursor))
  {
    var listing := Listing(rows, recipient, category);
    ListingIsSorted(rows, recipient, category);
    var below, admitted := Below(listing, TimeKey, Bound(cursor)), Admitted(rows, recipient, category, cursor);
    forall n ensures multiset(below)[n] == multiset(admitted)[n] {
      BelowCounts(listing, Bound(cursor), n);
      AdmittedCounts(rows, recipient, category, cursor, n);
      MatchingIs(rows, recipient, category, n);
    }
  }

  /** A page of a list in sorted order: its first items, which are the newest of all. */
  lemma PrefixIsNewest(below: seq<Notification>, all: seq<Notification>, size: nat)
    requires Descending(below, TimeKey) && multiset(below) == multiset(all)
    ensures var items := TakePage(below, size).items;
            && NewestOf(items, all, size) && |items| == (if |all| < size then |all| else size)
            && (TakePage(below, size).hasMore <==> |all| > size)
  {
    assert |multiset(below)| == |multiset(all)|;
    TakePageIs(below, size);
    var items := TakePage(below, size).items;
    var rest := below[|items|..];
    assert below == items + rest;
    forall n, m | n in multiset(all) - multiset(items) && m in items ensures n.createdAt <= m.createdAt {
      assert n in multiset(rest);
      var j :| 0 <= j < |rest| && rest[j] == n;
      var i :| 0 <= i < |items| && items[i] == m;
      assert TimeKey(below[i]) >= TimeKey(below[|items| + j]);
    }
  }

  lemma BelowDescends(items: seq<Notification>, bound: Option<int>)
    requires Descending(items, TimeKey)
    ensures Descending(Below(items, TimeKey, bound), TimeKey)
  {
    BelowIsSuffix(items, TimeKey, bound);
  }

  /** A response made of the first of the admitted rows in sorted order. */
  lemma ShapedAnswers(response: Response, rows: seq<Notification>, recipient: Account, category: Option<string>,
                      cursor: Option<int>, size: nat, below: seq<Notification>)
    requires size > 0 && Descending(below, TimeKey)
    requires multiset(below) == multiset(Admitted(rows, recipient, category, cursor))
    requires response == Respond(TakePage(below, size), |Admitted(rows, recipient, category, None)|)
    ensures Answers(response, rows, recipient, category, cursor, size)
  {
    hide Descending, Admitted, TakePage, TimeKey, NewestOf;
    PrefixIsNewest(below, Admitted(rows, recipient, category, cursor), size);
    var page := TakePage(below, size);
    assert response.items == page.items && response.hasMore == page.hasMore;
    if page.items != [] {
      CursorIsItsMillisecond(page.items[|page.items| - 1]);
    }
    hide Millis;
  }

  lemma CursorIsItsMillisecond(n: Notification)
    ensures Millis(n) * 1000 <= n.createdAt < (Millis(n) + 1) * 1000
  {
  }

  /** What getNotifications answers, for all rows, recipients, categories, cursors and limits. */
  lemma GetNotificationsAnswers(rows: seq<Notification>, recipient: Account, category: Option<string>,
                                cursor: Option<int>, limit: int)
    ensures Answers(GetNotifications(rows, recipient, category, cursor, limit), rows, recipient, category, cursor,
                    EffectiveLimit(limit))
  {
    hide Descending, Below, Admitted, TakePage, EffectiveLimit, TimeKey, Answers, Respond, Listing;
    var listing := Listing(rows, recipient, category);
    ListingIsSorted(rows, recipient, category);
    BelowAreAdmitted(rows, recipient, category, cursor);
    ListingLength(rows, recipient, category);
    BelowDescends(listing, Bound(cursor));
    ShapedAnswers(GetNotifications(rows, recipient, category, cursor, limit), rows, recipient, category, cursor,
                  EffectiveLimit(limit), Below(listing, TimeKey, Bound(cursor)));
  }

  lemma ListingLength(rows: seq<Notification>, recipient: Account, category: Option<string>)
    ensures |Listing(rows, recipient, category)| == |Admitted(rows, recipient, category, None)|
  {
    var listing, all := Listing(rows, recipient, category), Admitted(rows, recipient, category, None);
    BelowAreAdmitted(rows, recipient, category, None);
    assert Below(listing, TimeKey, Bound(None)) == listing;
    assert |multiset(listing)| == |multiset(all)|;
  }

  lemma NextStarts(listing: seq<Notification>, size: nat, n: nat)
    requires Descending(listing, TimeKey) && size > 0 && n + size < |listing|
    ensures n + size <= Start(listing, TimeKey, Bound(Some(Millis(listing[n + size - 1]))))
  {
    NextPageStarts(listing, TimeKey, CutTime, n, size);
  }

  /** Where one answer starts in the listing, and what its cursor is. */
  lemma GetNotificationsIs(rows: seq<Notification>, recipient: Account, category: Option<string>, cursor: Option<int>,
                           limit: int)
    ensures var listing, size := Listing(rows, recipient, category), EffectiveLimit(limit);
            var response := GetNotifications(rows, recipient, category, cursor, limit);
            var n := Start(listing, TimeKey, Bound(cursor));
            && Descending(listing, TimeKey)
            && (response.hasMore <==> n + size < |listing|)
            && response.items == PageItems(listing, n, size)
            && (response.hasMore ==> response.nextCursor == Some(Millis(listing[n + size - 1])))
            && (response.hasMore ==> n + size <= Start(listing, TimeKey, Bound(response.nextCursor)))
  {
    hide PageOf, Bound, Millis, Start, Descending, Listing, PageItems, EffectiveLimit;
    var listing, size := Listing(rows, recipient, category), EffectiveLimit(limit);
    ListingIsSorted(rows, recipient, category);
    PageIs(listing, size, cursor);
    var n := Start(listing, TimeKey, Bound(cursor));
    if n + size < |listing| {
      NextStarts(listing, size, n);
    }
  }

  /** What a client collects by asking again with each cursor, newest first. */
  ghost function Collect(rows: seq<Notification>, recipient: Account, category: Option<string>, cursor: Option<int>,
                         limit: int): seq<Notification>
    decreases |Listing(rows, recipient, category)|
              - Start(Listing(rows, recipient, category), TimeKey, Bound(cursor))
  {
    GetNotificationsIs(rows, recipient, category, cursor, limit);
    var response := GetNotifications(rows, recipient, category, cursor, limit);
    if response.hasMore then response.items + Collect(rows, recipient, category, response.nextCursor, limit)
    else response.items
  }

  lemma PageIsASlice(listing: seq<Notification>, n: nat, size: nat)
    requires n <= |listing|
    ensures PageItems(listing, n, size) == if n + size < |listing| then listing[n..n + size] else listing[n..]
  {
  }

  lemma {:induction false} CollectFollows(rows: seq<Notification>, recipient: Account, category: Option<string>,
                                          cursor: Option<int>, limit: int)
    ensures Descending(Listing(rows, recipient, category), TimeKey) && forall n :: CutTime(n) <= TimeKey(n)
    ensures var listing := Listing(rows, recipient, category);
            Collect(rows, recipient, category, cursor, limit) ==
            FollowFrom(listing, TimeKey, CutTime, EffectiveLimit(limit), Start(listing, TimeKey, Bound(cursor)))
    decreases |Listing(rows, recipient, category)|
              - Start(Listing(rows, recipient, category), TimeKey, Bound(cursor))
  {
    CutsAreNoLater();
    ListingIsSorted(rows, recipient, category);
    hide GetNotifications, Bound, Millis, CutTime, TimeKey, Start, Listing, EffectiveLimit, Descending;
    var listing, size := Listing(rows, recipient, category), EffectiveLimit(limit);
    var n := Start(listing, TimeKey, Bound(cursor));
    GetNotificationsIs(rows, recipient, category, cursor, limit);
    PageIsASlice(listing, n, size);
    hide PageItems;
    if n + size < |listing| {
      CursorCuts(listing[n + size - 1]);
      CollectFollows(rows, recipient, category, Some(Millis(listing[n + size - 1])), limit);
    }
  }

  /** Asking again with each cursor yields every matching row as often as it is stored,
      newest first, exactly when no page ends between two rows of the same millisecond;
      otherwise rows are skipped. */
  lemma PagesGiveEveryRowIff(rows: seq<Notification>, recipient: Account, category: Option<string>, limit: int)
    ensures var listing, size := Listing(rows, recipient, category), EffectiveLimit(limit);
            var all := Collect(rows, recipient, category, None, limit);
            && Descending(listing, TimeKey) && multiset(listing) == multiset(Matching(rows, recipient, category))
            && (all == listing <==> BoundariesSplit(listing, TimeKey, CutTime, size, 0))
            && (all != listing ==> |all| < |listing|)
  {
    var listing, size := Listing(rows, recipient, category), EffectiveLimit(limit);
    ListingIsSorted(rows, recipient, category);
    CollectFollows(rows, recipient, category, None, limit);
    FollowingMeetsAllIff(listing, TimeKey, CutTime, size, 0);
    assert listing[0..] == listing;
  }

  ghost predicate DistinctMillis(rows: seq<Notification>) {
    forall i, j :: 0 <= i < j < |rows| ==> Millis(rows[i]) != Millis(rows[j])
  }

  /** With creation times that differ at millisecond precision, every limit will do. */
  lemma DistinctMillisPageFully(rows: seq<Notification>, recipient: Account, category: Option<string>, limit: int)
    requires DistinctMillis(Listing(rows, recipient, category))
    ensures var all := Collect(rows, recipient, category, None, limit);
            Descending(all, TimeKey) && multiset(all) == multiset(Matching(rows, recipient, category))
  {
    var listing := Listing(rows, recipient, category);
    ListingIsSorted(rows, recipient, category);
    forall i, j | 0 <= i < j < |listing| ensures TimeKey(listing[j]) < CutTime(listing[i]) {
      assert TimeKey(listing[i]) >= TimeKey(listing[j]);
    }
    CutsAreNoLater();
    DistinctKeysSplit(listing, TimeKey, CutTime, EffectiveLimit(limit), 0);
    PagesGiveEveryRowIff(rows, recipient, category, limit);
  }

  /** The listing is the recipient's own rows, newest first. */
  lemma ListingIsSorted(rows: seq<Notification>, recipient: Account, category: Option<string>)
    ensures Descending(Listing(rows, recipient, category), TimeKey)
    ensures multiset(Listing(rows, recipient, category)) == multiset(Matching(rows, recipient, category))
  {
    SortSorts(Matching(rows, recipient, category), TimeKey);
  }

  /** Two rows of one millisecond on either side of a page boundary: one is never shown. */
  lemma SameMillisecondIsSkipped()
    ensures var newer := Notification("u", "message", 1700, false, None);
            var older := Notification("u", "message", 1200, false, None);
            Collect([older, newer], "u", None, None, 1) == [newer]
  {
    var newer := Notification("u", "message", 1700, false, None);
    var older := Notification("u", "message", 1200, false, None);
    var rows, listing := [older, newer], [newer, older];
    assert Listing(rows, "u", None) == listing by {
      assert rows[1..] == [newer] && rows[1..][1..] == [];
      assert Matching([newer], "u", None) == [newer] && Matching(rows, "u", None) == rows;
      assert SortDescending([newer], TimeKey) == [newer];
      assert InsertDescending(older, [newer], TimeKey) == [newer] + InsertDescending(older, [], TimeKey);
    }
    hide Listing;
    GetNotificationsIs(rows, "u", None, None, 1);
    var next := Some(Millis(newer));
    assert next == Some(1);
    NextPageStarts(listing, TimeKey, CutTime, 0, 1);
    assert Start(listing, TimeKey, Bound(next)) == 2;
    GetNotificationsIs(rows, "u", None, next, 1);
    assert Collect(rows, "u", None, next, 1) == [];
  }
}
