/** Cursor paging over a newest-first list: fetch one more than a page below the
    cursor, and hand out the last item's cursor. */
module Paging {
  import opened Wrappers

  const MAX_PAGE_SIZE: int := 100

  function Distance(a: int, b: int): nat {
    if a < b then b - a else a - b
  }

  /** The page size both listings use for a requested limit: of the sizes allowed, the
      nearest to it. */
  function EffectiveLimit(limit: int): (effective: nat)
    ensures 0 < effective <= MAX_PAGE_SIZE
    ensures forall size :: 0 < size <= MAX_PAGE_SIZE && size != effective ==>
              Distance(effective, limit) < Distance(size, limit)
  {
    if limit < 1 then 1 else if limit > MAX_PAGE_SIZE then MAX_PAGE_SIZE else limit
  }

  ghost predicate Descending<T(!new)>(items: seq<T>, key: T -> int) {
    forall i, j :: 0 <= i < j < |items| ==> key(items[i]) >= key(items[j])
  }

  function InsertDescending<T>(x: T, items: seq<T>, key: T -> int): seq<T> {
    if items == [] || key(x) > key(items[0]) then [x] + items
    else [items[0]] + InsertDescending(x, items[1..], key)
  }

  /** ORDER BY key DESC. */
  function SortDescending<T>(items: seq<T>, key: T -> int): seq<T> {
    if items == [] then [] else InsertDescending(items[0], SortDescending(items[1..], key), key)
  }

  lemma {:induction false} InsertAddsOne<T>(x: T, items: seq<T>, key: T -> int)
    ensures multiset(InsertDescending(x, items, key)) == multiset(items) + multiset{x}
  {
    if items != [] {
      InsertAddsOne(x, items[1..], key);
      assert items == [items[0]] + items[1..];
    }
  }

  ghost predicate AllAtMost<T(!new)>(items: seq<T>, key: T -> int, top: int) {
    forall x :: x in items ==> key(x) <= top
  }

  lemma ConsDescends<T(!new)>(x: T, items: seq<T>, key: T -> int)
    requires Descending(items, key) && AllAtMost(items, key, key(x))
    ensures Descending([x] + items, key)
  {
    var all := [x] + items;
    forall i, j | 0 <= i < j < |all| ensures key(all[i]) >= key(all[j]) {
      assert all[j] == items[j - 1] && items[j - 1] in items;
      assert i > 0 ==> all[i] == items[i - 1];
    }
  }

  lemma {:induction false} InsertKeepsDescending<T(!new)>(x: T, items: seq<T>, key: T -> int)
    requires Descending(items, key)
    ensures Descending(InsertDescending(x, items, key), key)
  {
    if items == [] || key(x) > key(items[0]) {
      ConsDescends(x, items, key);
    } else {
      var tail := InsertDescending(x, items[1..], key);
      InsertKeepsDescending(x, items[1..], key);
      InsertAddsOne(x, items[1..], key);
      forall y | y in tail ensures key(y) <= key(items[0]) {
        assert y in multiset(tail);
        assert y == x || y in items[1..];
      }
      ConsDescends(items[0], tail, key);
    }
  }

  lemma {:induction false} SortSorts<T(!new)>(items: seq<T>, key: T -> int)
    ensures Descending(SortDescending(items, key), key)
    ensures multiset(SortDescending(items, key)) == multiset(items)
  {
    if items != [] {
      SortSorts(items[1..], key);
      InsertKeepsDescending(items[0], SortDescending(items[1..], key), key);
      InsertAddsOne(items[0], SortDescending(items[1..], key), key);
      assert items == [items[0]] + items[1..];
    }
  }

  /** WHERE key < bound. */
  function Below<T>(items: seq<T>, key: T -> int, bound: Option<int>): seq<T> {
    if bound.None? || items == [] then items
    else if key(items[0]) < bound.value then [items[0]] + Below(items[1..], key, bound)
    else Below(items[1..], key, bound)
  }

  datatype Page<T> = Page(items: seq<T>, hasMore: bool)

  /** One page: at most `limit` items, newest first, and whether there are more. */
  function TakePage<T>(matching: seq<T>, limit: nat): Page<T> {
    var fetched := if |matching| > limit + 1 then matching[..limit + 1] else matching;
    Page(if |fetched| > limit then fetched[..limit] else fetched, |fetched| > limit)
  }

  lemma TakePageIs<T>(matching: seq<T>, limit: nat)
    ensures TakePage(matching, limit) ==
            if |matching| > limit then Page(matching[..limit], true) else Page(matching, false)
  {
    if |matching| > limit + 1 {
      assert matching[..limit + 1][..limit] == matching[..limit];
    }
  }

  /** Where the items below `bound` start. */
  function Start<T>(items: seq<T>, key: T -> int, bound: Option<int>): (n: nat)
    ensures n <= |items|
    ensures bound.None? ==> n == 0
    ensures bound.Some? ==> (forall i :: 0 <= i < n ==> key(items[i]) >= bound.value)
                            && (n < |items| ==> key(items[n]) < bound.value)
  {
    if bound.None? || items == [] || key(items[0]) < bound.value then 0 else 1 + Start(items[1..], key, bound)
  }

  /** On a sorted list the filter keeps a suffix. */
  lemma {:induction false} BelowIsSuffix<T(!new)>(items: seq<T>, key: T -> int, bound: Option<int>)
    requires Descending(items, key)
    ensures Below(items, key, bound) == items[Start(items, key, bound)..]
  {
    if bound.Some? && items != [] {
      BelowIsSuffix(items[1..], key, bound);
      if key(items[0]) < bound.value {
        if |items| > 1 {
          assert key(items[1]) < bound.value;
          assert Start(items[1..], key, bound) == 0;
        }
        assert items == [items[0]] + items[1..];
      }
    }
  }

  /** The items of the page that starts at position `n`, newest first. */
  function PageItems<T>(items: seq<T>, n: nat, limit: nat): seq<T>
    requires n <= |items|
  {
    if n + limit < |items| then items[n..n + limit] else items[n..]
  }

  lemma PageContents<T(!new)>(items: seq<T>, key: T -> int, limit: nat, bound: Option<int>)
    requires Descending(items, key)
    ensures var n := Start(items, key, bound);
            var page := TakePage(Below(items, key, bound), limit);
            && (page.hasMore <==> n + limit < |items|)
            && page.items == PageItems(items, n, limit)
  {
    var n := Start(items, key, bound);
    BelowIsSuffix(items, key, bound);
    TakePageIs(items[n..], limit);
    if n + limit < |items| {
      assert items[n..][..limit] == items[n..n + limit];
    }
  }

  /** Where the next page starts: below the cursor of the last item of this one. */
  lemma NextPageStarts<T(!new)>(items: seq<T>, key: T -> int, cut: T -> int, n: nat, limit: nat)
    requires Descending(items, key) && 0 < limit && n + limit < |items|
    requires forall x :: cut(x) <= key(x)
    ensures var next := Start(items, key, Some(cut(items[n + limit - 1])));
            && n + limit <= next
            && (next == n + limit <==> key(items[n + limit]) < cut(items[n + limit - 1]))
  {
    var last := items[n + limit - 1];
    assert forall i :: 0 <= i < n + limit ==> key(items[i]) >= key(last) >= cut(last);
  }

  /** All items met by following cursors from position `n`, newest first. */
  ghost function FollowFrom<T(!new)>(items: seq<T>, key: T -> int, cut: T -> int, limit: nat, n: nat): seq<T>
    requires Descending(items, key) && 0 < limit && n <= |items|
    requires forall x :: cut(x) <= key(x)
    decreases |items| - n
  {
    if |items| - n <= limit then items[n..]
    else
      NextPageStarts(items, key, cut, n, limit);
      items[n..n + limit] + FollowFrom(items, key, cut, limit, Start(items, key, Some(cut(items[n + limit - 1]))))
  }

  /** Every page boundary from position `n` on falls between two different cursors. */
  ghost predicate BoundariesSplit<T(!new)>(items: seq<T>, key: T -> int, cut: T -> int, limit: nat, n: nat)
    requires 0 < limit && n <= |items|
    decreases |items| - n
  {
    n + limit < |items| ==>
      && key(items[n + limit]) < cut(items[n + limit - 1])
      && BoundariesSplit(items, key, cut, limit, n + limit)
  }

  /** Following the cursors meets every item once, in order, exactly when every page
      boundary does; otherwise it misses some. */
  lemma {:induction false} FollowingMeetsAllIff<T(!new)>(items: seq<T>, key: T -> int, cut: T -> int, limit: nat,
                                                  n: nat)
    requires Descending(items, key) && 0 < limit && n <= |items|
    requires forall x :: cut(x) <= key(x)
    ensures |FollowFrom(items, key, cut, limit, n)| <= |items| - n
    ensures FollowFrom(items, key, cut, limit, n) == items[n..] <==> BoundariesSplit(items, key, cut, limit, n)
    ensures !BoundariesSplit(items, key, cut, limit, n) ==> |FollowFrom(items, key, cut, limit, n)| < |items| - n
    decreases |items| - n
  {
    if |items| - n > limit {
      var next := Start(items, key, Some(cut(items[n + limit - 1])));
      NextPageStarts(items, key, cut, n, limit);
      FollowingMeetsAllIff(items, key, cut, limit, next);
      assert items[n..] == items[n..n + limit] + items[n + limit..];
    }
  }

  /** When every cursor is the item's own key and keys differ, no boundary can fail. */
  lemma {:induction false} DistinctKeysSplit<T(!new)>(items: seq<T>, key: T -> int, cut: T -> int, limit: nat, n: nat)
    requires Descending(items, key) && 0 < limit && n <= |items|
    requires forall i, j :: 0 <= i < j < |items| ==> key(items[j]) < cut(items[i])
    ensures BoundariesSplit(items, key, cut, limit, n)
    decreases |items| - n
  {
    if n + limit < |items| {
      DistinctKeysSplit(items, key, cut, limit, n + limit);
    }
  }
}
