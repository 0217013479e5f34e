/**
 Keyset pagination of the message list: a page is what follows, or precedes, a cursor in the sorted
 list, cut off at a limit, with cursors to the pages beside it.

 The module proves that on an unchanged table a page is exactly a slice of the one sorted list, that
 following the next cursors goes through the whole list without gap or repeat, also among equal times,
 and that the previous cursor of a page leads back to the page before.
 */
module Keyset {
  import opened Wrappers
  import opened Text

  const DEFAULT_LIMIT := 100
  const MAX_LIMIT := 500

  /** A message of the filtered list, by its sort key; times count from the zero time. */
  datatype Item = Item(created: int, uri: string)

  datatype Sort = Newest | Oldest
  datatype Direction = Next | Prev

  /** How cursors are written as text and read back. */
  datatype Codec = Codec(write: Item -> string, read: string -> Option<Item>)

  /** Reading what was written gives it back; written text is not blank and has no blanks around it. */
  ghost predicate CodecOk(codec: Codec) {
    forall item: Item :: ReadsBack(codec, item)
  }

  predicate ReadsBack(codec: Codec, item: Item) {
    codec.read(codec.write(item)) == Some(item) && Trim(codec.write(item)) == codec.write(item) != ""
  }

  /** A zero time or a blank URI has no cursor. */
  function Encode(codec: Codec, item: Item): string {
    if item.created == 0 || Blank(item.uri) then "" else codec.write(item)
  }

  function Decode(codec: Codec, encoded: string): Option<Item> {
    var text := Trim(encoded);
    if text == "" then None
    else
      match codec.read(text)
      case None => None
      case Some(item) => if Blank(item.uri) then None else Some(item.(uri := Trim(item.uri)))
  }

  /** Rows that have a cursor, and come back from it the same. */
  predicate Addressable(item: Item) {
    item.created != 0 && !Blank(item.uri) && Trim(item.uri) == item.uri
  }

  lemma CursorRoundTrip(codec: Codec, item: Item)
    requires CodecOk(codec)
    ensures Encode(codec, item) != "" <==> item.created != 0 && !Blank(item.uri)
    ensures Encode(codec, item) != "" ==> Decode(codec, Encode(codec, item)) == Some(item.(uri := Trim(item.uri)))
    ensures Addressable(item) ==> Decode(codec, Encode(codec, item)) == Some(item)
  {
    assert ReadsBack(codec, item);
  }

  // ---------------------------------------------------------------- the sorted list

  /** Ascending order of the sort key. */
  predicate Ascends(a: Item, b: Item) {
    a.created < b.created || (a.created == b.created && Less(a.uri, b.uri))
  }

  /** The order of the list that is paged through. */
  predicate Precedes(sort: Sort, a: Item, b: Item) {
    if sort.Oldest? then Ascends(a, b) else Ascends(b, a)
  }

  lemma PrecedesIrreflexive(sort: Sort, a: Item)
    ensures !Precedes(sort, a, a)
  {
    LessIrreflexive(a.uri);
  }

  lemma AscendsTransitive(a: Item, b: Item, c: Item)
    requires Ascends(a, b) && Ascends(b, c)
    ensures Ascends(a, c)
  {
    if a.created == b.created == c.created {
      LessTransitive(a.uri, b.uri, c.uri);
    }
  }

  lemma PrecedesTransitive(sort: Sort, a: Item, b: Item, c: Item)
    requires Precedes(sort, a, b) && Precedes(sort, b, c)
    ensures Precedes(sort, a, c)
  {
    if sort.Oldest? {
      AscendsTransitive(a, b, c);
    } else {
      AscendsTransitive(c, b, a);
    }
  }

  lemma PrecedesTotal(sort: Sort, a: Item, b: Item)
    requires a.uri != b.uri
    ensures Precedes(sort, a, b) || Precedes(sort, b, a)
  {
    LessTotal(a.uri, b.uri);
  }

  /** The clause of a query that starts from a cursor, in the terms of the columns. */
  predicate KeysetClause(sort: Sort, direction: Direction, cursor: Item, x: Item) {
    if direction.Prev? == sort.Newest?
    then x.created > cursor.created || (x.created == cursor.created && Less(cursor.uri, x.uri))
    else x.created < cursor.created || (x.created == cursor.created && Less(x.uri, cursor.uri))
  }

  /** The four clauses say "after the cursor" and "before the cursor" in the order of the list. */
  lemma ClauseIsOrder(sort: Sort, cursor: Item, x: Item)
    ensures KeysetClause(sort, Next, cursor, x) <==> Precedes(sort, cursor, x)
    ensures KeysetClause(sort, Prev, cursor, x) <==> Precedes(sort, x, cursor)
  {
  }

  /** The order of a query: backwards when it starts from a cursor towards the previous page. */
  function QueryOrder(sort: Sort, reverse: bool): Sort {
    if sort.Newest? == reverse then Oldest else Newest
  }

  ghost predicate InOrder(sort: Sort, items: seq<Item>) {
    forall i, j {:trigger Precedes(sort, items[i], items[j])} :: 0 <= i < j < |items| ==> Precedes(sort, items[i], items[j])
  }

  /** The table: the filtered rows in any order, each URI once. */
  ghost predicate DistinctUris(table: seq<Item>) {
    forall i, j :: 0 <= i < j < |table| ==> table[i].uri != table[j].uri
  }

  function Insert(sort: Sort, items: seq<Item>, item: Item): (r: seq<Item>)
    ensures |r| == |items| + 1
  {
    if items == [] then [item]
    else if Precedes(sort, item, items[0]) then [item] + items
    else [items[0]] + Insert(sort, items[1..], item)
  }

  /** The rows in the order of a sort. */
  function Listing(sort: Sort, table: seq<Item>): (r: seq<Item>)
    ensures |r| == |table|
  {
    if table == [] then [] else Insert(sort, Listing(sort, table[1..]), table[0])
  }

  lemma {:induction false} InsertIsPermutation(sort: Sort, items: seq<Item>, item: Item)
    ensures multiset(Insert(sort, items, item)) == multiset(items) + multiset{item}
    ensures forall x <- Insert(sort, items, item) :: x == item || x in items
  {
    if items != [] && !Precedes(sort, item, items[0]) {
      assert items == [items[0]] + items[1..];
      InsertIsPermutation(sort, items[1..], item);
    }
  }

  /** The listing holds the rows of the table and no others. */
  lemma {:induction false} ListingIsPermutation(sort: Sort, table: seq<Item>)
    ensures multiset(Listing(sort, table)) == multiset(table)
    ensures forall x <- Listing(sort, table) :: x in table
  {
    if table != [] {
      assert table == [table[0]] + table[1..];
      ListingIsPermutation(sort, table[1..]);
      InsertIsPermutation(sort, Listing(sort, table[1..]), table[0]);
    }
  }

  lemma FirstInOrder(sort: Sort, first: Item, rest: seq<Item>)
    requires InOrder(sort, rest) && forall x <- rest :: Precedes(sort, first, x)
    ensures InOrder(sort, [first] + rest)
  {
    var all := [first] + rest;
    forall i, j | 0 <= i < j < |all| ensures Precedes(sort, all[i], all[j]) {
      assert all[j] == rest[j - 1] && rest[j - 1] in rest;
      assert i > 0 ==> Precedes(sort, rest[i - 1], rest[j - 1]);
    }
  }

  lemma InOrderTail(sort: Sort, items: seq<Item>)
    requires items != [] && InOrder(sort, items)
    ensures InOrder(sort, items[1..])
    ensures forall x <- items[1..] :: Precedes(sort, items[0], x)
  {
    var rest := items[1..];
    forall i, j | 0 <= i < j < |rest| ensures Precedes(sort, rest[i], rest[j]) {
      assert Precedes(sort, items[i + 1], items[j + 1]);
    }
    forall x <- rest ensures Precedes(sort, items[0], x) {
      var j :| 0 <= j < |rest| && rest[j] == x;
      assert Precedes(sort, items[0], items[j + 1]);
    }
  }

  lemma {:induction false} InsertInOrder(sort: Sort, items: seq<Item>, item: Item)
    requires InOrder(sort, items) && forall x <- items :: x.uri != item.uri
    ensures InOrder(sort, Insert(sort, items, item))
  {
    if items != [] {
      InOrderTail(sort, items);
      if Precedes(sort, item, items[0]) {
        forall x <- items ensures Precedes(sort, item, x) {
          if x != items[0] {
            assert x in items[1..];
            PrecedesTransitive(sort, item, items[0], x);
          }
        }
        FirstInOrder(sort, item, items);
      } else {
        assert items[0] in items;
        PrecedesTotal(sort, item, items[0]);
        InsertInOrder(sort, items[1..], item);
        var rest := Insert(sort, items[1..], item);
        InsertIsPermutation(sort, items[1..], item);
        FirstInOrder(sort, items[0], rest);
      }
    }
  }

  /** The listing is sorted strictly. */
  lemma {:induction false} ListingInOrder(sort: Sort, table: seq<Item>)
    requires DistinctUris(table)
    ensures InOrder(sort, Listing(sort, table))
  {
    if table != [] {
      ListingInOrder(sort, table[1..]);
      ListingIsPermutation(sort, table[1..]);
      forall x <- Listing(sort, table[1..]) ensures x.uri != table[0].uri {
        var j :| 0 <= j < |table[1..]| && table[1..][j] == x;
        assert table[j + 1] == x;
      }
      InsertInOrder(sort, Listing(sort, table[1..]), table[0]);
    }
  }

  function Reversed(items: seq<Item>): (r: seq<Item>)
    ensures |r| == |items|
  {
    if items == [] then [] else [items[|items| - 1]] + Reversed(items[..|items| - 1])
  }

  lemma {:induction false} ReversedAt(items: seq<Item>, i: nat)
    requires i < |items|
    ensures Reversed(items)[i] == items[|items| - 1 - i]
  {
    if i > 0 {
      ReversedAt(items[..|items| - 1], i - 1);
    }
  }

  lemma ReversedInOrder(sort: Sort, items: seq<Item>)
    requires InOrder(sort, items)
    ensures InOrder(QueryOrder(sort, true), Reversed(items))
  {
    var back := Reversed(items);
    forall i, j | 0 <= i < j < |back| ensures Precedes(QueryOrder(sort, true), back[i], back[j]) {
      ReversedAt(items, i);
      ReversedAt(items, j);
      assert Precedes(sort, items[|items| - 1 - j], items[|items| - 1 - i]);
    }
  }

  /** Two sorted lists of the same rows begin with the same row. */
  lemma SameFirst(sort: Sort, a: seq<Item>, b: seq<Item>)
    requires InOrder(sort, a) && InOrder(sort, b) && a != [] && b != [] && a[0] in b && b[0] in a
    ensures a[0] == b[0]
  {
    InOrderTail(sort, a);
    InOrderTail(sort, b);
    if a[0] != b[0] {
      assert a[0] in b[1..] && b[0] in a[1..];
      NotBothWays(sort, a[0], b[0]);
    }
  }

  lemma NotBothWays(sort: Sort, a: Item, b: Item)
    ensures !(Precedes(sort, a, b) && Precedes(sort, b, a))
  {
    if Precedes(sort, a, b) && Precedes(sort, b, a) {
      PrecedesTransitive(sort, a, b, a);
      PrecedesIrreflexive(sort, a);
    }
  }

  lemma SameMembers(a: seq<Item>, b: seq<Item>)
    requires multiset(a) == multiset(b) && a != []
    ensures b != [] && a[0] in b && b[0] in a
  {
    assert a[0] in multiset(a);
    assert b[0] in multiset(b);
  }

  lemma SameTails(a: seq<Item>, b: seq<Item>)
    requires a != [] && b != [] && a[0] == b[0] && multiset(a) == multiset(b)
    ensures multiset(a[1..]) == multiset(b[1..])
  {
    assert a == [a[0]] + a[1..] && b == [b[0]] + b[1..];
    assert multiset(a[1..]) == multiset(a) - multiset{a[0]};
    assert multiset(b[1..]) == multiset(b) - multiset{b[0]};
  }

  /** Rows can be sorted in only one way. */
  lemma {:induction false} SortedUnique(sort: Sort, a: seq<Item>, b: seq<Item>)
    requires InOrder(sort, a) && InOrder(sort, b) && multiset(a) == multiset(b)
    ensures a == b
  {
    if a == [] {
      assert |multiset(a)| == |multiset(b)| == 0;
    } else {
      SameMembers(a, b);
      SameFirst(sort, a, b);
      SameTails(a, b);
      InOrderTail(sort, a);
      InOrderTail(sort, b);
      SortedUnique(sort, a[1..], b[1..]);
      assert a == [a[0]] + a[1..] && b == [b[0]] + b[1..];
    }
  }

  /** Sorting the other way round gives the list backwards. */
  lemma ListingReversed(sort: Sort, table: seq<Item>)
    requires DistinctUris(table)
    ensures Listing(QueryOrder(sort, true), table) == Reversed(Listing(sort, table))
  {
    var other := QueryOrder(sort, true);
    var list := Listing(sort, table);
    ListingInOrder(sort, table);
    ListingInOrder(other, table);
    ReversedSame(list);
    ReversedInOrder(sort, list);
    ListingIsPermutation(sort, table);
    ListingIsPermutation(other, table);
    SortedUnique(other, Listing(other, table), Reversed(list));
  }

  lemma {:induction false} ReversedSame(items: seq<Item>)
    ensures multiset(Reversed(items)) == multiset(items)
  {
    if items != [] {
      var n := |items| - 1;
      ReversedSame(items[..n]);
      assert items == items[..n] + [items[n]];
    }
  }

  /** The rows in both orders, as an index of the table gives them. */
  datatype View = View(newest: seq<Item>, oldest: seq<Item>)

  function Ordered(view: View, sort: Sort): seq<Item> {
    if sort.Newest? then view.newest else view.oldest
  }

  /** The two orders are strict and each the other backwards. */
  ghost predicate ViewOk(view: View) {
    && InOrder(Newest, view.newest) && InOrder(Oldest, view.oldest)
    && view.oldest == Reversed(view.newest) && view.newest == Reversed(view.oldest)
  }

  function ViewOf(table: seq<Item>): View {
    View(Listing(Newest, table), Listing(Oldest, table))
  }

  /** Every table has such a view, of its own rows. */
  lemma TableHasView(table: seq<Item>)
    requires DistinctUris(table)
    ensures ViewOk(ViewOf(table))
    ensures forall sort :: multiset(Ordered(ViewOf(table), sort)) == multiset(table)
  {
    ListingInOrder(Newest, table);
    ListingInOrder(Oldest, table);
    ListingReversed(Newest, table);
    ListingReversed(Oldest, table);
    ListingIsPermutation(Newest, table);
    ListingIsPermutation(Oldest, table);
  }

  // ---------------------------------------------------------------- queries

  function Filtered(items: seq<Item>, cursor: Option<Item>, sort: Sort, direction: Direction): seq<Item> {
    if items == [] then []
    else
      (if cursor.None? || KeysetClause(sort, direction, cursor.value, items[0]) then [items[0]] else [])
      + Filtered(items[1..], cursor, sort, direction)
  }

  function Take(items: seq<Item>, n: nat): seq<Item> {
    if |items| <= n then items else items[..n]
  }

  /** The rows of a query: those that satisfy the clause, in the order asked for, up to the limit. */
  function Rows(view: View, sort: Sort, direction: Direction, cursor: Option<Item>, limit: nat): seq<Item> {
    var reverse := cursor.Some? && direction.Prev?;
    Take(Filtered(Ordered(view, QueryOrder(sort, reverse)), cursor, sort, direction), limit)
  }

  lemma {:induction false} FilteredNone(items: seq<Item>, sort: Sort, direction: Direction)
    ensures Filtered(items, None, sort, direction) == items
  {
    if items != [] {
      FilteredNone(items[1..], sort, direction);
    }
  }

  /** The first `k` rows fail the clause of a cursor and the others satisfy it. */
  ghost predicate SplitsAt(items: seq<Item>, k: nat, cursor: Item, sort: Sort, direction: Direction) {
    forall i {:trigger KeysetClause(sort, direction, cursor, items[i])} ::
      0 <= i < |items| ==> (KeysetClause(sort, direction, cursor, items[i]) <==> i >= k)
  }

  lemma SplitTail(items: seq<Item>, k: nat, cursor: Item, sort: Sort, direction: Direction)
    requires items != [] && SplitsAt(items, k, cursor, sort, direction)
    ensures SplitsAt(items[1..], if k == 0 then 0 else k - 1, cursor, sort, direction)
  {
    forall i | 0 <= i < |items[1..]|
      ensures KeysetClause(sort, direction, cursor, items[1..][i]) <==> i >= (if k == 0 then 0 else k - 1)
    {
      assert KeysetClause(sort, direction, cursor, items[i + 1]) <==> i + 1 >= k;
    }
  }

  /** Filtering such a list leaves the others. */
  lemma {:induction false} FilteredSuffix(items: seq<Item>, k: nat, cursor: Item, sort: Sort, direction: Direction)
    requires k <= |items| && SplitsAt(items, k, cursor, sort, direction)
    ensures Filtered(items, Some(cursor), sort, direction) == items[k..]
  {
    if items != [] {
      SplitTail(items, k, cursor, sort, direction);
      assert KeysetClause(sort, direction, cursor, items[0]) <==> k == 0;
      if k == 0 {
        FilteredSuffix(items[1..], 0, cursor, sort, direction);
        assert [items[0]] + items[1..] == items;
      } else {
        FilteredSuffix(items[1..], k - 1, cursor, sort, direction);
        assert items[1..][k - 1..] == items[k..];
      }
    }
  }

  /** Where a row of a sorted list stands relative to the others. */
  lemma OrderAround(sort: Sort, list: seq<Item>, k: nat, i: nat)
    requires InOrder(sort, list) && k < |list| && i < |list|
    ensures Precedes(sort, list[k], list[i]) <==> k < i
  {
    PrecedesIrreflexive(sort, list[k]);
    if i < k {
      assert Precedes(sort, list[i], list[k]);
      NotBothWays(sort, list[i], list[k]);
    }
  }

  lemma RowsWithoutCursor(view: View, sort: Sort, direction: Direction, limit: nat)
    ensures Rows(view, sort, direction, None, limit) == Take(Ordered(view, sort), limit)
  {
    FilteredNone(Ordered(view, sort), sort, direction);
  }

  lemma RowsAfter(view: View, sort: Sort, k: nat, limit: nat)
    requires ViewOk(view) && k < |Ordered(view, sort)|
    ensures Rows(view, sort, Next, Some(Ordered(view, sort)[k]), limit) == Take(Ordered(view, sort)[k + 1..], limit)
  {
    var list := Ordered(view, sort);
    forall i | 0 <= i < |list| ensures KeysetClause(sort, Next, list[k], list[i]) <==> i >= k + 1 {
      ClauseIsOrder(sort, list[k], list[i]);
      OrderAround(sort, list, k, i);
    }
    FilteredSuffix(list, k + 1, list[k], sort, Next);
  }

  lemma RowsBefore(view: View, sort: Sort, k: nat, limit: nat)
    requires ViewOk(view) && k < |Ordered(view, sort)|
    ensures Rows(view, sort, Prev, Some(Ordered(view, sort)[k]), limit) == Take(Reversed(Ordered(view, sort)[..k]), limit)
  {
    var list := Ordered(view, sort);
    BackFiltered(sort, list, k);
    ReversedSuffix(list, k);
  }

  lemma BackFiltered(sort: Sort, list: seq<Item>, k: nat)
    requires InOrder(sort, list) && k < |list|
    ensures Filtered(Reversed(list), Some(list[k]), sort, Prev) == Reversed(list)[|list| - k..]
  {
    var back := Reversed(list);
    var m := |list| - k;
    forall i | 0 <= i < |back| ensures KeysetClause(sort, Prev, list[k], back[i]) <==> i >= m {
      ReversedAt(list, i);
      ClauseIsOrder(sort, list[k], back[i]);
      OrderAround(sort, list, |list| - 1 - i, k);
    }
    FilteredSuffix(back, m, list[k], sort, Prev);
  }

  lemma ReversedSuffix(list: seq<Item>, k: nat)
    requires k <= |list|
    ensures Reversed(list)[|list| - k..] == Reversed(list[..k])
  {
    forall i | 0 <= i < k ensures Reversed(list)[|list| - k..][i] == Reversed(list[..k])[i] {
      ReversedAt(list, |list| - k + i);
      ReversedAt(list[..k], i);
    }
  }

  // ---------------------------------------------------------------- pages

  datatype Page = Page(items: seq<Item>, hasPrev: bool, hasNext: bool, prevCursor: string, nextCursor: string)

  function NormalLimit(limit: int): (n: nat)
    ensures 1 <= n <= MAX_LIMIT
    ensures 1 <= limit <= MAX_LIMIT ==> n == limit
    ensures limit <= 0 ==> n == 100
  {
    if limit <= 0 then DEFAULT_LIMIT else if limit > MAX_LIMIT then MAX_LIMIT else limit
  }

  /** What a page shows: of one row more than fits, those that fit, in the order of the list. */
  function ItemsOf(rows: seq<Item>, reverse: bool, n: nat): (items: seq<Item>)
    ensures |items| == if |rows| <= n then |rows| else n
  {
    if reverse then Reversed(Take(rows, n)) else Take(rows, n)
  }

  function PageWith(codec: Codec, items: seq<Item>, hasPrev: bool, hasNext: bool): Page {
    Page(items, hasPrev, hasNext,
      if items != [] && hasPrev then Encode(codec, items[0]) else "",
      if items != [] && hasNext then Encode(codec, items[|items| - 1]) else "")
  }

  /** The page made of the rows of a query for one more than fit, to know whether there are more. */
  function PageFrom(codec: Codec, direction: Direction, fromCursor: bool, rows: seq<Item>, n: nat): Page {
    var items := ItemsOf(rows, fromCursor && direction.Prev?, n);
    if direction.Prev? then PageWith(codec, items, |rows| > n, fromCursor)
    else PageWith(codec, items, fromCursor, |rows| > n)
  }

  function PageAt(codec: Codec, view: View, sort: Sort, direction: Direction, cursor: Option<Item>, n: nat): Page {
    PageFrom(codec, direction, cursor.Some?, Rows(view, sort, direction, cursor, n + 1), n)
  }

  function PageOf(codec: Codec, view: View, sort: Sort, direction: Direction, cursorText: string, limit: int): Page {
    PageAt(codec, view, sort, direction, Decode(codec, cursorText), NormalLimit(limit))
  }

  /** Swaps rows from both ends inwards. */
  method ReverseMessages(messages: array<Item>)
    modifies messages
    ensures messages[..] == Reversed(old(messages[..]))
  {
    var left, right := 0, messages.Length - 1;
    while left < right
      invariant 0 <= left && left + right == messages.Length - 1 && left <= right + 1
      invariant forall i :: 0 <= i < left || right < i < messages.Length ==> messages[i] == old(messages[messages.Length - 1 - i])
      invariant forall i :: left <= i <= right ==> messages[i] == old(messages[i])
    {
      messages[left], messages[right] := messages[right], messages[left];
      left, right := left + 1, right - 1;
    }
    SwappedIsReversed(old(messages[..]), messages[..]);
  }

  lemma SwappedIsReversed(before: seq<Item>, after: seq<Item>)
    requires |after| == |before| && forall i :: 0 <= i < |before| ==> after[i] == before[|before| - 1 - i]
    ensures after == Reversed(before)
  {
    forall i | 0 <= i < |before| ensures after[i] == Reversed(before)[i] {
      ReversedAt(before, i);
    }
  }

  /** The rows of a page, turned round in place when they were queried backwards. */
  method FitRows(rows: seq<Item>, reverse: bool, n: nat) returns (items: seq<Item>)
    ensures items == ItemsOf(rows, reverse, n)
  {
    items := if |rows| > n then rows[..n] else rows;
    if reverse {
      var buffer := new Item[|items|](i requires 0 <= i < |items| => items[i]);
      assert buffer[..] == items;
      ReverseMessages(buffer);
      items := buffer[..];
    }
  }

  /** Queries one page: with a cursor that does not decode, as if there were none. */
  method ListMessagesPage(codec: Codec, table: seq<Item>, sort: Sort, direction: Direction, cursorText: string, limit: int)
    returns (page: Page)
    ensures page == PageOf(codec, ViewOf(table), sort, direction, cursorText, limit)
  {
    page := QueryPage(codec, ViewOf(table), sort, direction, Decode(codec, cursorText), NormalLimit(limit));
  }

  method QueryPage(codec: Codec, view: View, sort: Sort, direction: Direction, cursor: Option<Item>, n: nat) returns (page: Page)
    ensures page == PageAt(codec, view, sort, direction, cursor, n)
  {
    var rows := Rows(view, sort, direction, cursor, n + 1);
    var hasMore := |rows| > n;
    var items := FitRows(rows, cursor.Some? && direction.Prev?, n);
    page := Page(items, cursor.Some?, hasMore, "", "");
    if direction.Prev? {
      page := page.(hasPrev := hasMore, hasNext := cursor.Some?);
    }
    if |items| > 0 {
      if page.hasPrev {
        page := page.(prevCursor := Encode(codec, items[0]));
      }
      if page.hasNext {
        page := page.(nextCursor := Encode(codec, items[|items| - 1]));
      }
    }
  }

  /** A view every row of which has a cursor. */
  ghost predicate Pageable(view: View) {
    && ViewOk(view)
    && (forall x <- view.newest :: Addressable(x))
    && (forall x <- view.oldest :: Addressable(x))
  }

  lemma TableIsPageable(table: seq<Item>)
    requires DistinctUris(table) && forall x <- table :: Addressable(x)
    ensures Pageable(ViewOf(table))
  {
    TableHasView(table);
    ListingIsPermutation(Newest, table);
    ListingIsPermutation(Oldest, table);
  }

  function MinOf(a: int, b: int): int {
    if a <= b then a else b
  }

  function MaxOf(a: int, b: int): int {
    if a >= b then a else b
  }

  lemma CursorOfRow(codec: Codec, view: View, sort: Sort, k: nat)
    requires CodecOk(codec) && Pageable(view) && k < |Ordered(view, sort)|
    ensures Decode(codec, Encode(codec, Ordered(view, sort)[k])) == Some(Ordered(view, sort)[k])
  {
    CursorRoundTrip(codec, Ordered(view, sort)[k]);
  }

  lemma NoCursor(codec: Codec)
    ensures Decode(codec, "") == None
  {
  }

  /** The page that holds the list from row `start` on. */
  function SlicePage(codec: Codec, list: seq<Item>, start: nat, n: nat): Page
    requires start <= |list|
  {
    PageWith(codec, list[start..MinOf(start + n, |list|)], start > 0, |list| > start + n)
  }

  lemma SliceFromRows(codec: Codec, list: seq<Item>, start: nat, n: nat)
    requires start <= |list|
    ensures PageFrom(codec, Next, start > 0, Take(list[start..], n + 1), n) == SlicePage(codec, list, start, n)
  {
    TakeSlices(list, start, n);
  }

  /** The first page is the beginning of the list, and it has a next page exactly when the list goes on. */
  lemma FirstPage(codec: Codec, view: View, sort: Sort, limit: int)
    ensures PageOf(codec, view, sort, Next, "", limit) == SlicePage(codec, Ordered(view, sort), 0, NormalLimit(limit))
  {
    var list := Ordered(view, sort);
    var n := NormalLimit(limit);
    assert Decode(codec, "") == None by { NoCursor(codec); }
    assert Rows(view, sort, Next, None, n + 1) == Take(list, n + 1) by { RowsWithoutCursor(view, sort, Next, n + 1); }
    assert list[0..] == list;
    SliceFromRows(codec, list, 0, n);
  }

  /** The page after the cursor of row `k` is the list from the row after it. */
  lemma PageAfter(codec: Codec, view: View, sort: Sort, limit: int, k: nat)
    requires CodecOk(codec) && Pageable(view) && k < |Ordered(view, sort)|
    ensures PageOf(codec, view, sort, Next, Encode(codec, Ordered(view, sort)[k]), limit)
         == SlicePage(codec, Ordered(view, sort), k + 1, NormalLimit(limit))
  {
    var list := Ordered(view, sort);
    var n := NormalLimit(limit);
    assert Decode(codec, Encode(codec, list[k])) == Some(list[k]) by { CursorOfRow(codec, view, sort, k); }
    PageAtNext(codec, view, sort, n, k);
  }

  lemma PageAtNext(codec: Codec, view: View, sort: Sort, n: nat, k: nat)
    requires ViewOk(view) && k < |Ordered(view, sort)|
    ensures PageAt(codec, view, sort, Next, Some(Ordered(view, sort)[k]), n) == SlicePage(codec, Ordered(view, sort), k + 1, n)
  {
    RowsAfter(view, sort, k, n + 1);
    SliceFromRows(codec, Ordered(view, sort), k + 1, n);
  }

  lemma TakeSlices(list: seq<Item>, from: nat, n: nat)
    requires from <= |list|
    ensures Take(Take(list[from..], n + 1), n) == list[from..MinOf(from + n, |list|)]
    ensures |Take(list[from..], n + 1)| > n <==> |list| > from + n
  {
  }

  /** The page that ends right before row `k`. */
  function BackPage(codec: Codec, list: seq<Item>, k: nat, n: nat): Page
    requires k <= |list|
  {
    PageWith(codec, list[MaxOf(0, k - n)..k], k > n, true)
  }

  lemma BackFromRows(codec: Codec, list: seq<Item>, k: nat, n: nat)
    requires k <= |list|
    ensures PageFrom(codec, Prev, true, Take(Reversed(list[..k]), n + 1), n) == BackPage(codec, list, k, n)
  {
    TakeBack(list, k, n);
  }

  /** The page before the cursor of row `k` is the end of the list up to it. */
  lemma PageBefore(codec: Codec, view: View, sort: Sort, limit: int, k: nat)
    requires CodecOk(codec) && Pageable(view) && k < |Ordered(view, sort)|
    ensures PageOf(codec, view, sort, Prev, Encode(codec, Ordered(view, sort)[k]), limit)
         == BackPage(codec, Ordered(view, sort), k, NormalLimit(limit))
  {
    var list := Ordered(view, sort);
    var n := NormalLimit(limit);
    assert Decode(codec, Encode(codec, list[k])) == Some(list[k]) by { CursorOfRow(codec, view, sort, k); }
    PageAtBack(codec, view, sort, n, k);
  }

  lemma PageAtBack(codec: Codec, view: View, sort: Sort, n: nat, k: nat)
    requires ViewOk(view) && k < |Ordered(view, sort)|
    ensures PageAt(codec, view, sort, Prev, Some(Ordered(view, sort)[k]), n) == BackPage(codec, Ordered(view, sort), k, n)
  {
    RowsBefore(view, sort, k, n + 1);
    BackFromRows(codec, Ordered(view, sort), k, n);
  }

  /** Going back from the start of a slice gives the slice before it. */
  lemma BackOfSlice(codec: Codec, list: seq<Item>, start: nat, n: nat)
    requires start + n <= |list| && n > 0
    ensures BackPage(codec, list, start + n, n).items == SlicePage(codec, list, start, n).items
    ensures BackPage(codec, list, start + n, n).hasNext && (BackPage(codec, list, start + n, n).hasPrev <==> start > 0)
  {
  }

  lemma TakeBack(list: seq<Item>, k: nat, n: nat)
    requires k <= |list|
    ensures Reversed(Take(Take(Reversed(list[..k]), n + 1), n)) == list[MaxOf(0, k - n)..k]
    ensures |Take(Reversed(list[..k]), n + 1)| > n <==> k > n
  {
    var back := Reversed(list[..k]);
    var kept := Take(back, n);
    assert Take(Take(back, n + 1), n) == kept;
    var from := MaxOf(0, k - n);
    forall i | 0 <= i < |kept| ensures Reversed(kept)[i] == list[from..k][i] {
      ReversedAt(kept, i);
      ReversedAt(list[..k], |kept| - 1 - i);
    }
  }

  // ---------------------------------------------------------------- walking

  /** The page a next cursor leads to. */
  function NextPages(codec: Codec, view: View, sort: Sort, limit: int): string -> Page {
    (cursorText: string) => PageOf(codec, view, sort, Next, cursorText, limit)
  }

  /** The page reached by following `k` next cursors from the first. */
  function NthPage(next: string -> Page, k: nat): Page {
    if k == 0 then next("") else next(NthPage(next, k - 1).nextCursor)
  }

  /** The rows of the first pages, one after the other. */
  function Walked(next: string -> Page, pages: nat): seq<Item> {
    if pages == 0 then [] else Walked(next, pages - 1) + NthPage(next, pages - 1).items
  }

  /** Where page `k` starts. */
  function StartOf(n: nat, k: nat): nat {
    if k == 0 then 0 else StartOf(n, k - 1) + n
  }

  /** Following the cursor of any row leads to the slice after it. */
  ghost predicate Steps(next: string -> Page, codec: Codec, list: seq<Item>, n: nat) {
    && next("") == SlicePage(codec, list, 0, n)
    && forall k: nat {:trigger next(Encode(codec, list[k]))} :: k < |list| ==> next(Encode(codec, list[k])) == SlicePage(codec, list, k + 1, n)
  }

  lemma NextPagesStep(codec: Codec, view: View, sort: Sort, limit: int)
    requires CodecOk(codec) && Pageable(view)
    ensures Steps(NextPages(codec, view, sort, limit), codec, Ordered(view, sort), NormalLimit(limit))
  {
    var list := Ordered(view, sort);
    var next := NextPages(codec, view, sort, limit);
    FirstPage(codec, view, sort, limit);
    forall k: nat | k < |list| ensures next(Encode(codec, list[k])) == SlicePage(codec, list, k + 1, NormalLimit(limit)) {
      PageAfter(codec, view, sort, limit, k);
    }
  }

  lemma NextOfSlice(codec: Codec, list: seq<Item>, start: nat, n: nat)
    requires start + n < |list| && n > 0
    ensures SlicePage(codec, list, start, n).nextCursor == Encode(codec, list[start + n - 1])
  {
  }

  lemma PrevOfSlice(codec: Codec, list: seq<Item>, start: nat, n: nat)
    requires 0 < start < |list| && n > 0
    ensures SlicePage(codec, list, start, n).prevCursor == Encode(codec, list[start])
  {
  }

  /** As long as there is a next page, the one reached is the next slice of the list. */
  lemma {:induction false} WalkIsSlices(next: string -> Page, codec: Codec, list: seq<Item>, n: nat, k: nat)
    requires Steps(next, codec, list, n) && n > 0 && (k == 0 || StartOf(n, k) < |list|)
    ensures NthPage(next, k) == SlicePage(codec, list, StartOf(n, k), n)
  {
    if k > 0 {
      var start := StartOf(n, k - 1);
      WalkIsSlices(next, codec, list, n, k - 1);
      NextOfSlice(codec, list, start, n);
      assert next(Encode(codec, list[start + n - 1])) == SlicePage(codec, list, start + n, n);
    }
  }

  lemma {:induction false} WalkedIsPrefix(next: string -> Page, codec: Codec, list: seq<Item>, n: nat, pages: nat)
    requires Steps(next, codec, list, n) && n > 0 && (pages <= 1 || StartOf(n, pages - 1) < |list|)
    ensures Walked(next, pages) == list[..MinOf(StartOf(n, pages), |list|)]
  {
    if pages > 0 {
      WalkedIsPrefix(next, codec, list, n, pages - 1);
      var start := StartOf(n, pages - 1);
      assert NthPage(next, pages - 1).items == list[start..MinOf(start + n, |list|)] by {
        WalkIsSlices(next, codec, list, n, pages - 1);
      }
      JoinSlice(list, start, MinOf(start + n, |list|));
    }
  }

  lemma JoinSlice(list: seq<Item>, a: nat, b: nat)
    requires a <= b <= |list|
    ensures list[..a] + list[a..b] == list[..b]
  {
  }

  /** How many pages a list fills; an empty list is one empty page. */
  function PageCount(n: nat, size: nat, from: nat): nat
    requires n > 0
    decreases size - StartOf(n, from)
  {
    if StartOf(n, from + 1) >= size then from + 1 else PageCount(n, size, from + 1)
  }

  lemma {:induction false} PageCountReaches(n: nat, size: nat, from: nat)
    requires n > 0 && (from == 0 || StartOf(n, from) < size)
    ensures var count := PageCount(n, size, from);
      count > from && StartOf(n, count) >= size && (count > 1 ==> StartOf(n, count - 1) < size)
    decreases size - StartOf(n, from)
  {
    if StartOf(n, from + 1) < size {
      PageCountReaches(n, size, from + 1);
    }
  }

  lemma {:induction false} StartsMonotone(n: nat, a: nat, b: nat)
    requires a <= b
    ensures StartOf(n, a) <= StartOf(n, b)
  {
    if a < b {
      StartsMonotone(n, a, b - 1);
    }
  }

  lemma WalkCovers(next: string -> Page, codec: Codec, list: seq<Item>, n: nat)
    requires Steps(next, codec, list, n) && n > 0
    ensures var count := PageCount(n, |list|, 0);
      && Walked(next, count) == list
      && (forall k: nat :: k < count ==> (NthPage(next, k).hasNext <==> k + 1 < count))
  {
    var count := PageCount(n, |list|, 0);
    PageCountReaches(n, |list|, 0);
    WalkedIsPrefix(next, codec, list, n, count);
    assert list[..|list|] == list;
    forall k: nat | k < count ensures NthPage(next, k).hasNext <==> k + 1 < count {
      WalkGoesOn(next, codec, list, n, k, count);
    }
  }

  lemma WalkGoesOn(next: string -> Page, codec: Codec, list: seq<Item>, n: nat, k: nat, count: nat)
    requires Steps(next, codec, list, n) && n > 0 && k < count
    requires StartOf(n, count) >= |list| && (count > 1 ==> StartOf(n, count - 1) < |list|)
    ensures NthPage(next, k).hasNext <==> k + 1 < count
  {
    StartsMonotone(n, k, count - 1);
    if k + 1 < count {
      StartsMonotone(n, k + 1, count - 1);
    }
    WalkIsSlices(next, codec, list, n, k);
  }

  /**
   Following the next cursors from the first page until there is none yields the whole sorted list: no
   gap, no repeat, whatever the times.
   */
  lemma WalkYieldsList(codec: Codec, table: seq<Item>, sort: Sort, limit: int)
    requires CodecOk(codec) && DistinctUris(table) && forall x <- table :: Addressable(x)
    ensures var next := NextPages(codec, ViewOf(table), sort, limit);
      var list := Ordered(ViewOf(table), sort);
      var count := PageCount(NormalLimit(limit), |list|, 0);
      && InOrder(sort, list) && multiset(list) == multiset(table)
      && Walked(next, count) == list
      && (forall k: nat :: k < count ==> (NthPage(next, k).hasNext <==> k + 1 < count))
  {
    TableHasView(table);
    TableIsPageable(table);
    NextPagesStep(codec, ViewOf(table), sort, limit);
    WalkCovers(NextPages(codec, ViewOf(table), sort, limit), codec, Ordered(ViewOf(table), sort), NormalLimit(limit));
  }

  /** The previous cursor of a page that was walked to leads back to the page before it. */
  lemma PrevReturns(codec: Codec, view: View, sort: Sort, limit: int, k: nat)
    requires CodecOk(codec) && Pageable(view) && StartOf(NormalLimit(limit), k + 1) < |Ordered(view, sort)|
    ensures var next := NextPages(codec, view, sort, limit);
      var back := PageOf(codec, view, sort, Prev, NthPage(next, k + 1).prevCursor, limit);
      && back.items == NthPage(next, k).items
      && back.hasNext && (back.hasPrev <==> k > 0)
  {
    var next := NextPages(codec, view, sort, limit);
    NextPagesStep(codec, view, sort, limit);
    PrevOfWalk(next, codec, Ordered(view, sort), NormalLimit(limit), k);
    PageBefore(codec, view, sort, limit, StartOf(NormalLimit(limit), k + 1));
  }

  lemma PrevOfWalk(next: string -> Page, codec: Codec, list: seq<Item>, n: nat, k: nat)
    requires Steps(next, codec, list, n) && n > 0 && StartOf(n, k + 1) < |list|
    ensures var back := BackPage(codec, list, StartOf(n, k + 1), n);
      && NthPage(next, k + 1).prevCursor == Encode(codec, list[StartOf(n, k + 1)])
      && back.items == NthPage(next, k).items
      && back.hasNext && (back.hasPrev <==> k > 0)
  {
    StartsMonotone(n, k, k + 1);
    WalkIsSlices(next, codec, list, n, k);
    WalkIsSlices(next, codec, list, n, k + 1);
    PrevOfSlice(codec, list, StartOf(n, k + 1), n);
    BackOfSlice(codec, list, StartOf(n, k), n);
    if k > 0 {
      StartsMonotone(n, 1, k);
    }
  }
}
