/**
 * Order history (`getOrderHistory`). It parses `limit` and `page` with
 * `parseInt` (defaults 10 and 1) and rejects a NaN with 400. It then queries
 * the caller's orders sorted newest first, skipping `(page - 1) * limit` and
 * taking `limit`, and reports `total` and `totalPages = ceil(total / limit)`.
 */
module OrderHistory {
  import opened Wrappers
  import opened OrderModel
  import Js

  // ---------------------------------------------------------------------------
  // The query `find({ createdBy }).sort({ createdAt: -1 }).skip(..).limit(..)`
  // ---------------------------------------------------------------------------

  /** The filter `{ createdBy: userId }`: the caller's orders, each as often as it is stored. */
  function OwnedBy(orders: seq<Order>, userId: UserId): (r: seq<Order>)
    ensures forall o :: multiset(r)[o] == if o.createdBy == userId then multiset(orders)[o] else 0
  {
    if orders == [] then []
    else
      var rest := OwnedBy(orders[1..], userId);
      assert orders == [orders[0]] + orders[1..];
      if orders[0].createdBy == userId then [orders[0]] + rest else rest
  }

  /** Sorted by `createdAt`, newest first. */
  predicate NewestFirst(s: seq<Order>)
  {
    forall i, j :: 0 <= i < j < |s| ==> s[i].createdAt >= s[j].createdAt
  }

  /** Insert one order in front of the first order that is not newer than it. */
  function InsertByDate(o: Order, s: seq<Order>): seq<Order>
  {
    if s == [] || o.createdAt >= s[0].createdAt then [o] + s
    else [s[0]] + InsertByDate(o, s[1..])
  }

  /** Inserting adds exactly the one order. */
  lemma {:induction false} InsertByDateAdds(o: Order, s: seq<Order>)
    ensures multiset(InsertByDate(o, s)) == multiset(s) + multiset{o}
  {
    if s == [] || o.createdAt >= s[0].createdAt {
    } else {
      InsertByDateAdds(o, s[1..]);
      assert s == [s[0]] + s[1..];
    }
  }

  /** Inserting into a newest-first sequence keeps it newest first. */
  lemma {:induction false} InsertByDateSorted(o: Order, s: seq<Order>)
    requires NewestFirst(s)
    ensures NewestFirst(InsertByDate(o, s))
  {
    if s == [] {
    } else if o.createdAt >= s[0].createdAt {
      HeadIsNewest(s);
      PrependNewest(o, s);
    } else {
      var rest := InsertByDate(o, s[1..]);
      InsertByDateSorted(o, s[1..]);
      InsertByDateAdds(o, s[1..]);
      assert multiset(s) == multiset{s[0]} + multiset(s[1..]) by {
        assert s == [s[0]] + s[1..];
      }
      HeadIsNewest(s);
      PrependNewest(s[0], rest);
    }
  }

  /** The head of a newest-first sequence is at least as new as every element. */
  lemma HeadIsNewest(s: seq<Order>)
    requires NewestFirst(s) && s != []
    ensures forall x :: x in multiset(s) ==> x.createdAt <= s[0].createdAt
  {
    forall x | x in multiset(s)
      ensures x.createdAt <= s[0].createdAt
    {
      assert x in s;
      var j :| 0 <= j < |s| && s[j] == x;
    }
  }

  /** An order no older than anything in `s` may go in front of it. */
  lemma PrependNewest(h: Order, s: seq<Order>)
    requires NewestFirst(s)
    requires forall x :: x in multiset(s) ==> x.createdAt <= h.createdAt
    ensures NewestFirst([h] + s)
  {
    forall i, j | 0 <= i < j < |[h] + s|
      ensures ([h] + s)[i].createdAt >= ([h] + s)[j].createdAt
    {
      assert s[j - 1] in multiset(s);
      if i > 0 {
        assert ([h] + s)[i] == s[i - 1];
      }
    }
  }

  /** The sort `{ createdAt: -1 }`: a newest-first permutation of its input. */
  function SortNewestFirst(s: seq<Order>): (r: seq<Order>)
    ensures NewestFirst(r)
    ensures multiset(r) == multiset(s)
  {
    if s == [] then []
    else
      var rest := SortNewestFirst(s[1..]);
      InsertByDateSorted(s[0], rest);
      InsertByDateAdds(s[0], rest);
      assert s == [s[0]] + s[1..];
      InsertByDate(s[0], rest)
  }

  function Abs(x: int): nat
  {
    if x < 0 then -x else x
  }

  /**
   * MongoDB's skip and limit on a result: drop `skip` documents, then keep at
   * most `|limit|`. A limit of 0 means no limit; a negative limit keeps at
   * most its absolute value.
   */
  function Window(s: seq<Order>, skip: nat, limit: int): (r: seq<Order>)
    ensures |r| == if skip >= |s| then 0
                   else if limit == 0 || |s| - skip <= Abs(limit) then |s| - skip
                   else Abs(limit)
    ensures forall k :: 0 <= k < |r| ==> r[k] == s[skip + k]
  {
    var from := if skip < |s| then skip else |s|;
    var to := if limit == 0 || from + Abs(limit) > |s| then |s| else from + Abs(limit);
    s[from..to]
  }

  // ---------------------------------------------------------------------------
  // The handler
  // ---------------------------------------------------------------------------

  /** A JavaScript number that `Math.ceil(total / limit)` can produce. */
  datatype PageCount = Finite(n: int) | Infinite | NotANumber

  /** `Math.ceil(total / limit)`, including division by zero. */
  function TotalPages(total: nat, limit: int): (r: PageCount)
    ensures r.Finite? <==> limit != 0
    ensures r == NotANumber <==> limit == 0 && total == 0
  {
    if limit != 0 then Finite(Js.CeilDiv(total, limit))
    else if total == 0 then NotANumber
    else Infinite
  }

  /** The replies: 200 with a page, 400 for NaN pagination, 500 when the query throws. */
  datatype HistoryReply =
    | History(data: seq<Order>, page: int, limit: int, total: nat, totalPages: PageCount)
    | InvalidPagination
    | QueryFailed

  /** The HTTP status of each reply. */
  function HistoryStatusCode(r: HistoryReply): (code: int)
    ensures code == 200 <==> r.History?
    ensures code == 400 <==> r.InvalidPagination?
    ensures code == 500 <==> r.QueryFailed?
  {
    match r
    case History(_, _, _, _, _) => 200
    case InvalidPagination => 400
    case QueryFailed => 500
  }

  /** The response message of each reply. */
  function HistoryMessage(r: HistoryReply): string
  {
    match r
    case History(_, _, _, _, _) => "Success get order history"
    case InvalidPagination => "Invalid pagination parameters"
    case QueryFailed => "Failed to get order history"
  }

  const DefaultLimit := 10
  const DefaultPage := 1

  /**
   * The text `parseInt` receives. It is the query value's `toString()`, or the
   * default number's when the parameter is absent.
   */
  function ParamText(param: Option<string>, default: int): string
  {
    if param.Some? then param.value else Js.IntString(default)
  }

  /**
   * The query once both parameters parsed, with `skip = (page - 1) * limit`
   * already computed. A negative skip is refused by the database, which the
   * handler turns into a 500.
   */
  function Paginate(orders: seq<Order>, userId: UserId, page: int, limit: int, skip: int): (r: HistoryReply)
    ensures r == QueryFailed <==> skip < 0
    ensures r.History? ==> r.page == page && r.limit == limit && r.total == |OwnedBy(orders, userId)|
  {
    if skip < 0 then QueryFailed
    else
      var mine := OwnedBy(orders, userId);
      History(Window(SortNewestFirst(mine), skip, limit), page, limit, |mine|, TotalPages(|mine|, limit))
  }

  /** `getOrderHistory` for the caller `userId` over the stored orders. */
  function GetOrderHistory(orders: seq<Order>, userId: UserId, limitParam: Option<string>, pageParam: Option<string>): (r: HistoryReply)
    ensures r.InvalidPagination? <==>
      Js.ParseInt(ParamText(limitParam, DefaultLimit)).None? || Js.ParseInt(ParamText(pageParam, DefaultPage)).None?
  {
    var limit := Js.ParseInt(ParamText(limitParam, DefaultLimit));
    var page := Js.ParseInt(ParamText(pageParam, DefaultPage));
    if limit.None? || page.None? then InvalidPagination
    else Paginate(orders, userId, page.value, limit.value, Skip(page.value, limit.value))
  }

  /** `(page - 1) * limit`, the number of documents before the page. */
  function Skip(page: int, limit: int): int
  {
    (page - 1) * limit
  }

  /** The caller's orders as the query sorts them. */
  function CallersNewestFirst(orders: seq<Order>, userId: UserId): (r: seq<Order>)
    ensures NewestFirst(r)
    ensures forall o :: multiset(r)[o] == if o.createdBy == userId then multiset(orders)[o] else 0
    ensures |r| == |OwnedBy(orders, userId)|
  {
    var mine := OwnedBy(orders, userId);
    var sorted := SortNewestFirst(mine);
    assert |sorted| == |multiset(sorted)| == |multiset(mine)| == |mine|;
    sorted
  }

  /** `Math.ceil(total / limit)` for a positive limit is the least page count covering `total`. */
  lemma TotalPagesIsCeiling(total: nat, limit: int)
    requires limit > 0
    ensures TotalPages(total, limit).Finite?
    ensures var n := TotalPages(total, limit).n; (n - 1) * limit < total <= n * limit
  {
  }

  /** Numeric parameters written in decimal reach the query unchanged. */
  lemma {:induction false} DecimalParams(orders: seq<Order>, userId: UserId, page: int, limit: int)
    ensures GetOrderHistory(orders, userId, Some(Js.IntString(limit)), Some(Js.IntString(page)))
         == Paginate(orders, userId, page, limit, Skip(page, limit))
  {
    var limitText, pageText := Js.IntString(limit), Js.IntString(page);
    Js.ParseIntOfDecimal(limit, "");
    Js.ParseIntOfDecimal(page, "");
    assert limitText + "" == limitText && pageText + "" == pageText;
    assert ParamText(Some(limitText), DefaultLimit) == limitText;
    assert ParamText(Some(pageText), DefaultPage) == pageText;
    ParsedParams(orders, userId, Some(limitText), Some(pageText), page, limit);
  }

  /** A parsed query answers with the page its parameters select. */
  lemma {:induction false} ParsedParamsPaginate(orders: seq<Order>, userId: UserId, limitParam: Option<string>, pageParam: Option<string>)
    ensures var r := GetOrderHistory(orders, userId, limitParam, pageParam);
            r.History? ==> r == Paginate(orders, userId, r.page, r.limit, Skip(r.page, r.limit))
  {
  }

  /** A window of a newest-first sequence is newest first, and takes its elements from it. */
  lemma WindowOfNewestFirst(s: seq<Order>, skip: nat, limit: int)
    requires NewestFirst(s)
    ensures NewestFirst(Window(s, skip, limit))
    ensures forall k :: 0 <= k < |Window(s, skip, limit)| ==> Window(s, skip, limit)[k] in s
  {
    var w := Window(s, skip, limit);
    forall i, j | 0 <= i < j < |w|
      ensures w[i].createdAt >= w[j].createdAt
    {
      assert w[i] == s[skip + i] && w[j] == s[skip + j];
    }
  }

  /** The sorted result holds only the caller's stored orders. */
  lemma CallersOrdersOnly(orders: seq<Order>, userId: UserId, o: Order)
    requires o in CallersNewestFirst(orders, userId)
    ensures o in orders && o.createdBy == userId
  {
    var sorted := CallersNewestFirst(orders, userId);
    assert o in multiset(sorted);
    assert o in multiset(orders);
  }

  /** Every document of a page is one of the caller's stored orders, and the page is newest first. */
  lemma PageHoldsCallersOrders(orders: seq<Order>, userId: UserId, page: int, limit: int, skip: int)
    ensures var r := Paginate(orders, userId, page, limit, skip);
            r.History? ==>
              && (forall k :: 0 <= k < |r.data| ==> r.data[k] in orders && r.data[k].createdBy == userId)
              && NewestFirst(r.data)
              && (limit != 0 ==> |r.data| <= Abs(limit))
              && r.total == |CallersNewestFirst(orders, userId)|
  {
    if skip >= 0 {
      var sorted := CallersNewestFirst(orders, userId);
      var r := Paginate(orders, userId, page, limit, skip);
      assert r.data == Window(sorted, skip, limit);
      WindowOfNewestFirst(sorted, skip, limit);
      forall k | 0 <= k < |r.data|
        ensures r.data[k] in orders && r.data[k].createdBy == userId
      {
        CallersOrdersOnly(orders, userId, r.data[k]);
      }
    }
  }

  /**
   * A page holds only the caller's stored orders, newest first, and at most
   * `|limit|` of them when the limit is not 0. `total` counts all of the
   * caller's orders.
   */
  lemma HistoryHoldsCallersOrdersNewestFirst(orders: seq<Order>, userId: UserId, limitParam: Option<string>, pageParam: Option<string>)
    ensures var r := GetOrderHistory(orders, userId, limitParam, pageParam);
            r.History? ==>
              && (forall k :: 0 <= k < |r.data| ==> r.data[k] in orders && r.data[k].createdBy == userId)
              && NewestFirst(r.data)
              && (r.limit != 0 ==> |r.data| <= Abs(r.limit))
              && r.total == |CallersNewestFirst(orders, userId)|
  {
    var r := GetOrderHistory(orders, userId, limitParam, pageParam);
    if r.History? {
      ParsedParamsPaginate(orders, userId, limitParam, pageParam);
      PageHoldsCallersOrders(orders, userId, r.page, r.limit, Skip(r.page, r.limit));
    }
  }

  /** A non-negative skip selects the documents from `skip` on, at most `limit` of them. */
  lemma PaginateWindow(orders: seq<Order>, userId: UserId, page: int, limit: int, skip: int)
    requires limit > 0 && skip >= 0
    ensures var r := Paginate(orders, userId, page, limit, skip);
            var sorted := CallersNewestFirst(orders, userId);
            && r.History? && r.page == page && r.limit == limit && r.total == |sorted|
            && |r.data| == (if skip >= |sorted| then 0 else if |sorted| - skip <= limit then |sorted| - skip else limit)
            && (forall k :: 0 <= k < |r.data| ==> r.data[k] == sorted[skip + k])
            && r.totalPages == TotalPages(|sorted|, limit)
  {
  }

  lemma SkipOfPage(page: int, limit: int)
    requires limit > 0
    ensures page >= 1 ==> Skip(page, limit) >= 0
    ensures page <= 0 ==> Skip(page, limit) < 0
  {
  }

  /** Parameters that parse reach the query with their parsed values. */
  lemma {:induction false} ParsedParams(
    orders: seq<Order>, userId: UserId, limitParam: Option<string>, pageParam: Option<string>, page: int, limit: int)
    requires Js.ParseInt(ParamText(limitParam, DefaultLimit)) == Some(limit)
    requires Js.ParseInt(ParamText(pageParam, DefaultPage)) == Some(page)
    ensures GetOrderHistory(orders, userId, limitParam, pageParam) == Paginate(orders, userId, page, limit, Skip(page, limit))
  {
  }

  /**
   * For parameters that parse to a positive limit and a page from 1 on, the
   * reply is page `page` of the caller's orders: entries `(page - 1) * limit`
   * onward, at most `limit` of them. `totalPages` is `Math.ceil(total / limit)`,
   * whose meaning TotalPagesIsCeiling states.
   */
  lemma HistoryPage(
    orders: seq<Order>, userId: UserId, limitParam: Option<string>, pageParam: Option<string>, page: int, limit: int)
    requires limit > 0 && page >= 1
    requires Js.ParseInt(ParamText(limitParam, DefaultLimit)) == Some(limit)
    requires Js.ParseInt(ParamText(pageParam, DefaultPage)) == Some(page)
    ensures var r := GetOrderHistory(orders, userId, limitParam, pageParam);
            var sorted := CallersNewestFirst(orders, userId);
            var skip := Skip(page, limit);
            && r.History? && r.page == page && r.limit == limit && r.total == |sorted|
            && |r.data| == (if skip >= |sorted| then 0 else if |sorted| - skip <= limit then |sorted| - skip else limit)
            && (forall k :: 0 <= k < |r.data| ==> r.data[k] == sorted[skip + k])
            && r.totalPages == TotalPages(|sorted|, limit)
  {
    SkipOfPage(page, limit);
    ParsedParams(orders, userId, limitParam, pageParam, page, limit);
    PaginateWindow(orders, userId, page, limit, Skip(page, limit));
  }

  /**
   * Absent parameters mean `limit=10` and `page=1`: the caller's ten newest
   * orders.
   */
  lemma HistoryDefaults(orders: seq<Order>, userId: UserId)
    ensures var r := GetOrderHistory(orders, userId, None, None);
            var sorted := CallersNewestFirst(orders, userId);
            && r.History? && r.page == 1 && r.limit == 10
            && r.data == sorted[..if |sorted| <= 10 then |sorted| else 10]
  {
    DefaultsParse();
    HistoryPage(orders, userId, None, None, DefaultPage, DefaultLimit);
    var r := GetOrderHistory(orders, userId, None, None);
    var sorted := CallersNewestFirst(orders, userId);
    assert Skip(DefaultPage, DefaultLimit) == 0;
    assert |r.data| == if |sorted| <= 10 then |sorted| else 10;
    assert forall k :: 0 <= k < |r.data| ==> r.data[k] == sorted[k];
    assert r.data == sorted[..|r.data|];
  }

  lemma DefaultsParse()
    ensures Js.ParseInt(ParamText(None, DefaultLimit)) == Some(DefaultLimit)
    ensures Js.ParseInt(ParamText(None, DefaultPage)) == Some(DefaultPage)
  {
    Js.ParseIntOfDecimal(DefaultLimit, "");
    Js.ParseIntOfDecimal(DefaultPage, "");
    assert Js.IntString(DefaultLimit) + "" == ParamText(None, DefaultLimit);
    assert Js.IntString(DefaultPage) + "" == ParamText(None, DefaultPage);
  }

  /**
   * `?page=2&limit=10`, or any parameters that parse to those numbers,
   * returns the caller's 11th to 20th newest orders.
   */
  lemma SecondPageOfTen(orders: seq<Order>, userId: UserId, limitParam: Option<string>, pageParam: Option<string>)
    requires Js.ParseInt(ParamText(limitParam, DefaultLimit)) == Some(10)
    requires Js.ParseInt(ParamText(pageParam, DefaultPage)) == Some(2)
    ensures var r := GetOrderHistory(orders, userId, limitParam, pageParam);
            var sorted := CallersNewestFirst(orders, userId);
            && r.History?
            && |r.data| == (if |sorted| <= 10 then 0 else if |sorted| <= 20 then |sorted| - 10 else 10)
            && (forall k :: 0 <= k < |r.data| ==> r.data[k] == sorted[10 + k])
  {
    HistoryPage(orders, userId, limitParam, pageParam, 2, 10);
    assert Skip(2, 10) == 10;
  }

  /** A parameter that is present but empty, such as `?limit=`, is NaN: 400, no query. */
  lemma EmptyParamRejected(orders: seq<Order>, userId: UserId, other: Option<string>)
    ensures GetOrderHistory(orders, userId, Some(""), other) == InvalidPagination
    ensures GetOrderHistory(orders, userId, other, Some("")) == InvalidPagination
  {
  }

  /** With a positive limit, page 0 or below makes the skip negative: the query fails with 500. */
  lemma NonPositivePageFails(orders: seq<Order>, userId: UserId, page: int, limit: int)
    requires limit > 0 && page <= 0
    ensures GetOrderHistory(orders, userId, Some(Js.IntString(limit)), Some(Js.IntString(page))) == QueryFailed
  {
    SkipOfPage(page, limit);
    DecimalParams(orders, userId, page, limit);
  }

  /**
   * Nothing checks that the limit is positive. `limit=0` returns every order
   * of the caller, whatever the page, and `totalPages` is NaN (no orders) or
   * Infinity.
   */
  lemma ZeroLimitReturnsEverything(orders: seq<Order>, userId: UserId, page: int)
    ensures var r := GetOrderHistory(orders, userId, Some(Js.IntString(0)), Some(Js.IntString(page)));
            var sorted := CallersNewestFirst(orders, userId);
            && r.History? && r.data == sorted
            && r.totalPages == (if |sorted| == 0 then NotANumber else Infinite)
  {
    DecimalParams(orders, userId, page, 0);
    assert Skip(page, 0) == 0;
    PaginateWithoutLimit(orders, userId, page);
  }

  lemma PaginateWithoutLimit(orders: seq<Order>, userId: UserId, page: int)
    ensures var r := Paginate(orders, userId, page, 0, 0);
            var sorted := CallersNewestFirst(orders, userId);
            && r.History? && r.data == sorted
            && r.totalPages == (if |sorted| == 0 then NotANumber else Infinite)
  {
    var sorted := CallersNewestFirst(orders, userId);
    assert Window(sorted, 0, 0) == sorted[0..|sorted|] == sorted;
  }

  // ---------------------------------------------------------------------------
  // Timestamps stamped at insertion fix the history order
  // ---------------------------------------------------------------------------

  /** No two different orders in `m` share a timestamp. */
  predicate DistinctStamps(m: multiset<Order>)
  {
    forall x, y :: x in m && y in m && x.createdAt == y.createdAt ==> x == y
  }

  /** Orders stamped by their insertion position have distinct timestamps. */
  lemma StampedOrdersHaveDistinctStamps(orders: seq<Order>)
    requires StampedInOrder(orders)
    ensures DistinctStamps(multiset(orders))
  {
    forall x, y | x in multiset(orders) && y in multiset(orders) && x.createdAt == y.createdAt
      ensures x == y
    {
      assert x in orders && y in orders;
      var i :| 0 <= i < |orders| && orders[i] == x;
      var j :| 0 <= j < |orders| && orders[j] == y;
    }
  }

  /**
   * When timestamps are distinct there is only one newest-first arrangement
   * of a collection of orders.
   */
  lemma {:induction false} NewestFirstIsUnique(a: seq<Order>, b: seq<Order>)
    requires NewestFirst(a) && NewestFirst(b)
    requires multiset(a) == multiset(b) && DistinctStamps(multiset(a))
    ensures a == b
  {
    if a != [] && b != [] {
      HeadIsNewest(a);
      HeadIsNewest(b);
      assert a[0] in multiset(b) && b[0] in multiset(a);
      assert a[0] == b[0];
      var ta, tb := a[1..], b[1..];
      assert multiset(a) == multiset{a[0]} + multiset(ta) by {
        assert a == [a[0]] + ta;
      }
      assert multiset(b) == multiset{b[0]} + multiset(tb) by {
        assert b == [b[0]] + tb;
      }
      TailNewestFirst(a);
      TailNewestFirst(b);
      FewerStampsStayDistinct(multiset(a), multiset(ta));
      NewestFirstIsUnique(ta, tb);
    } else {
      assert |a| == |multiset(a)| == |multiset(b)| == |b|;
    }
  }

  lemma TailNewestFirst(s: seq<Order>)
    requires NewestFirst(s) && s != []
    ensures NewestFirst(s[1..])
  {
    var t := s[1..];
    forall i, j | 0 <= i < j < |t|
      ensures t[i].createdAt >= t[j].createdAt
    {
      assert t[i] == s[i + 1] && t[j] == s[j + 1];
    }
  }

  lemma FewerStampsStayDistinct(m: multiset<Order>, sub: multiset<Order>)
    requires sub <= m && DistinctStamps(m)
    ensures DistinctStamps(sub)
  {
    forall x, y | x in sub && y in sub && x.createdAt == y.createdAt
      ensures x == y
    {
      assert x in m && y in m;
    }
  }

  /**
   * For orders stamped at insertion, as the store keeps them, any
   * newest-first arrangement of the caller's orders is the one the query
   * returns: the sort's handling of equal timestamps never matters.
   */
  lemma StampedHistoryIsUnique(orders: seq<Order>, userId: UserId, s: seq<Order>)
    requires StampedInOrder(orders)
    requires NewestFirst(s)
    requires forall o :: multiset(s)[o] == if o.createdBy == userId then multiset(orders)[o] else 0
    ensures s == CallersNewestFirst(orders, userId)
  {
    var sorted := CallersNewestFirst(orders, userId);
    assert multiset(s) == multiset(sorted);
    StampedOrdersHaveDistinctStamps(orders);
    assert multiset(s) <= multiset(orders);
    FewerStampsStayDistinct(multiset(orders), multiset(s));
    NewestFirstIsUnique(s, sorted);
  }
}
