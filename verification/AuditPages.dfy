/** Pages of the audit route read by one query each, which may order rows of one time differently. */
module AuditPages {
  import opened Filters
  import opened AuditRoute

  /** The OFFSET of a page: limit rows for each page before it. */
  function Start(page: nat, limit: nat): nat {
    if page == 0 then 0 else Start(page - 1, limit) + limit
  }

  lemma {:induction false} StartIs(page: nat, limit: nat)
    ensures Start(page, limit) == page * limit
  {
    if page > 0 {
      StartIs(page - 1, limit);
    }
  }

  /** Page i is read from the order that the i-th query gave. */
  function PagesFrom(orders: seq<seq<UsageRow>>, limit: nat): seq<UsageRow> {
    if orders == [] then []
    else
      var k := |orders| - 1;
      PagesFrom(orders[..k], limit) + Page(orders[k], limit, Start(k, limit))
  }

  ghost predicate AllOrders(orders: seq<seq<UsageRow>>, rows: seq<UsageRow>) {
    forall i :: 0 <= i < |orders| ==> IsOrder(orders[i], rows)
  }

  /** The rows before and after position c differ in time, or there is no row on one side. */
  predicate NoTieAt(order: seq<UsageRow>, c: nat) {
    0 < c < |order| ==> order[c - 1].at > order[c].at
  }

  predicate NoTieBefore(order: seq<UsageRow>, limit: nat, page: nat) {
    NoTieAt(order, Start(page, limit))
  }

  ghost predicate NoTies(order: seq<UsageRow>, limit: nat) {
    forall page: nat :: NoTieBefore(order, limit, page)
  }

  ghost predicate Distinct(rows: seq<UsageRow>) {
    forall i, j :: 0 <= i < j < |rows| ==> rows[i] != rows[j]
  }

  // ----- Any two orders agree, as bags, up to a position without a tie

  function NoOlder(at: int): UsageRow -> bool {
    (row: UsageRow) => row.at >= at
  }

  lemma {:induction false} MatchingCount(rows: seq<UsageRow>, keep: UsageRow -> bool, row: UsageRow)
    ensures Matching(rows, keep)[row] == if keep(row) then multiset(rows)[row] else 0
  {
    if rows != [] {
      var n := |rows| - 1;
      MatchingCount(rows[..n], keep, row);
      assert rows == rows[..n] + [rows[n]];
    }
  }

  lemma MatchingOfSame(a: seq<UsageRow>, b: seq<UsageRow>, keep: UsageRow -> bool)
    requires multiset(a) == multiset(b)
    ensures Matching(a, keep) == Matching(b, keep)
  {
    forall row: UsageRow ensures Matching(a, keep)[row] == Matching(b, keep)[row] {
      MatchingCount(a, keep, row);
      MatchingCount(b, keep, row);
    }
  }

  /** The first rows of an order, down to a time, are exactly its rows of that time or later. */
  predicate SplitsAt(order: seq<UsageRow>, at: int, c: nat) {
    && c <= |order|
    && (forall i :: 0 <= i < c ==> order[i].at >= at)
    && (forall i :: c <= i < |order| ==> order[i].at < at)
  }

  lemma PrefixCount(order: seq<UsageRow>, at: int, c: nat, row: UsageRow)
    requires SplitsAt(order, at, c)
    ensures multiset(order[..c])[row] == if row.at >= at then multiset(order)[row] else 0
  {
    var before, after := order[..c], order[c..];
    assert order == before + after;
    assert row in before ==> row.at >= at;
    assert row in after ==> row.at < at;
  }

  lemma MatchingIsPrefix(order: seq<UsageRow>, at: int, c: nat)
    requires SplitsAt(order, at, c)
    ensures Matching(order, NoOlder(at)) == multiset(order[..c])
  {
    forall row: UsageRow ensures Matching(order, NoOlder(at))[row] == multiset(order[..c])[row] {
      MatchingCount(order, NoOlder(at), row);
      PrefixCount(order, at, c, row);
    }
  }

  lemma {:induction false} FindSplit(order: seq<UsageRow>, at: int) returns (c: nat)
    requires NewestFirst(order)
    ensures SplitsAt(order, at, c)
    decreases |order|
  {
    c := |order|;
    if order != [] && order[|order| - 1].at < at {
      c := FindSplit(order[..|order| - 1], at);
    }
  }

  lemma PrefixesAgree(a: seq<UsageRow>, b: seq<UsageRow>, c: nat)
    requires NewestFirst(a) && IsOrder(b, a) && c <= |a| && NoTieAt(a, c)
    ensures |b| == |a| && multiset(b[..c]) == multiset(a[..c])
  {
    assert |multiset(a)| == |a| && |multiset(b)| == |b|;
    if c == |a| {
      assert a[..c] == a && b[..c] == b;
    } else if c > 0 {
      var at := a[c - 1].at;
      var d := FindSplit(b, at);
      MatchingIsPrefix(a, at, c);
      MatchingIsPrefix(b, at, d);
      MatchingOfSame(a, b, NoOlder(at));
      assert |multiset(a[..c])| == c && |multiset(b[..d])| == d;
    }
  }

  // ----- Without ties the pages are the rows

  function Least(a: nat, b: nat): nat {
    if a <= b then a else b
  }

  lemma PageIsSlice(order: seq<UsageRow>, limit: nat, page: nat)
    ensures
      var from, to := Least(Start(page, limit), |order|), Least(Start(page + 1, limit), |order|);
      from <= to && multiset(order[..to]) == multiset(order[..from]) + multiset(Page(order, limit, Start(page, limit)))
  {
    var from, to := Least(Start(page, limit), |order|), Least(Start(page + 1, limit), |order|);
    assert order[..to] == order[..from] + Page(order, limit, Start(page, limit));
  }

  lemma AgreeBefore(a: seq<UsageRow>, b: seq<UsageRow>, limit: nat, page: nat)
    requires NewestFirst(a) && IsOrder(b, a) && NoTies(a, limit)
    ensures |b| == |a|
    ensures multiset(b[..Least(Start(page, limit), |a|)]) == multiset(a[..Least(Start(page, limit), |a|)])
  {
    assert NoTieBefore(a, limit, page);
    PrefixesAgree(a, b, Least(Start(page, limit), |a|));
  }

  lemma {:induction false} PagesArePrefix(orders: seq<seq<UsageRow>>, a: seq<UsageRow>, limit: nat)
    requires NewestFirst(a) && AllOrders(orders, a) && NoTies(a, limit)
    ensures multiset(PagesFrom(orders, limit)) == multiset(a[..Least(Start(|orders|, limit), |a|)])
  {
    if orders != [] {
      var k := |orders| - 1;
      PagesArePrefix(orders[..k], a, limit);
      assert IsOrder(orders[k], a);
      AgreeBefore(a, orders[k], limit, k);
      AgreeBefore(a, orders[k], limit, k + 1);
      PageIsSlice(orders[k], limit, k);
    }
  }

  // ----- A tie across a page boundary can lose a row

  lemma OnPage(order: seq<UsageRow>, limit: nat, offset: nat, row: UsageRow) returns (p: nat)
    requires row in Page(order, limit, offset)
    ensures offset <= p < offset + limit && p < |order| && order[p] == row
  {
    var rows := Page(order, limit, offset);
    var i :| 0 <= i < |rows| && rows[i] == row;
    p := offset + i;
  }

  lemma {:induction false} OnSomePage(orders: seq<seq<UsageRow>>, limit: nat, row: UsageRow) returns (page: nat)
    requires row in PagesFrom(orders, limit)
    ensures page < |orders| && row in Page(orders[page], limit, Start(page, limit))
    decreases |orders|
  {
    page := |orders| - 1;
    if row !in Page(orders[page], limit, Start(page, limit)) {
      page := OnSomePage(orders[..page], limit, row);
    }
  }

  /** The order with the two rows at c exchanged. */
  function Exchanged(order: seq<UsageRow>, c: nat): seq<UsageRow>
    requires 0 < c < |order|
  {
    order[c - 1 := order[c]][c := order[c - 1]]
  }

  lemma ExchangedIsOrder(order: seq<UsageRow>, c: nat)
    requires NewestFirst(order) && 0 < c < |order| && order[c - 1].at == order[c].at
    ensures IsOrder(Exchanged(order, c), order)
  {
    ExchangedIsPermutation(order, c);
    var other := Exchanged(order, c);
    forall i, j | 0 <= i < j < |other| ensures other[i].at >= other[j].at {
      assert other[i].at == order[i].at && other[j].at == order[j].at;
    }
  }

  lemma ExchangedIsPermutation(order: seq<UsageRow>, c: nat)
    requires 0 < c < |order|
    ensures multiset(Exchanged(order, c)) == multiset(order)
  {
    var before, after := order[..c - 1], order[c + 1..];
    assert order == before + [order[c - 1], order[c]] + after;
    assert Exchanged(order, c) == before + [order[c], order[c - 1]] + after;
  }

  lemma {:induction false} StartsGrow(page: nat, other: nat, limit: nat)
    requires page < other
    ensures Start(page, limit) + limit <= Start(other, limit)
  {
    if page < other - 1 {
      StartsGrow(page, other - 1, limit);
    }
  }

  lemma SamePage(limit: nat, page: nat, other: nat, p: nat)
    requires Start(page, limit) <= p < Start(page, limit) + limit
    requires Start(other, limit) <= p < Start(other, limit) + limit
    ensures page == other
  {
    if page < other {
      StartsGrow(page, other, limit);
      assert false;
    } else if other < page {
      StartsGrow(other, page, limit);
      assert false;
    }
  }

  /** With a tie across a page boundary, one query that breaks it the other way leaves a row on no page at all. */
  lemma TieLosesARow(order: seq<UsageRow>, limit: nat, pages: nat, page: nat) returns (orders: seq<seq<UsageRow>>)
    requires NewestFirst(order) && Distinct(order) && page < pages && !NoTieBefore(order, limit, page)
    ensures |orders| == pages && AllOrders(orders, order)
    ensures order[Start(page, limit)] !in PagesFrom(orders, limit)
  {
    var c := Start(page, limit);
    orders := seq(pages, i => if i == page then Exchanged(order, c) else order);
    ExchangedIsOrder(order, c);
    if order[c] in PagesFrom(orders, limit) {
      var other := OnSomePage(orders, limit, order[c]);
      var p := OnPage(orders[other], limit, Start(other, limit), order[c]);
      if other != page {
        assert p == c;
        SamePage(limit, page, other, p);
      }
    }
  }

  /** Do the pages give every row exactly once, however each query breaks its ties? */
  ghost predicate AlwaysCover(order: seq<UsageRow>, limit: nat, pages: nat) {
    forall orders: seq<seq<UsageRow>> ::
      |orders| == pages && AllOrders(orders, order) ==> multiset(PagesFrom(orders, limit)) == multiset(order)
  }

  /** They do exactly when no two rows of one time lie on both sides of a page boundary. */
  lemma AlwaysCoverIff(order: seq<UsageRow>, limit: nat, pages: nat)
    requires NewestFirst(order) && Distinct(order) && |order| <= Start(pages, limit)
    ensures AlwaysCover(order, limit, pages) <==> NoTies(order, limit)
  {
    if NoTies(order, limit) {
      forall orders: seq<seq<UsageRow>> | |orders| == pages && AllOrders(orders, order)
        ensures multiset(PagesFrom(orders, limit)) == multiset(order)
      {
        PagesArePrefix(orders, order, limit);
        assert order[..|order|] == order;
      }
    } else {
      var page: nat :| !NoTieBefore(order, limit, page);
      if pages < page {
        StartsGrow(pages, page, limit);
      }
      var orders := TieLosesARow(order, limit, pages, page);
      assert order[Start(page, limit)] in multiset(order);
      assert order[Start(page, limit)] !in multiset(PagesFrom(orders, limit));
    }
  }
}
