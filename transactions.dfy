/** `GET /api/transactions`: one page of the signed-in user's ledger, newest
    first, optionally restricted to one type and one status, with the total
    number of matching rows and the number of pages. */
module Transactions {
  import opened Base
  import opened Database

  /** The query string: `page` and `limit` as `parseInt` reads them (None when
      absent or empty), and the two optional filters. */
  datatype Query = Query(page: Option<int>, limit: Option<int>, kind: Option<string>, status: Option<string>)

  const FetchFailed := Response(500, Error("Failed to fetch transactions"))

  function Page(q: Query): int
  {
    if q.page.Some? then q.page.value else 1
  }

  function Limit(q: Query): int
  {
    if q.limit.Some? then q.limit.value else 10
  }

  /** The row belongs to the user and passes each filter that is given. */
  predicate Selected(t: Tx, user: UserId, q: Query)
  {
    t.userId == user &&
    (!Given(q.kind) || t.kind.Name() == q.kind.value) &&
    (!Given(q.status) || t.status.Name() == q.status.value)
  }

  function Filter(txs: seq<Tx>, user: UserId, q: Query): (r: seq<Tx>)
    ensures forall t :: t in r ==> Selected(t, user, q)
    ensures forall t :: t in txs && Selected(t, user, q) ==> t in r
    ensures |r| <= |txs|
    // every selected row is kept as often as the ledger holds it, and no other row is
    ensures forall t :: multiset(r)[t] == if Selected(t, user, q) then multiset(txs)[t] else 0
  {
    if txs == [] then []
    else
      var rest := Filter(txs[1..], user, q);
      assert txs == [txs[0]] + txs[1..];
      assert multiset(txs) == multiset{txs[0]} + multiset(txs[1..]);
      if Selected(txs[0], user, q) then [txs[0]] + rest else rest
  }

  predicate NewestFirstOrder(s: seq<Tx>)
  {
    forall i, j :: 0 <= i < j < |s| ==> s[i].createdAt >= s[j].createdAt
  }

  /** The first row of a newest-first sequence is at least as new as every other. */
  lemma HeadIsNewest(s: seq<Tx>)
    requires NewestFirstOrder(s) && s != []
    ensures forall x :: x in s[1..] ==> x.createdAt <= s[0].createdAt
  {
    forall x | x in s[1..] ensures x.createdAt <= s[0].createdAt {
      var j :| 0 <= j < |s[1..]| && s[1..][j] == x;
      assert x == s[j + 1];
    }
  }

  lemma PrependKeepsOrder(head: Tx, rest: seq<Tx>)
    requires NewestFirstOrder(rest)
    requires forall x :: x in rest ==> x.createdAt <= head.createdAt
    ensures NewestFirstOrder([head] + rest)
  {
    forall i, j | 0 <= i < j < |[head] + rest|
      ensures ([head] + rest)[i].createdAt >= ([head] + rest)[j].createdAt
    {
      if i > 0 {
        assert ([head] + rest)[i] == rest[i - 1];
      }
      assert ([head] + rest)[j] == rest[j - 1];
      assert rest[j - 1] in rest;
    }
  }

  /** Places `t` after every row at least as new, keeping `s` newest first. */
  function Insert(t: Tx, s: seq<Tx>): (r: seq<Tx>)
    requires NewestFirstOrder(s)
    ensures NewestFirstOrder(r)
    ensures multiset(r) == multiset(s) + multiset{t}
    ensures |r| == |s| + 1 && forall x :: x in r ==> x == t || x in s
  {
    if s == [] then [t]
    else if s[0].createdAt < t.createdAt then
      PrependKeepsOrder(t, s);
      [t] + s
    else
      var rest := Insert(t, s[1..]);
      HeadIsNewest(s);
      PrependKeepsOrder(s[0], rest);
      assert s == [s[0]] + s[1..];
      [s[0]] + rest
  }

  /** `.order('created_at', { ascending: false })`; rows with equal
      timestamps keep the order in which the ledger holds them. */
  function NewestFirst(s: seq<Tx>): (r: seq<Tx>)
    ensures NewestFirstOrder(r)
    ensures multiset(r) == multiset(s)
    ensures |r| == |s| && forall t :: t in r ==> t in s
  {
    if s == [] then []
    else
      var (init, last) := (s[..|s| - 1], s[|s| - 1]);
      assert s == init + [last];
      assert forall x :: x in init ==> x in s;
      Insert(last, NewestFirst(init))
  }

  /** `.range(offset, offset + limit - 1)`: the rows at those positions that exist. */
  function Window(s: seq<Tx>, offset: nat, limit: nat): (r: seq<Tx>)
    ensures |r| <= limit
    ensures offset >= |s| ==> r == []
    ensures offset < |s| ==> |r| == if offset + limit <= |s| then limit else |s| - offset
    ensures forall k :: 0 <= k < |r| ==> offset + k < |s| && r[k] == s[offset + k]
  {
    if offset >= |s| then []
    else if offset + limit <= |s| then s[offset..offset + limit]
    else s[offset..]
  }

  /** `Math.ceil(total / limit)`. */
  function TotalPages(total: nat, limit: int): (n: nat)
    requires limit >= 1
    ensures n * limit >= total
    ensures n == 0 || (n - 1) * limit < total
    ensures total == 0 <==> n == 0
  {
    (total + limit - 1) / limit
  }

  /** `(page - 1) * limit`: the position of the page's first row. */
  function Offset(q: Query): nat
    requires Page(q) >= 1 && Limit(q) >= 1
  {
    (Page(q) - 1) * Limit(q)
  }

  /** The rows of the requested page. */
  function PageOf(txs: seq<Tx>, user: UserId, q: Query): (r: seq<Tx>)
    requires Page(q) >= 1 && Limit(q) >= 1
    ensures |r| <= Limit(q)
    ensures r == [] <==> Offset(q) >= |Filter(txs, user, q)|
    // the page is the run of the newest-first matching rows that starts at its offset, all of it that exists
    ensures forall k :: 0 <= k < |r| ==>
              var sorted := NewestFirst(Filter(txs, user, q));
              Offset(q) + k < |sorted| && r[k] == sorted[Offset(q) + k]
    ensures Offset(q) < |Filter(txs, user, q)| ==>
              |r| == if Offset(q) + Limit(q) <= |Filter(txs, user, q)| then Limit(q) else |Filter(txs, user, q)| - Offset(q)
    // every row shown is the user's, passes the filters, and is at least as new as the next
    ensures forall t :: t in r ==> Selected(t, user, q)
    ensures NewestFirstOrder(r)
  {
    var matching := Filter(txs, user, q);
    var sorted := NewestFirst(matching);
    Window(sorted, Offset(q), Limit(q))
  }

  function GetSpec(db: Db, user: Option<AuthUser>, q: Query, queryFails: bool): (r: Response)
    requires Page(q) >= 1 && Limit(q) >= 1
    ensures user.None? ==> r == Unauthorized
    ensures user.Some? && queryFails ==> r == FetchFailed
    ensures user.Some? && !queryFails ==>
              r.status == 200 && r.body.Listing? &&
              r.body.transactions == PageOf(db.txs, user.value.id, q) &&
              var total := |Filter(db.txs, user.value.id, q)|;
              r.body.pagination == Pagination(Page(q), Limit(q), total, TotalPages(total, Limit(q)))
  {
    if user.None? then Unauthorized
    else if queryFails then FetchFailed
    else
      var total := |Filter(db.txs, user.value.id, q)|;
      Response(200, Listing(PageOf(db.txs, user.value.id, q),
                            Pagination(Page(q), Limit(q), total, TotalPages(total, Limit(q)))))
  }

  /** Every matching row in a page's range is shown on that page, at its
      distance from the page's offset. */
  lemma RowOnItsPage(txs: seq<Tx>, user: UserId, q: Query, i: nat)
    requires Page(q) >= 1 && Limit(q) >= 1
    requires Offset(q) <= i < Offset(q) + Limit(q) && i < |Filter(txs, user, q)|
    ensures var shown := PageOf(txs, user, q);
            i - Offset(q) < |shown| && shown[i - Offset(q)] == NewestFirst(Filter(txs, user, q))[i]
  {
    var shown := PageOf(txs, user, q);
    var k := i - Offset(q);
    assert k < |shown|;
    assert Offset(q) + k == i;
  }

  /** The `i`-th newest matching row lies in the range of page `i / limit + 1`,
      at position `i % limit`; with `RowOnItsPage`, that page shows it there. */
  lemma RowPage(q: Query, i: nat)
    requires Limit(q) >= 1 && Page(q) == i / Limit(q) + 1
    ensures Offset(q) <= i < Offset(q) + Limit(q) && i - Offset(q) == i % Limit(q)
  {
    var limit := Limit(q);
    assert Offset(q) == (i / limit) * limit;
    assert (i / limit) * limit + i % limit == i;
  }

  /** Page `page` starts past the last matching row exactly when it is past the last page. */
  lemma PageStartsPastTheEnd(total: nat, limit: int, page: int)
    requires limit >= 1 && page >= 1
    ensures (page - 1) * limit >= total <==> page > TotalPages(total, limit)
  {
    var n := TotalPages(total, limit);
    if page > n {
      MulMonotone(n, page - 1, limit);
    } else {
      MulMonotone(page - 1, n - 1, limit);
    }
  }

  lemma MulMonotone(a: nat, b: nat, c: nat)
    requires a <= b
    ensures a * c <= b * c
  {
  }

  /** A page past the last one is empty; every page up to the last one is not. */
  lemma PagesBeyondTheLastAreEmpty(db: Db, user: AuthUser, q: Query)
    requires Page(q) >= 1 && Limit(q) >= 1
    ensures var r := GetSpec(db, Some(user), q, false);
            (Page(q) > r.body.pagination.totalPages <==> r.body.transactions == [])
  {
    PageStartsPastTheEnd(|Filter(db.txs, user.id, q)|, Limit(q), Page(q));
    assert Offset(q) == (Page(q) - 1) * Limit(q);
  }

  /** The two filters act independently: filtering by both is filtering by
      one and then by the other. */
  lemma FiltersCompose(txs: seq<Tx>, user: UserId, kind: Option<string>, status: Option<string>, page: Option<int>, limit: Option<int>)
    ensures Filter(txs, user, Query(page, limit, kind, status)) ==
            Filter(Filter(txs, user, Query(page, limit, kind, None)), user, Query(page, limit, None, status))
  {
    if txs != [] {
      FiltersCompose(txs[1..], user, kind, status, page, limit);
    }
  }
}
