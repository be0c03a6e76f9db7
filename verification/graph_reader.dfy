/**
 Reading a table page by page with a page size that is halved whenever the server rejects a page for its
 size (fetchPagedRows in src/application/export-render/graph-reader.ts).
 */
module GraphReader {

  datatype Reply = Served | ResourceExhausted | OtherError

  /** The server's verdict on its n-th query, for SKIP and LIMIT; it may change its mind at any time. */
  type Behaviour = (nat, nat, nat) -> Reply

  /** A query that was made. */
  datatype Query = Query(skip: nat, limit: nat, reply: Reply)

  datatype Failure = BadPageSize | RowTooLarge | Rethrown

  datatype Result<T> = Rows(rows: seq<T>) | Thrown(failure: Failure)

  function Min(a: int, b: int): int { if a < b then a else b }
  function Max(a: int, b: int): int { if a < b then b else a }

  /** The rows of an ordered table after SKIP and LIMIT. */
  function Page<T>(table: seq<T>, skip: nat, limit: nat): (r: seq<T>)
    ensures |r| <= limit
  {
    if skip >= |table| then [] else table[skip..Min(skip + limit, |table|)]
  }

  /** A reply that ends the read with an error. */
  predicate Fatal(q: Query) {
    q.reply == OtherError || (q.reply == ResourceExhausted && q.limit == 1)
  }

  /** The queries made from a position on, up to the last page or the first fatal reply. */
  function Queries<T>(table: seq<T>, server: Behaviour, call: nat, skip: nat, limit: nat): (qs: seq<Query>)
    requires limit > 0
    decreases Max(0, |table| - skip), limit
  {
    var q := Query(skip, limit, server(call, skip, limit));
    if Fatal(q) then [q]
    else if q.reply == ResourceExhausted then [q] + Queries(table, server, call + 1, skip, Max(1, limit / 2))
    else if |Page(table, skip, limit)| < limit then [q]
    else [q] + Queries(table, server, call + 1, skip + limit, limit)
  }

  /** The read ends, and only its last query can be fatal; it makes at most as many queries as there are rows left
      plus the page size. */
  lemma {:induction false} QueriesEnd<T>(table: seq<T>, server: Behaviour, call: nat, skip: nat, limit: nat)
    requires limit > 0
    ensures var qs := Queries(table, server, call, skip, limit);
            && qs != [] && |qs| <= Max(0, |table| - skip) + limit
            && (forall k :: 0 <= k < |qs| - 1 ==> !Fatal(qs[k]))
    decreases Max(0, |table| - skip), limit
  {
    var q := Query(skip, limit, server(call, skip, limit));
    if !Fatal(q) {
      if q.reply == ResourceExhausted {
        QueriesEnd(table, server, call + 1, skip, Max(1, limit / 2));
      } else if |Page(table, skip, limit)| == limit {
        QueriesEnd(table, server, call + 1, skip + limit, limit);
      }
    }
  }

  /** What the read makes of one reply: an error that is not about size ends it at once, whatever the page size; a
      page too large is asked for again by half, and ends it at a single row; a full page is followed by the next. */
  ghost predicate Follows<T>(table: seq<T>, server: Behaviour, call: nat, qs: seq<Query>, k: nat)
    requires k < |qs|
  {
    var q, last := qs[k], k + 1 == |qs|;
    && q.limit > 0 && q.reply == server(call + k, q.skip, q.limit)
    && match q.reply
       case OtherError => last
       case ResourceExhausted =>
         (last <==> q.limit == 1) && (!last ==> qs[k + 1].skip == q.skip && qs[k + 1].limit == q.limit / 2)
       case Served =>
         (last <==> q.skip + q.limit > |table|)
         && (!last ==> qs[k + 1].skip == q.skip + q.limit && qs[k + 1].limit == q.limit)
  }

  /** Every query follows from the reply before it. */
  lemma {:induction false} QueriesFollow<T>(table: seq<T>, server: Behaviour, call: nat, skip: nat, limit: nat)
    requires limit > 0
    ensures var qs := Queries(table, server, call, skip, limit);
            && qs != [] && qs[0].skip == skip && qs[0].limit == limit
            && forall k :: 0 <= k < |qs| ==> Follows(table, server, call, qs, k)
    decreases Max(0, |table| - skip), limit
  {
    var q := Query(skip, limit, server(call, skip, limit));
    var served, full := q.reply == Served, skip + limit <= |table|;
    var skip', limit' := if served then skip + limit else skip, if served then limit else limit / 2;
    NextQuery(table, server, call, skip, limit);
    if (served && full) || (q.reply == ResourceExhausted && limit > 1) {
      hide *;
      QueriesFollow(table, server, call + 1, skip', limit');
      FollowsFirst(table, server, call, q, call + 1, Queries(table, server, call + 1, skip', limit'));
    } else {
      assert Follows(table, server, call, [q], 0);
    }
  }

  lemma NextQuery<T>(table: seq<T>, server: Behaviour, call: nat, skip: nat, limit: nat)
    requires limit > 0
    ensures var q := Query(skip, limit, server(call, skip, limit));
            var served, full := q.reply == Served, skip + limit <= |table|;
            Queries(table, server, call, skip, limit) ==
            if served && full then [q] + Queries(table, server, call + 1, skip + limit, limit)
            else if q.reply == ResourceExhausted && limit > 1 then
              [q] + Queries(table, server, call + 1, skip, limit / 2)
            else [q]
  {
    QueriesUnfold(table, server, call, skip, limit);
    hide Queries;
  }

  lemma FollowsFirst<T>(table: seq<T>, server: Behaviour, call: nat, q: Query, after: nat, rest: seq<Query>)
    requires after == call + 1 && rest != [] && forall k :: 0 <= k < |rest| ==> Follows(table, server, after, rest, k)
    requires q.limit > 0 && q.reply == server(call, q.skip, q.limit)
    requires (q.reply == Served && q.skip + q.limit <= |table|) || (q.reply == ResourceExhausted && q.limit > 1)
    requires rest[0].skip == (if q.reply == Served then q.skip + q.limit else q.skip)
    requires rest[0].limit == (if q.reply == Served then q.limit else q.limit / 2)
    ensures forall k :: 0 <= k < |[q] + rest| ==> Follows(table, server, call, [q] + rest, k)
  {
    var qs := [q] + rest;
    forall k | 0 <= k < |qs|
      ensures Follows(table, server, call, qs, k)
    {
      if k > 0 {
        assert Follows(table, server, after, rest, k - 1);
      }
    }
  }

  ghost predicate ServesSingleRows(server: Behaviour) {
    forall c, s, l :: server(c, s, l) != OtherError && server(c, s, 1) == Served
  }

  /** A server that serves single rows and makes no other error never stops the read. */
  lemma {:induction false} SingleRowsSuffice<T>(table: seq<T>, server: Behaviour, call: nat, skip: nat, limit: nat)
    requires limit > 0
    requires ServesSingleRows(server)
    ensures var qs := Queries(table, server, call, skip, limit); qs != [] && !Fatal(qs[|qs| - 1])
    decreases Max(0, |table| - skip), limit
  {
    var q := Query(skip, limit, server(call, skip, limit));
    hide *;
    QueriesUnfold(table, server, call, skip, limit);
    SingleRowQuery(table, server, call, skip, limit);
    if q.reply == ResourceExhausted {
      SingleRowsSuffice(table, server, call + 1, skip, Max(1, limit / 2));
    } else if |Page(table, skip, limit)| == limit {
      SingleRowsSuffice(table, server, call + 1, skip + limit, limit);
    }
  }

  lemma SingleRowQuery<T>(table: seq<T>, server: Behaviour, call: nat, skip: nat, limit: nat)
    requires limit > 0 && ServesSingleRows(server)
    ensures var q := Query(skip, limit, server(call, skip, limit));
            && !Fatal(q) && q.reply != OtherError && (q.reply == ResourceExhausted ==> 1 <= Max(1, limit / 2) < limit)
            && (|Page(table, skip, limit)| == limit ==> 0 <= Max(0, |table| - (skip + limit)) < Max(0, |table| - skip))
  {
  }

  lemma QueriesUnfold<T>(table: seq<T>, server: Behaviour, call: nat, skip: nat, limit: nat)
    requires limit > 0
    ensures var q := Query(skip, limit, server(call, skip, limit));
            Queries(table, server, call, skip, limit) ==
            if Fatal(q) || (q.reply == Served && |Page(table, skip, limit)| < limit) then [q]
            else if q.reply == Served then [q] + Queries(table, server, call + 1, skip + limit, limit)
            else [q] + Queries(table, server, call + 1, skip, Max(1, limit / 2))
  {
  }

  /** The queries go on with one more, unless this one ends the read. */
  lemma Continues<T>(table: seq<T>, server: Behaviour, done: seq<Query>, skip: nat, limit: nat)
    requires limit > 0
    ensures var q := Query(skip, limit, server(|done|, skip, limit));
            var all := done + Queries(table, server, |done|, skip, limit);
            if Fatal(q) || (q.reply == Served && |Page(table, skip, limit)| < limit) then all == done + [q]
            else all == (done + [q]) +
                   if q.reply == Served then Queries(table, server, |done| + 1, skip + limit, limit)
                   else Queries(table, server, |done| + 1, skip, Max(1, limit / 2))
  {
  }

  /** What the last reply makes of the read. */
  function Ending<T>(last: Reply, table: seq<T>): Result<T> {
    match last
    case Served => Rows(table)
    case ResourceExhausted => Thrown(RowTooLarge)
    case OtherError => Thrown(Rethrown)
  }

  /**
   The read throws exactly when its last query is fatal, and otherwise returns every row of the table
   exactly once, in order.
   */
  method FetchPagedRows<T>(table: seq<T>, server: Behaviour, initialPageSize: int)
    returns (r: Result<T>, queries: seq<Query>)
    ensures initialPageSize <= 0 ==> r == Thrown(BadPageSize) && queries == []
    ensures initialPageSize > 0 ==>
              && queries == Queries(table, server, 0, 0, initialPageSize) && queries != []
              && r == Ending(queries[|queries| - 1].reply, table)
              && (r.Rows? <==> !Fatal(queries[|queries| - 1]))
              && match queries[|queries| - 1].reply
                 case Served => r == Rows(table)
                 case ResourceExhausted => r == Thrown(RowTooLarge)
                 case OtherError => r == Thrown(Rethrown)
  {
    hide Queries;
    queries := [];
    if initialPageSize <= 0 {
      return Thrown(BadPageSize), queries;
    }
    var rows: seq<T> := [];
    var skip: nat := 0;
    var pageSize: nat := initialPageSize;
    while true
      invariant pageSize > 0 && skip <= |table| && rows == table[..skip]
      invariant queries + Queries(table, server, |queries|, skip, pageSize) ==
                Queries(table, server, 0, 0, initialPageSize)
      decreases Max(0, |table| - skip), pageSize
    {
      var reply := server(|queries|, skip, pageSize);
      var q := Query(skip, pageSize, reply);
      Continues(table, server, queries, skip, pageSize);
      queries := queries + [q];
      if reply == Served {
        var page := Page(table, skip, pageSize);
        rows := rows + page;
        if |page| < pageSize {
          assert rows == table;
          return Rows(rows), queries;
        }
        skip := skip + |page|;
      } else if reply == OtherError {
        return Thrown(Rethrown), queries;
      } else if pageSize == 1 {
        return Thrown(RowTooLarge), queries;
      } else {
        pageSize := Max(1, pageSize / 2);
      }
    }
  }
}
