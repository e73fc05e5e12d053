/** The search endpoint's query over the table: optional filters, a count of
    all matches, and one page of the matches ordered by descending id. */
module Search {
  import opened Wrappers
  import opened Text
  import opened Dates
  import opened Store

  /** The query string as bound: every parameter may be missing; `page` and
      `pageSize` then take their declared defaults 1 and 20. */
  datatype SearchQuery = SearchQuery(
    externalCandidateId: Option<string>,
    crisilOfferId: Option<string>,
    from: Option<Date>,
    to: Option<Date>,
    page: Option<int>,
    pageSize: Option<int>)

  /** What the endpoint returns inside its `data` object. */
  datatype SearchPage = SearchPage(page: int, pageSize: int, total: nat, items: seq<Entity>)

  const DefaultPage := 1
  const DefaultPageSize := 20
  const MaxPageSize := 200

  // ---------------------------------------------------------------------------
  // Paging parameters

  /** A page number below 1 becomes 1. */
  function ClampPage(page: int): (p: int)
    ensures p >= 1
    ensures page >= 1 ==> p == page
  {
    if page < 1 then 1 else page
  }

  /** A page size below 1 becomes the default 20 (not 1); above 200 becomes 200. */
  function ClampPageSize(size: int): (n: int)
    ensures 1 <= n <= MaxPageSize
    ensures 1 <= size <= MaxPageSize ==> n == size
    ensures size < 1 ==> n == DefaultPageSize
    ensures size > MaxPageSize ==> n == MaxPageSize
  {
    if size < 1 then DefaultPageSize
    else if size > MaxPageSize then MaxPageSize
    else size
  }

  // ---------------------------------------------------------------------------
  // Filtering

  /** A row satisfies every filter the query sets: a blank id filter and a
      missing date bound impose nothing; the date bounds are inclusive. */
  predicate Matches(q: SearchQuery, e: Entity) {
    && (IsBlank(q.externalCandidateId) || e.externalCandidateId == q.externalCandidateId.value)
    && (IsBlank(q.crisilOfferId) || e.crisilOfferId == q.crisilOfferId.value)
    && (q.from.None? || AtOrBefore(q.from.value, e.joiningDate))
    && (q.to.None? || AtOrBefore(e.joiningDate, q.to.value))
  }

  /** The matching rows, in table order. */
  function Filter(rows: seq<Entity>, q: SearchQuery): (out: seq<Entity>)
    ensures |out| <= |rows|
    ensures forall e :: e in out <==> e in rows && Matches(q, e)
  {
    if |rows| == 0 then []
    else (if Matches(q, rows[0]) then [rows[0]] else []) + Filter(rows[1..], q)
  }

  // ---------------------------------------------------------------------------
  // Ordering

  /** Ids never increase along `s`. */
  predicate Descending(s: seq<Entity>) {
    forall i, j :: 0 <= i < j < |s| ==> s[i].id >= s[j].id
  }

  /** No two entries of `s` share an id. */
  predicate DistinctIds(s: seq<Entity>) {
    forall i, j :: 0 <= i < j < |s| ==> s[i].id != s[j].id
  }

  /** Inserts `x` before the first entry with a smaller or equal id. */
  function InsertDesc(x: Entity, s: seq<Entity>): (out: seq<Entity>)
    ensures |out| == |s| + 1
    ensures multiset(out) == multiset(s) + multiset{x}
    ensures forall e :: e in out <==> e == x || e in s
  {
    if |s| == 0 || x.id >= s[0].id then [x] + s
    else
      assert s == [s[0]] + s[1..];
      [s[0]] + InsertDesc(x, s[1..])
  }

  /** `OrderByDescending(x => x.Id)`. */
  function SortDesc(rows: seq<Entity>): (out: seq<Entity>)
    ensures |out| == |rows|
    ensures multiset(out) == multiset(rows)
    ensures forall e :: e in out <==> e in rows
  {
    if |rows| == 0 then []
    else
      assert rows == [rows[0]] + rows[1..];
      InsertDesc(rows[0], SortDesc(rows[1..]))
  }

  lemma {:induction false} InsertDescKeepsOrder(x: Entity, s: seq<Entity>)
    requires Descending(s)
    ensures Descending(InsertDesc(x, s))
  {
    if |s| > 0 && x.id < s[0].id {
      InsertDescKeepsOrder(x, s[1..]);
      var out := InsertDesc(x, s);
      var tail := InsertDesc(x, s[1..]);
      assert out == [s[0]] + tail;
      forall j | 0 < j < |out| ensures s[0].id >= out[j].id {
        assert out[j] in tail;
        if out[j] != x {
          var k :| 0 <= k < |s[1..]| && s[1..][k] == out[j];
          assert s[k + 1] == out[j];
        }
      }
    }
  }

  lemma {:induction false} InsertDescKeepsDistinct(x: Entity, s: seq<Entity>)
    requires DistinctIds(s)
    requires forall e :: e in s ==> e.id != x.id
    ensures DistinctIds(InsertDesc(x, s))
  {
    if |s| > 0 && x.id < s[0].id {
      forall e | e in s[1..] ensures e.id != x.id {
        assert e in s;
      }
      InsertDescKeepsDistinct(x, s[1..]);
      var out := InsertDesc(x, s);
      var tail := InsertDesc(x, s[1..]);
      assert out == [s[0]] + tail;
      forall j | 0 < j < |out| ensures s[0].id != out[j].id {
        assert out[j] in tail;
        if out[j] != x {
          var k :| 0 <= k < |s[1..]| && s[1..][k] == out[j];
          assert s[k + 1] == out[j];
        }
      }
    } else if |s| > 0 {
      forall j | 0 < j < |s| + 1 ensures x.id != ([x] + s)[j].id {
        assert ([x] + s)[j] == s[j - 1];
      }
    }
  }

  /** The sort orders by descending id. */
  lemma {:induction false} SortDescIsDescending(rows: seq<Entity>)
    ensures Descending(SortDesc(rows))
  {
    if |rows| > 0 {
      SortDescIsDescending(rows[1..]);
      InsertDescKeepsOrder(rows[0], SortDesc(rows[1..]));
    }
  }

  /** Distinct ids stay distinct through the sort, so the order is strict. */
  lemma {:induction false} SortDescKeepsDistinct(rows: seq<Entity>)
    requires DistinctIds(rows)
    ensures DistinctIds(SortDesc(rows))
  {
    if |rows| > 0 {
      assert DistinctIds(rows[1..]) by {
        forall i, j | 0 <= i < j < |rows[1..]| ensures rows[1..][i].id != rows[1..][j].id {
          assert rows[1..][i] == rows[i + 1] && rows[1..][j] == rows[j + 1];
        }
      }
      SortDescKeepsDistinct(rows[1..]);
      forall e | e in SortDesc(rows[1..]) ensures e.id != rows[0].id {
        var k :| 0 <= k < |rows[1..]| && rows[1..][k] == e;
        assert rows[k + 1] == e;
      }
      InsertDescKeepsDistinct(rows[0], SortDesc(rows[1..]));
    }
  }

  /** Filtering keeps ids distinct. */
  lemma {:induction false} FilterKeepsDistinct(rows: seq<Entity>, q: SearchQuery)
    requires DistinctIds(rows)
    ensures DistinctIds(Filter(rows, q))
  {
    if |rows| > 0 {
      assert DistinctIds(rows[1..]) by {
        forall i, j | 0 <= i < j < |rows[1..]| ensures rows[1..][i].id != rows[1..][j].id {
          assert rows[1..][i] == rows[i + 1] && rows[1..][j] == rows[j + 1];
        }
      }
      FilterKeepsDistinct(rows[1..], q);
      var rest := Filter(rows[1..], q);
      var head: seq<Entity> := if Matches(q, rows[0]) then [rows[0]] else [];
      assert Filter(rows, q) == head + rest;
      forall j | 0 <= j < |rest| ensures rest[j].id != rows[0].id {
        assert rest[j] in rows[1..];
        var k :| 0 <= k < |rows[1..]| && rows[1..][k] == rest[j];
        assert rows[k + 1] == rest[j];
      }
    }
  }

  /** Both id filters set: the unique index on the key pair leaves at most
      one matching row. */
  lemma KeyQueryMatchesAtMostOne(st: Store, q: SearchQuery)
    requires Valid(st)
    requires !IsBlank(q.externalCandidateId) && !IsBlank(q.crisilOfferId)
    ensures |Filter(st.rows, q)| <= 1
  {
    var out := Filter(st.rows, q);
    assert DistinctIds(st.rows);
    FilterKeepsDistinct(st.rows, q);
    FirstTwo(out);
  }

  /** Names the first two elements for a proof that needs them. */
  lemma FirstTwo(s: seq<Entity>)
    ensures |s| >= 2 ==> s[0] in s && s[1] in s
  {
  }

  // ---------------------------------------------------------------------------
  // Paging

  /** `Skip(skip).Take(take)`. */
  function Window(s: seq<Entity>, skip: nat, take: nat): (w: seq<Entity>)
    ensures |w| <= take
    ensures skip >= |s| ==> w == []
    ensures forall i :: 0 <= i < |w| ==> skip + i < |s| && w[i] == s[skip + i]
  {
    var lo := if skip < |s| then skip else |s|;
    var hi := if skip + take < |s| then skip + take else |s|;
    s[lo..hi]
  }

  /** The rows a page skips: `(page - 1) * pageSize`. */
  function Offset(page: int, size: int): nat
    requires page >= 1 && size >= 1
  {
    MulNonNegative(page - 1, size);
    (page - 1) * size
  }

  /** Arithmetic helper for the offset proofs. */
  lemma MulNonNegative(a: int, b: int)
    requires a >= 0 && b >= 0
    ensures a * b >= 0
  {
  }

  /** Later pages start past the end of earlier ones. */
  lemma OffsetsApart(p1: int, p2: int, size: int)
    requires 1 <= p1 < p2 && size >= 1
    ensures Offset(p2, size) >= Offset(p1, size) + size
  {
    assert (p2 - 1) * size == (p1 - 1) * size + (p2 - p1) * size;
    MulNonNegative(p2 - p1 - 1, size);
    assert (p2 - p1) * size == (p2 - p1 - 1) * size + size;
  }

  /** Position `k` lies on page `k / size + 1`. */
  lemma PageOf(k: nat, size: int) returns (p: int)
    requires size >= 1
    ensures p >= 1 && Offset(p, size) <= k < Offset(p, size) + size
  {
    p := k / size + 1;
    assert k == (k / size) * size + k % size;
  }

  /** The matches of `q` in the order the endpoint pages them. */
  function Ordered(st: Store, q: SearchQuery): seq<Entity> {
    SortDesc(Filter(st.rows, q))
  }

  /** The search: clamp the paging parameters, filter, count, order by
      descending id, then skip `(page - 1) * pageSize` rows and take `pageSize`. */
  function SearchRows(st: Store, q: SearchQuery): (r: SearchPage)
    ensures r.page >= 1 && 1 <= r.pageSize <= MaxPageSize
    ensures |r.items| <= r.pageSize
    ensures r.total == |Filter(st.rows, q)|
    ensures forall e :: e in r.items ==> e in st.rows && Matches(q, e)
  {
    var page := ClampPage(q.page.GetOr(DefaultPage));
    var size := ClampPageSize(q.pageSize.GetOr(DefaultPageSize));
    var ordered := Ordered(st, q);
    var items := Window(ordered, Offset(page, size), size);
    SearchPage(page, size, |ordered|, items)
  }

  // ---------------------------------------------------------------------------
  // Properties of the search

  /** The total counts every match, whatever page is asked for. */
  lemma TotalIgnoresPaging(st: Store, q: SearchQuery, page: Option<int>, pageSize: Option<int>)
    ensures SearchRows(st, q.(page := page, pageSize := pageSize)).total == SearchRows(st, q).total
  {
    assert Filter(st.rows, q.(page := page, pageSize := pageSize)) == Filter(st.rows, q) by {
      FilterIgnoresPaging(st.rows, q, page, pageSize);
    }
  }

  lemma {:induction false} FilterIgnoresPaging(rows: seq<Entity>, q: SearchQuery, page: Option<int>, pageSize: Option<int>)
    ensures Filter(rows, q.(page := page, pageSize := pageSize)) == Filter(rows, q)
  {
    if |rows| > 0 {
      FilterIgnoresPaging(rows[1..], q, page, pageSize);
    }
  }

  /** The items are the window of the ordered matches the clamped paging selects. */
  lemma ItemsAreWindow(st: Store, q: SearchQuery)
    ensures var r := SearchRows(st, q);
      r.items == Window(Ordered(st, q), Offset(r.page, r.pageSize), r.pageSize)
  {
  }

  /** An in-range page of an in-range size is the window at that page's offset. */
  lemma PageAt(st: Store, q: SearchQuery, p: int, size: int)
    requires p >= 1 && 1 <= size <= MaxPageSize
    ensures SearchRows(st, AtPage(q, p, size)).items == Window(Ordered(st, q), Offset(p, size), size)
  {
    var qp := AtPage(q, p, size);
    FilterIgnoresPaging(st.rows, q, qp.page, qp.pageSize);
    assert Ordered(st, qp) == Ordered(st, q);
    ItemsAreWindow(st, qp);
  }

  /** A position inside the window's range is in the window. */
  lemma InWindow(s: seq<Entity>, skip: nat, take: nat, k: int)
    requires skip <= k < skip + take && k < |s|
    ensures s[k] in Window(s, skip, take)
  {
    var w := Window(s, skip, take);
    assert w == s[skip..if skip + take < |s| then skip + take else |s|];
    assert w[k - skip] == s[k];
  }

  /** Ids strictly decrease along `s`. */
  predicate StrictlyDescending(s: seq<Entity>) {
    forall i, j :: 0 <= i < j < |s| ==> s[i].id > s[j].id
  }

  /** A window of a strictly descending sequence is strictly descending. */
  lemma WindowKeepsStrict(s: seq<Entity>, skip: nat, take: nat)
    requires StrictlyDescending(s)
    ensures StrictlyDescending(Window(s, skip, take))
  {
    var w := Window(s, skip, take);
    forall i, j | 0 <= i < j < |w| ensures w[i].id > w[j].id {
      assert w[i] == s[skip + i] && w[j] == s[skip + j];
    }
  }

  /** On a valid table the items come in strictly descending id order. */
  lemma ItemsStrictlyDescending(st: Store, q: SearchQuery)
    requires Valid(st)
    ensures StrictlyDescending(SearchRows(st, q).items)
  {
    var r := SearchRows(st, q);
    OrderedStrict(st, q);
    ItemsAreWindow(st, q);
    WindowKeepsStrict(Ordered(st, q), Offset(r.page, r.pageSize), r.pageSize);
  }

  lemma OrderedStrict(st: Store, q: SearchQuery)
    requires Valid(st)
    ensures StrictlyDescending(Ordered(st, q))
  {
    FilterKeepsDistinct(st.rows, q);
    SortDescKeepsDistinct(Filter(st.rows, q));
    SortDescIsDescending(Filter(st.rows, q));
  }

  /** The query with its paging replaced. */
  function AtPage(q: SearchQuery, page: int, pageSize: int): SearchQuery {
    q.(page := Some(page), pageSize := Some(pageSize))
  }

  /** Non-overlapping windows of a strictly descending sequence share no entry. */
  lemma DisjointWindows(s: seq<Entity>, a: nat, b: nat, size: nat, e: Entity)
    requires StrictlyDescending(s)
    requires a + size <= b
    ensures e in Window(s, a, size) ==> e !in Window(s, b, size)
  {
    var w1 := Window(s, a, size);
    var w2 := Window(s, b, size);
    if e in w1 {
      var i :| 0 <= i < |w1| && w1[i] == e;
      forall j | 0 <= j < |w2| ensures w2[j] != e {
        assert s[a + i].id > s[b + j].id;
      }
    }
  }

  /** Two different pages of the same size share no row. */
  lemma PagesAreDisjoint(st: Store, q: SearchQuery, p1: int, p2: int, size: int, e: Entity)
    requires Valid(st)
    requires 1 <= p1 < p2
    requires 1 <= size <= MaxPageSize
    ensures e in SearchRows(st, AtPage(q, p1, size)).items ==> e !in SearchRows(st, AtPage(q, p2, size)).items
  {
    PageAt(st, q, p1, size);
    PageAt(st, q, p2, size);
    OrderedStrict(st, q);
    OffsetsApart(p1, p2, size);
    DisjointWindows(Ordered(st, q), Offset(p1, size), Offset(p2, size), size, e);
  }

  /** Every match appears on some page. */
  lemma EveryMatchIsOnAPage(st: Store, q: SearchQuery, size: int, e: Entity)
    requires 1 <= size <= MaxPageSize
    requires e in st.rows && Matches(q, e)
    ensures exists p :: p >= 1 && e in SearchRows(st, AtPage(q, p, size)).items
  {
    var ordered := Ordered(st, q);
    assert e in ordered;
    var k :| 0 <= k < |ordered| && ordered[k] == e;
    var p := PageOf(k, size);
    PageAt(st, q, p, size);
    InWindow(ordered, Offset(p, size), size, k);
  }
}
