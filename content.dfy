/** The photo-album plugin's tables as the provider sees them: rows of albums
    and of photos, and the one query it runs on each, "title or description
    contains the query, newest `created_at` first". */
module Content {
  import opened Text

  /** An opaque reference to an attached image file. */
  type ImageRef = nat

  /** An album or photo row: its key and the columns the provider reads.
      `image` is a photo's own image attachment; albums have none. */
  datatype Item = Item(id: nat, title: string, description: string, createdAt: int, image: Option<ImageRef>)

  /** The two kinds of content the provider searches. */
  datatype Category = Albums | Photos

  /** The `$type` string passed along with each hit. */
  function TypeName(c: Category): (name: string)
    ensures name == (if c == Albums then "album" else "photo")
  {
    match c
    case Albums => "album"
    case Photos => "photo"
  }

  /** The query's filter: the query occurs in the title or the description. */
  predicate Matches(item: Item, query: string) {
    ContainsFolded(item.title, query) || ContainsFolded(item.description, query)
  }

  /** The rows that pass the query's filter, in table order. */
  function Filter(rows: seq<Item>, query: string): seq<Item> {
    if rows == [] then []
    else (if Matches(rows[0], query) then [rows[0]] else []) + Filter(rows[1..], query)
  }

  /** The filter keeps every matching row, as often as it is stored, and no other. */
  lemma {:induction false} FilterCount(rows: seq<Item>, query: string)
    ensures forall x :: multiset(Filter(rows, query))[x] == if Matches(x, query) then multiset(rows)[x] else 0
  {
    if rows != [] {
      FilterCount(rows[1..], query);
      assert rows == [rows[0]] + rows[1..];
    }
  }

  /** `orderBy('created_at', 'desc')`: newest first. */
  ghost predicate NewestFirst(s: seq<Item>) {
    forall i, j :: 0 <= i < j < |s| ==> s[i].createdAt >= s[j].createdAt
  }

  /** Prepending an element no older than the rest keeps the order. */
  lemma NewestFirstCons(h: Item, t: seq<Item>)
    requires NewestFirst(t)
    requires forall y :: y in t ==> h.createdAt >= y.createdAt
    ensures NewestFirst([h] + t)
  {
    forall i, j | 0 <= i < j < |[h] + t| ensures ([h] + t)[i].createdAt >= ([h] + t)[j].createdAt {
      if i > 0 { assert ([h] + t)[i] == t[i - 1] && ([h] + t)[j] == t[j - 1]; }
      else { assert t[j - 1] in t; }
    }
  }

  /** The head of a newest-first sequence is no older than any element. */
  lemma HeadIsNewest(s: seq<Item>)
    requires NewestFirst(s) && s != []
    ensures forall y :: y in s ==> s[0].createdAt >= y.createdAt
  {
    forall y | y in s ensures s[0].createdAt >= y.createdAt {
      var k :| 0 <= k < |s| && s[k] == y;
      if k > 0 { assert s[0].createdAt >= s[k].createdAt; }
    }
  }

  /** Every element of `rest` is `x` or an element of `t`, so a bound on
      both bounds `rest`. */
  lemma BoundByMultiset(rest: seq<Item>, t: seq<Item>, x: Item, bound: int)
    requires multiset(rest) == multiset(t) + multiset{x}
    requires x.createdAt <= bound
    requires forall y :: y in t ==> y.createdAt <= bound
    ensures forall y :: y in rest ==> y.createdAt <= bound
  {
    forall y | y in rest ensures y.createdAt <= bound {
      assert y in multiset(rest);
      if y != x { assert y in multiset(t); }
    }
  }

  /** Places `x` before the first element that is not newer than it. */
  function Insert(x: Item, s: seq<Item>): seq<Item> {
    if s == [] then [x]
    else if x.createdAt >= s[0].createdAt then [x] + s
    else [s[0]] + Insert(x, s[1..])
  }

  /** Inserting adds exactly `x`. */
  lemma {:induction false} InsertPermutes(x: Item, s: seq<Item>)
    ensures multiset(Insert(x, s)) == multiset(s) + multiset{x}
  {
    if s != [] && x.createdAt < s[0].createdAt {
      InsertPermutes(x, s[1..]);
      assert s == [s[0]] + s[1..];
    }
  }

  /** Inserting into a newest-first sequence keeps it newest first. */
  lemma {:induction false} InsertSorted(x: Item, s: seq<Item>)
    requires NewestFirst(s)
    ensures NewestFirst(Insert(x, s))
  {
    if s == [] {
    } else if x.createdAt >= s[0].createdAt {
      HeadIsNewest(s);
      NewestFirstCons(x, s);
    } else {
      var rest := Insert(x, s[1..]);
      assert NewestFirst(s[1..]) by {
        forall i, j | 0 <= i < j < |s[1..]| ensures s[1..][i].createdAt >= s[1..][j].createdAt {
          assert s[1..][i] == s[i + 1] && s[1..][j] == s[j + 1];
        }
      }
      InsertSorted(x, s[1..]);
      InsertPermutes(x, s[1..]);
      HeadIsNewest(s);
      assert s == [s[0]] + s[1..];
      BoundByMultiset(rest, s[1..], x, s[0].createdAt);
      NewestFirstCons(s[0], rest);
    }
  }

  /** Insertion sort, newest first; rows with equal `created_at` keep their
      order in the table. */
  function SortNewestFirst(s: seq<Item>): seq<Item> {
    if s == [] then [] else Insert(s[0], SortNewestFirst(s[1..]))
  }

  /** The sort orders newest first and is a permutation of its input. */
  lemma {:induction false} SortSpec(s: seq<Item>)
    ensures NewestFirst(SortNewestFirst(s))
    ensures multiset(SortNewestFirst(s)) == multiset(s)
  {
    if s != [] {
      SortSpec(s[1..]);
      InsertSorted(s[0], SortNewestFirst(s[1..]));
      InsertPermutes(s[0], SortNewestFirst(s[1..]));
      assert s == [s[0]] + s[1..];
    }
  }

  /** The rows one query returns: the matching rows, newest first. */
  function QueryResult(rows: seq<Item>, query: string): (r: seq<Item>)
    ensures NewestFirst(r)
    ensures forall x :: x in r ==> x in rows && Matches(x, query)
  {
    var r := SortNewestFirst(Filter(rows, query));
    FilterCount(rows, query);
    SortSpec(Filter(rows, query));
    assert forall x :: x in r ==> x in multiset(r);
    r
  }

  /** The query returns exactly the matching rows, each as often as it is
      stored, newest first, with no limit. */
  lemma QueryResultSpec(rows: seq<Item>, query: string)
    ensures NewestFirst(QueryResult(rows, query))
    ensures forall x :: multiset(QueryResult(rows, query))[x] == if Matches(x, query) then multiset(rows)[x] else 0
    ensures forall x :: x in QueryResult(rows, query) <==> x in rows && Matches(x, query)
  {
    var r := QueryResult(rows, query);
    FilterCount(rows, query);
    SortSpec(Filter(rows, query));
    forall x ensures x in r <==> x in rows && Matches(x, query) {
      assert x in r <==> x in multiset(r);
      assert x in rows <==> x in multiset(rows);
    }
  }

  /** An empty query filters nothing out: every row is returned. */
  lemma EmptyQueryReturnsAll(rows: seq<Item>)
    ensures multiset(QueryResult(rows, [])) == multiset(rows)
  {
    forall x ensures Matches(x, []) { EmptyOccursEverywhere(x.title); }
    QueryResultSpec(rows, []);
    assert multiset(QueryResult(rows, [])) == multiset(rows);
  }

  /** The database holding both tables. `issued` records the queries run
      against it, in order, so that a caller's obligation not to query it can
      be stated. */
  class ContentStore {
    const albumRows: seq<Item>
    const photoRows: seq<Item>
    ghost var issued: seq<Category>

    /** A database holding the two tables, before any query. */
    constructor (albumRows: seq<Item>, photoRows: seq<Item>)
      ensures this.albumRows == albumRows && this.photoRows == photoRows
      ensures issued == []
    {
      this.albumRows := albumRows;
      this.photoRows := photoRows;
      issued := [];
    }

    function Rows(c: Category): seq<Item> {
      match c
      case Albums => albumRows
      case Photos => photoRows
    }

    /** `Album::...->get()` / `Photo::...->get()`: runs the category's query. */
    method Select(c: Category, query: string) returns (rows: seq<Item>)
      modifies this`issued
      ensures rows == QueryResult(Rows(c), query)
      ensures issued == old(issued) + [c]
    {
      rows := QueryResult(Rows(c), query);
      issued := issued + [c];
    }
  }
}
