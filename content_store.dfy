/**
 * The collaborators of the content-index populator, reduced to what it relies on:
 * a content service that returns one page of the descendants of a node (optionally
 * filtered to published items and ordered by path), a value-set builder that turns
 * content items into index documents one for one, and an indexer that accepts
 * batches of documents. The service and the indexers record what was asked of them,
 * so the populator's calls can be stated exactly.
 */
module ContentStore {
  import opened Wrappers
  import opened Paging

  /** The id of the content tree's root; every path starts with it. */
  const ROOT_ID: int := -1

  /**
   * A content item. `path` lists the ids from the root down to the item itself,
   * as in the path column "-1,1050,1062".
   */
  datatype Content = Content(id: int, path: seq<int>, published: bool)

  /** The only query the populator builds: keep published items. */
  datatype Query = WherePublished

  /** The only ordering the populator asks for: by path, ascending. */
  datatype Ordering = PathAscending

  /** One call to `GetPagedDescendants`, as the content service receives it. */
  datatype PageRequest = PageRequest(
    parentId: int,
    pageIndex: nat,
    pageSize: nat,
    filter: Option<Query>,
    ordering: Option<Ordering>)

  /** `c` lies strictly below node `id`: `id` is on its path, above `c` itself. */
  predicate IsDescendantOf(c: Content, id: int) {
    |c.path| > 0 && id in c.path[..|c.path| - 1]
  }

  predicate Satisfies(filter: Option<Query>, c: Content) {
    match filter
    case None => true
    case Some(WherePublished) => c.published
  }

  /** Lexicographic order on paths, compared id by id from the root. */
  predicate PathLe(a: seq<int>, b: seq<int>) {
    a == [] || (b != [] && (a[0] < b[0] || (a[0] == b[0] && PathLe(a[1..], b[1..]))))
  }

  lemma {:induction false} PathLeTotal(a: seq<int>, b: seq<int>)
    ensures PathLe(a, b) || PathLe(b, a)
  {
    if a != [] && b != [] && a[0] == b[0] {
      PathLeTotal(a[1..], b[1..]);
    }
  }

  /** Path order: each item's path is at most the next one's. */
  predicate SortedByPath(s: seq<Content>) {
    |s| < 2 || (PathLe(s[0].path, s[1].path) && SortedByPath(s[1..]))
  }

  /** The items of `s` that satisfy `p`, in their original order. */
  function Filter(p: Content -> bool, s: seq<Content>): (r: seq<Content>)
    ensures forall c :: c in r <==> c in s && p(c)
    ensures multiset(r) <= multiset(s)
  {
    if s == [] then []
    else
      assert s == [s[0]] + s[1..];
      (if p(s[0]) then [s[0]] else []) + Filter(p, s[1..])
  }

  /** Inserts `c` into a path-sorted sequence, keeping it sorted. */
  function InsertByPath(c: Content, s: seq<Content>): (r: seq<Content>)
    requires SortedByPath(s)
    ensures SortedByPath(r)
    ensures multiset(r) == multiset(s) + multiset{c}
    ensures |r| > 0 && (r[0] == c || (s != [] && r[0] == s[0]))
  {
    if s == [] then [c]
    else if PathLe(c.path, s[0].path) then
      assert ([c] + s)[1..] == s;
      [c] + s
    else
      PathLeTotal(c.path, s[0].path);
      var rest := InsertByPath(c, s[1..]);
      assert s == [s[0]] + s[1..];
      assert ([s[0]] + rest)[1..] == rest;
      [s[0]] + rest
  }

  /** The items of `s`, ordered by path ascending. */
  function SortByPath(s: seq<Content>): (r: seq<Content>)
    ensures SortedByPath(r)
    ensures multiset(r) == multiset(s)
  {
    if s == [] then []
    else
      assert s == [s[0]] + s[1..];
      InsertByPath(s[0], SortByPath(s[1..]))
  }

  /**
   * The descendants of `id` that a query selects, in the order it asks for: store
   * order when no ordering is given, path order otherwise.
   */
  function Descendants(items: seq<Content>, id: int, filter: Option<Query>, ordering: Option<Ordering>): (r: seq<Content>)
    ensures forall c :: c in r <==> c in items && IsDescendantOf(c, id) && Satisfies(filter, c)
    ensures ordering == Some(PathAscending) ==> SortedByPath(r)
  {
    var selected := Filter(c => IsDescendantOf(c, id) && Satisfies(filter, c), items);
    if ordering == Some(PathAscending) then
      var sorted := SortByPath(selected);
      SameElements(sorted, selected);
      sorted
    else selected
  }

  /** A query neither invents nor repeats items: each occurs at most as often as in the store. */
  lemma DescendantsFromStore(items: seq<Content>, id: int, filter: Option<Query>, ordering: Option<Ordering>)
    ensures multiset(Descendants(items, id, filter, ordering)) <= multiset(items)
  {
  }

  lemma SameElements(a: seq<Content>, b: seq<Content>)
    requires multiset(a) == multiset(b)
    ensures forall c :: c in a <==> c in b
  {
    forall c ensures c in a <==> c in b {
      assert c in a <==> c in multiset(a);
      assert c in b <==> c in multiset(b);
    }
  }

  /**
   * The published-only, path-ordered query over a scope selects exactly the
   * published descendants, each as often as it is stored, in path order.
   */
  lemma PublishedQueryInPathOrder(items: seq<Content>, id: int)
    ensures var r := Descendants(items, id, Some(WherePublished), Some(PathAscending));
      && SortedByPath(r)
      && (forall c :: c in r ==> c.published && IsDescendantOf(c, id))
      && (forall c :: c in items && c.published && IsDescendantOf(c, id) ==> c in r)
      && (forall c :: multiset(r)[c] == if c.published && IsDescendantOf(c, id) then multiset(items)[c] else 0)
  {
    var q := (c: Content) => IsDescendantOf(c, id) && Satisfies(Some(WherePublished), c);
    FilterCounts(q, items);
  }

  lemma {:induction false} FilterExt(p: Content -> bool, q: Content -> bool, s: seq<Content>)
    requires forall c :: p(c) == q(c)
    ensures Filter(p, s) == Filter(q, s)
  {
    if s != [] {
      FilterExt(p, q, s[1..]);
    }
  }

  /** Filtering keeps every occurrence of a satisfying item and drops every other one. */
  lemma {:induction false} FilterCounts(p: Content -> bool, s: seq<Content>)
    ensures forall c :: multiset(Filter(p, s))[c] == if p(c) then multiset(s)[c] else 0
  {
    if s != [] {
      FilterCounts(p, s[1..]);
      assert s == [s[0]] + s[1..];
      assert multiset(s) == multiset{s[0]} + multiset(s[1..]);
    }
  }

  /** Filtering works piecewise, so the kept items stay in their original order. */
  lemma {:induction false} FilterAppend(p: Content -> bool, a: seq<Content>, b: seq<Content>)
    ensures Filter(p, a + b) == Filter(p, a) + Filter(p, b)
  {
    if a == [] {
      assert a + b == b;
    } else {
      var head := if p(a[0]) then [a[0]] else [];
      calc {
        Filter(p, a + b);
        { assert (a + b)[0] == a[0] && (a + b)[1..] == a[1..] + b; }
        head + Filter(p, a[1..] + b);
        { FilterAppend(p, a[1..], b); }
        head + (Filter(p, a[1..]) + Filter(p, b));
        { AppendAssoc(head, Filter(p, a[1..]), Filter(p, b)); }
        Filter(p, a) + Filter(p, b);
      }
    }
  }

  /**
   * The content service. Its content is fixed for the duration of a populate run;
   * `requests` records every page request it receives, in order.
   */
  class ContentService {
    const items: seq<Content>
    var requests: seq<PageRequest>

    constructor (items: seq<Content>)
      ensures this.items == items && requests == []
    {
      this.items := items;
      requests := [];
    }

    /**
     * Page `pageIndex` of `pageSize` descendants of node `id`, selected and
     * ordered as the query asks. The total-count out-parameter is not modelled.
     */
    method GetPagedDescendants(id: int, pageIndex: nat, pageSize: nat,
                               filter: Option<Query>, ordering: Option<Ordering>)
      returns (page: seq<Content>)
      modifies this`requests
      ensures requests == old(requests) + [PageRequest(id, pageIndex, pageSize, filter, ordering)]
      ensures page == PageOf(Descendants(items, id, filter, ordering), pageIndex, pageSize)
    {
      requests := requests + [PageRequest(id, pageIndex, pageSize, filter, ordering)];
      page := PageOf(Descendants(items, id, filter, ordering), pageIndex, pageSize);
    }
  }

  /** The query context the published query is built from. */
  class SqlContext {
    constructor ()
    {
    }

    /** The query `Query<IContent>().Where(x => x.Published)`. */
    function PublishedQuery(): Query {
      WherePublished
    }
  }

  /** An index document: the fields extracted from one content item. */
  datatype ValueSet = ValueSet(id: int, category: string, values: map<string, seq<string>>)

  /** Turns content items into index documents; the extraction itself is opaque. */
  class ValueSetBuilder {
    const toValueSet: Content -> ValueSet

    constructor (toValueSet: Content -> ValueSet)
      ensures this.toValueSet == toValueSet
    {
      this.toValueSet := toValueSet;
    }

    /** One value set per content item, in the same order. */
    function GetValueSets(content: seq<Content>): (valueSets: seq<ValueSet>)
      ensures |valueSets| == |content|
      ensures forall k :: 0 <= k < |content| ==> valueSets[k] == toValueSet(content[k])
    {
      MapSeq(toValueSet, content)
    }
  }

  /** An index target; `log` records every batch it has been given, in order. */
  class Indexer {
    var log: seq<seq<ValueSet>>

    constructor ()
      ensures log == []
    {
      log := [];
    }

    method IndexItems(values: seq<ValueSet>)
      modifies this
      ensures log == old(log) + [values]
    {
      log := log + [values];
    }
  }
}
