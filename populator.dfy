/**
 * The content-index populator: it walks the content tree below a configured node
 * in pages, turns every page that holds items into value sets and hands them to
 * every index it is given, stopping at the first page shorter than a full page.
 */
module UmbracoExamine {
  import opened Wrappers
  import opened Paging
  import opened ContentStore

  /** The page size `Populate` uses. */
  const PAGE_SIZE: nat := 10000

  /** The error thrown when a mandatory collaborator is missing. */
  datatype ArgumentNullException = ArgumentNullException(paramName: string)

  /**
   * The node whose descendants are walked: the configured parent when it is given
   * and positive, the root in every other case.
   */
  function EffectiveParentId(parentId: Option<int>): (id: int)
    ensures id == ROOT_ID || id > 0
    ensures id > 0 <==> parentId.Some? && parentId.value > 0
    ensures id > 0 ==> id == parentId.value
  {
    if parentId.Some? && parentId.value > 0 then parentId.value else ROOT_ID
  }

  /** The first `count` requests of a walk, in the order they are issued. */
  function PageRequests(parentId: int, pageSize: nat, filter: Option<Query>,
                        ordering: Option<Ordering>, count: nat): (requests: seq<PageRequest>)
    ensures |requests| == count
  {
    if count == 0 then []
    else PageRequests(parentId, pageSize, filter, ordering, count - 1)
         + [PageRequest(parentId, count - 1, pageSize, filter, ordering)]
  }

  /**
   * A walk asks for pages 0, 1, 2, ... in order, each exactly once, each for
   * `pageSize` descendants of the same node with the same filter and ordering.
   */
  lemma {:induction false} PageRequestsInOrder(parentId: int, pageSize: nat, filter: Option<Query>,
                                               ordering: Option<Ordering>, count: nat)
    ensures forall i :: 0 <= i < count ==>
      PageRequests(parentId, pageSize, filter, ordering, count)[i]
        == PageRequest(parentId, i, pageSize, filter, ordering)
  {
    if count > 0 {
      PageRequestsInOrder(parentId, pageSize, filter, ordering, count - 1);
    }
  }

  /**
   * The guard around the published query exactly as the constructor writes it:
   * the query is built only when the shared field already holds one, so the guard
   * never changes the field, and an absent query stays absent.
   */
  function PublishedQueryGuardAsWritten(cached: Option<Query>, sqlContext: SqlContext): (query: Option<Query>)
    ensures query == cached
  {
    if cached.Some? then
      assert cached.value.WherePublished?;
      Some(sqlContext.PublishedQuery())
    else cached
  }

  /**
   * The shared query field after `n` constructions with the guard as written. It
   * starts absent, and no construction changes it.
   */
  function CachedQueryAsWritten(n: nat, sqlContext: SqlContext): (cached: Option<Query>)
    ensures n == 0 ==> cached == None
    ensures n > 0 ==> cached == CachedQueryAsWritten(n - 1, sqlContext)
  {
    if n == 0 then None else PublishedQueryGuardAsWritten(CachedQueryAsWritten(n - 1, sqlContext), sqlContext)
  }

  /** As written, however many populators are constructed, the query is never built. */
  lemma {:induction false} AsWrittenQueryNeverBuilt(n: nat, sqlContext: SqlContext)
    ensures CachedQueryAsWritten(n, sqlContext) == None
  {
    if n > 0 {
      AsWrittenQueryNeverBuilt(n - 1, sqlContext);
    }
  }

  /**
   * With the query left unset, a walk that should exclude unpublished content
   * passes no filter, so an unpublished item below the root is fetched: it is the
   * whole of the first page.
   */
  lemma AsWrittenFetchIncludesUnpublished(sqlContext: SqlContext)
    ensures var draft := Content(1050, [ROOT_ID, 1050], false);
      var selected := Descendants([draft], ROOT_ID, PublishedQueryGuardAsWritten(None, sqlContext), Some(PathAscending));
      selected == [draft] && PageOf(selected, 0, PAGE_SIZE) == [draft]
  {
    var draft := Content(1050, [ROOT_ID, 1050], false);
    assert draft.path[..|draft.path| - 1] == [ROOT_ID];
    assert IsDescendantOf(draft, ROOT_ID);
    assert Filter(c => IsDescendantOf(c, ROOT_ID) && Satisfies(None, c), [draft]) == [draft];
  }

  /**
   * The guard as intended: build the published query when none is held yet. Only one
   * query exists in this model, so keeping a held query and building a new one give
   * the same value; the second ensures is implied by the first.
   */
  function PublishedQueryGuard(cached: Option<Query>, sqlContext: SqlContext): (query: Option<Query>)
    ensures query == Some(WherePublished)
    ensures cached.Some? ==> query == cached
  {
    match cached
    case None => Some(sqlContext.PublishedQuery())
    case Some(WherePublished) => cached
  }

  /**
   * The shared query field after `n` constructions with the intended guard. It
   * starts absent, and every construction leaves the published query in it.
   */
  function CachedQuery(n: nat, sqlContext: SqlContext): (cached: Option<Query>)
    ensures n == 0 ==> cached == None
    ensures n > 0 ==> cached == Some(WherePublished)
  {
    if n == 0 then None else PublishedQueryGuard(CachedQuery(n - 1, sqlContext), sqlContext)
  }

  class ContentIndexPopulator {
    const contentService: ContentService
    const contentValueSetBuilder: ValueSetBuilder
    /**
     * The published-only query. Each populator holds its own, built once on
     * construction with the intended guard, instead of one shared static field.
     */
    const publishedQuery: Option<Query>
    const supportUnpublishedContent: bool
    const parentId: Option<int>

    constructor (supportUnpublishedContent: bool, parentId: Option<int>, contentService: ContentService,
                 sqlContext: SqlContext, contentValueSetBuilder: ValueSetBuilder)
      ensures this.supportUnpublishedContent == supportUnpublishedContent
      ensures this.parentId == parentId
      ensures this.contentService == contentService
      ensures this.contentValueSetBuilder == contentValueSetBuilder
      ensures this.publishedQuery == Some(WherePublished)
    {
      this.contentService := contentService;
      this.contentValueSetBuilder := contentValueSetBuilder;
      this.publishedQuery := PublishedQueryGuard(None, sqlContext);
      this.supportUnpublishedContent := supportUnpublishedContent;
      this.parentId := parentId;
    }

    /**
     * Construction with argument checks: a missing query context, content service
     * or value-set builder is reported, in that order of precedence; otherwise the
     * new populator holds exactly the arguments given.
     */
    static method Create(supportUnpublishedContent: bool, parentId: Option<int>, contentService: ContentService?,
                         sqlContext: SqlContext?, contentValueSetBuilder: ValueSetBuilder?)
      returns (r: Result<ContentIndexPopulator, ArgumentNullException>)
      ensures r.Success? <==> sqlContext != null && contentService != null && contentValueSetBuilder != null
      ensures sqlContext == null ==> r == Failure(ArgumentNullException("sqlContext"))
      ensures sqlContext != null && contentService == null ==> r == Failure(ArgumentNullException("contentService"))
      ensures sqlContext != null && contentService != null && contentValueSetBuilder == null ==>
        r == Failure(ArgumentNullException("contentValueSetBuilder"))
      ensures r.Success? ==>
        && fresh(r.value)
        && r.value.supportUnpublishedContent == supportUnpublishedContent
        && r.value.parentId == parentId
        && r.value.contentService == contentService
        && r.value.contentValueSetBuilder == contentValueSetBuilder
        && r.value.publishedQuery == Some(WherePublished)
    {
      if sqlContext == null {
        return Failure(ArgumentNullException("sqlContext"));
      }
      if contentService == null {
        return Failure(ArgumentNullException("contentService"));
      }
      if contentValueSetBuilder == null {
        return Failure(ArgumentNullException("contentValueSetBuilder"));
      }
      var populator := new ContentIndexPopulator(supportUnpublishedContent, parentId, contentService,
                                                 sqlContext, contentValueSetBuilder);
      r := Success(populator);
    }

    /**
     * The default construction: all content, published or not, from the root;
     * the same argument checks as `Create`.
     */
    static method CreateDefault(contentService: ContentService?, sqlContext: SqlContext?,
                                contentValueSetBuilder: ValueSetBuilder?)
      returns (r: Result<ContentIndexPopulator, ArgumentNullException>)
      ensures r.Success? <==> sqlContext != null && contentService != null && contentValueSetBuilder != null
      ensures sqlContext == null ==> r == Failure(ArgumentNullException("sqlContext"))
      ensures sqlContext != null && contentService == null ==> r == Failure(ArgumentNullException("contentService"))
      ensures sqlContext != null && contentService != null && contentValueSetBuilder == null ==>
        r == Failure(ArgumentNullException("contentValueSetBuilder"))
      ensures r.Success? ==>
        && fresh(r.value)
        && r.value.supportUnpublishedContent
        && r.value.parentId == None
        && EffectiveParentId(r.value.parentId) == ROOT_ID
        && r.value.contentService == contentService
        && r.value.contentValueSetBuilder == contentValueSetBuilder
    {
      r := Create(true, None, contentService, sqlContext, contentValueSetBuilder);
    }

    /** The filter each fetch passes: none, or the published query. */
    function FetchFilter(): Option<Query> {
      if supportUnpublishedContent then None else publishedQuery
    }

    /** The ordering each fetch passes: none, or path ascending. */
    function FetchOrdering(): Option<Ordering> {
      if supportUnpublishedContent then None else Some(PathAscending)
    }

    /** Everything a walk pages through, in the order the service returns it. */
    function Scope(): seq<Content> {
      Descendants(contentService.items, EffectiveParentId(parentId), FetchFilter(), FetchOrdering())
    }

    /** The first `count` requests a walk with page size `pageSize` issues. */
    function Fetches(pageSize: nat, count: nat): seq<PageRequest> {
      PageRequests(EffectiveParentId(parentId), pageSize, FetchFilter(), FetchOrdering(), count)
    }

    /** The value-set batches a walk with page size `pageSize` delivers. */
    function Delivered(pageSize: nat): seq<seq<ValueSet>>
      requires pageSize > 0
    {
      Batches(contentValueSetBuilder.toValueSet, Scope(), pageSize)
    }

    /**
     * A populator that leaves out unpublished content walks exactly the published
     * descendants of its node, in path order.
     */
    lemma PublishedOnlyScope()
      requires !supportUnpublishedContent && publishedQuery == Some(WherePublished)
      ensures SortedByPath(Scope())
      ensures forall c :: c in Scope() <==>
        c in contentService.items && c.published && IsDescendantOf(c, EffectiveParentId(parentId))
    {
      PublishedQueryInPathOrder(contentService.items, EffectiveParentId(parentId));
    }

    /**
     * A populator that includes unpublished content walks every descendant of its
     * node, in store order.
     */
    lemma AllContentScope()
      requires supportUnpublishedContent
      ensures Scope() == Filter(c => IsDescendantOf(c, EffectiveParentId(parentId)), contentService.items)
    {
      var id := EffectiveParentId(parentId);
      FilterExt(c => IsDescendantOf(c, id) && Satisfies(None, c), c => IsDescendantOf(c, id), contentService.items);
    }

    /**
     * One pass of the populate loop: fetches page `pageIndex` of the walk and, when
     * it holds items, hands its value sets to every listed index.
     */
    method FetchPage(contentParentId: int, pageIndex: nat, pageSize: nat, indexes: seq<Indexer>)
      returns (content: seq<Content>)
      requires contentParentId == EffectiveParentId(parentId)
      modifies contentService, indexes
      ensures content == PageOf(Scope(), pageIndex, pageSize)
      ensures contentService.requests == old(contentService.requests)
        + [PageRequest(contentParentId, pageIndex, pageSize, FetchFilter(), FetchOrdering())]
      ensures forall x :: x in indexes ==>
        x.log == old(x.log) + Repeat(contentValueSetBuilder.GetValueSets(content),
                                     if content == [] then 0 else Occurrences(indexes, x))
    {
      if supportUnpublishedContent {
        content := contentService.GetPagedDescendants(contentParentId, pageIndex, pageSize, None, None);
      } else {
        content := contentService.GetPagedDescendants(contentParentId, pageIndex, pageSize,
                                                      publishedQuery, Some(PathAscending));
      }
      if |content| > 0 {
        IndexAll(indexes, content);
      }
    }

    /**
     * The fan-out: each listed index, in list order, is given the value sets of
     * `content`; an index listed `m` times receives them `m` times.
     */
    method IndexAll(indexes: seq<Indexer>, content: seq<Content>)
      modifies indexes
      ensures forall x :: x in indexes ==>
        x.log == old(x.log) + Repeat(contentValueSetBuilder.GetValueSets(content), Occurrences(indexes, x))
    {
      ghost var batch := contentValueSetBuilder.GetValueSets(content);
      var j := 0;
      while j < |indexes|
        invariant 0 <= j <= |indexes|
        invariant forall x :: x in indexes ==> x.log == old(x.log) + Repeat(batch, Occurrences(indexes[..j], x))
      {
        var index := indexes[j];
        label Before:
        index.IndexItems(contentValueSetBuilder.GetValueSets(content));
        assert indexes[..j + 1][..j] == indexes[..j];
        forall x | x in indexes
          ensures x.log == old(x.log) + Repeat(batch, Occurrences(indexes[..j + 1], x))
        {
          if x != index {
            assert x.log == old@Before(x.log);
          }
        }
        j := j + 1;
      }
      assert indexes[..|indexes|] == indexes;
    }

    /**
     * What holds of a walk after its first `pageIndex` passes: while `more`, every
     * page so far was full and its batch was delivered; once `more` is false, every
     * page has been fetched and every batch delivered.
     */
    ghost predicate Walked(pageIndex: nat, more: bool, requests: seq<PageRequest>,
                           requests0: seq<PageRequest>, delivered: seq<seq<ValueSet>>)
    {
      && (more ==>
            && pageIndex * PAGE_SIZE <= |Scope()|
            && pageIndex <= |Delivered(PAGE_SIZE)|
            && delivered == Delivered(PAGE_SIZE)[..pageIndex])
      && (!more ==> pageIndex == |Scope()| / PAGE_SIZE + 1 && delivered == Delivered(PAGE_SIZE))
      && requests == requests0 + Fetches(PAGE_SIZE, pageIndex)
    }

    /**
     * Every listed index has received, on top of its log in `logs0`, each batch of
     * `delivered` once per time it is listed.
     */
    ghost predicate Fanned(indexes: seq<Indexer>, logs0: map<Indexer, seq<seq<ValueSet>>>,
                           delivered: seq<seq<ValueSet>>)
      reads indexes
    {
      forall x :: x in indexes ==> x in logs0 && x.log == logs0[x] + Fanout(delivered, Occurrences(indexes, x))
    }

    /**
     * One pass of the do-while loop, stated against the loop's invariant: when
     * the pages before `pageIndex` have been requested and their batches handed
     * out, this pass requests page `pageIndex`, hands out its batch if it holds
     * items, and a full page means the walk goes on.
     */
    method PopulatePass(contentParentId: int, pageIndex: nat, indexes: seq<Indexer>,
                        ghost requests0: seq<PageRequest>,
                        ghost logs0: map<Indexer, seq<seq<ValueSet>>>,
                        ghost delivered: seq<seq<ValueSet>>)
      returns (content: seq<Content>, ghost next: seq<seq<ValueSet>>)
      requires contentParentId == EffectiveParentId(parentId)
      requires Walked(pageIndex, true, contentService.requests, requests0, delivered)
      requires Fanned(indexes, logs0, delivered)
      modifies contentService, indexes
      ensures Walked(pageIndex + 1, |content| == PAGE_SIZE, contentService.requests, requests0, next)
      ensures Fanned(indexes, logs0, next)
    {
      label Pass:
      content := FetchPage(contentParentId, pageIndex, PAGE_SIZE, indexes);
      ghost var request := PageRequest(contentParentId, pageIndex, PAGE_SIZE, FetchFilter(), FetchOrdering());
      assert Fetches(PAGE_SIZE, pageIndex + 1) == Fetches(PAGE_SIZE, pageIndex) + [request];
      AppendAssoc(requests0, Fetches(PAGE_SIZE, pageIndex), [request]);
      DeliveryStep(contentValueSetBuilder.toValueSet, Scope(), PAGE_SIZE, pageIndex, delivered);
      next := delivered;
      if |content| > 0 {
        ghost var batch := contentValueSetBuilder.GetValueSets(content);
        forall x | x in indexes
          ensures x.log == logs0[x] + Fanout(delivered + [batch], Occurrences(indexes, x))
        {
          var m := Occurrences(indexes, x);
          assert x.log == old@Pass(x.log) + Repeat(batch, m);
          FanoutSnoc(delivered, batch, m);
          AppendAssoc(logs0[x], Fanout(delivered, m), Repeat(batch, m));
        }
        next := delivered + [batch];
      }
    }

    /**
     * Rebuilds the given indexes with pages of 10000 items. The service sees
     * `|Scope()| / 10000 + 1` requests for pages 0, 1, 2, ...; every index receives
     * every delivered batch once per time it is listed.
     */
    method Populate(indexes: seq<Indexer>)
      modifies contentService, indexes
      ensures contentService.requests ==
        old(contentService.requests) + Fetches(PAGE_SIZE, |Scope()| / PAGE_SIZE + 1)
      ensures forall x :: x in indexes ==>
        x.log == old(x.log) + Fanout(Delivered(PAGE_SIZE), Occurrences(indexes, x))
    {
      var pageIndex: nat := 0;
      var contentParentId := ROOT_ID;
      if parentId.Some? && parentId.value > 0 {
        contentParentId := parentId.value;
      }
      ghost var requests0 := contentService.requests;
      ghost var logs0 := map x | x in indexes :: x.log;
      ghost var delivered: seq<seq<ValueSet>> := [];
      var more := true;
      while more
        invariant contentParentId == EffectiveParentId(parentId)
        invariant Walked(pageIndex, more, contentService.requests, requests0, delivered)
        invariant Fanned(indexes, logs0, delivered)
        decreases if more then |Scope()| - pageIndex * PAGE_SIZE + 1 else 0
      {
        var content;
        content, delivered := PopulatePass(contentParentId, pageIndex, indexes, requests0, logs0, delivered);
        pageIndex := pageIndex + 1;
        more := |content| == PAGE_SIZE;
      }
    }
  }
}
