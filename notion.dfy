/** The entry points of the Notion data layer: `getPage`, `getPageWithPagination`
    and `getCollectionDataPaginated`, with the Notion client as an oracle. */
module Notion {
  import opened Wrappers
  import opened Decimal
  import opened RecordMap
  import opened Retry
  import opened DeadImages
  import opened Pagination
  import opened PaginationLoop

  /**
   * `getPage`: the retry loop, then the dead image rewrite of the fetched record
   * map. `call(k)` is the k-th answer of `notion.getPage`; `fallback` is
   * `defaultFallbackImage`.
   */
  method GetPage(call: nat -> Result<RecordMap, NotionError>, fallback: Option<string>, linkIsDead: string -> bool)
    returns (r: Result<RecordMap, NotionError>, calls: nat, delays: seq<nat>)
    ensures 1 <= calls <= MaxAttempts
    ensures forall k :: 0 <= k < calls - 1 ==> RateLimited(call(k))
    ensures calls < MaxAttempts ==> !RateLimited(call(calls - 1))
    ensures delays == [4000, 8000][..calls - 1]
    ensures call(calls - 1).Failure? ==> r == call(calls - 1)
    ensures call(calls - 1).Success? ==> r == Success(RewriteDeadImages(call(calls - 1).value, fallback, linkIsDead))
  {
    var fetched;
    fetched, calls, delays := GetPageWithRetry(call);
    if fetched.Failure? {
      return fetched, calls, delays;
    }
    var recordMap := ReplaceDeadImageLinks(fetched.value, fallback, linkIsDead);
    r := Success(recordMap);
  }

  /** `getPageWithPagination`: fetch the page, then paginate its collections.
      `calls` and `delays` record the fetch's retries as in `GetPage`. */
  method GetPageWithPagination(call: nat -> Result<RecordMap, NotionError>, fallback: Option<string>,
                               linkIsDead: string -> bool, options: Option<PaginationOptions>)
    returns (r: Result<Paginated, NotionError>, calls: nat, delays: seq<nat>)
    requires options.Some? ==> ValidOptions(options.value)
    ensures 1 <= calls <= MaxAttempts
    ensures forall k :: 0 <= k < calls - 1 ==> RateLimited(call(k))
    ensures calls < MaxAttempts ==> !RateLimited(call(calls - 1))
    ensures delays == [4000, 8000][..calls - 1]
    ensures call(calls - 1).Failure? ==> r == Failure(call(calls - 1).error)
    ensures call(calls - 1).Success? ==>
              r == Success(PaginateSpec(RewriteDeadImages(call(calls - 1).value, fallback, linkIsDead), options))
  {
    var page;
    page, calls, delays := GetPage(call, fallback, linkIsDead);
    if page.Failure? {
      return Failure(page.error), calls, delays;
    }
    var paginated := Paginate(page.value, options);
    r := Success(paginated);
  }

  /** What `notion.getCollectionData` answers with: `result?.blockIds`. */
  datatype CollectionData = CollectionData(blockIds: Option<seq<string>>)

  datatype CollectionPage = CollectionPage(data: Option<CollectionData>, hasMore: bool, nextCursor: Option<string>)

  const DefaultLimit: nat := 10

  /** `Object.keys(collectionData.result?.blockIds || {}).length` */
  function BlockCount(data: CollectionData): nat {
    if data.blockIds.Some? then |data.blockIds.value| else 0
  }

  /**
   * `getCollectionDataPaginated`. `fetch(limit)` is the client's answer for the
   * requested limit (None when everything is requested), `now` the clock reading
   * that names the cursor. The cursor option is not read by the source.
   */
  function GetCollectionDataPaginated(fetch: Option<nat> -> Result<Option<CollectionData>, NotionError>,
                                      limit: Option<nat>, loadAll: Option<bool>, now: nat)
    : (r: Result<CollectionPage, NotionError>)
    ensures var lim := if limit.Some? then limit.value else DefaultLimit;
            var all := loadAll == Some(true);
            var answer := fetch(if all then None else Some(lim));
            && (r.Failure? <==> answer.Failure?)
            && (r.Failure? ==> r.error == answer.error)
            && (r.Success? ==>
                  && r.value.data == answer.value
                  && (r.value.hasMore <==>
                        !all && answer.value.Some? && BlockCount(answer.value.value) >= lim)
                  && (r.value.nextCursor.Some? <==> r.value.hasMore)
                  && (r.value.hasMore ==> r.value.nextCursor == Some("cursor_" + ToDecimal(now))))
  {
    var lim := if limit.Some? then limit.value else DefaultLimit;
    var all := loadAll == Some(true);
    match fetch(if all then None else Some(lim))
    case Failure(e) => Failure(e)
    case Success(data) =>
      var more := !all && data.Some? && BlockCount(data.value) >= lim;
      Success(CollectionPage(data, more, if more then Some("cursor_" + ToDecimal(now)) else None))
  }
}
