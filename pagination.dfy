/** The post-processing of `getPageWithPagination`: every view's `blockIds` is cut
    to the requested window, `total` is rewritten, and the collection-item blocks
    outside the window are dropped from the block map. */
module Pagination {
  import opened Wrappers
  import opened Decimal
  import opened RecordMap

  const DefaultPageSize: nat := 10

  datatype PaginationOptions = PaginationOptions(
    cursor: Option<string>,
    pageSize: Option<nat>,
    loadAll: bool)

  datatype PaginationMeta = PaginationMeta(
    hasMore: bool,
    nextCursor: Option<string>,
    currentPage: nat)

  /** The record map handed back, with `paginationMeta` when options were given. */
  datatype Paginated = Paginated(recordMap: RecordMap, meta: Option<PaginationMeta>)

  /** The cursor is absent, empty, or a string of decimal digits. */
  predicate ValidOptions(o: PaginationOptions) {
    (o.cursor.Some? ==> IsDigits(o.cursor.value))
    && (o.pageSize.Some? ==> o.pageSize.value > 0)
  }

  function PageSize(o: PaginationOptions): (n: nat)
    requires ValidOptions(o)
    ensures n > 0
  {
    if o.pageSize.Some? then o.pageSize.value else DefaultPageSize
  }

  /** `cursor ? Number.parseInt(cursor) : 0` */
  function StartIndex(cursor: Option<string>): (n: nat)
    requires cursor.Some? ==> IsDigits(cursor.value)
    ensures !Truthy(cursor) ==> n == 0
    ensures Truthy(cursor) && Canonical(cursor.value) ==> ToDecimal(n) == cursor.value
  {
    if Truthy(cursor) then
      if Canonical(cursor.value) then ToDecimalOfParse(cursor.value); ParseDecimal(cursor.value)
      else ParseDecimal(cursor.value)
    else 0
  }

  /** `cursor ? Math.floor(Number.parseInt(cursor) / pageSize) + 1 : 1` */
  function CurrentPage(cursor: Option<string>, pageSize: nat): (page: nat)
    requires cursor.Some? ==> IsDigits(cursor.value)
    requires pageSize > 0
    ensures page >= 1
    ensures (page - 1) * pageSize <= StartIndex(cursor) < page * pageSize
  {
    if Truthy(cursor) then ParseDecimal(cursor.value) / pageSize + 1 else 1
  }

  /** `ids.slice(start, start + size)`: slice bounds past the end are clamped. */
  function Window(ids: seq<string>, start: nat, size: nat): (w: seq<string>)
    ensures |w| <= size
    ensures start <= |ids| ==> w == ids[start..Min(start + size, |ids|)]
    ensures start >= |ids| ==> w == []
  {
    ids[Min(start, |ids|)..Min(start + size, |ids|)]
  }

  function PaginateView(v: ViewEntry, start: nat, size: nat): ViewEntry {
    if HasBlockIds(v) then
      var w := Window(v.groupResults.value.blockIds.value, start, size);
      ViewEntry(v.viewId, Some(GroupResult(Some(w), Some(|w|))))
    else v
  }

  function PaginateCollection(c: CollectionEntry, start: nat, size: nat): CollectionEntry {
    CollectionEntry(c.collectionId, seq(|c.views|, j requires 0 <= j < |c.views| => PaginateView(c.views[j], start, size)))
  }

  function PaginateCollections(cs: seq<CollectionEntry>, start: nat, size: nat): seq<CollectionEntry> {
    seq(|cs|, i requires 0 <= i < |cs| => PaginateCollection(cs[i], start, size))
  }

  /** The `blockIds` of the last view, in visiting order, that has them. */
  function LastBlockIds(vs: seq<ViewEntry>): (r: Option<seq<string>>)
    decreases |vs|
  {
    if vs == [] then None
    else if HasBlockIds(vs[|vs| - 1]) then vs[|vs| - 1].groupResults.value.blockIds
    else LastBlockIds(vs[..|vs| - 1])
  }

  /** A block that is a collection item outside the window: it has a parent, is
      not a page, is not in the window, and its parent is a collection view. */
  predicate Removable(blocks: BlockMap, id: string, window: seq<string>)
    requires id in blocks
  {
    var rec := blocks[id];
    && rec.value.Some?
    && Truthy(rec.value.value.parentId)
    && rec.value.value.blockType != "page"
    && id !in window
    && var parent := rec.value.value.parentId.value;
    && parent in blocks
    && blocks[parent].value.Some?
    && (blocks[parent].value.value.blockType == "collection_view"
        || blocks[parent].value.value.blockType == "collection_view_page")
  }

  /** The block map without the removable blocks. */
  function Pruned(blocks: BlockMap, window: seq<string>): (m: BlockMap)
    ensures m.Keys <= blocks.Keys
    ensures forall id :: id in m ==> m[id] == blocks[id]
    ensures forall id :: id in blocks ==> (id !in m <==> Removable(blocks, id, window))
  {
    map id | id in blocks && !Removable(blocks, id, window) :: blocks[id]
  }

  /** What `hasMore`, `nextCursor` and the block map are after the views whose
      last `blockIds` list is `last`. */
  datatype PageState = PageState(hasMore: bool, nextCursor: Option<string>, block: Option<BlockMap>)

  function StateAfter(block0: Option<BlockMap>, last: Option<seq<string>>, start: nat, size: nat): PageState {
    match last
    case None => PageState(false, None, block0)
    case Some(ids) =>
      var more := start + size < |ids|;
      PageState(
        more,
        if more then Some(ToDecimal(start + size)) else None,
        if block0.Some? then Some(Pruned(block0.value, Window(ids, start, size))) else block0)
  }

  /** The result of `getPageWithPagination` for the fetched record map `rm`. */
  function PaginateSpec(rm: RecordMap, options: Option<PaginationOptions>): Paginated
    requires options.Some? ==> ValidOptions(options.value)
  {
    if options.None? then Paginated(rm, None)
    else if options.value.loadAll then Paginated(rm, Some(PaginationMeta(false, None, 1)))
    else
      var o := options.value;
      var start, size := StartIndex(o.cursor), PageSize(o);
      var last := if rm.collectionQuery.Some? then LastBlockIds(AllViews(rm.collectionQuery.value)) else None;
      var st := StateAfter(rm.block, last, start, size);
      var query := if rm.collectionQuery.Some? then Some(PaginateCollections(rm.collectionQuery.value, start, size)) else None;
      Paginated(RecordMap(st.block, query), Some(PaginationMeta(st.hasMore, st.nextCursor, CurrentPage(o.cursor, size))))
  }

  /** The two loops that find the blocks to remove and copy the others. */
  method PruneBlocks(blocks: BlockMap, window: seq<string>) returns (newBlocks: BlockMap)
    ensures newBlocks == Pruned(blocks, window)
  {
    var toRemove: set<string> := {};
    var todo := blocks.Keys;
    while todo != {}
      invariant todo <= blocks.Keys
      invariant toRemove <= blocks.Keys - todo
      invariant forall id :: id in blocks && id !in todo ==> (id in toRemove <==> Removable(blocks, id, window))
      decreases todo
    {
      var id :| id in todo;
      var rec := blocks[id];
      if rec.value.Some? && Truthy(rec.value.value.parentId) && rec.value.value.blockType != "page" && id !in window {
        var parentId := rec.value.value.parentId.value;
        if parentId in blocks && blocks[parentId].value.Some?
           && (blocks[parentId].value.value.blockType == "collection_view"
               || blocks[parentId].value.value.blockType == "collection_view_page")
        {
          toRemove := toRemove + {id};
        }
      }
      todo := todo - {id};
    }
    newBlocks := map[];
    todo := blocks.Keys;
    while todo != {}
      invariant todo <= blocks.Keys
      invariant newBlocks.Keys == (blocks.Keys - todo) - toRemove
      invariant forall id :: id in newBlocks ==> newBlocks[id] == blocks[id]
      decreases todo
    {
      var id :| id in todo;
      if id !in toRemove {
        newBlocks := newBlocks[id := blocks[id]];
      }
      todo := todo - {id};
    }
  }
}

module PaginationLoop {
  import opened Wrappers
  import opened Decimal
  import opened RecordMap
  import opened Pagination

  lemma AllViewsStep(cs: seq<CollectionEntry>, i: nat)
    requires i < |cs|
    ensures AllViews(cs[..i + 1]) == AllViews(cs[..i]) + cs[i].views
  {
    assert cs[..i + 1][..i] == cs[..i];
  }

  lemma LastBlockIdsStep(vs: seq<ViewEntry>, v: ViewEntry)
    ensures LastBlockIds(vs + [v]) == if HasBlockIds(v) then v.groupResults.value.blockIds else LastBlockIds(vs)
  {
    assert (vs + [v])[..|vs|] == vs;
  }

  lemma StateStep(seen: seq<ViewEntry>, views: seq<ViewEntry>, j: nat, block0: Option<BlockMap>,
                  start: nat, size: nat, st: PageState, st': PageState)
    requires j < |views|
    requires st == StateAfter(block0, LastBlockIds(seen + views[..j]), start, size)
    requires st' == if HasBlockIds(views[j]) then StateAfter(block0, views[j].groupResults.value.blockIds, start, size) else st
    ensures st' == StateAfter(block0, LastBlockIds(seen + views[..j + 1]), start, size)
  {
    assert seen + views[..j + 1] == (seen + views[..j]) + [views[j]];
    LastBlockIdsStep(seen + views[..j], views[j]);
  }

  /** One view of the inner loop: cut its `blockIds` and recompute the state. */
  method PaginateOneView(v: ViewEntry, block0: Option<BlockMap>, cursor: Option<string>, pageSize: nat, st: PageState)
    returns (v': ViewEntry, st': PageState)
    requires cursor.Some? ==> IsDigits(cursor.value)
    ensures v' == PaginateView(v, StartIndex(cursor), pageSize)
    ensures st' == if HasBlockIds(v) then StateAfter(block0, v.groupResults.value.blockIds, StartIndex(cursor), pageSize) else st
  {
    v', st' := v, st;
    if v.groupResults.Some? {
      var groupResult := v.groupResults.value;
      if groupResult.blockIds.Some? {
        var ids := groupResult.blockIds.value;
        var startIndex := if Truthy(cursor) then ParseDecimal(cursor.value) else 0;
        var endIndex := startIndex + pageSize;
        var totalItems := |ids|;
        var paginatedBlockIds := ids[Min(startIndex, totalItems)..Min(endIndex, totalItems)];
        v' := ViewEntry(v.viewId, Some(GroupResult(Some(paginatedBlockIds), Some(|paginatedBlockIds|))));
        var hasMore := endIndex < totalItems;
        var nextCursor := if hasMore then Some(ToDecimal(endIndex)) else None;
        var block := st.block;
        if block0.Some? {
          var newBlockMap := PruneBlocks(block0.value, paginatedBlockIds);
          block := Some(newBlockMap);
        } else {
          block := block0;
        }
        st' := PageState(hasMore, nextCursor, block);
      }
    }
  }

  /** The inner loop over one collection's views; `seen` are the views visited before. */
  method PaginateViews(views: seq<ViewEntry>, block0: Option<BlockMap>, cursor: Option<string>, pageSize: nat,
                       st: PageState, ghost seen: seq<ViewEntry>)
    returns (newViews: seq<ViewEntry>, st': PageState)
    requires cursor.Some? ==> IsDigits(cursor.value)
    requires st == StateAfter(block0, LastBlockIds(seen), StartIndex(cursor), pageSize)
    ensures newViews == seq(|views|, j requires 0 <= j < |views| => PaginateView(views[j], StartIndex(cursor), pageSize))
    ensures st' == StateAfter(block0, LastBlockIds(seen + views), StartIndex(cursor), pageSize)
  {
    newViews := [];
    st' := st;
    var j := 0;
    assert seen + views[..0] == seen;
    while j < |views|
      invariant 0 <= j <= |views|
      invariant |newViews| == j
      invariant forall k :: 0 <= k < j ==> newViews[k] == PaginateView(views[k], StartIndex(cursor), pageSize)
      invariant st' == StateAfter(block0, LastBlockIds(seen + views[..j]), StartIndex(cursor), pageSize)
    {
      var v;
      ghost var before := st';
      v, st' := PaginateOneView(views[j], block0, cursor, pageSize, st');
      StateStep(seen, views, j, block0, StartIndex(cursor), pageSize, before, st');
      newViews := newViews + [v];
      j := j + 1;
    }
    assert views[..j] == views;
  }

  /** The outer loop over `collection_query`. */
  method PaginateQuery(cs: seq<CollectionEntry>, block0: Option<BlockMap>, cursor: Option<string>, pageSize: nat)
    returns (newCs: seq<CollectionEntry>, st: PageState)
    requires cursor.Some? ==> IsDigits(cursor.value)
    ensures newCs == PaginateCollections(cs, StartIndex(cursor), pageSize)
    ensures st == StateAfter(block0, LastBlockIds(AllViews(cs)), StartIndex(cursor), pageSize)
  {
    st := PageState(false, None, block0);
    newCs := [];
    var i := 0;
    assert cs[..0] == [];
    while i < |cs|
      invariant 0 <= i <= |cs|
      invariant |newCs| == i
      invariant forall k :: 0 <= k < i ==> newCs[k] == PaginateCollection(cs[k], StartIndex(cursor), pageSize)
      invariant st == StateAfter(block0, LastBlockIds(AllViews(cs[..i])), StartIndex(cursor), pageSize)
    {
      var newViews;
      newViews, st := PaginateViews(cs[i].views, block0, cursor, pageSize, st, AllViews(cs[..i]));
      AllViewsStep(cs, i);
      assert CollectionEntry(cs[i].collectionId, newViews) == PaginateCollection(cs[i], StartIndex(cursor), pageSize);
      newCs := newCs + [CollectionEntry(cs[i].collectionId, newViews)];
      i := i + 1;
    }
    assert cs[..i] == cs;
    CollectionsDone(cs, newCs, StartIndex(cursor), pageSize);
  }

  lemma CollectionsDone(cs: seq<CollectionEntry>, newCs: seq<CollectionEntry>, start: nat, size: nat)
    requires |newCs| == |cs|
    requires forall k :: 0 <= k < |cs| ==> newCs[k] == PaginateCollection(cs[k], start, size)
    ensures newCs == PaginateCollections(cs, start, size)
  {
  }

  /**
   * `getPageWithPagination` after the fetch: the nested loops over
   * `collection_query`, each view with `blockIds` cutting its list to the window
   * and recomputing `hasMore`, `nextCursor` and the pruned block map.
   */
  method Paginate(rm: RecordMap, options: Option<PaginationOptions>) returns (out: Paginated)
    requires options.Some? ==> ValidOptions(options.value)
    ensures out == PaginateSpec(rm, options)
  {
    if options.None? {
      return Paginated(rm, None);
    }
    var o := options.value;
    var pageSize := PageSize(o);
    if o.loadAll {
      return Paginated(rm, Some(PaginationMeta(false, None, 1)));
    }
    var st := PageState(false, None, rm.block);
    var query := rm.collectionQuery;
    if rm.collectionQuery.Some? {
      var newCs;
      newCs, st := PaginateQuery(rm.collectionQuery.value, rm.block, o.cursor, pageSize);
      query := Some(newCs);
    }
    var meta := PaginationMeta(st.hasMore, st.nextCursor, CurrentPage(o.cursor, pageSize));
    out := Paginated(RecordMap(st.block, query), Some(meta));
  }
}
