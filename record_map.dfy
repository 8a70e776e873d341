/** The small part of a Notion record map that the site post-processes:
    the block dictionary and the collection query results. */
module RecordMap {
  import opened Wrappers

  /** A block's `properties`: each property is a list of decorations, and a
      decoration is a text followed by its formatting marks. */
  type Properties = map<string, seq<seq<string>>>

  datatype Block = Block(
    id: string,
    blockType: string,
    parentId: Option<string>,
    properties: Option<Properties>)

  /** An entry of `recordMap.block`; its `value` may be missing. */
  datatype BlockRecord = BlockRecord(value: Option<Block>)

  type BlockMap = map<string, BlockRecord>

  /** `collection_group_results` of one view's query result. */
  datatype GroupResult = GroupResult(blockIds: Option<seq<string>>, total: Option<int>)

  /** One entry `[viewId, queryResult]` of a collection's query results;
      `groupResults` is None when the query result or its group results are absent. */
  datatype ViewEntry = ViewEntry(viewId: string, groupResults: Option<GroupResult>)

  /** One entry `[collectionId, collectionQuery]` of `collection_query`, views in
      iteration order. */
  datatype CollectionEntry = CollectionEntry(collectionId: string, views: seq<ViewEntry>)

  datatype RecordMap = RecordMap(
    block: Option<BlockMap>,
    collectionQuery: Option<seq<CollectionEntry>>)

  /** The view carries a `blockIds` list. */
  predicate HasBlockIds(v: ViewEntry) {
    v.groupResults.Some? && v.groupResults.value.blockIds.Some?
  }

  /** All views of all collections, in the order the nested loops visit them. */
  function AllViews(cs: seq<CollectionEntry>): (vs: seq<ViewEntry>)
    decreases |cs|
  {
    if cs == [] then [] else AllViews(cs[..|cs| - 1]) + cs[|cs| - 1].views
  }
}
