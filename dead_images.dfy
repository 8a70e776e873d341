/** `replaceDeadImageLinks`: an image block whose source URL is dead gets the
    fallback image as its only source, keeping its caption. */
module DeadImages {
  import opened Wrappers
  import opened RecordMap

  /** `block.properties?.source?.[0]?.[0]`, when it is a non-empty string. */
  function SourceUrl(b: Block): (url: Option<string>)
    ensures url.Some? ==> url.value != ""
  {
    if b.properties.Some? && "source" in b.properties.value then
      var src := b.properties.value["source"];
      if |src| > 0 && |src[0]| > 0 && src[0][0] != "" then Some(src[0][0]) else None
    else None
  }

  /** `{ source: [[fallback]] }`, plus the original `caption` if there was one. */
  function FallbackProperties(fallback: string, props: Option<Properties>): (p: Properties)
    ensures "source" in p && p["source"] == [[fallback]]
    ensures p.Keys <= {"source", "caption"}
    ensures props.Some? && "caption" in props.value ==> "caption" in p && p["caption"] == props.value["caption"]
    ensures "caption" in p ==> props.Some? && "caption" in props.value
  {
    var base := map["source" := [[fallback]]];
    if props.Some? && "caption" in props.value then base["caption" := props.value["caption"]] else base
  }

  /** The block is an image whose source the oracle reports dead. */
  predicate IsDeadImage(rec: BlockRecord, linkIsDead: string -> bool) {
    && rec.value.Some?
    && rec.value.value.blockType == "image"
    && SourceUrl(rec.value.value).Some?
    && linkIsDead(SourceUrl(rec.value.value).value)
  }

  function RewriteRecord(rec: BlockRecord, fallback: string, linkIsDead: string -> bool): BlockRecord {
    if IsDeadImage(rec, linkIsDead) then
      var b := rec.value.value;
      BlockRecord(Some(b.(properties := Some(FallbackProperties(fallback, b.properties)))))
    else rec
  }

  /** The record map after the rewrite. */
  function RewriteDeadImages(rm: RecordMap, fallback: Option<string>, linkIsDead: string -> bool): RecordMap {
    if rm.block.None? || !Truthy(fallback) then rm
    else
      var blocks := rm.block.value;
      rm.(block := Some(map id | id in blocks :: RewriteRecord(blocks[id], fallback.value, linkIsDead)))
  }

  /**
   * The loop over the block ids, one block at a time. `linkIsDead(url)` stands
   * for the HEAD request to `url` failing.
   */
  method ReplaceDeadImageLinks(rm: RecordMap, fallback: Option<string>, linkIsDead: string -> bool)
    returns (r: RecordMap)
    ensures r == RewriteDeadImages(rm, fallback, linkIsDead)
  {
    if rm.block.None? || !Truthy(fallback) {
      return rm;
    }
    var blocks := rm.block.value;
    var current := blocks;
    var todo := blocks.Keys;
    while todo != {}
      invariant todo <= blocks.Keys
      invariant current.Keys == blocks.Keys
      invariant forall id :: id in blocks && id !in todo ==> current[id] == RewriteRecord(blocks[id], fallback.value, linkIsDead)
      invariant forall id :: id in todo ==> current[id] == blocks[id]
      decreases todo
    {
      var blockId :| blockId in todo;
      var blockWrapper := current[blockId];
      if blockWrapper.value.Some? {
        var block := blockWrapper.value.value;
        if block.blockType == "image" {
          var originalSource := SourceUrl(block);
          if originalSource.Some? && linkIsDead(originalSource.value) {
            var newProperties := map["source" := [[fallback.value]]];
            if block.properties.Some? && "caption" in block.properties.value {
              newProperties := newProperties["caption" := block.properties.value["caption"]];
            }
            current := current[blockId := BlockRecord(Some(block.(properties := Some(newProperties))))];
          }
        }
      }
      todo := todo - {blockId};
    }
    assert current == map id | id in blocks :: RewriteRecord(blocks[id], fallback.value, linkIsDead);
    r := rm.(block := Some(current));
  }

  /** Only dead images change, and of them only the properties: the source
      becomes the fallback, the caption stays, everything else is dropped. */
  lemma RewriteEffect(rm: RecordMap, fallback: Option<string>, linkIsDead: string -> bool)
    ensures var r := RewriteDeadImages(rm, fallback, linkIsDead);
            && r.collectionQuery == rm.collectionQuery
            && (r.block.Some? <==> rm.block.Some?)
            && ((rm.block.None? || !Truthy(fallback)) ==> r == rm)
            && (rm.block.Some? ==>
                  var before, after := rm.block.value, r.block.value;
                  && after.Keys == before.Keys
                  && forall id :: id in before ==>
                       if Truthy(fallback) && IsDeadImage(before[id], linkIsDead) then
                         var b, b' := before[id].value.value, after[id].value.value;
                         && b'.id == b.id && b'.blockType == b.blockType && b'.parentId == b.parentId
                         && b'.properties.Some?
                         && b'.properties.value.Keys <= {"source", "caption"}
                         && b'.properties.value["source"] == [[fallback.value]]
                         && ("caption" in b'.properties.value <==> b.properties.Some? && "caption" in b.properties.value)
                         && ("caption" in b'.properties.value ==> b'.properties.value["caption"] == b.properties.value["caption"])
                       else after[id] == before[id])
  {
  }

  /** If the fallback image itself is alive, a second pass changes nothing. */
  lemma {:induction false} RewriteIdempotent(rm: RecordMap, fallback: Option<string>, linkIsDead: string -> bool)
    requires Truthy(fallback) ==> !linkIsDead(fallback.value)
    ensures RewriteDeadImages(RewriteDeadImages(rm, fallback, linkIsDead), fallback, linkIsDead)
         == RewriteDeadImages(rm, fallback, linkIsDead)
  {
    if rm.block.Some? && Truthy(fallback) {
      var once := RewriteDeadImages(rm, fallback, linkIsDead).block.value;
      var twice := RewriteDeadImages(RewriteDeadImages(rm, fallback, linkIsDead), fallback, linkIsDead).block.value;
      forall id | id in once
        ensures RewriteRecord(once[id], fallback.value, linkIsDead) == once[id]
      {
        if IsDeadImage(rm.block.value[id], linkIsDead) {
          assert SourceUrl(once[id].value.value) == fallback;
        }
      }
      assert twice == once;
    }
  }
}
