/** What `getPageWithPagination` promises, proved about its specification. */
module PaginationFacts {
  import opened Wrappers
  import opened Decimal
  import opened RecordMap
  import opened Pagination

  /** The `blockIds` list that decides `hasMore`, `nextCursor` and the pruning. */
  function DecidingIds(rm: RecordMap): Option<seq<string>> {
    if rm.collectionQuery.Some? then LastBlockIds(AllViews(rm.collectionQuery.value)) else None
  }

  /** Without options the record map comes back as it is, without meta; with
      `loadAll` it comes back as it is, with the "single page" meta. */
  lemma UnpaginatedRequests(rm: RecordMap, o: PaginationOptions)
    requires ValidOptions(o)
    ensures PaginateSpec(rm, None) == Paginated(rm, None)
    ensures o.loadAll ==> PaginateSpec(rm, Some(o)) == Paginated(rm, Some(PaginationMeta(false, None, 1)))
  {
  }

  /** Every view keeps its place and id; a view with `blockIds` gets the window
      of its list as its new list, and `total` becomes the window's length. */
  lemma ViewsCutToWindow(rm: RecordMap, o: PaginationOptions, i: nat, j: nat)
    requires ValidOptions(o) && !o.loadAll
    requires rm.collectionQuery.Some? && i < |rm.collectionQuery.value|
    requires j < |rm.collectionQuery.value[i].views|
    ensures var out := PaginateSpec(rm, Some(o)).recordMap;
            var c := rm.collectionQuery.value[i];
            var v := c.views[j];
            && out.collectionQuery.Some?
            && |out.collectionQuery.value| == |rm.collectionQuery.value|
            && out.collectionQuery.value[i].collectionId == c.collectionId
            && |out.collectionQuery.value[i].views| == |c.views|
            && var v' := out.collectionQuery.value[i].views[j];
            && v'.viewId == v.viewId
            && (!HasBlockIds(v) ==> v' == v)
            && (HasBlockIds(v) ==>
                  var ids := v.groupResults.value.blockIds.value;
                  var start := StartIndex(o.cursor);
                  && v'.groupResults.Some?
                  && v'.groupResults.value.blockIds == Some(Window(ids, start, PageSize(o)))
                  && v'.groupResults.value.total == Some(|Window(ids, start, PageSize(o))|)
                  && |Window(ids, start, PageSize(o))| <= PageSize(o)
                  && (start <= |ids| ==> Window(ids, start, PageSize(o)) == ids[start..Min(start + PageSize(o), |ids|)]))
  {
  }

  /** `hasMore` holds iff the deciding list runs past the window's end;
      `nextCursor` is present exactly then, and reads back as that end index. */
  lemma HasMoreAndNextCursor(rm: RecordMap, o: PaginationOptions)
    requires ValidOptions(o) && !o.loadAll
    ensures var meta := PaginateSpec(rm, Some(o)).meta;
            var end := StartIndex(o.cursor) + PageSize(o);
            && meta.Some?
            && (meta.value.hasMore <==> DecidingIds(rm).Some? && end < |DecidingIds(rm).value|)
            && (meta.value.nextCursor.Some? <==> meta.value.hasMore)
            && (meta.value.nextCursor.Some? ==>
                  && meta.value.nextCursor.value == ToDecimal(end)
                  && IsDigits(meta.value.nextCursor.value) && ParseDecimal(meta.value.nextCursor.value) == end)
  {
    ParseToDecimal(StartIndex(o.cursor) + PageSize(o));
  }

  /** `currentPage` is the 1-based page that holds the start index. */
  lemma CurrentPageOfCursor(rm: RecordMap, o: PaginationOptions)
    requires ValidOptions(o) && !o.loadAll
    ensures var meta := PaginateSpec(rm, Some(o)).meta;
            && meta.Some?
            && (!Truthy(o.cursor) ==> meta.value.currentPage == 1)
            && (Truthy(o.cursor) ==> meta.value.currentPage == ParseDecimal(o.cursor.value) / PageSize(o) + 1)
            && (meta.value.currentPage - 1) * PageSize(o) <= StartIndex(o.cursor) < meta.value.currentPage * PageSize(o)
  {
  }

  /** Nothing but pruning happens to the block map: its keys shrink, every kept
      block is the original, and a block is dropped iff it is removable for the
      window of the deciding list. */
  lemma BlocksOnlyPruned(rm: RecordMap, o: PaginationOptions)
    requires ValidOptions(o) && !o.loadAll
    ensures var out := PaginateSpec(rm, Some(o)).recordMap;
            && (out.block.Some? <==> rm.block.Some?)
            && (rm.block.Some? ==>
                  var before := rm.block.value;
                  var after := out.block.value;
                  && after.Keys <= before.Keys
                  && (forall id :: id in after ==> after[id] == before[id])
                  && (forall id :: id in before ==>
                        (id !in after <==>
                           DecidingIds(rm).Some?
                           && Removable(before, id, Window(DecidingIds(rm).value, StartIndex(o.cursor), PageSize(o))))))
  {
  }

  /** A later view with `blockIds` overrides every earlier one: only the last
      one decides. */
  lemma {:induction false} LaterViewOverrides(vs: seq<ViewEntry>, ws: seq<ViewEntry>)
    ensures LastBlockIds(vs + ws) == if LastBlockIds(ws).Some? then LastBlockIds(ws) else LastBlockIds(vs)
    decreases |ws|
  {
    if ws == [] {
      assert vs + ws == vs;
    } else {
      var init := ws[..|ws| - 1];
      assert (vs + ws)[..|vs + ws| - 1] == vs + init;
      LaterViewOverrides(vs, init);
    }
  }

  /** Two consecutive windows join into one: pages neither overlap nor skip. */
  lemma WindowsTile(ids: seq<string>, start: nat, p: nat, q: nat)
    ensures Window(ids, start, p) + Window(ids, start + p, q) == Window(ids, start, p + q)
  {
  }

  lemma MulMonotone(x: int, y: int, s: int)
    requires s > 0 && x * s < y * s
    ensures x < y
  {
  }

  lemma DivPlusOne(a: nat, b: nat)
    requires b > 0
    ensures (a + b) / b == a / b + 1
  {
    var q, r := a / b, a % b;
    var q', r' := (a + b) / b, (a + b) % b;
    assert a == q * b + r;
    assert a + b == q' * b + r';
    assert a + b == (q + 1) * b + r;
    MulMonotone(q', q + 2, b);
    MulMonotone(q, q', b);
  }

  /** A cursor one page further on is on the next page. */
  lemma NextPageNumber(cursor: Option<string>, cursor': Option<string>, size: nat)
    requires cursor.Some? ==> IsDigits(cursor.value)
    requires cursor'.Some? ==> IsDigits(cursor'.value)
    requires size > 0 && Truthy(cursor')
    requires StartIndex(cursor') == StartIndex(cursor) + size
    ensures CurrentPage(cursor', size) == CurrentPage(cursor, size) + 1
  {
    DivPlusOne(StartIndex(cursor), size);
  }

  lemma CurrentPageOfSpec(rm: RecordMap, o: PaginationOptions)
    requires ValidOptions(o) && !o.loadAll
    ensures PaginateSpec(rm, Some(o)).meta.Some?
    ensures PaginateSpec(rm, Some(o)).meta.value.currentPage == CurrentPage(o.cursor, PageSize(o))
  {
  }

  /** Following `nextCursor` asks for the window right after this one, on the
      next page number. */
  lemma NextCursorFollows(rm: RecordMap, o: PaginationOptions)
    requires ValidOptions(o) && !o.loadAll
    requires PaginateSpec(rm, Some(o)).meta.value.hasMore
    ensures var meta := PaginateSpec(rm, Some(o)).meta.value;
            var o' := o.(cursor := meta.nextCursor);
            && ValidOptions(o')
            && StartIndex(o'.cursor) == StartIndex(o.cursor) + PageSize(o)
            && PaginateSpec(rm, Some(o')).meta.value.currentPage == meta.currentPage + 1
  {
    HasMoreAndNextCursor(rm, o);
    var meta := PaginateSpec(rm, Some(o)).meta.value;
    var o' := o.(cursor := meta.nextCursor);
    assert Truthy(o'.cursor) by {
      ParseToDecimal(StartIndex(o.cursor) + PageSize(o));
    }
    CurrentPageOfSpec(rm, o);
    CurrentPageOfSpec(rm, o');
    NextPageNumber(o.cursor, o'.cursor, PageSize(o));
  }
}
