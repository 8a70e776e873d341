# Notion site data layer: pagination, retries, dead images, canonical page map

This project models the data transformations of a Next.js site that renders a
Notion workspace. It covers `lib/notion.ts` and `lib/get-site-map.ts`, and states
and proves their properties in Dafny. Calls into the Notion client, HTTP HEAD
requests and the helpers of `notion-utils` are parameters (oracles).

- **Record map** (`RecordMap`): the block dictionary (`block`, ids to records
  whose `value` may be missing) and `collection_query`. Collections, and the
  views inside each collection, are kept in the order the source's nested
  `for … of Object.entries(…)` loops visit them.
- **Pagination** (`Pagination`, `PaginationLoop`, `PaginationFacts`):
  `getPageWithPagination` cuts each view's `blockIds` to the window
  `[cursor, cursor + pageSize)`, sets `total` to the window's length and
  computes `hasMore`, `nextCursor` and `currentPage`. It then rebuilds the
  block map without the collection-item blocks outside the window. The nested
  loops are methods proved against a functional specification (`PaginateSpec`);
  the properties are lemmas about that specification.
  - The block map is pruned again from the original map at every view that has
    `blockIds`, so the final block map, `hasMore` and `nextCursor` depend only
    on the last such view (`LaterViewOverrides`).
  - The `nextCursor` string reads back as the start of the next window, and
    following it moves to the next page number (`NextCursorFollows`).
  - Consecutive windows tile the list (`WindowsTile`).
- **Retry** (`Retry`): both copies of `getPage` make at most three calls and
  retry only rate-limit errors (429). The wait is `2^(4 - retries) * 2000` ms,
  that is 4000 ms and then 8000 ms. The source comment says "2s, 4s, 8s", but
  the code never waits 2 s and never waits a third time. The copy in the site
  map also waits 1000 ms before the first call.
- **Dead images** (`DeadImages`): an image block whose source URL the link
  oracle reports dead gets `{source: [[fallback]]}` as its properties, and it
  keeps its `caption` if it had one. All other blocks are unchanged. If there is
  no block map or no fallback image, nothing happens.
- **Canonical page map** (`SiteMap`): a left fold over the page ids. Non-public
  pages are skipped (an absent `Public` property counts as public). A canonical
  id keeps the first page id that produced it. A missing record map fails the
  whole fold with `Error loading page "<id>"`. The duplicate test reads
  `map[canonicalPageId]` for truthiness, so an empty page id stored earlier can
  be overwritten. First-wins is therefore stated for non-empty page ids. The
  accumulator starts as the plain object `{}`, so the same test also finds the
  members it inherits from `Object.prototype` (`constructor`, `toString`,
  `__proto__`, …). A canonical id equal to one of those names is always taken
  and never gets an entry (`InheritedKeys`, `InheritedSlugDropped`).

JavaScript truthiness is modelled where the source relies on it. An empty
`parent_id`, cursor, fallback image or source URL counts as absent. An empty
`blockIds` array or `caption` counts as present.

## Model

| member | source | states |
|---|---|---|
| `Decimal.ToDecimal` | lib/notion.ts:221 | `endIndex.toString()` is a non-empty string of decimal digits with no leading zero |
| `Decimal.ToDecimalOfParse` | lib/notion.ts:206-221 | a digit string without leading zeros is the rendering of its own value, so a cursor the site issued round-trips through `parseInt` and `toString` |
| `Decimal.ParseToDecimal` | lib/notion.ts:206-221 | parsing the rendered `nextCursor` gives back the end index, so a returned cursor can be passed in again |
| `Retry.Is429Error` | lib/notion.ts:61-63 | an error counts as a rate limit iff its message contains "429" or "Too Many Requests" at some position, or its status is 429. The copy at lib/get-site-map.ts:40-42 applies the same test |
| `Retry.IncludesIff` | lib/notion.ts:61-62 | the `includes` scan used for the 429 test holds iff the text occurs at some position of the message |
| `Retry.GetPageWithRetry` | lib/notion.ts:51-75 | 1 to 3 calls. The result is what the last call returned. Every earlier call was a 429 error. With fewer than 3 calls the last answer is a success or a non-429 error (rethrown). The delays are `2^(4-retries)*2000` = 4000, then 8000, one per retry |
| `Pagination.StartIndex` | lib/notion.ts:206 | the start index is 0 without a (non-empty) cursor. A cursor written without leading zeros is the decimal rendering of the start index |
| `Pagination.PageSize` | lib/notion.ts:169 | the page size is the given one, or 10 by default, and it is positive |
| `Pagination.CurrentPage` | lib/notion.ts:261 | the 1-based page number that holds the start index, `floor(start / pageSize) + 1`, or 1 without a cursor |
| `Pagination.Window` | lib/notion.ts:206-213 | `slice(start, start + pageSize)`: at most `pageSize` ids, `ids[start..min(start+pageSize, len)]`, empty when start is past the end |
| `Pagination.Pruned` | lib/notion.ts:226-250 | the new block map has a subset of the keys, every kept block is the original record, and a block is dropped iff it is removable: it has a parent, is not a `page`, is not in the window, and its parent is a `collection_view` or `collection_view_page` |
| `Pagination.PruneBlocks` | lib/notion.ts:227-249 | the two loops (collect `blocksToRemove`, copy the rest into `newBlockMap`) compute exactly `Pruned` |
| `PaginationLoop.PaginateOneView` | lib/notion.ts:201-251 | one view: with `blockIds`, the list becomes its window, `total` its length, and `hasMore`/`nextCursor`/block map are recomputed from the original block map; without, nothing changes |
| `PaginationLoop.PaginateViews` | lib/notion.ts:195-254 | the inner loop rewrites every view and leaves the state decided by the last view with `blockIds` seen so far |
| `PaginationLoop.PaginateQuery` | lib/notion.ts:191-256 | the outer loop over `collection_query` rewrites every collection as the specification does, and leaves the state decided by the last view with `blockIds` |
| `PaginationLoop.Paginate` | lib/notion.ts:164-264 | the whole post-processing equals the specification `PaginateSpec` (no options, `loadAll`, and the paginated case) |
| `PaginationFacts.UnpaginatedRequests` | lib/notion.ts:164-179 | without options the record map is returned unchanged and without meta; with `loadAll` it is unchanged, with meta `{hasMore: false, nextCursor: null, currentPage: 1}` |
| `PaginationFacts.ViewsCutToWindow` | lib/notion.ts:206-217 | every collection and view keeps its position and id. A view with `blockIds` gets the window of its list, at most `pageSize` long, and `total` equal to the window's length. A view without `blockIds` is unchanged |
| `PaginationFacts.HasMoreAndNextCursor` | lib/notion.ts:219-260 | `hasMore` iff `start + pageSize` is below the length of the deciding list. `nextCursor` is present exactly when `hasMore`, and then it is `(start + pageSize).toString()`, a digit string that reads back as `start + pageSize` |
| `PaginationFacts.CurrentPageOfCursor` | lib/notion.ts:261 | `currentPage` is 1 without a cursor and `floor(cursor / pageSize) + 1` with one, the page that contains the start index |
| `PaginationFacts.BlocksOnlyPruned` | lib/notion.ts:226-250 | the block map is present iff it was. Its keys are a subset, kept blocks are identical, and a block is dropped iff a deciding list exists and the block is removable for that list's window |
| `PaginationFacts.LaterViewOverrides` | lib/notion.ts:191-250 | the list that decides `hasMore`, `nextCursor` and the pruning is the last one visited: a later view with `blockIds` overrides all earlier ones |
| `PaginationFacts.WindowsTile` | lib/notion.ts:206-213 | a window followed by the next window equals the window of both sizes: pages do not overlap or skip items |
| `PaginationFacts.NextPageNumber` | lib/notion.ts:261 | a cursor one page size further on gives the next page number |
| `PaginationFacts.NextCursorFollows` | lib/notion.ts:220-261 | when `hasMore`, requesting again with `nextCursor` starts at `start + pageSize` and reports `currentPage + 1` |
| `DeadImages.SourceUrl` | lib/notion.ts:285-288 | `properties.source[0][0]` is taken only when it is a non-empty string |
| `DeadImages.FallbackProperties` | lib/notion.ts:307-311 | the new properties have the fallback as their only source, keep the original caption iff there was one, and hold nothing else |
| `DeadImages.ReplaceDeadImageLinks` | lib/notion.ts:267-319 | the loop over the block ids computes exactly the rewrite `RewriteDeadImages` |
| `DeadImages.RewriteEffect` | lib/notion.ts:268-312 | no-op without a block map or fallback. Same keys and same collection query. A dead image keeps its id, type and parent, and its properties become `{source: [[fallback]]}` plus the original caption. Every other block is unchanged |
| `DeadImages.RewriteIdempotent` | lib/notion.ts:284-312 | when the fallback image itself is alive, rewriting a second time changes nothing |
| `Notion.GetPage` | lib/notion.ts:51-78 | the retry guarantees. A failure of the last call is rethrown. A success is returned after the dead image rewrite |
| `Notion.GetPageWithPagination` | lib/notion.ts:153-265 | a failing fetch is rethrown. Otherwise the result is the pagination specification applied to the rewritten page |
| `Notion.GetCollectionDataPaginated` | lib/notion.ts:109-151 | client errors are rethrown and the data is passed through. `hasMore` holds iff not `loadAll`, data came back, and at least `limit` (default 10) block ids came back. `nextCursor` is `cursor_<now>` exactly when `hasMore` |
| `SiteMap.GetPage` | lib/get-site-map.ts:28-55 | a 1000 ms wait, then the same retry guarantees as the other `getPage`: at most 3 calls, returns what the last call returned, waits 4000 then 8000 ms |
| `SiteMap.Step` | lib/get-site-map.ts:68-101 | one reduce step fails iff the record map is missing, with `Error loading page "<id>"`. Otherwise the keys grow by at most the page's canonical id, and only when it is public and not taken. New values are the page's id. A taken id (own truthy entry or inherited member) keeps its state |
| `SiteMap.Fold` | lib/get-site-map.ts:67-103 | the reduce never removes a key of the accumulator |
| `SiteMap.GetAllPages` | lib/get-site-map.ts:57-109 | fails iff some record map is missing; on success `pageMap` is returned as is |
| `SiteMap.FoldFails` | lib/get-site-map.ts:67-72 | the reduce fails iff some record map is missing, and the error names the first such page |
| `SiteMap.FoldKeysAndValues` | lib/get-site-map.ts:67-103 | keys are the starting keys plus the canonical ids of the public pages that are not inherited member names. Every value is the starting value or the page id of a public page whose canonical id is that key |
| `SiteMap.FoldKeepsTaken` | lib/get-site-map.ts:85-94 | a taken canonical id stays as it is: one mapped to a non-empty page id is never overwritten, and an inherited member name never gets an entry |
| `SiteMap.FoldFirstWins` | lib/get-site-map.ts:85-100 | for a canonical id not yet taken, the first public page producing it (with a non-empty page id) is the one the map keeps |
| `SiteMap.GetAllPagesFacts` | lib/get-site-map.ts:57-109 | fails iff a record map is missing. On success `pageMap` is returned as is. The keys are exactly the canonical ids of the public pages, minus the inherited member names. Every value is the id of a page claiming its key, and each such canonical id maps to its first page |
| `SiteMap.InheritedSlugDropped` | lib/get-site-map.ts:85-102 | a public page whose canonical id is `constructor` leaves the canonical page map empty |

## Left out

- Network and foreign calls are oracles, not models. `notion.getPage` is `call(k)`, the answer to the k-th attempt. `notion.getCollectionData` is `fetch(limit)`. The `ky.head` liveness check is `linkIsDead(url)`, with its 5 s timeout folded in; repeated checks of one URL are assumed to agree. `getPageProperty('Public', …)` and `getCanonicalPageId` are uninterpreted parameters. `getAllPagesInSpace` is replaced by its result, the `pageMap` entries.
- `getPage` after the dead image rewrite (lib/notion.ts:80-100): the merge with the navigation link pages (`mergeRecordMaps`), `getPreviewImageMap` and `getTweetsMap` are foreign calls and are not modelled. `getNavigationLinkPages` (lib/notion.ts:25-49) is left out for the same reason.
- `search` (lib/notion.ts:105-107) only delegates to the client, and `getSiteMap`/`getAllPages` (lib/get-site-map.ts:12-26) only add configuration and memoization.
- Waits are recorded as delay values, not slept. `console` logging, `pMemoize` caching and the `pMap` fan-out are left out. The fan-out runs with concurrency 1, and the model processes blocks one at a time.
- `Number.parseInt` on strings that are not decimal digits is not modelled. Such strings give NaN or accept prefixes and signs, and a negative start counts from the end in `slice`. The cursor is required to be absent, empty, or all digits.
- Pagination options with a page size of 0 are not modelled: every paginated request is required to have a positive page size. With a cursor the source then computes a non-finite `currentPage` (division by zero), which has no counterpart here. Without a cursor the source is well defined: `currentPage` 1, an empty window, `hasMore` iff the deciding list is non-empty, and `nextCursor` "0"; the model does not cover that case either. No caller passes a page size: `pages/index.tsx:12-15` builds the options without one, so the default of 10 applies.
- JavaScript numbers are unbounded here: precision loss, and the exponent notation of `toString` for very large indices, are not modelled.
- In-place mutation and aliasing are not modelled. The source assigns `groupResult.blockIds`, `total` and `block.properties` in place; the shallow copy `{ ...recordMap }` shares them with the fetched record map. The model builds new values with the same contents.
- Iteration order of `Object.entries`/`Object.keys` is taken as the given sequence order. For the block map the result does not depend on the order.
- `Notion.GetCollectionDataPaginated` has no cursor parameter, because the source never reads `options.cursor`. A null answer makes the source's `hasMore` `null`; the model uses `false`, which is equally falsy.
- `recordMap.block[pageId]` with an absent block map (lib/get-site-map.ts:74) throws in the source; the model folds the block lookup into the `Public` property oracle.
- The React components, `pages/api/load-more.ts` and `pages/index.tsx` are rendering and request glue and are not part of this model.
