/** `getAllPagesImpl`: the canonical page map built over the pages of the space,
    and the local rate-limited `getPage` it fetches them with. */
module SiteMap {
  import opened Wrappers
  import opened RecordMap
  import opened Retry

  /** The wait before every fetch, in milliseconds. */
  const PreFetchDelay: nat := 1000

  /**
   * The local `getPage`: a fixed wait, then the retry loop around
   * `notion.getPage`, answering with what the last call returned.
   */
  method GetPage(call: nat -> Result<RecordMap, NotionError>)
    returns (result: Result<RecordMap, NotionError>, calls: nat, waits: seq<nat>)
    ensures 1 <= calls <= MaxAttempts
    ensures result == call(calls - 1)
    ensures forall k :: 0 <= k < calls - 1 ==> RateLimited(call(k))
    ensures calls < MaxAttempts ==> !RateLimited(call(calls - 1))
    ensures waits == [PreFetchDelay] + [4000, 8000][..calls - 1]
  {
    var delays;
    result, calls, delays := GetPageWithRetry(call);
    waits := [PreFetchDelay] + delays;
  }

  /** One key of `pageMap` with its record map (None for a missing one). */
  datatype PageEntry = PageEntry(pageId: string, recordMap: Option<RecordMap>)

  datatype SiteMap = SiteMap(pageMap: seq<PageEntry>, canonicalPageMap: map<string, string>)

  /** `getPageProperty('Public', …) ?? true` is not false. */
  predicate IsPublic(e: PageEntry, publicProperty: (string, RecordMap) -> Option<bool>)
    requires e.recordMap.Some?
  {
    publicProperty(e.pageId, e.recordMap.value) != Some(false)
  }

  /** The entry is a public page whose canonical id is `c`. */
  predicate Claims(e: PageEntry, c: string, publicProperty: (string, RecordMap) -> Option<bool>,
                   canonicalId: (string, RecordMap) -> string)
  {
    e.recordMap.Some? && IsPublic(e, publicProperty) && canonicalId(e.pageId, e.recordMap.value) == c
  }

  function LoadError(pageId: string): string {
    "Error loading page \"" + pageId + "\""
  }

  /** The members every plain object inherits from `Object.prototype`. Looking
      one of them up on the accumulator finds a truthy value. */
  const InheritedKeys: set<string> := {
    "constructor", "__proto__", "__defineGetter__", "__defineSetter__", "__lookupGetter__",
    "__lookupSetter__", "hasOwnProperty", "isPrototypeOf", "propertyIsEnumerable",
    "toLocaleString", "toString", "valueOf"}

  /** `map[c]` is truthy: an own entry with a non-empty page id, or, without an
      own entry, an inherited member. */
  predicate Taken(m: map<string, string>, c: string) {
    if c in m then m[c] != "" else c in InheritedKeys
  }

  /** One step of the reduce: fail on a missing record map, skip a non-public
      page or a canonical id already taken, otherwise add the page. */
  function Step(m: map<string, string>, e: PageEntry, publicProperty: (string, RecordMap) -> Option<bool>,
                canonicalId: (string, RecordMap) -> string): (r: Result<map<string, string>, string>)
    ensures r.Failure? <==> e.recordMap.None?
    ensures r.Failure? ==> r.error == LoadError(e.pageId)
    ensures r.Success? ==> forall c :: c in r.value <==> c in m || (c !in InheritedKeys && Claims(e, c, publicProperty, canonicalId))
    ensures r.Success? ==> forall c :: c in r.value ==>
              (c in m && r.value[c] == m[c]) || (Claims(e, c, publicProperty, canonicalId) && r.value[c] == e.pageId)
    ensures r.Success? ==> forall c :: Taken(m, c) ==> (c in r.value <==> c in m) && (c in m ==> r.value[c] == m[c])
  {
    if e.recordMap.None? then Failure(LoadError(e.pageId))
    else if !IsPublic(e, publicProperty) then Success(m)
    else
      var c := canonicalId(e.pageId, e.recordMap.value);
      if Taken(m, c) then Success(m) else Success(m[c := e.pageId])
  }

  /** The left fold of `Step` over the page entries, stopping at the first
      error; entries already present are never removed. */
  function Fold(m: map<string, string>, entries: seq<PageEntry>, publicProperty: (string, RecordMap) -> Option<bool>,
                canonicalId: (string, RecordMap) -> string): (r: Result<map<string, string>, string>)
    ensures r.Success? ==> m.Keys <= r.value.Keys
    decreases |entries|
  {
    if entries == [] then Success(m)
    else match Step(m, entries[0], publicProperty, canonicalId)
      case Failure(err) => Failure(err)
      case Success(m') => Fold(m', entries[1..], publicProperty, canonicalId)
  }

  /** `getAllPagesImpl` for the `pageMap` that `getAllPagesInSpace` produced:
      it fails iff some record map is missing, and hands `pageMap` back as is. */
  function GetAllPages(pageMap: seq<PageEntry>, publicProperty: (string, RecordMap) -> Option<bool>,
                       canonicalId: (string, RecordMap) -> string): (r: Result<SiteMap, string>)
    ensures r.Failure? <==> exists k :: 0 <= k < |pageMap| && pageMap[k].recordMap.None?
    ensures r.Success? ==> r.value.pageMap == pageMap
  {
    FoldFails(map[], pageMap, publicProperty, canonicalId);
    match Fold(map[], pageMap, publicProperty, canonicalId)
    case Failure(err) => Failure(err)
    case Success(m) => Success(SiteMap(pageMap, m))
  }

  /** The fold fails iff some record map is missing, naming the first such page. */
  lemma {:induction false} FoldFails(m: map<string, string>, entries: seq<PageEntry>,
                                     publicProperty: (string, RecordMap) -> Option<bool>,
                                     canonicalId: (string, RecordMap) -> string)
    ensures var r := Fold(m, entries, publicProperty, canonicalId);
            && (r.Failure? <==> exists k :: 0 <= k < |entries| && entries[k].recordMap.None?)
            && (r.Failure? ==> exists k :: 0 <= k < |entries| && entries[k].recordMap.None?
                                 && (forall j :: 0 <= j < k ==> entries[j].recordMap.Some?)
                                 && r.error == LoadError(entries[k].pageId))
    decreases |entries|
  {
    if entries != [] {
      var s := Step(m, entries[0], publicProperty, canonicalId);
      if s.Success? {
        FoldFails(s.value, entries[1..], publicProperty, canonicalId);
        var r := Fold(m, entries, publicProperty, canonicalId);
        if r.Failure? {
          var k :| 0 <= k < |entries[1..]| && entries[1..][k].recordMap.None?
                   && (forall j :: 0 <= j < k ==> entries[1..][j].recordMap.Some?)
                   && r.error == LoadError(entries[1..][k].pageId);
          assert entries[k + 1].recordMap.None?;
        }
        forall k | 0 <= k < |entries| && entries[k].recordMap.None?
          ensures r.Failure?
        {
          assert k > 0;
          assert entries[1..][k - 1].recordMap.None?;
        }
      }
    }
  }

  /** On success the keys are those already present plus the canonical ids of
      the public pages that are not inherited members, and every value is the
      one already present or the page id of a page claiming that key. */
  lemma {:induction false} FoldKeysAndValues(m: map<string, string>, entries: seq<PageEntry>,
                                             publicProperty: (string, RecordMap) -> Option<bool>,
                                             canonicalId: (string, RecordMap) -> string)
    requires Fold(m, entries, publicProperty, canonicalId).Success?
    ensures var r := Fold(m, entries, publicProperty, canonicalId).value;
            && (forall c :: c in r <==> c in m || (c !in InheritedKeys
                                                   && exists k :: 0 <= k < |entries| && Claims(entries[k], c, publicProperty, canonicalId)))
            && (forall c :: c in r ==> (c in m && r[c] == m[c])
                                       || exists k :: 0 <= k < |entries| && Claims(entries[k], c, publicProperty, canonicalId)
                                                      && r[c] == entries[k].pageId)
    decreases |entries|
  {
    if entries != [] {
      var e := entries[0];
      var m' := Step(m, e, publicProperty, canonicalId).value;
      FoldKeysAndValues(m', entries[1..], publicProperty, canonicalId);
      var r := Fold(m, entries, publicProperty, canonicalId).value;
      forall c | c in r
        ensures c in m || (c !in InheritedKeys && exists k :: 0 <= k < |entries| && Claims(entries[k], c, publicProperty, canonicalId))
        ensures (c in m && r[c] == m[c])
                || exists k :: 0 <= k < |entries| && Claims(entries[k], c, publicProperty, canonicalId) && r[c] == entries[k].pageId
      {
        if c !in m' {
          var k :| 0 <= k < |entries[1..]| && Claims(entries[1..][k], c, publicProperty, canonicalId);
          assert Claims(entries[k + 1], c, publicProperty, canonicalId);
        } else if c !in m {
          assert Claims(entries[0], c, publicProperty, canonicalId);
        }
        if !(c in m' && r[c] == m'[c]) {
          var k :| 0 <= k < |entries[1..]| && Claims(entries[1..][k], c, publicProperty, canonicalId)
                   && r[c] == entries[1..][k].pageId;
          assert Claims(entries[k + 1], c, publicProperty, canonicalId) && r[c] == entries[k + 1].pageId;
        } else if !(c in m && m'[c] == m[c]) {
          assert Claims(entries[0], c, publicProperty, canonicalId) && r[c] == entries[0].pageId;
        }
      }
      forall c | c in m || (c !in InheritedKeys && exists k :: 0 <= k < |entries| && Claims(entries[k], c, publicProperty, canonicalId))
        ensures c in r
      {
        if c !in m && !Claims(entries[0], c, publicProperty, canonicalId) {
          var k :| 0 <= k < |entries| && Claims(entries[k], c, publicProperty, canonicalId);
          assert k > 0;
          assert Claims(entries[1..][k - 1], c, publicProperty, canonicalId);
        }
      }
    }
  }

  /** A taken canonical id stays as it is: an own entry keeps its page id, and
      an inherited member never gets an entry. */
  lemma {:induction false} FoldKeepsTaken(m: map<string, string>, entries: seq<PageEntry>,
                                          publicProperty: (string, RecordMap) -> Option<bool>,
                                          canonicalId: (string, RecordMap) -> string, c: string)
    requires Fold(m, entries, publicProperty, canonicalId).Success?
    requires Taken(m, c)
    ensures var r := Fold(m, entries, publicProperty, canonicalId).value;
            && (c in m ==> c in r && r[c] == m[c])
            && (c !in m ==> c !in r)
    decreases |entries|
  {
    if entries != [] {
      var m' := Step(m, entries[0], publicProperty, canonicalId).value;
      FoldKeepsTaken(m', entries[1..], publicProperty, canonicalId, c);
    }
  }

  /** First wins: for a canonical id not yet taken, the first public page that
      produces it (with a non-empty page id) is the one the map keeps. */
  lemma {:induction false} FoldFirstWins(m: map<string, string>, entries: seq<PageEntry>,
                                         publicProperty: (string, RecordMap) -> Option<bool>,
                                         canonicalId: (string, RecordMap) -> string, c: string, k: nat)
    requires Fold(m, entries, publicProperty, canonicalId).Success?
    requires !Taken(m, c)
    requires k < |entries| && Claims(entries[k], c, publicProperty, canonicalId) && entries[k].pageId != ""
    requires forall j :: 0 <= j < k ==> !Claims(entries[j], c, publicProperty, canonicalId)
    ensures var r := Fold(m, entries, publicProperty, canonicalId).value;
            c in r && r[c] == entries[k].pageId
    decreases |entries|
  {
    var m' := Step(m, entries[0], publicProperty, canonicalId).value;
    if k == 0 {
      FoldKeepsTaken(m', entries[1..], publicProperty, canonicalId, c);
    } else {
      assert !Claims(entries[0], c, publicProperty, canonicalId);
      assert !Taken(m', c);
      forall j | 0 <= j < k - 1
        ensures !Claims(entries[1..][j], c, publicProperty, canonicalId)
      {
        assert entries[1..][j] == entries[j + 1];
      }
      FoldFirstWins(m', entries[1..], publicProperty, canonicalId, c, k - 1);
    }
  }

  /** The site map's properties: it fails iff a record map is missing;
      otherwise its keys are exactly the canonical ids of the public pages
      other than the inherited member names, every value is the page id of a
      page claiming its key, and each such canonical id goes to its first page. */
  lemma GetAllPagesFacts(pageMap: seq<PageEntry>, publicProperty: (string, RecordMap) -> Option<bool>,
                         canonicalId: (string, RecordMap) -> string)
    ensures var r := GetAllPages(pageMap, publicProperty, canonicalId);
            && (r.Failure? <==> exists k :: 0 <= k < |pageMap| && pageMap[k].recordMap.None?)
            && (r.Success? ==>
                  var cm := r.value.canonicalPageMap;
                  && r.value.pageMap == pageMap
                  && (forall c :: c in cm <==> c !in InheritedKeys
                                               && exists k :: 0 <= k < |pageMap| && Claims(pageMap[k], c, publicProperty, canonicalId))
                  && (forall c :: c in cm ==> exists k :: 0 <= k < |pageMap| && Claims(pageMap[k], c, publicProperty, canonicalId)
                                                          && cm[c] == pageMap[k].pageId)
                  && (forall c, k :: 0 <= k < |pageMap| && Claims(pageMap[k], c, publicProperty, canonicalId)
                        && c !in InheritedKeys && pageMap[k].pageId != ""
                        && (forall j :: 0 <= j < k ==> !Claims(pageMap[j], c, publicProperty, canonicalId))
                        ==> cm[c] == pageMap[k].pageId))
  {
    if Fold(map[], pageMap, publicProperty, canonicalId).Success? {
      FoldKeysAndValues(map[], pageMap, publicProperty, canonicalId);
      forall c, k | 0 <= k < |pageMap| && Claims(pageMap[k], c, publicProperty, canonicalId)
                    && c !in InheritedKeys && pageMap[k].pageId != ""
                    && (forall j :: 0 <= j < k ==> !Claims(pageMap[j], c, publicProperty, canonicalId))
        ensures Fold(map[], pageMap, publicProperty, canonicalId).value[c] == pageMap[k].pageId
      {
        FoldFirstWins(map[], pageMap, publicProperty, canonicalId, c, k);
      }
    }
  }

  /** A public page whose canonical id is an inherited member name, such as a
      page titled "Constructor", gets no entry. */
  lemma InheritedSlugDropped(pageId: string, rm: RecordMap)
    ensures var entries := [PageEntry(pageId, Some(rm))];
            GetAllPages(entries, (p: string, r: RecordMap) => None, (p: string, r: RecordMap) => "constructor")
            == Success(SiteMap(entries, map[]))
  {
    var entries := [PageEntry(pageId, Some(rm))];
    var pp := (p: string, r: RecordMap) => None;
    var ci := (p: string, r: RecordMap) => "constructor";
    assert "constructor" in InheritedKeys;
    assert Step(map[], entries[0], pp, ci) == Success(map[]);
    assert entries[1..] == [];
    assert Fold(map[], entries, pp, ci) == Success(map[]);
  }
}
