/** The render cache of the virtual preview: a module-level Map from
    `type:content` to rendered HTML, bounded at 100 entries by deleting the
    earliest-inserted key before an insertion when full; the cache-then-parse
    rule of a block renderer; the rendered-block counter; and the progress
    indicator. A JavaScript Map is modelled as its entries in insertion
    order. The Markdown renderer is a parameter `parse`. */
module RenderCache {
  import opened Text
  import opened MarkdownBlocks
  import BlockDiff

  const CacheSize: nat := 100

  datatype Entry = Entry(key: string, html: string)

  /** `${block.type}:${block.content}`: the whole content, not a prefix. */
  function CacheKey(b: Block): (key: string)
    ensures key != ""
  {
    TypeName(b.btype) + ":" + b.content
  }

  /** Two blocks share a cache entry exactly when their type and their whole
      content agree. */
  lemma CacheKeyMeaning(a: Block, b: Block)
    ensures CacheKey(a) == CacheKey(b) <==> a.btype == b.btype && a.content == b.content
  {
    BlockDiff.ColonSplit(TypeName(a.btype), TypeName(b.btype), a.content, b.content);
    TypeNameInjective(a.btype, b.btype);
  }

  // ---------------------------------------------------------------------
  // The Map, as entries in insertion order
  // ---------------------------------------------------------------------

  predicate DistinctKeys(entries: seq<Entry>) {
    forall i, j :: 0 <= i < j < |entries| ==> entries[i].key != entries[j].key
  }

  /** The cache as the program keeps it: distinct non-empty keys, at most
      CacheSize of them. */
  predicate Valid(entries: seq<Entry>) {
    DistinctKeys(entries) && |entries| <= CacheSize
    && forall i :: 0 <= i < |entries| ==> entries[i].key != ""
  }

  /** The keys in insertion order, as renderCache.keys() yields them. */
  function KeyOrder(entries: seq<Entry>): (ks: seq<string>)
    ensures |ks| == |entries| && forall i :: 0 <= i < |entries| ==> ks[i] == entries[i].key
  {
    seq(|entries|, i requires 0 <= i < |entries| => entries[i].key)
  }

  /** The position of key among the entries from k on. */
  function IndexFrom(entries: seq<Entry>, key: string, k: nat): (r: Option<nat>)
    requires k <= |entries|
    ensures r.Some? ==> k <= r.value < |entries| && entries[r.value].key == key
                        && forall j :: k <= j < r.value ==> entries[j].key != key
    ensures r.None? ==> forall j :: k <= j < |entries| ==> entries[j].key != key
    decreases |entries| - k
  {
    if k == |entries| then None
    else if entries[k].key == key then Some(k)
    else IndexFrom(entries, key, k + 1)
  }

  function IndexOf(entries: seq<Entry>, key: string): Option<nat> {
    IndexFrom(entries, key, 0)
  }

  /** Map.prototype.get */
  function Lookup(entries: seq<Entry>, key: string): (r: Option<string>)
    ensures r.Some? <==> key in KeyOrder(entries)
  {
    match IndexOf(entries, key)
    case None => None
    case Some(i) => Some(entries[i].html)
  }

  /** Map.prototype.delete */
  function Delete(entries: seq<Entry>, key: string): (r: seq<Entry>)
    ensures forall i :: 0 <= i < |r| ==> r[i].key != key
    ensures forall e :: e in r <==> e in entries && e.key != key
  {
    if |entries| == 0 then []
    else (if entries[0].key == key then [] else [entries[0]]) + Delete(entries[1..], key)
  }

  /** Map.prototype.set: a present key keeps its position, a new one goes last. */
  function Put(entries: seq<Entry>, key: string, html: string): seq<Entry> {
    match IndexOf(entries, key)
    case Some(i) => entries[i := Entry(key, html)]
    case None => entries + [Entry(key, html)]
  }

  /** The eviction step of setCachedRender: when full, the first key is
      deleted (if it is truthy). */
  function Evict(entries: seq<Entry>): seq<Entry> {
    if |entries| >= CacheSize then
      var firstKey := entries[0].key;
      if firstKey != "" then Delete(entries, firstKey) else entries
    else entries
  }

  /** The entries after setCachedRender with this key and HTML. */
  function Stored(entries: seq<Entry>, key: string, html: string): seq<Entry> {
    Put(Evict(entries), key, html)
  }

  /** getCachedRender: `renderCache.get(key) || null`, so a stored empty
      string is a miss. */
  function Cached(entries: seq<Entry>, key: string): (r: Option<string>)
    ensures r.Some? <==> Lookup(entries, key).Some? && Lookup(entries, key).value != ""
    ensures r.Some? ==> r == Lookup(entries, key)
  {
    match Lookup(entries, key)
    case None => None
    case Some(h) => if h == "" then None else Some(h)
  }

  // ---------------------------------------------------------------------
  // Properties of the entries
  // ---------------------------------------------------------------------

  /** With distinct keys, deleting the first key drops exactly the first entry. */
  lemma {:induction false} DeleteFirst(entries: seq<Entry>)
    requires |entries| > 0 && DistinctKeys(entries)
    ensures Delete(entries, entries[0].key) == entries[1..]
  {
    DeleteAbsent(entries[1..], entries[0].key);
  }

  /** Deleting a key no entry has changes nothing. */
  lemma {:induction false} DeleteAbsent(entries: seq<Entry>, key: string)
    requires forall i :: 0 <= i < |entries| ==> entries[i].key != key
    ensures Delete(entries, key) == entries
  {
    if |entries| > 0 {
      DeleteAbsent(entries[1..], key);
    }
  }

  /** When the cache is full the single earliest-inserted entry goes, else
      nothing does. */
  lemma EvictsOldest(entries: seq<Entry>)
    requires Valid(entries)
    ensures |entries| >= CacheSize ==> Evict(entries) == entries[1..]
    ensures |entries| < CacheSize ==> Evict(entries) == entries
  {
    if |entries| >= CacheSize {
      DeleteFirst(entries);
    }
  }

  /** Setting a key that is present replaces its HTML in place; setting a
      new key appends it. Either way no other entry changes. */
  lemma PutMeaning(entries: seq<Entry>, key: string, html: string)
    ensures key in KeyOrder(entries) ==> KeyOrder(Put(entries, key, html)) == KeyOrder(entries)
    ensures key !in KeyOrder(entries) ==> KeyOrder(Put(entries, key, html)) == KeyOrder(entries) + [key]
    ensures forall i :: 0 <= i < |entries| && entries[i].key != key ==> Put(entries, key, html)[i] == entries[i]
    ensures Lookup(Put(entries, key, html), key) == Some(html)
  {
    var r := Put(entries, key, html);
    match IndexOf(entries, key)
    case Some(i) =>
      assert KeyOrder(r) == KeyOrder(entries);
      assert IndexOf(r, key) == Some(i) by {
        IndexAt(r, key, 0, i);
      }
    case None =>
      assert KeyOrder(r) == KeyOrder(entries) + [key];
      assert IndexOf(r, key) == Some(|entries|) by {
        IndexAt(r, key, 0, |entries|);
      }
  }

  /** The search from k finds key at j when j holds it and no position
      before it does. */
  lemma {:induction false} IndexAt(b: seq<Entry>, key: string, k: nat, j: nat)
    requires k <= j < |b| && b[j].key == key
    requires forall i :: k <= i < j ==> b[i].key != key
    ensures IndexFrom(b, key, k) == Some(j)
    decreases j - k
  {
    if k < j {
      IndexAt(b, key, k + 1, j);
    }
  }

  /** Setting one key leaves every other key's HTML unchanged. */
  lemma {:induction false} LookupPutOther(entries: seq<Entry>, key: string, html: string, other: string)
    requires other != key
    ensures Lookup(Put(entries, key, html), other) == Lookup(entries, other)
  {
    var r := Put(entries, key, html);
    match IndexOf(entries, other)
    case Some(j) =>
      IndexAt(r, other, 0, j);
    case None =>
      assert forall i :: 0 <= i < |r| ==> r[i].key != other;
  }

  /** Dropping a first entry with another key does not change a lookup. */
  lemma TailLookup(entries: seq<Entry>, key: string)
    requires |entries| > 0 && entries[0].key != key
    ensures Lookup(entries[1..], key) == Lookup(entries, key)
  {
    IndexShift(entries, key, 0);
  }

  lemma {:induction false} IndexShift(entries: seq<Entry>, key: string, k: nat)
    requires k < |entries|
    ensures IndexFrom(entries, key, k + 1) == match IndexFrom(entries[1..], key, k)
                                               case None => None
                                               case Some(j) => Some(j + 1)
    decreases |entries| - k
  {
    if k + 1 < |entries| && entries[k + 1].key != key {
      IndexShift(entries, key, k + 1);
    }
  }

  /** Put keeps keys distinct. */
  lemma PutDistinct(entries: seq<Entry>, key: string, html: string)
    requires DistinctKeys(entries)
    ensures DistinctKeys(Put(entries, key, html))
    ensures |Put(entries, key, html)| == if key in KeyOrder(entries) then |entries| else |entries| + 1
  {
    PutMeaning(entries, key, html);
    var r := Put(entries, key, html);
    assert forall i :: 0 <= i < |r| ==> r[i].key == KeyOrder(r)[i];
  }

  // ---------------------------------------------------------------------
  // setCachedRender on the entries
  // ---------------------------------------------------------------------

  /** setCachedRender keeps the cache within CacheSize entries with distinct
      non-empty keys. */
  lemma StoredValid(entries: seq<Entry>, key: string, html: string)
    requires Valid(entries) && key != ""
    ensures Valid(Stored(entries, key, html))
  {
    EvictsOldest(entries);
    var e := Evict(entries);
    assert DistinctKeys(e);
    PutDistinct(e, key, html);
    PutMeaning(e, key, html);
    var r := Put(e, key, html);
    forall i | 0 <= i < |r| ensures r[i].key != "" {
      assert r[i].key == KeyOrder(r)[i];
      if i < |e| {
        assert KeyOrder(r)[i] == KeyOrder(e)[i];
      }
    }
  }

  /** The order of the keys after setCachedRender: the oldest key is gone
      when the cache was full, and the key goes last only when it is not
      already present. */
  lemma StoredOrder(entries: seq<Entry>, key: string, html: string)
    requires Valid(entries)
    ensures var kept := if |entries| >= CacheSize then KeyOrder(entries)[1..] else KeyOrder(entries);
      KeyOrder(Stored(entries, key, html)) == if key in kept then kept else kept + [key]
  {
    EvictsOldest(entries);
    var e := Evict(entries);
    assert KeyOrder(e) == if |entries| >= CacheSize then KeyOrder(entries)[1..] else KeyOrder(entries);
    PutMeaning(e, key, html);
  }
  /** On a full cache the entry count drops by one when the key being set
      is present but not the oldest; when it is the oldest, or absent, the
      count stays the same. */
  lemma FullCacheCount(entries: seq<Entry>, key: string, html: string)
    requires Valid(entries) && |entries| >= CacheSize
    ensures key in KeyOrder(entries)[1..] ==> |Stored(entries, key, html)| == |entries| - 1
    ensures key !in KeyOrder(entries)[1..] ==> |Stored(entries, key, html)| == |entries|
  {
    StoredOrder(entries, key, html);
    assert |KeyOrder(Stored(entries, key, html))| == |Stored(entries, key, html)|;
  }


  lemma StoredHit(entries: seq<Entry>, key: string, html: string)
    requires Valid(entries)
    ensures Lookup(Stored(entries, key, html), key) == Some(html)
  {
    EvictsOldest(entries);
    PutMeaning(Evict(entries), key, html);
  }

  lemma StoredEvicted(entries: seq<Entry>, key: string, html: string)
    requires Valid(entries) && |entries| >= CacheSize && entries[0].key != key
    ensures Lookup(Stored(entries, key, html), entries[0].key) == None
  {
    EvictsOldest(entries);
    var e := Evict(entries);
    LookupPutOther(e, key, html, entries[0].key);
    assert entries[0].key !in KeyOrder(e) by {
      assert forall i :: 0 <= i < |e| ==> e[i].key == entries[i + 1].key;
    }
  }

  lemma StoredOther(entries: seq<Entry>, key: string, html: string, other: string)
    requires Valid(entries) && other != key
    requires !(|entries| >= CacheSize && entries[0].key == other)
    ensures Lookup(Stored(entries, key, html), other) == Lookup(entries, other)
  {
    EvictsOldest(entries);
    LookupPutOther(Evict(entries), key, html, other);
    if |entries| >= CacheSize {
      TailLookup(entries, other);
    }
  }

  /** After setCachedRender the key reads back the stored HTML, the evicted
      oldest key reads as missing, and every other key is unchanged. */
  lemma StoredLookup(entries: seq<Entry>, key: string, html: string, other: string)
    requires Valid(entries)
    ensures Lookup(Stored(entries, key, html), key) == Some(html)
    ensures |entries| >= CacheSize && entries[0].key != key ==> Lookup(Stored(entries, key, html), entries[0].key) == None
    ensures other != key && !(|entries| >= CacheSize && entries[0].key == other) ==>
      Lookup(Stored(entries, key, html), other) == Lookup(entries, other)
  {
    StoredHit(entries, key, html);
    if |entries| >= CacheSize && entries[0].key != key {
      StoredEvicted(entries, key, html);
    }
    if other != key && !(|entries| >= CacheSize && entries[0].key == other) {
      StoredOther(entries, key, html, other);
    }
  }

  /** getCachedRender after setCachedRender: the stored HTML, unless it is
      the empty string, which reads back as a miss. */
  lemma CachedAfterStore(entries: seq<Entry>, key: string, html: string)
    requires Valid(entries)
    ensures Cached(Stored(entries, key, html), key) == if html == "" then None else Some(html)
  {
    StoredLookup(entries, key, html, key);
  }

  // ---------------------------------------------------------------------
  // The module-level renderCache
  // ---------------------------------------------------------------------

  class Cache {
    var entries: seq<Entry>

    constructor()
      ensures entries == []
    {
      entries := [];
    }

    /** getCachedRender(block); it only reads the cache. */
    function GetCachedRender(block: Block): Option<string>
      reads this
    {
      Cached(entries, CacheKey(block))
    }

    /** setCachedRender(block, html): when full, delete the first key if it
        is truthy, then set. */
    method SetCachedRender(block: Block, html: string)
      modifies this
      ensures entries == Stored(old(entries), CacheKey(block), html)
      ensures Valid(old(entries)) ==> Valid(entries)
    {
      var key := CacheKey(block);
      if |entries| >= CacheSize {
        var firstKey := entries[0].key;
        if firstKey != "" {
          entries := Delete(entries, firstKey);
        }
      }
      entries := Put(entries, key, html);
      if Valid(old(entries)) {
        StoredValid(old(entries), key, html);
      }
    }
  }

  // ---------------------------------------------------------------------
  // BlockRenderer: cache, else parse and store
  // ---------------------------------------------------------------------

  /** What rendering one block yields: its HTML, the cache afterwards, and
      whether the Markdown renderer was called. */
  datatype Rendered = Rendered(html: string, entries: seq<Entry>, parsed: bool)

  function RenderStep(entries: seq<Entry>, block: Block, parse: string -> string): Rendered {
    match Cached(entries, CacheKey(block))
    case Some(h) => Rendered(h, entries, false)
    case None =>
      var html := parse(block.content);
      Rendered(html, Stored(entries, CacheKey(block), html), true)
  }

  /** A hit is used as is, without calling the renderer and without touching
      the cache; a miss calls the renderer once and stores its output. */
  lemma RenderMeaning(entries: seq<Entry>, block: Block, parse: string -> string)
    requires Valid(entries)
    ensures Cached(entries, CacheKey(block)).Some? ==>
      RenderStep(entries, block, parse) == Rendered(Lookup(entries, CacheKey(block)).value, entries, false)
    ensures Cached(entries, CacheKey(block)).None? ==>
      RenderStep(entries, block, parse).parsed && RenderStep(entries, block, parse).html == parse(block.content)
      && Lookup(RenderStep(entries, block, parse).entries, CacheKey(block)) == Some(parse(block.content))
    ensures Valid(RenderStep(entries, block, parse).entries)
  {
    StoredValid(entries, CacheKey(block), parse(block.content));
    StoredLookup(entries, CacheKey(block), parse(block.content), CacheKey(block));
  }

  /** After a block is rendered once, rendering it again is a cache hit with
      the same HTML, unless the renderer produced the empty string. */
  lemma RenderAgainHits(entries: seq<Entry>, block: Block, parse: string -> string)
    requires Valid(entries)
    requires parse(block.content) != ""
    ensures var first := RenderStep(entries, block, parse);
      RenderStep(first.entries, block, parse) == Rendered(first.html, first.entries, false)
  {
    var first := RenderStep(entries, block, parse);
    RenderMeaning(entries, block, parse);
  }

  /** The rendered-block counter of the preview. */
  class Preview {
    var renderedCount: nat

    constructor()
      ensures renderedCount == 0
    {
      renderedCount := 0;
    }

    /** handleBlockVisible */
    method HandleBlockVisible()
      modifies this
      ensures renderedCount == old(renderedCount) + 1
    {
      renderedCount := renderedCount + 1;
    }
  }

  /** One block of the preview: rendered once, when it first becomes
      visible. */
  class BlockView {
    const block: Block
    var isRendered: bool
    var html: string

    constructor(b: Block)
      ensures block == b && !isRendered && html == ""
    {
      block := b;
      isRendered := false;
      html := "";
    }

    /** The intersection callback: a visible block not yet rendered becomes
        rendered and is counted once. */
    method OnIntersect(isIntersecting: bool, preview: Preview)
      modifies this, preview
      ensures isRendered == (old(isRendered) || isIntersecting)
      ensures html == old(html)
      ensures preview.renderedCount == old(preview.renderedCount) + if isIntersecting && !old(isRendered) then 1 else 0
    {
      if isIntersecting && !isRendered {
        isRendered := true;
        preview.HandleBlockVisible();
      }
    }

    /** The render effect: nothing until rendered; then the cached HTML, or
        the parsed HTML, which is stored. */
    method Render(cache: Cache, parse: string -> string)
      modifies this, cache
      ensures isRendered == old(isRendered)
      ensures !isRendered ==> html == old(html) && cache.entries == old(cache.entries)
      ensures isRendered ==>
        html == RenderStep(old(cache.entries), block, parse).html
        && cache.entries == RenderStep(old(cache.entries), block, parse).entries
    {
      if !isRendered {
        return;
      }
      var cached := cache.GetCachedRender(block);
      if cached.Some? {
        html := cached.value;
        return;
      }
      var rendered := parse(block.content);
      cache.SetCachedRender(block, rendered);
      html := rendered;
    }
  }

  // ---------------------------------------------------------------------
  // Progress indicator
  // ---------------------------------------------------------------------

  /** Math.round: the nearest integer, halves rounded up. */
  function Round(x: real): int {
    (x + 0.5).Floor
  }

  /** `totalBlocks > 0 ? Math.round((renderedCount / totalBlocks) * 100) : 100` */
  function Progress(renderedCount: nat, totalBlocks: nat): int {
    if totalBlocks > 0 then Round((renderedCount as real / totalBlocks as real) * 100.0) else 100
  }

  /** The progress is the percentage rounded half up: it is 100 exactly when
      199t <= 200r < 201t, lies in 0..100 while r <= t, and is 100 for no
      blocks. */
  lemma ProgressMeaning(renderedCount: nat, totalBlocks: nat)
    ensures totalBlocks == 0 ==> Progress(renderedCount, totalBlocks) == 100
    ensures totalBlocks > 0 ==>
      (Progress(renderedCount, totalBlocks) == 100
       <==> 199 * totalBlocks <= 200 * renderedCount < 201 * totalBlocks)
    ensures renderedCount <= totalBlocks ==> 0 <= Progress(renderedCount, totalBlocks) <= 100
  {
    if totalBlocks > 0 {
      var t := totalBlocks as real;
      var x := (renderedCount as real / t) * 100.0;
      PercentScale(renderedCount, totalBlocks);
      var p := Progress(renderedCount, totalBlocks);
      assert p as real <= x + 0.5 < p as real + 1.0;
    }
  }

  /** The percentage scaled by the total. */
  lemma PercentScale(r: nat, t: nat)
    requires t > 0
    ensures var x := (r as real / t as real) * 100.0;
      (x >= 99.5 <==> 199 * t <= 200 * r) && (x < 100.5 <==> 200 * r < 201 * t)
      && (r <= t ==> 0.0 <= x <= 100.0)
  {
    var tr := t as real;
    var x := (r as real / tr) * 100.0;
    assert x * tr == 100.0 * (r as real);
    Compare(x, tr, 100.0 * (r as real), 99.5);
    Compare(x, tr, 100.0 * (r as real), 100.5);
    Compare(x, tr, 100.0 * (r as real), 100.0);
    Compare(x, tr, 100.0 * (r as real), 0.0);
    assert (199 * t) as real == 199.0 * tr && (200 * r) as real == 200.0 * (r as real);
    assert (201 * t) as real == 201.0 * tr;
  }

  /** Comparing x with k is comparing x * t with k * t, for positive t. */
  lemma Compare(x: real, t: real, c: real, k: real)
    requires t > 0.0 && x * t == c
    ensures x >= k <==> c >= k * t
    ensures x <= k <==> c <= k * t
    ensures x < k <==> c < k * t
  {
    assert (x - k) * t == c - k * t;
    BlockDiff.ProductSign(x - k, t);
    BlockDiff.ProductSign(k - x, t);
  }

  /** The progress bar is shown for more than 50 blocks, progress below 100
      and no parse in flight. */
  function ShowProgressBar(totalBlocks: nat, progress: int, isParsing: bool): bool {
    totalBlocks > 50 && progress < 100 && !isParsing
  }

  /** The bar shows exactly when there are more than 50 blocks, no parse is
      in flight and fewer than 99.5% of the blocks have been counted as
      rendered; a count above the total hides it like a full one. */
  lemma ProgressBarMeaning(renderedCount: nat, totalBlocks: nat, isParsing: bool)
    ensures ShowProgressBar(totalBlocks, Progress(renderedCount, totalBlocks), isParsing)
            <==> totalBlocks > 50 && !isParsing && 200 * renderedCount < 199 * totalBlocks
  {
    ProgressMeaning(renderedCount, totalBlocks);
    if totalBlocks > 0 && renderedCount > totalBlocks {
      PercentScale(renderedCount, totalBlocks);
    }
  }
}
