/** Every answer of the cache is a place from which the tree may be searched. */
module CacheToTree {
  import opened Keys
  import opened RemoteMemory
  import opened MemoryOps
  import opened Lookup
  import opened Invariant
  import opened StaleEntries
  import opened CacheTrie
  import opened CacheProbe
  import opened RadixCaching
  import Machine
  import opened Settling
  import opened NewPages
  import opened SequentialTree

  /** A cached entry is a copy of a page at its prefix: each record was once read from the page's slot. */
  ghost predicate CopyOf(m: Mem, p: Bytes, e: CacheEntry) {
    && e.addr in m.pages && e.addr in m.pre && m.pre[e.addr] == [0] + p && e.depth == |m.pre[e.addr]|
    && forall i :: RecordHeld(m, e, i)
  }

  ghost predicate RecordHeld(m: Mem, e: CacheEntry, i: nat) {
    i < |e.records| && !e.records[i].Null? ==> Held(m, Slot(e.addr, i), e.records[i])
  }

  /** Page `x` can be cached for `k`: up to where its header starts, its prefix is the key's path. */
  ghost predicate Lies(m: Mem, x: Addr, k: Key) {
    && x in m.pages && x in m.pre && |m.pages[x].records| == SLOTS && 1 <= m.pages[x].hdr.depth <= |m.pre[x]| <= KEY_LEN
    && Ext(m.pre[x][..m.pages[x].hdr.depth], Path(k))
  }

  /** A page is cached under its own prefix. */
  lemma CachedAtPrefix(m: Mem, k: Key, x: Addr, id: nat, expire: int)
    requires WF(m) && Lies(m, x, k)
    ensures CopyOf(m, CachePrefix(k, m.pages[x].hdr), Snapshot(id, m.pages[x], x, expire))
  {
    var g := m.pages[x];
    assert PageAt(m, x);
    var p, e := CachePrefix(k, g.hdr), Snapshot(id, g, x, expire);
    assert m.pre[x] == [0] + p by {
      forall i | 0 <= i < |m.pre[x]| ensures m.pre[x][i] == ([0] + p)[i] {
        if i < g.hdr.depth { assert m.pre[x][..g.hdr.depth][i] == Path(k)[i]; }
      }
    }
    forall i: nat ensures RecordHeld(m, e, i) {
      if i < |e.records| && !e.records[i].Null? { HeldNow(m, Slot(x, i)); }
    }
  }

  lemma LiesHere(m: Mem, k: Key, s: SlotRef)
    requires WF(m) && OnPath(m, s, k) && Fetch(m, s).NodeEntry?
    requires Fetch(m, s).addr in m.pages && m.pages[Fetch(m, s).addr].hdr.depth == |Above(m, s)| + 1
    ensures Lies(m, Fetch(m, s).addr, k)
  {
    assert EntryAt(m, s) && PageAt(m, Fetch(m, s).addr);
  }

  /** All pages that a traversal hands on can be cached. */
  lemma {:induction false} TrailLies(m: Mem, s: SlotRef, d: nat, k: Key, x: Addr)
    requires Settled(m) && On(m, k, s, Fetch(m, s), d, false) && x in Trail(m, Fetch(m, s), d, k)
    ensures Lies(m, x, k)
    decreases KEY_LEN + 2 - d
  {
    var e := Fetch(m, s);
    if x == e.addr {
      PageNow(m, k, s, e, d, false);
      LiesHere(m, k, s);
    } else {
      var t, d' := TrailRest(m, e, d, k, x);
      OnNext(m, k, s, e, d, t, d');
      TrailLies(m, t, d', k, x);
    }
  }

  /** Slot `t`, at depth `d'`, has the key's next byte in the page of entry `e`, whose header matches the key. */
  ghost predicate NextSlot(m: Mem, k: Key, e: Entry, d: nat, t: SlotRef, d': nat) {
    && e.NodeEntry? && e.addr in m.pages && |m.pages[e.addr].records| == SLOTS
    && var h := m.pages[e.addr].hdr;
    && Machine.FirstMismatch(h, k) == |h.partial| && d' == h.depth + |h.partial| + 1 && d < d' <= KEY_LEN + 1
    && t.Slot? && t.page == e.addr && t.idx < SLOTS && !Fetch(m, t).Null? && Fetch(m, t).partial == Path(k)[d' - 1]
  }

  /** A page of the trail other than the first is on the trail from the next slot on. */
  lemma TrailRest(m: Mem, e: Entry, d: nat, k: Key, x: Addr) returns (t: SlotRef, d': nat)
    requires x in Trail(m, e, d, k) && !e.Null? && x != e.addr
    ensures NextSlot(m, k, e, d, t, d') && x in Trail(m, Fetch(m, t), d', k)
  {
    var g := m.pages[e.addr];
    d' := g.hdr.depth + |g.hdr.partial| + 1;
    var j := Scan(g.records, Path(k)[d' - 1], Capacity(g.hdr.ntype));
    t := Slot(e.addr, j);
    assert Fetch(m, t) == g.records[j];
  }

  lemma OnNext(m: Mem, k: Key, s: SlotRef, e: Entry, d: nat, t: SlotRef, d': nat)
    requires WF(m) && e == Fetch(m, s) && On(m, k, s, e, d, false) && NextSlot(m, k, e, d, t, d')
    ensures On(m, k, t, Fetch(m, t), d', false)
  {
    PageMatches(m, k, s, e.addr);
    OnRecord(m, k, e.addr, t.idx);
  }

  lemma TrailFromLies(m: Mem, start: Option<Hit>, k: Key, x: Addr)
    requires Settled(m) && (start.Some? ==> HitOK(m, start.value) && Toward(m, start.value, k))
    requires x in TrailFrom(m, start, k)
    ensures Lies(m, x, k)
  {
    if start.Some? {
      OnHit(m, k, start.value);
      OnReread(m, k, start.value.s, start.value.e, start.value.depth + 1);
      TrailLies(m, start.value.s, start.value.depth + 1, k, x);
    } else {
      OnRoot(m, k);
      TrailLies(m, Root, 1, k, x);
    }
  }

  lemma TrailsLie(m: Mem, start: Option<Hit>, k: Key)
    requires Settled(m) && (start.Some? ==> HitOK(m, start.value) && Toward(m, start.value, k))
    ensures var xs := TrailFrom(m, start, k); forall i :: 0 <= i < |xs| ==> Lies(m, xs[i], k)
  {
    var xs := TrailFrom(m, start, k);
    forall i | 0 <= i < |xs| ensures Lies(m, xs[i], k) { TrailFromLies(m, start, k, xs[i]); }
  }

  lemma NewLie(m: Mem, m': Mem, k: Key, made: seq<Addr>)
    requires WF(m') && Made(m, m', k, made)
    ensures forall i :: 0 <= i < |made| ==> Lies(m', made[i], k)
  {
    forall i | 0 <= i < |made| ensures Lies(m', made[i], k) { MadeLies(m, m', k, made, made[i]); }
  }

  lemma MadeLies(m: Mem, m': Mem, k: Key, made: seq<Addr>, x: Addr)
    requires WF(m') && Made(m, m', k, made) && x in made
    ensures Lies(m', x, k)
  {
    assert MadeAt(m, m', k, made, x) && PageAt(m', x);
  }

  /** A copy stays a copy while the tree grows, however old it gets. */
  lemma CopyStable(m: Mem, m': Mem, p: Bytes, e: CacheEntry)
    requires WF(m) && WF(m') && Grows(m, m') && CopyOf(m, p, e)
    ensures CopyOf(m', p, e)
  {
    assert TargetGrows(m, m', e.addr);
    forall i: nat ensures RecordHeld(m', e, i) {
      assert RecordHeld(m, e, i);
      if i < |e.records| && !e.records[i].Null? { HeldStable(m, m', Slot(e.addr, i), e.records[i]); }
    }
  }

  ghost predicate AllCopies(m: Mem, spec: Contents) {
    forall p :: p in spec ==> CopyOf(m, p, spec[p])
  }

  lemma CopiesStable(m: Mem, m': Mem, spec: Contents)
    requires WF(m) && WF(m') && Grows(m, m') && AllCopies(m, spec)
    ensures AllCopies(m', spec)
  {
    forall p | p in spec ensures CopyOf(m', p, spec[p]) { CopyStable(m, m', p, spec[p]); }
  }

  /** The record that the cache answers with, as a place to start from. */
  ghost function StartAt(spec: Contents, k: Key, now: int): (start: Option<Hit>) {
    var r := Probe(spec, k, KEY_LEN - 1, now).0;
    ProbeLongest(spec, k, KEY_LEN - 1, now);
    if r.None? then None
    else
      var e := spec[k[..r.value.len]];
      Some(Hit(Slot(e.addr, r.value.idx), e.records[r.value.idx], e.depth))
  }

  /** Every answer is an entry on the key's path, once held by its slot. */
  lemma AnswerUsable(m: Mem, spec: Contents, k: Key, now: int)
    requires WF(m) && AllCopies(m, spec)
    ensures var h := StartAt(spec, k, now); h.Some? ==> HitOK(m, h.value) && Toward(m, h.value, k)
  {
    ProbeLongest(spec, k, KEY_LEN - 1, now);
    var r := Probe(spec, k, KEY_LEN - 1, now).0;
    if r.Some? {
      var e, n := spec[k[..r.value.len]], r.value.len;
      assert CopyOf(m, k[..n], e) && RecordHeld(m, e, r.value.idx);
      var f := m.pre[e.addr];
      assert Path(k)[|f|] == k[n];
      forall i | 0 <= i < |f| ensures f[i] == Path(k)[i] {}
    }
  }

  lemma ProbedCopies(m: Mem, spec: Contents, k: Key, now: int)
    requires AllCopies(m, spec)
    ensures AllCopies(m, Probe(spec, k, KEY_LEN - 1, now).1)
  {
    var spec' := Probe(spec, k, KEY_LEN - 1, now).1;
    forall p | p in spec' ensures CopyOf(m, p, spec'[p]) { ProbeDrops(spec, k, KEY_LEN - 1, now, p); }
  }

  /** The contents after pages `xs` of memory `m` are cached and nothing is evicted. */
  ghost function Remembered(spec: Contents, m: Mem, k: Key, xs: seq<Addr>, id: nat, expire: int): Contents
    requires forall i :: 0 <= i < |xs| ==> Lies(m, xs[i], k)
    decreases |xs|
  {
    if xs == [] then spec else
    Remembered(With(spec, m, k, xs[0], id, expire), m, k, xs[1..], id + 1, expire)
  }

  /** A page below the root slot is cached under its prefix. */
  ghost function With(spec: Contents, m: Mem, k: Key, x: Addr, id: nat, expire: int): Contents
    requires Lies(m, x, k)
  {
    var page := m.pages[x];
    if page.hdr.depth == 1 then spec else spec[CachePrefix(k, page.hdr) := Snapshot(id, page, x, expire)]
  }

  lemma CopiesWith(m: Mem, spec: Contents, k: Key, x: Addr, id: nat, expire: int, spec': Contents)
    requires WF(m) && AllCopies(m, spec) && Lies(m, x, k)
    requires forall p :: p in spec' ==>
      p in With(spec, m, k, x, id, expire) && spec'[p] == With(spec, m, k, x, id, expire)[p]
    ensures AllCopies(m, spec')
  {
    CachedAtPrefix(m, k, x, id, expire);
  }

  /** The contents without entry `e` of prefix `p`. */
  ghost function Without(spec: Contents, p: Bytes, e: CacheEntry): (r: Contents)
    ensures p in r ==> r[p] != e
  {
    if p in spec && spec[p] == e then spec - {p} else spec
  }

  /** The prefix that answers for `k`. */
  ghost function AnswerPrefix(spec: Contents, k: Key, now: int): Bytes {
    var r := Probe(spec, k, KEY_LEN - 1, now).0;
    if r.Some? && r.value.len < KEY_LEN then k[..r.value.len] else []
  }

  /** Contents `x` without the entry that `spec` answers with for `k`. */
  ghost function Forgetting(spec: Contents, k: Key, now: int, x: Contents): Contents {
    var p := AnswerPrefix(spec, k, now);
    if p in spec then Without(x, p, spec[p]) else x
  }

  /** Contents `x` does not have the entry that `spec` answers with for `k`. */
  ghost predicate Forgotten(spec: Contents, k: Key, now: int, x: Contents) {
    var p := AnswerPrefix(spec, k, now);
    p in spec && p in x ==> x[p] != spec[p]
  }

  /** What an operation for `k` finds in the cache after its lookup, without the entry that answered if it is
      `dropped`. */
  ghost function Left(spec: Contents, k: Key, now: int, dropped: bool): Contents {
    var rest := Probe(spec, k, KEY_LEN - 1, now).1;
    if dropped then Forgetting(spec, k, now, rest) else rest
  }

  /** The contents after pages `visits` of memory `was` and then pages `made` of memory `m` are cached. */
  ghost function BothCached(spec: Contents, was: Mem, m: Mem, k: Key, visits: seq<Addr>, made: seq<Addr>, id: nat,
                            expire: int): Contents
    requires forall i :: 0 <= i < |visits| ==> Lies(was, visits[i], k)
    requires forall i :: 0 <= i < |made| ==> Lies(m, made[i], k)
  {
    Remembered(Remembered(spec, was, k, visits, id, expire), m, k, made, id + |visits|, expire)
  }

  /** The ids of all entries are from before `id`. */
  ghost predicate IdsBelow(spec: Contents, id: nat) {
    forall p :: p in spec ==> spec[p].id < id
  }

  /** Contents `spec'` has entries of `spec`, and entries whose ids lie between `id` and `id'`. */
  ghost predicate OldOrNew(spec: Contents, id: nat, spec': Contents, id': nat) {
    forall p :: p in spec' ==> (p in spec && spec'[p] == spec[p]) || id <= spec'[p].id < id'
  }

  lemma OldOrNewOn(spec: Contents, id: nat, spec1: Contents, id1: nat, spec2: Contents, id2: nat)
    requires OldOrNew(spec, id, spec1, id1) && OldOrNew(spec1, id1, spec2, id2) && id <= id1 <= id2
    ensures OldOrNew(spec, id, spec2, id2)
  {}

  /** A place found earlier: its node still stands for the same prefix, or all entries of the cache are new. */
  ghost predicate PlaceLater(t: Trie, next: Id, spec: Contents, pl: Place, p: Bytes, id: nat) {
    && pl.node < next
    && if pl.node in t.nodes then Names(t, pl.node, pl.byte, p) else forall q :: q in spec ==> spec[q].id >= id
  }

  ghost predicate FoundLater(t: Trie, next: Id, spec: Contents, found: Option<Place>, p: Bytes, id: nat) {
    found.Some? ==> PlaceLater(t, next, spec, found.value, p, id)
  }

  lemma PlaceOn(t: Trie, next: Id, spec: Contents, t': Trie, next': Id, spec': Contents, found: Option<Place>, p: Bytes,
                id: nat, id1: nat, id2: nat)
    requires FoundLater(t, next, spec, found, p, id)
    requires found.Some? ==> NodeAfter(t, next, t', next', spec', found.value.node)
    requires OldOrNew(spec, id1, spec', id2) && id <= id1
    ensures FoundLater(t', next', spec', found, p, id)
  {}

  lemma CachedOldOrNew(m: Mem, spec: Contents, k: Key, x: Addr, id: nat, expire: int, spec': Contents)
    requires Lies(m, x, k)
    requires forall p :: p in spec' ==>
      p in With(spec, m, k, x, id, expire) && spec'[p] == With(spec, m, k, x, id, expire)[p]
    ensures OldOrNew(spec, id, spec', id + 1)
  {}

  /** Contents from which an entry may have been dropped. */
  lemma WithoutOK(m: Mem, spec: Contents, p: Bytes, found: Option<Place>, id: nat, dropped: bool, spec': Contents)
    requires AllCopies(m, spec) && IdsBelow(spec, id) && (dropped ==> found.Some?)
    requires spec' == if dropped then Without(spec, p, found.value.entry) else spec
    ensures AllCopies(m, spec') && IdsBelow(spec', id) && (dropped && p in spec' ==> spec'[p] != found.value.entry)
  {}

  /** An entry that was dropped does not come back. */
  lemma StillGone(spec: Contents, id: nat, spec': Contents, id': nat, p: Bytes, found: Option<Place>, dropped: bool)
    requires OldOrNew(spec, id, spec', id') && IdsBelow(spec, id) && id <= id'
    requires dropped ==> found.Some? && found.value.entry.id < id && (p in spec ==> spec[p] != found.value.entry)
    ensures IdsBelow(spec', id') && (dropped && p in spec' ==> spec'[p] != found.value.entry)
  {}

  /** The tree of one compute node behind its cache. */
  class CachedTree {
    const tree: Tree
    const cache: RadixCache
    var ids: nat

    ghost predicate Valid()
      reads this, tree, cache
    {
      tree.Valid() && cache.Valid() && AllCopies(tree.m, cache.spec) && IdsBelow(cache.spec, ids)
    }

    constructor (size: nat)
      ensures Valid() && fresh(tree) && fresh(cache) && tree.m.root.Null? && cache.budget == size
    {
      tree := new Tree();
      cache := new RadixCache(size);
      ids := 0;
    }

    /** Caches pages `xs` one by one. `found` is a place of prefix `p` from before entries had ids from `id` on. */
    method CachePages(m: Mem, k: Key, xs: seq<Addr>, expire: int, ghost found: Option<Place>, ghost p: Bytes,
                      ghost id: nat) returns (evicted: bool)
      requires cache.Valid() && WF(m) && AllCopies(m, cache.spec) && forall i :: 0 <= i < |xs| ==> Lies(m, xs[i], k)
      requires id <= ids && FoundLater(cache.t, cache.next, cache.spec, found, p, id)
      modifies this`ids, cache
      ensures cache.Valid() && AllCopies(m, cache.spec) && ids == old(ids) + |xs|
      ensures OldOrNew(old(cache.spec), old(ids), cache.spec, ids)
      ensures FoundLater(cache.t, cache.next, cache.spec, found, p, id)
      ensures !evicted ==> cache.spec == Remembered(old(cache.spec), m, k, xs, old(ids), expire)
    {
      evicted := false;
      ghost var was, first := cache.spec, ids;
      for i := 0 to |xs|
        invariant cache.Valid() && AllCopies(m, cache.spec) && ids == first + i
        invariant OldOrNew(was, first, cache.spec, ids) && FoundLater(cache.t, cache.next, cache.spec, found, p, id)
        invariant !evicted ==>
          Remembered(cache.spec, m, k, xs[i..], ids, expire) == Remembered(was, m, k, xs, first, expire)
      {
        assert xs[i..][0] == xs[i] && xs[i..][1..] == xs[i + 1..];
        ghost var spec, now := cache.spec, ids;
        var full := CachePage(m, k, xs[i], expire, found, p, id);
        OldOrNewOn(was, first, spec, now, cache.spec, ids);
        evicted := evicted || full;
      }
    }

    method CachePage(m: Mem, k: Key, x: Addr, expire: int, ghost found: Option<Place>, ghost p: Bytes, ghost id: nat)
      returns (evicted: bool)
      requires cache.Valid() && WF(m) && AllCopies(m, cache.spec) && Lies(m, x, k)
      requires id <= ids && FoundLater(cache.t, cache.next, cache.spec, found, p, id)
      modifies this`ids, cache
      ensures cache.Valid() && AllCopies(m, cache.spec) && ids == old(ids) + 1
      ensures OldOrNew(old(cache.spec), old(ids), cache.spec, ids)
      ensures FoundLater(cache.t, cache.next, cache.spec, found, p, id)
      ensures !evicted ==> cache.spec == With(old(cache.spec), m, k, x, old(ids), expire)
    {
      ghost var t, next, spec := cache.t, cache.next, cache.spec;
      ghost var mid, n;
      evicted, mid, n := cache.AddToCache(k, m.pages[x], x, ids, expire);
      CopiesWith(m, spec, k, x, ids, expire, cache.spec);
      CachedOldOrNew(m, spec, k, x, ids, expire, cache.spec);
      PlaceOn(t, next, spec, cache.t, cache.next, cache.spec, found, p, id, ids, ids + 1);
      ids := ids + 1;
    }

    /** The place to start from that the cache has for `k`, and where it was found. */
    method Probed(k: Key, now: int) returns (start: Option<Hit>, found: Option<Place>)
      requires Valid()
      modifies cache`t, cache`free, cache`spec
      ensures Valid() && cache.spec == Left(old(cache.spec), k, now, false)
      ensures start == StartAt(old(cache.spec), k, now)
      ensures start.Some? ==> HitOK(tree.m, start.value) && Toward(tree.m, start.value, k)
      ensures found.Some? <==> start.Some?
      ensures found.Some? ==>
        var p := AnswerPrefix(old(cache.spec), k, now);
        p in old(cache.spec) && found.value.entry == old(cache.spec)[p] && found.value.entry.id < ids
      ensures FoundLater(cache.t, cache.next, cache.spec, found, AnswerPrefix(old(cache.spec), k, now), ids)
    {
      ghost var spec := cache.spec;
      AnswerUsable(tree.m, spec, k, now);
      ProbedCopies(tree.m, spec, k, now);
      var r;
      r, found := cache.SearchFromCache(k, now);
      start := None;
      forall p | p in cache.spec ensures cache.spec[p].id < ids { ProbeDrops(spec, k, KEY_LEN - 1, now, p); }
      if r.Some? {
        ProbeDrops(spec, k, KEY_LEN - 1, now, k[..r.value.len]);
        ProbeLongest(spec, k, KEY_LEN - 1, now);
        var e := found.value.entry;
        assert BelowAt(cache.t, cache.next, found.value.node);
        start := Some(Hit(Slot(e.addr, r.value.idx), e.records[r.value.idx], e.depth));
      }
    }

    /** Drops the entry that was found at a place. The place may have been left behind by a rebuild of the trie; then it
        is empty. */
    method Drop(pl: Place, ghost p: Bytes, ghost id: nat)
      requires cache.Valid() && PlaceLater(cache.t, cache.next, cache.spec, pl, p, id) && pl.entry.id < id
      modifies cache`t, cache`free, cache`spec
      ensures cache.Valid() && cache.spec == Without(old(cache.spec), p, pl.entry) && cache.next == old(cache.next)
      ensures PlaceLater(cache.t, cache.next, cache.spec, pl, p, id)
    {
      if pl.node in cache.t.nodes {
        PlaceDecides(cache.t, cache.spec, pl.node, pl.byte, p);
        assert p == cache.t.full[pl.node] + [pl.byte];
        cache.Invalidate(pl.node, pl.byte, pl.entry);
      }
    }

    /** A search through the cache finds what a root search finds. It drops the entry that it started with if the slot
        no longer holds the record, and caches the pages it reads. */
    method Search(k: Key, now: int, expire: int) returns (r: Option<Value>, visits: seq<Addr>, evicted: bool)
      requires Valid() && !tree.m.root.Null?
      modifies this`ids, cache
      ensures Valid() && r == View(tree.m, k) && visits == TrailFrom(tree.m, StartAt(old(cache.spec), k, now), k)
      ensures forall i :: 0 <= i < |visits| ==> Lies(tree.m, visits[i], k)
      ensures Stale(tree.m, StartAt(old(cache.spec), k, now)) ==> Forgotten(old(cache.spec), k, now, cache.spec)
      ensures !evicted ==>
        var rest := Left(old(cache.spec), k, now, Stale(tree.m, StartAt(old(cache.spec), k, now)));
        cache.spec == Remembered(rest, tree.m, k, visits, old(ids), expire)
    {
      ghost var p := AnswerPrefix(cache.spec, k, now);
      var start, found := Probed(k, now);
      var stale;
      r, visits, stale := tree.Search(k, start);
      TrailsLie(tree.m, start, k);
      if stale { Drop(found.value, p, ids); }
      evicted := CachePages(tree.m, k, visits, expire, found, p, ids);
    }

    /** An insert through the cache changes what a root search finds for its key and for no other. It drops the entry
        that it started with if the slot no longer holds the record, caches the pages it reads, as it finds them, and
        then those it adds, and at last drops the entry if it has replaced a page's record in the slot itself. */
    method Insert(k: Key, v: Value, load: bool, now: int, expire: int)
      returns (visits: seq<Addr>, made: seq<Addr>, evicted: bool)
      requires Valid()
      modifies this`ids, tree, cache
      ensures Valid() && Grows(old(tree.m), tree.m) && Made(old(tree.m), tree.m, k, made)
      ensures
        var v' := if load && old(View(tree.m, k)).Some? then old(View(tree.m, k)).value else v;
        Updated(old(tree.m), tree.m, k, v')
      ensures visits == TrailFrom(old(tree.m), StartAt(old(cache.spec), k, now), k)
      ensures forall i :: 0 <= i < |visits| ==> Lies(old(tree.m), visits[i], k)
      ensures forall i :: 0 <= i < |made| ==> Lies(tree.m, made[i], k)
      ensures
        var start := StartAt(old(cache.spec), k, now);
        Stale(old(tree.m), start) || Replaced(old(tree.m), tree.m, start) ==>
          Forgotten(old(cache.spec), k, now, cache.spec)
      ensures !evicted ==>
        var start := StartAt(old(cache.spec), k, now);
        var rest := Left(old(cache.spec), k, now, Stale(old(tree.m), start));
        var more := BothCached(rest, old(tree.m), tree.m, k, visits, made, old(ids), expire);
        cache.spec == if Replaced(old(tree.m), tree.m, start) then Forgetting(old(cache.spec), k, now, more) else more
    {
      ghost var p := AnswerPrefix(cache.spec, k, now);
      var was := tree.m;
      var start, found := Probed(k, now);
      var stale, late;
      visits, made, stale, late := tree.Insert(k, v, load, start);
      TrailsLie(was, start, k);
      NewLie(was, tree.m, k, made);
      evicted := CacheAround(was, tree.m, k, visits, made, expire, found, p, stale, late);
    }

    /** Drops the entry found earlier if it is `stale`, caches the pages, and drops it if it is out of date only
        `late`. */
    method CacheAround(was: Mem, m: Mem, k: Key, visits: seq<Addr>, made: seq<Addr>, expire: int, found: Option<Place>,
                       ghost p: Bytes, stale: bool, late: bool)
      returns (evicted: bool)
      requires cache.Valid() && WF(was) && WF(m) && Grows(was, m) && AllCopies(was, cache.spec)
      requires IdsBelow(cache.spec, ids)
      requires forall i :: 0 <= i < |visits| ==> Lies(was, visits[i], k)
      requires forall i :: 0 <= i < |made| ==> Lies(m, made[i], k)
      requires FoundLater(cache.t, cache.next, cache.spec, found, p, ids)
      requires found.Some? ==> found.value.entry.id < ids
      requires stale || late ==> found.Some?
      modifies this`ids, cache
      ensures cache.Valid() && AllCopies(m, cache.spec) && IdsBelow(cache.spec, ids)
      ensures (stale || late) && p in cache.spec ==> cache.spec[p] != found.value.entry
      ensures !evicted ==>
        var rest := if stale then Without(old(cache.spec), p, found.value.entry) else old(cache.spec);
        var more := BothCached(rest, was, m, k, visits, made, old(ids), expire);
        cache.spec == if late then Without(more, p, found.value.entry) else more
    {
      ghost var id, spec := ids, cache.spec;
      if stale { Drop(found.value, p, id); }
      WithoutOK(was, spec, p, found, id, stale, cache.spec);
      ghost var spec1 := cache.spec;
      evicted := CacheBoth(was, m, k, visits, made, expire, found, p);
      StillGone(spec1, id, cache.spec, ids, p, found, stale);
      ghost var spec2 := cache.spec;
      if late { Drop(found.value, p, id); }
      WithoutOK(m, spec2, p, found, ids, late, cache.spec);
    }

    /** Caches pages `visits` of memory `was`, then pages `made` of the later memory `m`. */
    method CacheBoth(was: Mem, m: Mem, k: Key, visits: seq<Addr>, made: seq<Addr>, expire: int,
                     ghost found: Option<Place>, ghost p: Bytes)
      returns (evicted: bool)
      requires cache.Valid() && WF(was) && WF(m) && Grows(was, m) && AllCopies(was, cache.spec)
      requires forall i :: 0 <= i < |visits| ==> Lies(was, visits[i], k)
      requires forall i :: 0 <= i < |made| ==> Lies(m, made[i], k)
      requires FoundLater(cache.t, cache.next, cache.spec, found, p, ids)
      modifies this`ids, cache
      ensures cache.Valid() && AllCopies(m, cache.spec) && ids >= old(ids)
      ensures OldOrNew(old(cache.spec), old(ids), cache.spec, ids)
      ensures FoundLater(cache.t, cache.next, cache.spec, found, p, old(ids))
      ensures !evicted ==> cache.spec == BothCached(old(cache.spec), was, m, k, visits, made, old(ids), expire)
    {
      ghost var id := ids;
      var some := CachePages(was, k, visits, expire, found, p, id);
      ghost var spec1, id1 := cache.spec, ids;
      CopiesStable(was, m, cache.spec);
      evicted := CachePages(m, k, made, expire, found, p, id);
      OldOrNewOn(old(cache.spec), id, spec1, id1, cache.spec, ids);
      evicted := evicted || some;
    }
  }
}
