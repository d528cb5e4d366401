/** The radix cache: insertion, invalidation, eviction and memory accounting. */
module RadixCaching {
  import opened Keys
  import opened RemoteMemory
  import opened Lookup
  import opened CacheTrie
  import opened Accounting
  import opened CacheProbe
  import opened NormalCaching

  /** Bytes that one record of a node takes: the byte, the entry pointer and the node pointer. */
  const RECORD_SIZE: nat := 17

  function EntrySize(e: CacheEntry): nat {
    1 + 8 + 8 * |e.records| + 8
  }

  function NodeSize(n: Node): nat {
    1 + |n.partial| + RECORD_SIZE * |n.records|
  }

  /** A pair of the eviction list: the place of an entry and the entry that was put there. */
  datatype Place = Place(node: Id, byte: Byte, entry: CacheEntry)

  /** The bytes of each cached entry: a depth, an address, a time and the records. */
  ghost function EntryBytes(spec: map<Bytes, CacheEntry>): map<Bytes, nat> {
    map p | p in spec :: 17 + 8 * |spec[p].records|
  }

  /** The bytes of each node but an empty root: a depth, the header bytes, and a byte and two pointers per record. */
  ghost function NodeBytes(t: Trie): map<Id, nat> {
    map n | n in t.nodes && t.nodes[n].records != map[] :: 1 + |t.nodes[n].partial| + 17 * |t.nodes[n].records|
  }

  /** Every node has its size recorded, but for a root that never had a record. */
  ghost predicate SizedAt(t: Trie, sizes: map<Id, nat>, n: Id) {
    && (n in sizes ==> n in t.nodes && t.nodes[n].records != map[] && sizes[n] == NodeSize(t.nodes[n]))
    && (n in t.nodes && n !in sizes ==> n == t.root && t.nodes[n].records == map[])
  }

  /** Every live entry has its pair in the eviction list. */
  ghost predicate QueuedAt(t: Trie, q: seq<Place>, n: Id, b: Byte) {
    EntryIn(t, n, b).Some? ==> Place(n, b, EntryIn(t, n, b).value) in q
  }

  ghost predicate BelowAt(t: Trie, next: Id, n: Id) {
    n in t.nodes ==> n < next
  }

  /** The places of the eviction list are places of the trie. */
  ghost predicate PlacedAt(t: Trie, q: seq<Place>, pl: Place) {
    pl in q ==> pl.node in t.nodes
  }

  /** The eviction list got the pair of the entry of prefix `p` at its end. */
  ghost predicate Queued(q: seq<Place>, q': seq<Place>, t: Trie, p: Bytes, e: CacheEntry) {
    |q'| == |q| + 1 && q'[..|q|] == q && q'[|q|].entry == e && Names(t, q'[|q|].node, q'[|q|].byte, p)
  }

  ghost predicate CacheOK(t: Trie, spec: map<Bytes, CacheEntry>, sizes: map<Id, nat>, free: int, budget: nat,
                          q: seq<Place>, next: Id) {
    && TrieOK(t) && Models(t, spec)
    && (forall n :: BelowAt(t, next, n))
    && (forall n :: SizedAt(t, sizes, n))
    && Balanced(free, budget, sizes, EntryBytes(spec))
    && (forall n, b :: QueuedAt(t, q, n, b))
    && (forall pl :: PlacedAt(t, q, pl))
  }

  /** The free memory is what the cached entries and the nodes of the trie leave of the budget. */
  lemma Accounted(t: Trie, spec: map<Bytes, CacheEntry>, sizes: map<Id, nat>, free: int, budget: nat, q: seq<Place>,
                  next: Id)
    requires CacheOK(t, spec, sizes, free, budget, q, next)
    ensures sizes == NodeBytes(t) && free + Sum(EntryBytes(spec)) + Sum(NodeBytes(t)) == budget
  {
    forall n ensures n in sizes <==> n in NodeBytes(t) { assert SizedAt(t, sizes, n); }
    forall n | n in sizes ensures sizes[n] == NodeBytes(t)[n] { assert SizedAt(t, sizes, n); }
  }

  /** Caching a page takes 17 bytes and 8 for each slot that its type covers, besides what the trie grows by, and gives
      back what the entry took that was cached under the same prefix. */
  lemma PageTakes(spec: Contents, sizes: map<Id, nat>, free: int, budget: nat, p: Bytes, id: nat, page: Page,
                  addr: Addr, expire: int, sizes': map<Id, nat>, free': int)
    requires |page.records| == SLOTS && Balanced(free, budget, sizes, EntryBytes(spec))
    requires Balanced(free', budget, sizes', EntryBytes(spec[p := Snapshot(id, page, addr, expire)]))
    ensures
      var back := if p in spec then 17 + 8 * |spec[p].records| else 0;
      free' + Sum(sizes') == free + Sum(sizes) - (17 + 8 * Capacity(page.hdr.ntype)) + back
  {
    var e := Snapshot(id, page, addr, expire);
    assert EntryBytes(spec[p := e]) == EntryBytes(spec)[p := 17 + 8 * |e.records|];
    SumUpdate(EntryBytes(spec), p, 17 + 8 * |e.records|);
  }

  lemma LiveUpdate(spec: map<Bytes, CacheEntry>, p: Bytes, e: CacheEntry)
    ensures EntryBytes(spec[p := e]) == EntryBytes(spec)[p := EntrySize(e)]
  {}

  lemma LiveRemove(spec: map<Bytes, CacheEntry>, p: Bytes)
    ensures EntryBytes(spec - {p}) == EntryBytes(spec) - {p}
  {}

  lemma NodesKept(t: Trie, t': Trie, q: seq<Place>, next: Id)
    requires t'.nodes.Keys == t.nodes.Keys && (forall n :: BelowAt(t, next, n)) && (forall pl :: PlacedAt(t, q, pl))
    ensures (forall n :: BelowAt(t', next, n)) && (forall pl :: PlacedAt(t', q, pl))
  {
    forall n ensures BelowAt(t', next, n) { assert BelowAt(t, next, n); }
    forall pl ensures PlacedAt(t', q, pl) { assert PlacedAt(t, q, pl); }
  }

  /** New nodes and one more place. */
  lemma NodesMore(t: Trie, t': Trie, q: seq<Place>, q': seq<Place>, next: Id, next': Id)
    requires (forall n :: BelowAt(t, next, n)) && (forall pl :: PlacedAt(t, q, pl)) && next <= next'
    requires t.nodes.Keys <= t'.nodes.Keys && (forall n :: n in t'.nodes && n !in t.nodes ==> n < next')
    requires forall pl :: pl in q' ==> pl in q || pl.node in t'.nodes
    ensures (forall n :: BelowAt(t', next', n)) && (forall pl :: PlacedAt(t', q', pl))
  {
    forall n ensures BelowAt(t', next', n) { assert BelowAt(t, next, n); }
    forall pl ensures PlacedAt(t', q', pl) { assert PlacedAt(t, q, pl); }
  }

  /** The trie only got new nodes, with ids from `next` on; the others keep their prefixes. */
  ghost predicate Widened(t: Trie, next: Id, t': Trie, next': Id) {
    && next <= next' && t.nodes.Keys <= t'.nodes.Keys && (forall n :: n in t'.nodes && n !in t.nodes ==> next <= n)
    && (forall n :: n in t.full ==> n in t'.full && t'.full[n] == t.full[n])
  }

  lemma WidenedOn(t: Trie, next: Id, t1: Trie, next1: Id, t2: Trie, next2: Id)
    requires Widened(t, next, t1, next1) && Widened(t1, next1, t2, next2)
    ensures Widened(t, next, t2, next2)
  {}

  /** Ids are not used again, and a node keeps its prefix; it leaves only when the cache is emptied. */
  ghost predicate NodeAfter(t: Trie, next: Id, t': Trie, next': Id, spec': Contents, n: Id) {
    && next <= next' && (n in t'.nodes && n !in t.nodes ==> next <= n)
    && (n in t.nodes && n in t.full ==>
          if n in t'.nodes then n in t'.full && t'.full[n] == t.full[n] else spec' == map[])
  }

  /** A place decides whether its prefix is stored. */
  lemma PlaceDecides(t: Trie, spec: map<Bytes, CacheEntry>, n: Id, b: Byte, p: Bytes)
    requires TrieOK(t) && Models(t, spec) && n in t.nodes && Names(t, n, b, p)
    ensures EntryIn(t, n, b) == if p in spec then Some(spec[p]) else None
  {
    assert StoredAt(t, spec, n, b, p) && FoundAt(t, spec, p);
    if p in spec {
      var x, c :| Names(t, x, c, p) && EntryIn(t, x, c) == Some(spec[p]);
      OnePlace(t, n, b, x, c, p);
    }
  }

  /** The prefix under which a page is cached: the key's bytes above the page's header and the header bytes. */
  function CachePrefix(k: Key, h: Header): Bytes
    requires 1 <= h.depth <= PATH_LEN
  {
    k[..h.depth - 1] + h.partial
  }

  /** The copy of a page that the cache keeps: the slots that its type covers. */
  function Snapshot(id: nat, page: Page, addr: Addr, expire: int): (e: CacheEntry)
    requires |page.records| == SLOTS
    ensures forall b :: Record(e, b) == Scan(page.records[..Capacity(page.hdr.ntype)], b, Capacity(page.hdr.ntype))
  {
    CacheEntry(id, page.hdr.depth + |page.hdr.partial|, addr, page.records[..Capacity(page.hdr.ntype)], expire)
  }

  function EmptyTrie(r: Id): Trie {
    Trie(r, map[r := Node(0, [], map[])], map[r := []], map[])
  }

  lemma EmptyOK(r: Id, budget: nat, next: Id)
    requires r < next
    ensures CacheOK(EmptyTrie(r), map[], map[], budget, budget, [], next)
  {
    var t := EmptyTrie(r);
    var none: map<Bytes, CacheEntry> := map[];
    assert EntryBytes(none) == map[];
    var sizes: map<Id, nat> := map[];
    forall n ensures NodeAt(t, n) {}
    forall n, b ensures NextAt(t, n, b) {}
    forall n ensures OwnedAt(t, n) {}
    forall n, b, p ensures StoredAt(t, none, n, b, p) {}
    forall p ensures FoundAt(t, none, p) {}
    forall n ensures SizedAt(t, map[], n) {}
    forall n, b ensures QueuedAt(t, [], n, b) {}
    forall n ensures BelowAt(t, next, n) {}
    forall pl ensures PlacedAt(t, [], pl) {}
  }

  /** How far a header agrees with `bytes`; a header byte at the last position of `bytes` counts as a mismatch. */
  method CompareHeader(h: Node, bytes: Bytes) returns (i: nat)
    requires h.depth < |bytes|
    ensures i <= |h.partial| && h.depth + i < |bytes|
    ensures forall l :: 0 <= l < i ==> bytes[h.depth + l] == h.partial[l]
    ensures i < |h.partial| ==> h.depth + i == |bytes| - 1 || bytes[h.depth + i] != h.partial[i]
  {
    i := 0;
    while i < |h.partial| && h.depth + i != |bytes| - 1 && bytes[h.depth + i] == h.partial[i]
      invariant i <= |h.partial| && h.depth + i < |bytes|
      invariant forall l :: 0 <= l < i ==> bytes[h.depth + l] == h.partial[l]
    {
      i := i + 1;
    }
  }

  /** An insertion of `bytes` has come to `node`, at `idx`, through byte `idx - 1` of `parent`. */
  ghost predicate Arrived(t: Trie, bytes: Bytes, parent: Id, node: Id, idx: nat) {
    && node in t.nodes && node in t.full && idx < |bytes| && t.nodes[node].depth == idx
    && (if node == t.root then idx == 0
        else && 0 < idx && parent in t.nodes && parent in t.full && |t.full[parent]| == idx - 1
             && Ext(t.full[parent], bytes) && NextIn(t, parent, bytes[idx - 1]) == Some(node))
  }

  lemma ArrivedRoot(t: Trie, bytes: Bytes)
    requires TrieOK(t) && bytes != []
    ensures Arrived(t, bytes, t.root, t.root, 0)
  {
    assert NodeAt(t, t.root);
  }

  /** A node whose whole header agrees lies on the path of `bytes`. */
  lemma ArrivedThrough(t: Trie, bytes: Bytes, parent: Id, node: Id, idx: nat)
    requires TrieOK(t) && Arrived(t, bytes, parent, node, idx) && idx + |t.nodes[node].partial| < |bytes|
    requires forall l :: 0 <= l < |t.nodes[node].partial| ==> bytes[idx + l] == t.nodes[node].partial[l]
    ensures |t.full[node]| == idx + |t.nodes[node].partial| && Ext(t.full[node], bytes)
  {
    assert NodeAt(t, node);
    if node != t.root { assert NextAt(t, parent, bytes[idx - 1]); }
    var f := t.full[node];
    forall i | 0 <= i < |f| ensures f[i] == bytes[i] {
      if i >= idx { assert t.nodes[node].partial[i - idx] == f[i]; }
    }
  }

  lemma ArrivedNext(t: Trie, bytes: Bytes, node: Id, idx: nat)
    requires TrieOK(t) && node in t.nodes && |t.full[node]| == idx && Ext(t.full[node], bytes) && idx + 1 < |bytes|
    requires NextIn(t, node, bytes[idx]).Some?
    ensures Arrived(t, bytes, node, NextIn(t, node, bytes[idx]).value, idx + 1)
  {
    assert NextAt(t, node, bytes[idx]);
  }

  /** A header that disagrees at byte `i` can be split there; the root has no header bytes. */
  lemma ArrivedSplit(t: Trie, bytes: Bytes, parent: Id, node: Id, idx: nat, i: nat, c: Id)
    requires TrieOK(t) && Arrived(t, bytes, parent, node, idx) && i < |t.nodes[node].partial| && idx + i < |bytes|
    requires c !in t.nodes
    requires forall l :: 0 <= l < i ==> bytes[idx + l] == t.nodes[node].partial[l]
    ensures node != t.root && CanSplit(t, parent, bytes[idx - 1], c, node, bytes[..idx + i])
    ensures t.full[node][idx + i] == t.nodes[node].partial[i]
  {
    assert NodeAt(t, node) && NextAt(t, parent, bytes[idx - 1]);
    var f := t.full[node];
    forall l | 0 <= l < idx + i ensures f[l] == bytes[l] {
      if l >= idx { assert t.nodes[node].partial[l - idx] == f[l]; }
    }
  }

  /** consume_by_node on the recorded sizes and the free memory. */
  method Recorded(sizes: map<Id, nat>, free: int, n: Id, size: nat) returns (sizes': map<Id, nat>, free': int)
    ensures sizes' == sizes[n := size] && Moved(free, sizes, free', sizes', 0)
  {
    var was := if n in sizes then sizes[n] else 0;
    MovedSize(free, sizes, n, size);
    if n in sizes && size == was {
      assert sizes[n := size] == sizes;
      return sizes, free;
    }
    return sizes[n := size], free - size + was;
  }

  /** A trie with a new node below byte `b` of node `n`, and its accounts. */
  method Grown(t: Trie, ghost spec: Contents, sizes: map<Id, nat>, free: int, ghost budget: nat, ghost q: seq<Place>,
               c: Id, n: Id, b: Byte, f: Bytes, last: Byte, e: CacheEntry)
    returns (u: Trie, sizes': map<Id, nat>, free': int)
    requires CacheOK(t, spec, sizes, free, budget, q, c) && n in t.nodes && Under(t.full[n], b, f)
    requires NextIn(t, n, b).None?
    ensures CacheOK(u, spec[f + [last] := e], sizes', free', budget, q + [Place(c, last, e)], c + 1)
    ensures Queued(q, q + [Place(c, last, e)], u, f + [last], e) && u.root == t.root && Widened(t, c, u, c + 1)
  {
    assert BelowAt(t, c, c);
    u := AddNode(t, n, b, c, f, last, e);
    sizes', free' := Recorded(sizes, free, n, NodeSize(u.nodes[n]));
    sizes', free' := Recorded(sizes', free', c, NodeSize(u.nodes[c]));
    free' := free' - EntrySize(e);
    AddOK(t, u, spec, sizes, sizes', free, free', budget, q, c, n, b, c, f, last, e);
  }

  /** A trie with a node put between `n` and `x`, and its accounts. */
  method Divided(t: Trie, ghost spec: Contents, sizes: map<Id, nat>, free: int, ghost budget: nat, ghost q: seq<Place>,
                 c: Id, n: Id, b: Byte, x: Id, f: Bytes)
    returns (u: Trie, sizes': map<Id, nat>, free': int)
    requires CacheOK(t, spec, sizes, free, budget, q, c) && CanSplit(t, n, b, c, x, f)
    ensures CacheOK(u, spec, sizes', free', budget, q, c + 1) && u.root == t.root && c in u.nodes && u.full[c] == f
    ensures Widened(t, c, u, c + 1)
    ensures forall a :: a != t.full[x][|f|] ==> NextIn(u, c, a).None?
  {
    u := SplitNode(t, n, b, c, x, f);
    sizes', free' := Recorded(sizes, free, c, NodeSize(u.nodes[c]));
    sizes', free' := Recorded(sizes', free', x, NodeSize(u.nodes[x]));
    SplitOK(t, u, spec, sizes, sizes', free, free', budget, q, n, b, c, x, f);
  }

  /** The place of prefix `p`, which held entry `e`. */
  ghost predicate PlaceOf(t: Trie, pl: Place, p: Bytes, e: CacheEntry) {
    pl.node in t.nodes && Names(t, pl.node, pl.byte, p) && pl.entry == e
  }

  class RadixCache {
    const budget: nat
    var t: Trie
    var next: Id
    var free: int
    var sizes: map<Id, nat>
    var evictions: seq<Place>
    ghost var spec: map<Bytes, CacheEntry>

    ghost predicate Valid()
      reads this
    {
      CacheOK(t, spec, sizes, free, budget, evictions, next)
    }

    constructor (size: nat)
      ensures Valid() && budget == size && spec == map[] && free == size
    {
      budget := size;
      t := EmptyTrie(0);
      next, free, sizes, evictions, spec := 1, size, map[], [], map[];
      new;
      EmptyOK(0, size, 1);
    }

    /** Records the present size of a node and takes the difference off the free memory. */
    method ConsumeByNode(n: Id)
      requires n in t.nodes
      modifies this`free, this`sizes
      ensures sizes == old(sizes)[n := NodeSize(t.nodes[n])] && Moved(old(free), old(sizes), free, sizes, 0)
    {
      sizes, free := Recorded(sizes, free, n, NodeSize(t.nodes[n]));
    }

    /** Takes memory that no node accounts for. */
    method Consume(size: int)
      modifies this`free
      ensures free == old(free) - size && Moved(old(free), sizes, free, sizes, -size)
    {
      free := free - size;
    }

    /** Empties a place if it still holds the given entry. */
    method Invalidate(n: Id, b: Byte, e: CacheEntry)
      requires Valid() && n in t.nodes
      modifies this`t, this`free, this`spec
      ensures Valid() && t.nodes.Keys == old(t.nodes.Keys) && t.full == old(t.full) && t.root == old(t.root)
      ensures free == old(free) + if EntryIn(old(t), n, b) == Some(e) then 17 + 8 * |e.records| else 0
      ensures forall x, c :: TakenAt(old(t), t, Place(n, b, e), x, c)
      ensures if EntryIn(old(t), n, b) == Some(e) then EntryIn(t, n, b) == None && spec == old(spec) - {t.full[n] + [b]}
              else t == old(t) && spec == old(spec)
    {
      if EntryIn(t, n, b) == Some(e) {
        ghost var p := t.full[n] + [b];
        PlaceDecides(t, spec, n, b, p);
        SetEntryOK(t, n, b, None);
        ClearModels(t, spec, n, b, p);
        LiveRemove(spec, p);
        BalancedTake(free, budget, sizes, EntryBytes(spec), p);
        ClearRest(t, sizes, evictions, n, b);
        NodesKept(t, SetEntry(t, n, b, None), evictions, next);
        t, free, spec := SetEntry(t, n, b, None), free + EntrySize(e), spec - {p};
      }
    }

    /** The prefix ends at a byte of `n`: the entry replaces what was there. */
    method InsertLast(n: Id, b: Byte, e: CacheEntry)
      requires Valid() && n in t.nodes
      modifies this`t, this`free, this`sizes, this`evictions, this`spec
      ensures Valid() && spec == old(spec)[old(t.full)[n] + [b] := e] && t.root == old(t.root)
      ensures Queued(old(evictions), evictions, t, old(t.full)[n] + [b], e) && Widened(old(t), next, t, next)
    {
      var was := EntryIn(t, n, b);
      t := SetEntry(t, n, b, Some(e));
      ConsumeByNode(n);
      Consume(EntrySize(e));
      if was.Some? {
        Consume(0 - EntrySize(was.value));
      }
      evictions := evictions + [Place(n, b, e)];
      spec := spec[t.full[n] + [b] := e];
      LastOK(old(t), t, old(spec), old(sizes), sizes, old(free), free, budget, old(evictions), next, n, b, e);
    }

    /** No node below byte `idx` of `bytes` in `n`: a new node takes the rest of the prefix. */
    method InsertBelow(n: Id, bytes: Bytes, idx: nat, e: CacheEntry)
      requires Valid() && n in t.nodes && |t.full[n]| == idx && Ext(t.full[n], bytes) && idx + 1 < |bytes|
      requires NextIn(t, n, bytes[idx]).None?
      modifies this`t, this`free, this`sizes, this`evictions, this`next, this`spec
      ensures Valid() && spec == old(spec)[bytes := e] && t.root == old(t.root)
      ensures Queued(old(evictions), evictions, t, bytes, e) && Widened(old(t), old(next), t, next)
    {
      BytesEnd(t.full[n], bytes, idx);
      AddLeafNode(n, bytes[idx], bytes[..|bytes| - 1], bytes[|bytes| - 1], e);
    }

    /** A new node for prefix `f` below byte `b` of `n`, with one entry. */
    method AddLeafNode(n: Id, b: Byte, f: Bytes, last: Byte, e: CacheEntry)
      requires Valid() && n in t.nodes && Under(t.full[n], b, f) && NextIn(t, n, b).None?
      modifies this`t, this`free, this`sizes, this`evictions, this`next, this`spec
      ensures Valid() && spec == old(spec)[f + [last] := e] && t.root == old(t.root)
      ensures Queued(old(evictions), evictions, t, f + [last], e) && Widened(old(t), old(next), t, next)
    {
      t, sizes, free := Grown(t, spec, sizes, free, budget, evictions, next, n, b, f, last, e);
      evictions, next := evictions + [Place(next, last, e)], next + 1;
      spec := spec[f + [last] := e];
    }

    /** A new node for prefix `f` goes between `n` and `x`, whose header is cut. */
    method Split(n: Id, b: Byte, x: Id, f: Bytes) returns (c: Id)
      requires Valid() && CanSplit(t, n, b, next, x, f)
      modifies this`t, this`free, this`sizes, this`next
      ensures Valid() && t.root == old(t.root) && c in t.nodes && t.full[c] == f && Widened(old(t), old(next), t, next)
      ensures forall a :: a != old(t).full[x][|f|] ==> NextIn(t, c, a).None?
    {
      c := next;
      t, sizes, free := Divided(t, spec, sizes, free, budget, evictions, c, n, b, x, f);
      next := next + 1;
    }

    /** Maps `bytes` to `e`: the refinement of `spec := spec[bytes := e]`. */
    method Insert(bytes: Bytes, e: CacheEntry)
      requires Valid() && bytes != []
      modifies this`t, this`free, this`sizes, this`evictions, this`next, this`spec
      ensures Valid() && spec == old(spec)[bytes := e] && t.root == old(t.root)
      ensures Queued(old(evictions), evictions, t, bytes, e) && Widened(old(t), old(next), t, next)
    {
      var parent, node, idx := t.root, t.root, 0;
      ArrivedRoot(t, bytes);
      while true
        invariant Valid() && spec == old(spec) && t == old(t) && next == old(next) && evictions == old(evictions)
        invariant Arrived(t, bytes, parent, node, idx)
        decreases |bytes| - idx
      {
        var h := t.nodes[node];
        var i := CompareHeader(h, bytes);
        if i < |h.partial| {
          assert BelowAt(t, next, next);
          ArrivedSplit(t, bytes, parent, node, idx, i, next);
          var c := Split(parent, bytes[idx - 1], node, bytes[..h.depth + i]);
          ghost var u, m := t, next;
          if h.depth + i == |bytes| - 1 {
            InsertLast(c, bytes[h.depth + i], e);
            assert bytes[..h.depth + i] + [bytes[h.depth + i]] == bytes;
          } else {
            InsertBelow(c, bytes, h.depth + i, e);
          }
          WidenedOn(old(t), old(next), u, m, t, next);
          return;
        }
        ArrivedThrough(t, bytes, parent, node, idx);
        idx := h.depth + |h.partial|;
        if idx == |bytes| - 1 {
          assert t.full[node] + [bytes[idx]] == bytes;
          InsertLast(node, bytes[idx], e);
          return;
        }
        var below := NextIn(t, node, bytes[idx]);
        if below.None? {
          InsertBelow(node, bytes, idx, e);
          return;
        }
        ArrivedNext(t, bytes, node, idx);
        parent, node, idx := node, below.value, idx + 1;
      }
    }

    /** Returns the longest cached prefix of the key that is unexpired and has a record for the next byte, as probing
        all prefixes from long to short would, and drops the same expired entries. */
    method SearchFromCache(k: Bytes, now: int) returns (r: Option<Answer>, found: Option<Place>)
      requires Valid() && k != []
      modifies this`t, this`free, this`spec
      ensures Valid() && (r, spec) == Probe(old(spec), k, |k| - 1, now) && free >= old(free)
      ensures evictions == old(evictions)
      ensures r.Some? ==> r.value.len < |k| && k[..r.value.len] in spec
      ensures r.Some? ==> found.Some? && PlaceOf(t, found.value, k[..r.value.len], spec[k[..r.value.len]])
      ensures next == old(next) && (r.None? ==> found.None?)
    {
      var bytes := k[..|k| - 1];
      var stack := Walk(t, spec, bytes);
      ghost var n := |bytes|;
      TopLow(t, bytes, stack);
      while stack != []
        invariant Valid() && free >= old(free) && 0 <= n <= |bytes|
        invariant Probe(spec, k, n, now) == Probe(old(spec), k, |k| - 1, now)
        invariant (forall j :: ItemAt(t, bytes, stack, j)) && (forall l :: OnStack(spec, bytes, stack, n, l))
        invariant stack != [] ==> stack[|stack| - 1].next <= n
        decreases |stack|
      {
        var it := stack[|stack| - 1];
        TopItem(t, spec, k, bytes, stack, n, now);
        ghost var was, had := t, spec;
        if it.entry.Some? {
          var e := it.entry.value;
          if Expired(e, now) {
            Invalidate(it.node, it.byte, e);
            OthersKept(was, t, Place(it.node, it.byte, e));
          } else {
            var j := FindRecord(e, k[it.next]);
            if j < |e.records| {
              return Some(Answer(it.next, j)), Some(Place(it.node, it.byte, e));
            }
          }
        }
        ghost var top := n;
        n := it.next - 1;
        PopItem(was, t, had, spec, bytes, stack, top, n);
        stack := stack[..|stack| - 1];
      }
      r, found := None, None;
      NoneLeft(t, spec, k, bytes, n, now);
    }

    /** Takes pairs from the front of the eviction list until the free memory is not negative, or none is left. */
    method TakePairs() returns (ghost n: nat)
      requires Valid()
      modifies this`t, this`free, this`evictions, this`spec
      ensures Valid() && n <= |old(evictions)| && evictions == old(evictions)[n..] && (evictions == [] || free >= 0)
      ensures AfterPops(old(t), old(evictions), n, t) && free == old(free) + FreedBy(old(t), old(evictions), n)
      ensures forall i :: 0 < i < n ==> StillOver(old(free), old(t), old(evictions), i)
    {
      n := 0;
      ghost var t0, q0, f0 := t, evictions, free;
      while evictions != []
        invariant Valid() && n <= |q0| && evictions == q0[n..]
        invariant AfterPops(t0, q0, n, t) && free == f0 + FreedBy(t0, q0, n)
        invariant forall i :: 0 < i <= n ==> StillOver(f0, t0, q0, i)
        decreases |evictions|
      {
        ghost var t1 := t;
        TakeOne();
        PopNext(t0, q0, n, n + 1, t1, t);
        n := n + 1;
        if free >= 0 { break; }
      }
    }

    /** Takes one pair: its entry is dropped if it is still in its place. */
    method TakeOne()
      requires Valid() && evictions != []
      modifies this`t, this`free, this`evictions, this`spec
      ensures Valid() && evictions == old(evictions)[1..] && free == old(free) + PopFrees(old(t), old(evictions)[0])
      ensures t.nodes.Keys == old(t.nodes.Keys) && t.full == old(t.full) && t.root == old(t.root)
      ensures forall x, c :: TakenAt(old(t), t, old(evictions)[0], x, c)
    {
      var pl := evictions[0];
      assert PlacedAt(t, evictions, pl);
      Invalidate(pl.node, pl.byte, pl.entry);
      assert TakenAt(old(t), t, pl, pl.node, pl.byte);
      PopOK(t, evictions);
      evictions := evictions[1..];
    }

    /** Drops entries in the order they came until the free memory is not negative, or none is left; in that case the
        trie is rebuilt. `n` pairs are taken from the front of the list. */
    method Evict() returns (ghost n: nat)
      requires Valid()
      modifies this
      ensures Valid() && free >= 0 && free + Sum(EntryBytes(spec)) + Sum(NodeBytes(t)) == budget
      ensures Evicted(old(t), old(spec), old(free), old(evictions), n, spec) && evictions == old(evictions)[n..]
      ensures n < |old(evictions)| ==> t.root == old(t.root) && free == old(free) + FreedBy(old(t), old(evictions), n)
      ensures forall x :: NodeAfter(old(t), old(next), t, next, spec, x)
      ensures n == |old(evictions)| ==> spec == map[] && free == budget
    {
      n := TakePairs();
      PoppedSpec(old(t), old(spec), t, spec, old(evictions), n);
      if evictions == [] {
        NothingLeft(t, spec);
        assert BelowAt(old(t), next, next);
        t := EmptyTrie(next);
        next, free, sizes := next + 1, budget, map[];
        EmptyOK(t.root, budget, next);
      }
      Accounted(t, spec, sizes, free, budget, evictions, next);
    }

    /** Caches a page under its prefix, unless it hangs off the root slot, and evicts when the budget is exceeded. `mid`
        are the cache's trie, eviction list, node sizes and free memory after the insertion. */
    method AddToCache(k: Key, page: Page, addr: Addr, id: nat, expire: int)
      returns (evicted: bool, ghost mid: Inserted, ghost n: nat)
      requires Valid() && 1 <= page.hdr.depth <= PATH_LEN && |page.records| == SLOTS
      modifies this
      ensures Valid()
      ensures page.hdr.depth == 1 ==> spec == old(spec) && evictions == old(evictions) && free == old(free) && !evicted
      ensures page.hdr.depth > 1 ==> free >= 0 && free + Sum(EntryBytes(spec)) + Sum(NodeBytes(t)) == budget
      ensures forall x :: NodeAfter(old(t), old(next), t, next, spec, x)
      ensures page.hdr.depth > 1 ==>
        var p, e := CachePrefix(k, page.hdr), Snapshot(id, page, addr, expire);
        && CachedPage(old(spec), old(evictions), p, e, mid, evicted, n, spec, evictions)
        && Balanced(mid.free, budget, mid.sizes, EntryBytes(old(spec)[p := e])) && mid.sizes == NodeBytes(mid.t)
      ensures page.hdr.depth > 1 ==>
        var p := CachePrefix(k, page.hdr);
        var back := if p in old(spec) then 17 + 8 * |old(spec)[p].records| else 0;
        mid.free + Sum(mid.sizes) == old(free) + Sum(old(sizes)) - (17 + 8 * Capacity(page.hdr.ntype)) + back
      ensures page.hdr.depth > 1 && !evicted ==>
        var p := CachePrefix(k, page.hdr);
        && p in spec && spec[p].addr == addr && spec[p].expire == expire && spec[p].depth == |p| + 1
        && spec[p].records == page.records[..Capacity(page.hdr.ntype)]
    {
      evicted, n, mid := false, 0, Inserted(t, evictions, sizes, free);
      if page.hdr.depth - 1 == 0 { return; }
      Insert(CachePrefix(k, page.hdr), Snapshot(id, page, addr, expire));
      mid := Inserted(t, evictions, sizes, free);
      Accounted(t, spec, sizes, free, budget, evictions, next);
      ghost var p := CachePrefix(k, page.hdr);
      PageTakes(old(spec), old(sizes), old(free), budget, p, id, page, addr, expire, sizes, free);
      if free < 0 {
        ghost var u, m := t, next;
        n := Evict();
        evicted := true;
        forall x ensures NodeAfter(old(t), old(next), t, next, spec, x) { assert NodeAfter(u, m, t, next, spec, x); }
      }
    }
  }

  datatype Inserted = Inserted(t: Trie, q: seq<Place>, sizes: map<Id, nat>, free: int)

  /** Entry `e` was cached under `p` and queued, and if that exceeded the budget, the oldest pairs were evicted. */
  ghost predicate CachedPage(spec: Contents, q: seq<Place>, p: Bytes, e: CacheEntry, mid: Inserted, evicted: bool,
                             n: nat, spec': Contents, q': seq<Place>) {
    && Queued(q, mid.q, mid.t, p, e) && (evicted <==> mid.free < 0)
    && if evicted
       then Evicted(mid.t, spec[p := e], mid.free, mid.q, n, spec') && q' == mid.q[n..]
       else spec' == spec[p := e] && q' == mid.q
  }

  /** While page `page` is cached under `p` with time `expire`, every key below `p` for whose next byte the page had a
      record is answered by this entry or one with a longer prefix until the time is over; after that, never by this
      entry, which is dropped when a lookup gets to it. */
  lemma CachedUntil(spec: Contents, p: Bytes, id: nat, page: Page, addr: Addr, expire: int, j: nat, k: Bytes, now: int)
    requires |page.records| == SLOTS && Ext(p, k) && |p| < |k| && j < Capacity(page.hdr.ntype) && p in spec
    requires spec[p] == Snapshot(id, page, addr, expire)
    requires !page.records[j].Null? && page.records[j].partial == k[|p|]
    ensures var (r, rest) := Probe(spec, k, |k| - 1, now);
      if now <= expire then
        && r.Some? && |p| <= r.value.len && p in rest
        && (r.value.len == |p| ==> r.value.idx <= j && FirstFor(spec[p], k[|p|], r.value.idx))
      else
        && (r.Some? ==> r.value.len != |p|) && (p in rest <==> r.Some? && |p| < r.value.len)
  {
    var e := spec[p];
    assert p == k[..|p|] && e.records[j] == page.records[j];
    RecordFirst(e, k[|p|]);
    var i := Record(e, k[|p|]);
    assert i <= j && FirstFor(e, k[|p|], i);
    ProbeLongest(spec, k, |k| - 1, now);
    ProbeDrops(spec, k, |k| - 1, now, p);
    if now <= expire { assert Good(spec, k, |p|, now); }
  }

  lemma BytesEnd(f: Bytes, bytes: Bytes, idx: nat)
    requires |f| == idx && Ext(f, bytes) && idx + 1 < |bytes|
    ensures bytes[..|bytes| - 1] + [bytes[|bytes| - 1]] == bytes && Under(f, bytes[idx], bytes[..|bytes| - 1])
  {}

  // lookup

  /** What a lookup finds on its way: byte `byte` of `node` stands for the first `next` bytes of the key. */
  datatype Item = Item(node: Id, byte: Byte, entry: Option<CacheEntry>, next: nat)

  ghost predicate ItemOK(t: Trie, bytes: Bytes, it: Item) {
    && it.node in t.nodes && 0 < it.next <= |bytes| && Names(t, it.node, it.byte, bytes[..it.next])
    && it.entry == EntryIn(t, it.node, it.byte)
  }

  ghost predicate ItemAt(t: Trie, bytes: Bytes, stack: seq<Item>, i: nat) {
    i < |stack| ==> ItemOK(t, bytes, stack[i]) && (i + 1 < |stack| ==> stack[i].next < stack[i + 1].next)
  }

  /** A cached prefix of `bytes` that is at most `n` long is on the stack. */
  ghost predicate OnStack(spec: Contents, bytes: Bytes, stack: seq<Item>, n: nat, l: nat) {
    0 < l <= n && l <= |bytes| && bytes[..l] in spec ==> exists i :: 0 <= i < |stack| && stack[i].next == l
  }

  /** Where the header of a node departs from `bytes`, no longer prefix of `bytes` is cached. */
  lemma DepartsHere(t: Trie, spec: Contents, bytes: Bytes, parent: Id, node: Id, idx: nat, i: nat, l: nat)
    requires TrieOK(t) && Models(t, spec) && Arrived(t, bytes, parent, node, idx) && idx < l <= |bytes|
    requires i < |t.nodes[node].partial| && idx + i < |bytes|
    requires idx + i == |bytes| - 1 || bytes[idx + i] != t.nodes[node].partial[i]
    ensures bytes[..l] !in spec
  {
    var p := bytes[..l];
    assert FoundAt(t, spec, p) && NodeAt(t, node) && t.nodes[node].partial[i] == t.full[node][idx + i];
    if p in spec {
      var x, c :| Names(t, x, c, p) && EntryIn(t, x, c) == Some(spec[p]);
      if node != t.root { CacheTrie.Cover(t, parent, bytes[idx - 1], x); }
    }
  }

  /** Below a byte without a node, no longer prefix is cached. */
  lemma EndsHere(t: Trie, spec: Contents, bytes: Bytes, node: Id, idx: nat, l: nat)
    requires TrieOK(t) && Models(t, spec) && node in t.nodes && |t.full[node]| == idx && Ext(t.full[node], bytes)
    requires idx < |bytes| && NextIn(t, node, bytes[idx]).None? && idx + 1 < l <= |bytes|
    ensures bytes[..l] !in spec
  {
    NotStored(t, spec, node, bytes[idx], bytes[..l]);
  }

  /** A prefix that ends inside the header of a node on the way is not cached. */
  lemma InsideHeader(t: Trie, spec: Contents, bytes: Bytes, parent: Id, node: Id, idx: nat, l: nat)
    requires TrieOK(t) && Models(t, spec) && Arrived(t, bytes, parent, node, idx) && idx < l <= |t.full[node]|
    requires l <= |bytes|
    ensures bytes[..l] !in spec
  {
    var p := bytes[..l];
    assert FoundAt(t, spec, p) && NodeAt(t, node);
    if p in spec {
      var x, c :| Names(t, x, c, p) && EntryIn(t, x, c) == Some(spec[p]);
      if node != t.root { CacheTrie.Cover(t, parent, bytes[idx - 1], x); }
    }
  }

  /** Walks down the trie along `bytes` and collects the bytes it passes, longest prefix last. */
  method Walk(t: Trie, ghost spec: Contents, bytes: Bytes) returns (stack: seq<Item>)
    requires TrieOK(t) && Models(t, spec)
    ensures (forall i :: ItemAt(t, bytes, stack, i)) && (forall l :: OnStack(spec, bytes, stack, |bytes|, l))
  {
    stack := [];
    if bytes == [] { return; }
    ghost var parent := t.root;
    var node, idx := t.root, 0;
    ArrivedRoot(t, bytes);
    while true
      invariant Arrived(t, bytes, parent, node, idx)
      invariant (forall i :: ItemAt(t, bytes, stack, i)) && (forall l :: OnStack(spec, bytes, stack, idx, l))
      invariant stack != [] ==> stack[|stack| - 1].next <= idx
      decreases |bytes| - idx
    {
      var h := t.nodes[node];
      var i := CompareHeader(h, bytes);
      if i < |h.partial| {
        forall l: nat ensures OnStack(spec, bytes, stack, |bytes|, l) {
          assert OnStack(spec, bytes, stack, idx, l);
          if idx < l <= |bytes| { DepartsHere(t, spec, bytes, parent, node, idx, i, l); }
        }
        return;
      }
      ArrivedThrough(t, bytes, parent, node, idx);
      ghost var at := idx;
      idx := h.depth + |h.partial|;
      var b := bytes[idx];
      ghost var before := stack;
      if b in h.records {
        stack := stack + [Item(node, b, h.records[b].entry, idx + 1)];
      }
      var n := idx + 1;
      Passed(t, spec, bytes, parent, node, at, before, stack, n);
      if b !in h.records || h.records[b].next.None? {
        forall l: nat ensures OnStack(spec, bytes, stack, |bytes|, l) {
          assert OnStack(spec, bytes, stack, n, l);
          if n < l <= |bytes| { EndsHere(t, spec, bytes, node, idx, l); }
        }
        return;
      }
      if n >= |bytes| {
        assert n == |bytes|;
        return;
      }
      ArrivedNext(t, bytes, node, idx);
      parent, node, idx := node, h.records[b].next.value, n;
    }
  }

  lemma Passed(t: Trie, spec: Contents, bytes: Bytes, parent: Id, node: Id, at: nat, before: seq<Item>,
               stack: seq<Item>, n: nat)
    requires TrieOK(t) && Models(t, spec) && Arrived(t, bytes, parent, node, at)
    requires (forall i :: ItemAt(t, bytes, before, i)) && (forall l :: OnStack(spec, bytes, before, at, l))
    requires before != [] ==> before[|before| - 1].next <= at
    requires Ext(t.full[node], bytes) && n == |t.full[node]| + 1 <= |bytes|
    requires var idx := |t.full[node]|; var b := bytes[idx];
      stack ==
        if b in t.nodes[node].records
        then before + [Item(node, b, t.nodes[node].records[b].entry, idx + 1)]
        else before
    ensures (forall i :: ItemAt(t, bytes, stack, i)) && (forall l :: OnStack(spec, bytes, stack, n, l))
    ensures stack != [] ==> stack[|stack| - 1].next <= n
  {
    var idx := |t.full[node]|;
    var b := bytes[idx];
    assert NodeAt(t, node) && Names(t, node, b, bytes[..idx + 1]);
    PlaceDecides(t, spec, node, b, bytes[..idx + 1]);
    forall i ensures ItemAt(t, bytes, stack, i) { assert ItemAt(t, bytes, before, i); }
    forall l: nat ensures OnStack(spec, bytes, stack, n, l) {
      assert OnStack(spec, bytes, before, at, l);
      if at < l <= idx { InsideHeader(t, spec, bytes, parent, node, at, l); }
      if 0 < l <= at && l <= |bytes| && bytes[..l] in spec {
        var i :| 0 <= i < |before| && before[i].next == l;
        assert stack[i].next == l;
      }
      if l == idx + 1 && b in t.nodes[node].records { assert stack[|before|].next == l; }
    }
  }

  /** The top of the stack is the next prefix that a probe from length `n` finds cached. */
  lemma TopItem(t: Trie, spec: Contents, k: Bytes, bytes: Bytes, stack: seq<Item>, n: nat, now: int)
    requires TrieOK(t) && Models(t, spec) && k != [] && bytes == k[..|k| - 1] && stack != [] && n <= |bytes|
    requires (forall j :: ItemAt(t, bytes, stack, j)) && (forall l :: OnStack(spec, bytes, stack, n, l))
    requires stack[|stack| - 1].next <= n
    ensures var it := stack[|stack| - 1]; var p := bytes[..it.next];
      && ItemOK(t, bytes, it) && it.next < |k| && k[..it.next] == p
      && it.entry == (if p in spec then Some(spec[p]) else None)
      && Names(t, it.node, it.byte, p) && p == t.full[it.node] + [it.byte]
      && Probe(spec, k, n, now) == Probe(spec, k, it.next, now)
  {
    var it := stack[|stack| - 1];
    assert ItemAt(t, bytes, stack, |stack| - 1);
    PlaceDecides(t, spec, it.node, it.byte, bytes[..it.next]);
    forall l | it.next < l <= n ensures k[..l] !in spec {
      assert OnStack(spec, bytes, stack, n, l) && k[..l] == bytes[..l];
      if k[..l] in spec {
        var j :| 0 <= j < |stack| && stack[j].next == l;
        Ascending(t, bytes, stack, j);
      }
    }
    ProbeSkips(spec, k, n, it.next, now);
  }

  lemma {:induction false} Ascending(t: Trie, bytes: Bytes, stack: seq<Item>, j: nat)
    requires j < |stack| && forall i :: ItemAt(t, bytes, stack, i)
    ensures stack[j].next <= stack[|stack| - 1].next
    decreases |stack| - j
  {
    assert ItemAt(t, bytes, stack, j);
    if j + 1 < |stack| { Ascending(t, bytes, stack, j + 1); }
  }

  lemma TopLow(t: Trie, bytes: Bytes, stack: seq<Item>)
    requires forall j :: ItemAt(t, bytes, stack, j)
    ensures stack != [] ==> stack[|stack| - 1].next <= |bytes|
  {
    if stack != [] { assert ItemAt(t, bytes, stack, |stack| - 1); }
  }

  /** What is left of the stack serves the shorter prefixes. */
  lemma PopItem(t: Trie, t': Trie, spec: Contents, spec': Contents, bytes: Bytes, stack: seq<Item>, n: nat, m: nat)
    requires stack != [] && (forall j :: ItemAt(t, bytes, stack, j)) && m == stack[|stack| - 1].next - 1 && m < n
    requires t'.nodes.Keys == t.nodes.Keys && t'.full == t.full
    requires var it := stack[|stack| - 1];
      forall x, c :: !(x == it.node && c == it.byte) ==> EntryIn(t', x, c) == EntryIn(t, x, c)
    requires (forall l :: OnStack(spec, bytes, stack, n, l)) && spec'.Keys <= spec.Keys
    ensures var rest := stack[..|stack| - 1];
      && (forall j :: ItemAt(t', bytes, rest, j)) && (forall l :: OnStack(spec', bytes, rest, m, l))
      && (rest != [] ==> rest[|rest| - 1].next <= m)
  {
    var rest, it := stack[..|stack| - 1], stack[|stack| - 1];
    assert ItemAt(t, bytes, stack, |stack| - 1);
    forall j: nat ensures ItemAt(t', bytes, rest, j) {
      if j < |rest| { assert ItemAt(t, bytes, stack, j); BelowTop(t, bytes, stack, j); }
    }
    forall l: nat ensures OnStack(spec', bytes, rest, m, l) {
      if 0 < l <= m && l <= |bytes| && bytes[..l] in spec' {
        assert OnStack(spec, bytes, stack, n, l);
        var i :| 0 <= i < |stack| && stack[i].next == l;
        assert rest[i].next == l;
      }
    }
    if rest != [] { BelowTop(t, bytes, stack, |rest| - 1); }
  }

  lemma BelowTop(t: Trie, bytes: Bytes, stack: seq<Item>, j: nat)
    requires j + 1 < |stack| && forall i :: ItemAt(t, bytes, stack, i)
    ensures stack[j].next < stack[|stack| - 1].next
    ensures var it := stack[|stack| - 1]; !(stack[j].node == it.node && stack[j].byte == it.byte)
  {
    assert ItemAt(t, bytes, stack, j) && ItemAt(t, bytes, stack, |stack| - 1);
    Ascending(t, bytes, stack, j + 1);
  }

  lemma NoneLeft(t: Trie, spec: Contents, k: Bytes, bytes: Bytes, n: nat, now: int)
    requires Models(t, spec) && k != [] && bytes == k[..|k| - 1] && n <= |bytes|
    requires forall l :: OnStack(spec, bytes, [], n, l)
    ensures Probe(spec, k, n, now) == (None, spec)
  {
    forall l | 0 < l <= n ensures k[..l] !in spec {
      assert OnStack(spec, bytes, [], n, l) && k[..l] == bytes[..l];
    }
    assert FoundAt(t, spec, k[..0]);
    ProbeSkips(spec, k, n, 0, now);
  }

  // eviction

  /** Taking pair `pl` from the eviction list empties its place if its entry is still there, and no other. */
  ghost predicate TakenAt(t: Trie, t': Trie, pl: Place, x: Id, b: Byte) {
    var taken := x == pl.node && b == pl.byte && EntryIn(t, x, b) == Some(pl.entry);
    EntryIn(t', x, b) == if taken then None else EntryIn(t, x, b)
  }

  lemma OthersKept(t: Trie, t': Trie, pl: Place)
    requires forall x, b :: TakenAt(t, t', pl, x, b)
    ensures forall x, b :: !(x == pl.node && b == pl.byte) ==> EntryIn(t', x, b) == EntryIn(t, x, b)
  {
    forall x, b | !(x == pl.node && b == pl.byte) ensures EntryIn(t', x, b) == EntryIn(t, x, b) {
      assert TakenAt(t, t', pl, x, b);
    }
  }

  /** The memory that taking pair `pl` returns. */
  function PopFrees(t: Trie, pl: Place): nat {
    if EntryIn(t, pl.node, pl.byte) == Some(pl.entry) then 17 + 8 * |pl.entry.records| else 0
  }

  /** The memory that pair `i` returns when the pairs before it have been taken. */
  function FreesAt(t: Trie, q: seq<Place>, i: nat): nat
    requires i < |q|
  {
    if q[i] in q[..i] then 0 else PopFrees(t, q[i])
  }

  /** The memory that taking the first `n` pairs returns. */
  function FreedBy(t: Trie, q: seq<Place>, n: nat): nat
    requires n <= |q|
  {
    if n == 0 then 0 else FreedBy(t, q, n - 1) + FreesAt(t, q, n - 1)
  }

  /** The first `i` pairs did not return enough memory. */
  predicate StillOver(free: int, t: Trie, q: seq<Place>, i: nat) {
    i <= |q| && free + FreedBy(t, q, i) < 0
  }

  /** Taking the first `n` pairs empties exactly the places that hold the entry of one of them. */
  ghost predicate PoppedAt(t: Trie, q: seq<Place>, n: nat, t': Trie, x: Id, b: Byte)
    requires n <= |q|
  {
    var e := EntryIn(t, x, b);
    EntryIn(t', x, b) == if e.Some? && Place(x, b, e.value) in q[..n] then None else e
  }

  ghost predicate AfterPops(t: Trie, q: seq<Place>, n: nat, t': Trie)
    requires n <= |q|
  {
    t'.nodes.Keys == t.nodes.Keys && t'.full == t.full && t'.root == t.root
      && forall x, b :: PoppedAt(t, q, n, t', x, b)
  }

  lemma PopNext(t: Trie, q: seq<Place>, n: nat, m: nat, t1: Trie, t2: Trie)
    requires m == n + 1 <= |q| && AfterPops(t, q, n, t1) && t2.nodes.Keys == t1.nodes.Keys && t2.full == t1.full
    requires t2.root == t1.root
    requires forall x, b :: TakenAt(t1, t2, q[n], x, b)
    ensures AfterPops(t, q, m, t2) && FreedBy(t, q, m) == FreedBy(t, q, n) + PopFrees(t1, q[n])
    ensures q[n..][1..] == q[m..] && q[n..][0] == q[n]
  {
    assert q[..m] == q[..n] + [q[n]];
    forall x, b ensures PoppedAt(t, q, m, t2, x, b) {
      assert PoppedAt(t, q, n, t1, x, b) && TakenAt(t1, t2, q[n], x, b);
    }
    assert PoppedAt(t, q, n, t1, q[n].node, q[n].byte);
  }

  /** The pair of the entry `e` of prefix `p` is in `q`. */
  ghost predicate Gone(t: Trie, q: seq<Place>, p: Bytes, e: CacheEntry) {
    exists x, b :: Names(t, x, b, p) && Place(x, b, e) in q
  }

  /** FIFO eviction: exactly the live entries among the first `n` pairs are gone, and no pair was taken once the memory
      was back in the budget, except the first. */
  ghost predicate Evicted(t: Trie, spec: Contents, free: int, q: seq<Place>, n: nat, spec': Contents) {
    && n <= |q|
    && (forall p :: p in spec' <==> p in spec && !Gone(t, q[..n], p, spec[p]))
    && (forall p :: p in spec' ==> spec'[p] == spec[p])
    && (forall i :: 0 < i < n ==> StillOver(free, t, q, i))
  }

  lemma PoppedSpec(t: Trie, spec: Contents, t': Trie, spec': Contents, q: seq<Place>, n: nat)
    requires TrieOK(t) && Models(t, spec) && TrieOK(t') && Models(t', spec') && n <= |q| && AfterPops(t, q, n, t')
    ensures forall p :: p in spec' <==> p in spec && !Gone(t, q[..n], p, spec[p])
    ensures forall p :: p in spec' ==> spec'[p] == spec[p]
  {
    forall p
      ensures p in spec' <==>
        p in spec && !Gone(t, q[..n], p, spec[p]) && (p in spec' ==> p in spec && spec'[p] == spec[p])
    {
      PoppedPrefix(t, spec, t', spec', q, n, p);
    }
  }

  lemma PoppedPrefix(t: Trie, spec: Contents, t': Trie, spec': Contents, q: seq<Place>, n: nat, p: Bytes)
    requires TrieOK(t) && Models(t, spec) && TrieOK(t') && Models(t', spec') && n <= |q| && AfterPops(t, q, n, t')
    ensures p in spec' <==> p in spec && !Gone(t, q[..n], p, spec[p])
    ensures p in spec' ==> p in spec && spec'[p] == spec[p]
  {
    assert FoundAt(t, spec, p) && FoundAt(t', spec', p);
    if p in spec' {
      var x, b :| Names(t', x, b, p) && EntryIn(t', x, b) == Some(spec'[p]);
      assert PoppedAt(t, q, n, t', x, b);
      PlaceDecides(t, spec, x, b, p);
      OnlyPlace(t, q[..n], x, b, p, spec[p]);
    } else if p in spec {
      var x, b :| Names(t, x, b, p) && EntryIn(t, x, b) == Some(spec[p]);
      assert PoppedAt(t, q, n, t', x, b);
      assert StoredAt(t', spec', x, b, p);
    }
  }

  lemma OnlyPlace(t: Trie, q: seq<Place>, x: Id, b: Byte, p: Bytes, e: CacheEntry)
    requires TrieOK(t) && x in t.nodes && Names(t, x, b, p)
    ensures Gone(t, q, p, e) <==> Place(x, b, e) in q
  {
    if y, c :| Names(t, y, c, p) && Place(y, c, e) in q { OnePlace(t, x, b, y, c, p); }
  }

  lemma PopOK(t: Trie, q: seq<Place>)
    requires q != [] && (forall n, b :: QueuedAt(t, q, n, b)) && (forall pl :: PlacedAt(t, q, pl))
    requires EntryIn(t, q[0].node, q[0].byte) != Some(q[0].entry)
    ensures (forall n, b :: QueuedAt(t, q[1..], n, b)) && (forall pl :: PlacedAt(t, q[1..], pl))
  {
    var r := q[1..];
    assert q == [q[0]] + r;
    forall n, b ensures QueuedAt(t, r, n, b) { assert QueuedAt(t, q, n, b); }
    forall pl ensures PlacedAt(t, r, pl) { assert PlacedAt(t, q, pl); }
  }

  /** When the eviction list is empty, no entry is live: a rebuild discards nothing. */
  lemma NothingLeft(t: Trie, spec: Contents)
    requires Models(t, spec) && forall n, b :: QueuedAt(t, [], n, b)
    ensures spec == map[]
  {
    forall p ensures p !in spec {
      assert FoundAt(t, spec, p);
      if p in spec {
        var n, b :| Names(t, n, b, p) && EntryIn(t, n, b) == Some(spec[p]);
        NotLive(t, n, b);
      }
    }
  }

  lemma NotLive(t: Trie, n: Id, b: Byte)
    requires forall n, b :: QueuedAt(t, [], n, b)
    ensures EntryIn(t, n, b) == None
  {
    assert QueuedAt(t, [], n, b);
  }

  /** The accounts after an entry was put at byte `b` of node `n`. */
  lemma LastOK(t: Trie, t': Trie, spec: map<Bytes, CacheEntry>, sizes: map<Id, nat>, sizes': map<Id, nat>, free: int,
               free': int, budget: nat, q: seq<Place>, next: Id, n: Id, b: Byte, e: CacheEntry)
    requires CacheOK(t, spec, sizes, free, budget, q, next) && n in t.nodes && t' == SetEntry(t, n, b, Some(e))
    requires sizes' == sizes[n := NodeSize(t'.nodes[n])]
    requires
      var was := if EntryIn(t, n, b).Some? then EntrySize(EntryIn(t, n, b).value) else 0;
      Moved(free, sizes, free', sizes', was - EntrySize(e))
    ensures CacheOK(t', spec[t.full[n] + [b] := e], sizes', free', budget, q + [Place(n, b, e)], next)
  {
    var p := t.full[n] + [b];
    PlaceDecides(t, spec, n, b, p);
    SetEntryOK(t, n, b, Some(e));
    SetEntryModels(t, spec, n, b, p, e);
    LiveUpdate(spec, p, e);
    BalancedPut(free, budget, sizes, EntryBytes(spec), free', sizes', p, EntrySize(e));
    SetRest(t, t', sizes, sizes', q, q + [Place(n, b, e)], n, b, e);
    NodesMore(t, t', q, q + [Place(n, b, e)], next, next);
  }

  lemma SetRest(t: Trie, t': Trie, sizes: map<Id, nat>, sizes': map<Id, nat>, q: seq<Place>, q': seq<Place>, n: Id,
                b: Byte, e: CacheEntry)
    requires n in t.nodes && (forall x :: SizedAt(t, sizes, x)) && (forall x, c :: QueuedAt(t, q, x, c))
    requires t' == SetEntry(t, n, b, Some(e))
    requires sizes' == sizes[n := NodeSize(t'.nodes[n])] && q' == q + [Place(n, b, e)]
    ensures (forall x :: SizedAt(t', sizes', x)) && (forall x, c :: QueuedAt(t', q', x, c))
  {
    forall x ensures SizedAt(t', sizes', x) { assert SizedAt(t, sizes, x); }
    forall x, c ensures QueuedAt(t', q', x, c) { assert QueuedAt(t, q, x, c); }
  }

  /** The accounts after a new node with one entry was put below byte `b` of node `n`. */
  lemma AddOK(t: Trie, t': Trie, spec: map<Bytes, CacheEntry>, sizes: map<Id, nat>, sizes': map<Id, nat>, free: int,
              free': int, budget: nat, q: seq<Place>, next: Id, n: Id, b: Byte, c: Id, f: Bytes, last: Byte,
              e: CacheEntry)
    requires CacheOK(t, spec, sizes, free, budget, q, next) && n in t.nodes && next <= c && NextIn(t, n, b).None?
    requires Under(t.full[n], b, f)
    requires t' == AddNode(t, n, b, c, f, last, e)
    requires sizes' == sizes[n := NodeSize(t'.nodes[n])][c := NodeSize(t'.nodes[c])]
    requires Moved(free, sizes, free', sizes', 0 - EntrySize(e))
    ensures CacheOK(t', spec[f + [last] := e], sizes', free', budget, q + [Place(c, last, e)], c + 1)
    ensures Queued(q, q + [Place(c, last, e)], t', f + [last], e) && t'.root == t.root
  {
    var p := f + [last];
    assert Names(t', c, last, p);
    assert BelowAt(t, next, c);
    AddNodeOK(t, n, b, c, f, last, e);
    AddNodeModels(t, spec, n, b, c, f, last, e);
    NotStored(t, spec, n, b, p);
    LiveUpdate(spec, p, e);
    BalancedPut(free, budget, sizes, EntryBytes(spec), free', sizes', p, EntrySize(e));
    AddRest(t, t', sizes, sizes', q, q + [Place(c, last, e)], n, b, c, f, last, e);
    NodesMore(t, t', q, q + [Place(c, last, e)], next, c + 1);
  }

  /** No prefix below a byte that points to no node is stored, unless it ends at that byte. */
  lemma NotStored(t: Trie, spec: map<Bytes, CacheEntry>, n: Id, b: Byte, p: Bytes)
    requires TrieOK(t) && Models(t, spec) && n in t.nodes && NextIn(t, n, b).None? && Under(t.full[n], b, p)
    requires |p| > |t.full[n]| + 1
    ensures p !in spec
  {
    assert FoundAt(t, spec, p);
    if p in spec {
      var x, c :| Names(t, x, c, p) && EntryIn(t, x, c) == Some(spec[p]);
      NothingBelow(t, n, b, x);
    }
  }

  lemma AddRest(t: Trie, t': Trie, sizes: map<Id, nat>, sizes': map<Id, nat>, q: seq<Place>, q': seq<Place>,
                n: Id, b: Byte, c: Id, f: Bytes, last: Byte, e: CacheEntry)
    requires n in t.nodes && n in t.full && |t.full[n]| < |f| && c !in t.nodes && t' == AddNode(t, n, b, c, f, last, e)
    requires (forall x :: SizedAt(t, sizes, x)) && (forall x, a :: QueuedAt(t, q, x, a))
    requires sizes' == sizes[n := NodeSize(t'.nodes[n])][c := NodeSize(t'.nodes[c])] && q' == q + [Place(c, last, e)]
    ensures (forall x :: SizedAt(t', sizes', x)) && (forall x, a :: QueuedAt(t', q', x, a))
  {
    forall x ensures SizedAt(t', sizes', x) { assert SizedAt(t, sizes, x); }
    forall x, a ensures QueuedAt(t', q', x, a) { assert QueuedAt(t, q, x, a); }
  }

  /** The accounts after a node was split: two nodes changed and no entry moved. */
  lemma SplitOK(t: Trie, t': Trie, spec: map<Bytes, CacheEntry>, sizes: map<Id, nat>, sizes': map<Id, nat>, free: int,
                free': int, budget: nat, q: seq<Place>, n: Id, b: Byte, c: Id, x: Id, f: Bytes)
    requires CacheOK(t, spec, sizes, free, budget, q, c) && CanSplit(t, n, b, c, x, f)
    requires t' == SplitNode(t, n, b, c, x, f)
    requires sizes' == sizes[c := NodeSize(t'.nodes[c])][x := NodeSize(t'.nodes[x])]
    requires Moved(free, sizes, free', sizes', 0)
    ensures CacheOK(t', spec, sizes', free', budget, q, c + 1)
  {
    SplitNodeOK(t, n, b, c, x, f);
    SplitNodeModels(t, spec, n, b, c, x, f);
    NotSelf(t, n, b, x);
    SplitRest(t, t', sizes, sizes', q, n, b, c, x, f);
    NodesMore(t, t', q, q, c, c + 1);
  }

  lemma SplitRest(t: Trie, t': Trie, sizes: map<Id, nat>, sizes': map<Id, nat>, q: seq<Place>, n: Id, b: Byte, c: Id,
                  x: Id, f: Bytes)
    requires CanSplit(t, n, b, c, x, f) && n != x && x != t.root && t' == SplitNode(t, n, b, c, x, f)
    requires (forall y :: SizedAt(t, sizes, y)) && (forall y, a :: QueuedAt(t, q, y, a))
    requires sizes' == sizes[c := NodeSize(t'.nodes[c])][x := NodeSize(t'.nodes[x])]
    ensures (forall y :: SizedAt(t', sizes', y)) && (forall y, a :: QueuedAt(t', q, y, a))
  {
    SameKeysSize(t.nodes[n].records, t'.nodes[n].records);
    forall y ensures SizedAt(t', sizes', y) { assert SizedAt(t, sizes, y); }
    forall y, a ensures QueuedAt(t', q, y, a) { assert QueuedAt(t, q, y, a); }
  }

  lemma ClearRest(t: Trie, sizes: map<Id, nat>, q: seq<Place>, n: Id, b: Byte)
    requires n in t.nodes && EntryIn(t, n, b).Some? && (forall x :: SizedAt(t, sizes, x))
    requires forall x, c :: QueuedAt(t, q, x, c)
    ensures var t' := SetEntry(t, n, b, None);
      (forall x :: SizedAt(t', sizes, x)) && (forall x, c :: QueuedAt(t', q, x, c))
  {
    var t' := SetEntry(t, n, b, None);
    var r := t.nodes[n].records;
    assert r[b := Val(None, NextIn(t, n, b))].Keys == r.Keys;
    SameKeysSize(r, r[b := Val(None, NextIn(t, n, b))]);
    forall x ensures SizedAt(t', sizes, x) { assert SizedAt(t, sizes, x); }
    forall x, c ensures QueuedAt(t', q, x, c) { assert QueuedAt(t, q, x, c); }
  }

  lemma SameKeysSize(r: map<Byte, Val>, s: map<Byte, Val>)
    requires r.Keys == s.Keys
    ensures |r| == |s|
  {
    assert |r| == |r.Keys| && |s| == |s.Keys|;
  }
}
