/** The compute-side allocator of remote memory, and the packing of addresses that relies on its alignment. */
module RemoteAllocation {
  const ALIGN: nat := 256
  const CHUNK: nat := 16 * 1024 * 1024

  /** A remote address: memory node and offset. */
  datatype GAddr = GAddr(node: nat, off: nat)

  const NULL: GAddr := GAddr(0, 0)

  function RoundUp(x: nat): (y: nat)
    ensures x <= y < x + ALIGN && y % ALIGN == 0
  {
    (x + ALIGN - 1) / ALIGN * ALIGN
  }

  /** Rounding up goes to the least aligned number that is large enough. */
  lemma RoundLeast(x: nat, z: nat)
    requires x <= z && z % ALIGN == 0
    ensures RoundUp(x) <= z
  {}

  /** `size` bytes from `at` on. */
  datatype Block = Block(at: GAddr, size: nat)

  predicate Apart(a: Block, b: Block) {
    a.at.node != b.at.node || a.at.off + a.size <= b.at.off || b.at.off + b.size <= a.at.off
  }

  predicate Within(b: Block, c: GAddr) {
    b.at.node == c.node && c.off <= b.at.off && b.at.off + b.size <= c.off + CHUNK
  }

  predicate Aligned(b: Block) {
    b.size > 0 && b.at.off % ALIGN == 0 && b.size % ALIGN == 0
  }

  ghost predicate ChunkAt(chunks: set<GAddr>, c: GAddr, d: GAddr) {
    && (c in chunks ==> c.off % ALIGN == 0 && c != NULL)
    && (c in chunks && d in chunks && c != d ==> Apart(Block(c, CHUNK), Block(d, CHUNK)))
  }

  ghost predicate BlockOK(chunks: set<GAddr>, b: Block) {
    Aligned(b) && exists c :: c in chunks && Within(b, c)
  }

  ghost predicate LiveAt(chunks: set<GAddr>, live: set<Block>, a: Block, b: Block) {
    && (a in live ==> BlockOK(chunks, a))
    && (a in live && b in live && a != b ==> Apart(a, b))
  }

  ghost predicate FreeAt(chunks: set<GAddr>, live: set<Block>, free: seq<Block>, i: nat, j: nat, b: Block) {
    && (i < |free| ==> BlockOK(chunks, free[i]) && (b in live ==> Apart(free[i], b)))
    && (i < j < |free| ==> Apart(free[i], free[j]))
  }

  /** What is left of the present chunk, from the next aligned offset on. */
  function Tail(head: GAddr, cur: GAddr): Block {
    var off := RoundUp(cur.off);
    Block(GAddr(head.node, off), if off <= head.off + CHUNK then head.off + CHUNK - off else 0)
  }

  ghost predicate TailAt(live: set<Block>, free: seq<Block>, head: GAddr, cur: GAddr, b: Block) {
    head != NULL && (b in live || b in free) ==> Apart(b, Tail(head, cur))
  }

  ghost predicate HeapOK(chunks: set<GAddr>, live: set<Block>, free: seq<Block>, head: GAddr, cur: GAddr) {
    && (forall c, d :: ChunkAt(chunks, c, d))
    && (forall a, b :: LiveAt(chunks, live, a, b))
    && (forall i, j, b :: FreeAt(chunks, live, free, i, j, b))
    && (forall b :: TailAt(live, free, head, cur, b))
    && (head != NULL ==> head in chunks && cur.node == head.node && head.off <= cur.off <= head.off + CHUNK)
  }

  lemma SomeChunk(chunks: set<GAddr>, b: Block, c: GAddr)
    requires c in chunks && Within(b, c) && Aligned(b)
    ensures BlockOK(chunks, b)
  {}

  lemma CutEnd(off: nat, size: nat, end: nat)
    requires off % ALIGN == 0 && end % ALIGN == 0 && off + size <= end
    ensures RoundUp(off + size) == off + RoundUp(size) <= end
  {
    RoundLeast(off + size, end);
    RoundLeast(size, RoundUp(off + size) - off);
    RoundLeast(off + size, off + RoundUp(size));
  }

  /** What is apart from a block is apart from every part of it. */
  lemma ApartPart(y: Block, t: Block, b: Block)
    requires Apart(y, t) && b.at.node == t.at.node && t.at.off <= b.at.off && b.at.off + b.size <= t.at.off + t.size
    ensures Apart(y, b) && Apart(b, y)
  {}

  /** A block cut from the tail of the chunk. */
  lemma CutOK(chunks: set<GAddr>, live: set<Block>, free: seq<Block>, head: GAddr, cur: GAddr, size: nat, b: Block,
              cur': GAddr)
    requires HeapOK(chunks, live, free, head, cur) && head != NULL && size > 0
    requires RoundUp(cur.off) + size <= head.off + CHUNK
    requires b == Block(GAddr(head.node, RoundUp(cur.off)), RoundUp(size))
    requires cur' == GAddr(head.node, RoundUp(cur.off) + size)
    ensures HeapOK(chunks, live + {b}, free, head, cur') && b !in live
  {
    assert ChunkAt(chunks, head, head);
    CutEnd(b.at.off, size, head.off + CHUNK);
    SomeChunk(chunks, b, head);
    var t, t' := Tail(head, cur), Tail(head, cur');
    forall y | y in live || y in free ensures Apart(y, b) && Apart(b, y) && Apart(y, t') {
      assert TailAt(live, free, head, cur, y);
      ApartPart(y, t, b);
      ApartPart(y, t, t');
    }
    forall x, y ensures LiveAt(chunks, live + {b}, x, y) { assert LiveAt(chunks, live, x, y); }
    forall i: nat, j: nat, y ensures FreeAt(chunks, live + {b}, free, i, j, y) {
      assert FreeAt(chunks, live, free, i, j, y);
    }
    forall y ensures TailAt(live + {b}, free, head, cur', y) {}
  }

  /** A block taken from the free list, of which only the first `size` bytes are used again. */
  lemma ReuseOK(chunks: set<GAddr>, live: set<Block>, free: seq<Block>, head: GAddr, cur: GAddr, k: nat, size: nat,
                b: Block)
    requires HeapOK(chunks, live, free, head, cur) && k < |free| && 0 < size <= free[k].size
    requires b == Block(free[k].at, RoundUp(size))
    ensures HeapOK(chunks, live + {b}, free[..k] + free[k + 1..], head, cur) && b !in live
  {
    var f, rest := free[k], free[..k] + free[k + 1..];
    assert FreeAt(chunks, live, free, k, k, f);
    RoundLeast(size, f.size);
    var c :| c in chunks && Within(f, c);
    SomeChunk(chunks, b, c);
    forall x, y ensures LiveAt(chunks, live + {b}, x, y) {
      assert LiveAt(chunks, live, x, y) && FreeAt(chunks, live, free, k, k, x) && FreeAt(chunks, live, free, k, k, y);
    }
    forall i: nat, j: nat, y ensures FreeAt(chunks, live + {b}, rest, i, j, y) {
      var i', j' := if i < k then i else i + 1, if j < k then j else j + 1;
      assert FreeAt(chunks, live, free, i', j', y) && FreeAt(chunks, live, free, i', k, f)
        && FreeAt(chunks, live, free, k, i', f);
      assert i < |rest| ==> rest[i] == free[i'];
      assert j < |rest| ==> rest[j] == free[j'];
    }
    forall y ensures TailAt(live + {b}, rest, head, cur, y) {
      assert TailAt(live, free, head, cur, y) && TailAt(live, free, head, cur, f);
      if y in rest { assert y in free; }
    }
    assert FreeAt(chunks, live, free, k, k, b);
  }

  lemma FreedOK(chunks: set<GAddr>, live: set<Block>, free: seq<Block>, head: GAddr, cur: GAddr, b: Block)
    requires HeapOK(chunks, live, free, head, cur) && b in live
    ensures HeapOK(chunks, live - {b}, free + [b], head, cur)
  {
    var more := free + [b];
    forall x, y ensures LiveAt(chunks, live - {b}, x, y) { assert LiveAt(chunks, live, x, y); }
    forall i: nat, j: nat, y ensures FreeAt(chunks, live - {b}, more, i, j, y) {
      assert FreeAt(chunks, live, free, i, j, y) && FreeAt(chunks, live, free, i, j, b) && LiveAt(chunks, live, b, y);
    }
    forall y ensures TailAt(live - {b}, more, head, cur, y) { assert TailAt(live, free, head, cur, y); }
  }

  /** A fresh chunk: aligned, not at the null address, and apart from all earlier ones. */
  ghost predicate FreshChunk(chunks: set<GAddr>, c: GAddr) {
    c != NULL && c.off % ALIGN == 0 && c !in chunks && forall d :: d in chunks ==>
      Apart(Block(c, CHUNK), Block(d, CHUNK))
  }

  lemma ChunkOK(chunks: set<GAddr>, live: set<Block>, free: seq<Block>, head: GAddr, cur: GAddr, c: GAddr)
    requires HeapOK(chunks, live, free, head, cur) && FreshChunk(chunks, c)
    ensures HeapOK(chunks + {c}, live, free, c, c)
  {
    forall x, y ensures ChunkAt(chunks + {c}, x, y) { assert ChunkAt(chunks, x, y); }
    forall x, y ensures LiveAt(chunks + {c}, live, x, y) {
      assert LiveAt(chunks, live, x, y);
      if x in live { MoreChunks(chunks, c, x); }
    }
    forall i: nat, j: nat, y ensures FreeAt(chunks + {c}, live, free, i, j, y) {
      assert FreeAt(chunks, live, free, i, j, y);
      if i < |free| { MoreChunks(chunks, c, free[i]); }
    }
    forall y ensures TailAt(live, free, c, c, y) {
      if y in live { assert LiveAt(chunks, live, y, y); OutsideChunk(chunks, c, y); }
      if y in free {
        var i :| 0 <= i < |free| && free[i] == y;
        assert FreeAt(chunks, live, free, i, i, y);
        OutsideChunk(chunks, c, y);
      }
    }
  }

  lemma MoreChunks(chunks: set<GAddr>, c: GAddr, b: Block)
    requires BlockOK(chunks, b)
    ensures BlockOK(chunks + {c}, b)
  {
    var d :| d in chunks && Within(b, d);
    SomeChunk(chunks + {c}, b, d);
  }

  lemma OutsideChunk(chunks: set<GAddr>, c: GAddr, b: Block)
    requires BlockOK(chunks, b) && FreshChunk(chunks, c)
    ensures Apart(b, Tail(c, c))
  {
    var d :| d in chunks && Within(b, d);
    RoundLeast(c.off, c.off);
  }

  /** The chunk has room for `size` bytes at the next aligned address. */
  predicate Fits(head: GAddr, cur: GAddr, size: nat) {
    head != NULL && RoundUp(cur.off) + size <= head.off + CHUNK
  }

  /** Block `i`, the first that is large enough, was taken from the list. */
  predicate FirstFit(free: seq<Block>, size: nat, res: GAddr, free': seq<Block>, i: nat) {
    && i < |free| && free[i].size >= size && res == free[i].at && free' == free[..i] + free[i + 1..]
    && forall j :: 0 <= j < i ==> free[j].size < size
  }

  lemma RoundedOK(chunks: set<GAddr>, live: set<Block>, free: seq<Block>, head: GAddr, cur: GAddr)
    requires HeapOK(chunks, live, free, head, cur)
    ensures HeapOK(chunks, live, free, head, GAddr(cur.node, RoundUp(cur.off)))
  {
    var cur' := GAddr(cur.node, RoundUp(cur.off));
    RoundLeast(cur'.off, cur'.off);
    if head != NULL {
      assert ChunkAt(chunks, head, head);
      RoundLeast(cur.off, head.off + CHUNK);
    }
    forall b ensures TailAt(live, free, head, cur', b) { assert TailAt(live, free, head, cur, b); }
  }

  // histories of an allocator

  datatype Heap = Heap(chunks: set<GAddr>, live: set<Block>, free: seq<Block>, head: GAddr, cur: GAddr)

  datatype Request = Alloc(size: nat) | NewChunk(c: GAddr) | Release(b: Block)

  ghost predicate Start(h: Heap) {
    h == Heap({}, {}, [], NULL, NULL)
  }

  /** The block that the next aligned address of the chunk gives. */
  function NextBlock(h: Heap, size: nat): Block {
    Block(GAddr(h.cur.node, RoundUp(h.cur.off)), RoundUp(size))
  }

  /** What a request does. */
  ghost predicate Served(h: Heap, h': Heap, r: Request) {
    match r
    case Alloc(size) =>
      && size > 0
      && if Fits(h.head, h.cur, size) then
           var b := NextBlock(h, size);
           h' == h.(live := h.live + {b}, cur := GAddr(b.at.node, b.at.off + size))
         else if forall b :: b in h.free ==> b.size < size then
           h' == h.(cur := NextBlock(h, size).at)
         else
           exists i, res :: FirstFit(h.free, size, res, h'.free, i)
             && h' == h.(live := h.live + {Block(res, RoundUp(size))}, free := h'.free, cur := NextBlock(h, size).at)
    case NewChunk(c) => FreshChunk(h.chunks, c) && h' == h.(chunks := h.chunks + {c}, head := c, cur := c)
    case Release(b) => b in h.live && h' == h.(live := h.live - {b}, free := h.free + [b])
  }

  ghost predicate Sound(h: Heap) {
    HeapOK(h.chunks, h.live, h.free, h.head, h.cur)
  }

  lemma ServedSound(h: Heap, h': Heap, r: Request)
    requires Sound(h) && Served(h, h', r)
    ensures Sound(h')
  {
    match r
    case NewChunk(c) => ChunkOK(h.chunks, h.live, h.free, h.head, h.cur, c);
    case Release(b) => FreedOK(h.chunks, h.live, h.free, h.head, h.cur, b);
    case Alloc(size) => AllocSound(h, h', size);
  }

  lemma AllocSound(h: Heap, h': Heap, size: nat)
    requires Sound(h) && Served(h, h', Alloc(size))
    ensures Sound(h')
  {
    if Fits(h.head, h.cur, size) {
      CutOK(h.chunks, h.live, h.free, h.head, h.cur, size, NextBlock(h, size), h'.cur);
    } else {
      RoundedOK(h.chunks, h.live, h.free, h.head, h.cur);
      if b :| b in h.free && b.size >= size {
        var i, res :| FirstFit(h.free, size, res, h'.free, i);
        ReuseOK(h.chunks, h.live, h.free, h.head, NextBlock(h, size).at, i, size, Block(res, RoundUp(size)));
      }
    }
  }

  ghost predicate ServedAt(hs: seq<Heap>, rs: seq<Request>, i: nat) {
    i < |rs| && i + 1 < |hs| ==> Served(hs[i], hs[i + 1], rs[i])
  }

  ghost predicate History(hs: seq<Heap>, rs: seq<Request>) {
    |hs| == |rs| + 1 && Start(hs[0]) && forall i :: ServedAt(hs, rs, i)
  }

  lemma {:induction false} HistorySound(hs: seq<Heap>, rs: seq<Request>, n: nat)
    requires History(hs, rs) && n < |hs|
    ensures Sound(hs[n])
    decreases n
  {
    if n > 0 {
      HistorySound(hs, rs, n - 1);
      assert ServedAt(hs, rs, n - 1);
      ServedSound(hs[n - 1], hs[n], rs[n - 1]);
    }
  }

  /** After any history of allocations, releases and new chunks, the live blocks are aligned, each lies in one chunk,
      and no two overlap. */
  lemma LiveBlocks(hs: seq<Heap>, rs: seq<Request>, n: nat, a: Block, b: Block)
    requires History(hs, rs) && n < |hs| && a in hs[n].live && b in hs[n].live
    ensures a.at.off % 256 == 0 && (exists c :: c in hs[n].chunks && Within(a, c)) && (a != b ==> Apart(a, b))
  {
    HistorySound(hs, rs, n);
    assert LiveAt(hs[n].chunks, hs[n].live, a, b);
  }

  class LocalAllocator {
    var head: GAddr
    var cur: GAddr
    var free: seq<Block>
    ghost var live: set<Block>
    ghost var chunks: set<GAddr>

    ghost function State(): Heap
      reads this
    {
      Heap(chunks, live, free, head, cur)
    }

    ghost predicate Valid()
      reads this
    {
      Sound(State())
    }

    constructor ()
      ensures Valid() && Start(State())
    {
      head, cur, free, live, chunks := NULL, NULL, [], {}, {};
    }

    /** An aligned block from the present chunk or, first fit, from the free list; a chunk is needed exactly if neither
        the rest of the chunk nor any free block is large enough. */
    method Malloc(size: nat) returns (res: GAddr, needChunk: bool)
      requires Valid() && size > 0
      modifies this
      ensures Valid() && Served(old(State()), State(), Alloc(size))
      ensures needChunk <==> !Fits(old(head), old(cur), size) && forall b :: b in old(free) ==> b.size < size
      ensures needChunk ==> live == old(live) && free == old(free)
      ensures !needChunk ==> Block(res, RoundUp(size)) !in old(live) && live == old(live) + {Block(res, RoundUp(size))}
      ensures Fits(old(head), old(cur), size) ==>
        res == GAddr(old(cur).node, RoundUp(old(cur).off)) && cur == GAddr(res.node, res.off + size)
          && free == old(free)
      ensures !Fits(old(head), old(cur), size) ==> cur == GAddr(old(cur).node, RoundUp(old(cur).off))
      ensures !Fits(old(head), old(cur), size) && !needChunk ==> exists i :: FirstFit(old(free), size, res, free, i)
    {
      RoundedOK(chunks, live, free, head, cur);
      cur := GAddr(cur.node, RoundUp(cur.off));
      res := cur;
      if head != NULL && cur.off + size <= head.off + CHUNK {
        needChunk := false;
        ghost var b := Block(res, RoundUp(size));
        CutOK(chunks, live, free, head, cur, size, b, GAddr(cur.node, cur.off + size));
        cur := GAddr(cur.node, cur.off + size);
        live := live + {b};
        return;
      }
      needChunk := true;
      var i := 0;
      while i < |free| && free[i].size < size
        invariant 0 <= i <= |free| && forall j :: 0 <= j < i ==> free[j].size < size
      {
        i := i + 1;
      }
      if i < |free| {
        ghost var k, all := i, free;
        res := free[i].at;
        needChunk := false;
        ReuseOK(chunks, live, free, head, cur, i, size, Block(res, RoundUp(size)));
        free := free[..i] + free[i + 1..];
        assert FirstFit(all, size, res, free, k);
        live := live + {Block(res, RoundUp(size))};
        assert all[k] in all;
      }
    }

    /** Starts to cut blocks from a fresh chunk. */
    method SetChunk(c: GAddr)
      requires Valid() && FreshChunk(chunks, c)
      modifies this
      ensures Valid() && Served(old(State()), State(), NewChunk(c))
    {
      ChunkOK(chunks, live, free, head, cur, c);
      head, cur, chunks := c, c, chunks + {c};
    }

    /** Gives a block of the rounded-up size back. */
    method Free(at: GAddr, size: nat)
      requires Valid() && Block(at, size) in live
      modifies this
      ensures Valid() && Served(old(State()), State(), Release(Block(at, size)))
    {
      FreedOK(chunks, live, free, head, cur, Block(at, size));
      free, live := free + [Block(at, size)], live - {Block(at, size)};
    }
  }
}

/** The 64-bit words that hold entries: partial byte, node type or leaf length, leaf bit, memory node, offset. */
module EntryPacking {
  import opened RemoteAllocation

  const OFFSETS: nat := 0x100_0000_0000
  const MAX_OFF: nat := 0x1_0000_0000_0000

  /** The constructor truncates the memory node to 8 bits and the offset to 40 bits of 256-byte units. */
  function Pack(partial: nat, mid: nat, leaf: bool, at: GAddr): (w: nat)
    requires partial < 256 && mid < 128
  {
    partial + 256 * mid + (if leaf then 32768 else 0)
    + 65536 * (at.node % 256) + 16777216 * ((at.off / ALIGN) % OFFSETS)
  }

  function Partial(w: nat): nat { w % 256 }

  function Middle(w: nat): nat { w / 256 % 128 }

  predicate IsLeaf(w: nat) { w / 256 / 128 % 2 == 1 }

  /** addr(): the offset is shifted back. */
  function AddrOf(w: nat): (at: GAddr) {
    GAddr(w / 256 / 128 / 2 % 256, (w / 256 / 128 / 2 / 256 % OFFSETS) * ALIGN)
  }

  /** The lowest field of a word can be split off. */
  lemma Peel(lo: nat, hi: nat)
    ensures lo < 256 ==> (lo + 256 * hi) / 256 == hi && (lo + 256 * hi) % 256 == lo
    ensures lo < 128 ==> (lo + 128 * hi) / 128 == hi && (lo + 128 * hi) % 128 == lo
    ensures lo < 2 ==> (lo + 2 * hi) / 2 == hi && (lo + 2 * hi) % 2 == lo
  {}

  /** All fields of an entry can be read back, the address as far as it fits. */
  lemma Unpacked(partial: nat, mid: nat, leaf: bool, at: GAddr)
    requires partial < 256 && mid < 128
    ensures var w := Pack(partial, mid, leaf, at);
      && Partial(w) == partial && Middle(w) == mid && IsLeaf(w) == leaf
      && AddrOf(w) == GAddr(at.node % 256, ((at.off / ALIGN) % OFFSETS) * ALIGN)
  {
    var l, n, o := if leaf then 1 else 0, at.node % 256, (at.off / ALIGN) % OFFSETS;
    var high := n + 256 * o;
    var rest := l + 2 * high;
    assert Pack(partial, mid, leaf, at) == partial + 256 * (mid + 128 * rest);
    Peel(partial, mid + 128 * rest);
    Peel(mid, rest);
    Peel(l, high);
    Peel(n, o);
  }

  /** An address comes back from an entry exactly if its node has 8 bits and its offset is an aligned 48-bit offset. */
  lemma AddressKept(partial: nat, mid: nat, leaf: bool, at: GAddr)
    requires partial < 256 && mid < 128
    ensures AddrOf(Pack(partial, mid, leaf, at)) == at <==>
      at.node < 256 && at.off % 256 == 0 && at.off < 0x1_0000_0000_0000
  {
    Unpacked(partial, mid, leaf, at);
    assert at.off == (at.off / ALIGN) * ALIGN + at.off % ALIGN;
  }

  /** After any history of the allocator, the address of every live block of a memory node below 256 comes back from an
      entry. */
  lemma BlockKept(hs: seq<Heap>, rs: seq<Request>, n: nat, b: Block, partial: nat, mid: nat, leaf: bool)
    requires History(hs, rs) && n < |hs| && b in hs[n].live && b.at.node < 256 && b.at.off < MAX_OFF && partial < 256
    requires mid < 128
    ensures AddrOf(Pack(partial, mid, leaf, b.at)) == b.at
  {
    LiveBlocks(hs, rs, n, b, b);
    AddressKept(partial, mid, leaf, b.at);
  }

  /** Two entries have the same word exactly if all their fields are the same, and no filled entry is the null word:
      comparing words compares entries. */
  lemma WordsDecide(p: nat, i: nat, l: bool, a: GAddr, q: nat, j: nat, k: bool, b: GAddr)
    requires p < 256 && i < 128 && q < 256 && j < 128
    requires a.node < 256 && a.off % ALIGN == 0 && a.off < MAX_OFF && b.node < 256 && b.off % ALIGN == 0
    requires b.off < MAX_OFF
    ensures Pack(p, i, l, a) == Pack(q, j, k, b) <==> p == q && i == j && l == k && a == b
    ensures l || i > 0 ==> Pack(p, i, l, a) != 0
  {
    Unpacked(p, i, l, a);
    Unpacked(q, j, k, b);
    AddressKept(p, i, l, a);
    AddressKept(q, j, k, b);
  }
}
