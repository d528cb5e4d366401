/** The path-compressed trie behind the radix cache, as a map from byte prefixes to cache entries. */
module CacheTrie {
  import opened Keys
  import opened RemoteMemory
  import opened Lookup

  /** A cached page: `depth` is the length of its full prefix, `records` a copy of its slots. `id` tells entries
      apart. */
  datatype CacheEntry = CacheEntry(id: nat, depth: nat, addr: Addr, records: seq<Entry>, expire: int)

  type Id = nat

  /** The value of one byte in a node: the entry of the prefix that ends here, and the node below. */
  datatype Val = Val(entry: Option<CacheEntry>, next: Option<Id>)

  datatype Node = Node(depth: nat, partial: Bytes, records: map<Byte, Val>)

  datatype Owner = Owner(node: Id, byte: Byte)

  /** `full` is the prefix that leads to a node and through its header, `par` the record that points to it. */
  datatype Trie = Trie(root: Id, nodes: map<Id, Node>, full: map<Id, Bytes>, par: map<Id, Owner>)

  function EntryIn(t: Trie, n: Id, b: Byte): Option<CacheEntry> {
    if n in t.nodes && b in t.nodes[n].records then t.nodes[n].records[b].entry else None
  }

  function NextIn(t: Trie, n: Id, b: Byte): Option<Id> {
    if n in t.nodes && b in t.nodes[n].records then t.nodes[n].records[b].next else None
  }

  ghost predicate NodeAt(t: Trie, n: Id) {
    n in t.nodes ==>
      && n in t.full
      && var d, p, f := t.nodes[n].depth, t.nodes[n].partial, t.full[n];
      && d + |p| == |f| && (forall i :: 0 <= i < |p| ==> p[i] == f[d + i])
      && (n == t.root ==> f == [])
  }

  ghost predicate NextAt(t: Trie, n: Id, b: Byte) {
    NextIn(t, n, b).Some? ==>
      var c := NextIn(t, n, b).value;
      && c in t.nodes && c in t.full && c in t.par && n in t.full
      && t.par[c] == Owner(n, b) && c != t.root
      && t.nodes[c].depth == |t.full[n]| + 1 && Under(t.full[n], b, t.full[c])
  }

  ghost predicate OwnedAt(t: Trie, c: Id) {
    c in t.nodes && c != t.root ==> c in t.par && NextIn(t, t.par[c].node, t.par[c].byte) == Some(c)
  }

  ghost predicate TrieOK(t: Trie) {
    && t.root in t.nodes && t.full.Keys == t.nodes.Keys
    && (forall n :: NodeAt(t, n))
    && (forall n, b :: NextAt(t, n, b))
    && (forall c :: OwnedAt(t, c))
  }

  lemma RootShort(t: Trie, x: Id)
    requires TrieOK(t) && x in t.nodes
    ensures x == t.root <==> t.full[x] == []
  {
    assert NodeAt(t, x) && OwnedAt(t, x);
    if x != t.root { assert NextAt(t, t.par[x].node, t.par[x].byte); }
  }

  /** Everything under byte `b` of node `n` lies under the node that the byte points to, and it points to one. */
  lemma {:induction false} Cover(t: Trie, n: Id, b: Byte, y: Id)
    requires TrieOK(t) && n in t.nodes && y in t.nodes && Under(t.full[n], b, t.full[y])
    ensures NextIn(t, n, b).Some? && NextIn(t, n, b).value in t.full && Ext(t.full[NextIn(t, n, b).value], t.full[y])
    decreases |t.full[y]|, 0
  {
    assert NodeAt(t, y) && NodeAt(t, n) && OwnedAt(t, y);
    var o := t.par[y];
    assert NextAt(t, o.node, o.byte) && NextAt(t, n, b);
    if |t.full[o.node]| > |t.full[n]| {
      Cover(t, n, b, o.node);
    } else if |t.full[o.node]| < |t.full[n]| {
      Cover(t, o.node, o.byte, n);
    } else {
      assert t.full[o.node] == t.full[n];
      Unique(t, n, o.node);
    }
  }

  /** No two nodes share a full prefix. */
  lemma {:induction false} Unique(t: Trie, x: Id, y: Id)
    requires TrieOK(t) && x in t.nodes && y in t.nodes && t.full[x] == t.full[y]
    ensures x == y
    decreases |t.full[x]|, 1
  {
    RootShort(t, x);
    RootShort(t, y);
    if x != t.root && y != t.root {
      assert OwnedAt(t, x) && OwnedAt(t, y);
      var o, p := t.par[x], t.par[y];
      assert NextAt(t, o.node, o.byte) && NextAt(t, p.node, p.byte);
      if |t.full[o.node]| == |t.full[p.node]| {
        assert t.full[o.node] == t.full[p.node];
        Unique(t, o.node, p.node);
      } else if |t.full[o.node]| < |t.full[p.node]| {
        Cover(t, o.node, o.byte, p.node);
      } else {
        Cover(t, p.node, p.byte, o.node);
      }
    }
  }

  // the map that a trie stands for

  /** `p` is the prefix that byte `b` of node `n` stands for. */
  ghost predicate Names(t: Trie, n: Id, b: Byte, p: Bytes) {
    n in t.full && |p| == |t.full[n]| + 1 && Under(t.full[n], b, p)
  }

  ghost predicate StoredAt(t: Trie, spec: map<Bytes, CacheEntry>, n: Id, b: Byte, p: Bytes) {
    Names(t, n, b, p) && EntryIn(t, n, b).Some? ==> p in spec && spec[p] == EntryIn(t, n, b).value
  }

  ghost predicate FoundAt(t: Trie, spec: map<Bytes, CacheEntry>, p: Bytes) {
    p in spec ==> exists n, b :: Names(t, n, b, p) && EntryIn(t, n, b) == Some(spec[p])
  }

  /** The entries of the trie are exactly those of `spec`. */
  ghost predicate Models(t: Trie, spec: map<Bytes, CacheEntry>) {
    (forall n, b, p :: StoredAt(t, spec, n, b, p)) && (forall p :: FoundAt(t, spec, p))
  }

  lemma OnePlace(t: Trie, n: Id, b: Byte, x: Id, c: Byte, p: Bytes)
    requires TrieOK(t) && n in t.nodes && x in t.nodes && Names(t, n, b, p) && Names(t, x, c, p)
    ensures n == x && b == c
  {
    assert t.full[n] == t.full[x];
    Unique(t, n, x);
  }

  lemma SamePrefix(t: Trie, n: Id, b: Byte, p: Bytes, q: Bytes)
    requires Names(t, n, b, p) && Names(t, n, b, q)
    ensures p == q
  {}

  function Put(t: Trie, n: Id, b: Byte, v: Val): Trie
    requires n in t.nodes
  {
    t.(nodes := t.nodes[n := t.nodes[n].(records := t.nodes[n].records[b := v])])
  }

  /** The entry of byte `b` in node `n` becomes `e`. */
  function SetEntry(t: Trie, n: Id, b: Byte, e: Option<CacheEntry>): Trie
    requires n in t.nodes
  {
    Put(t, n, b, Val(e, NextIn(t, n, b)))
  }

  lemma SetEntryOK(t: Trie, n: Id, b: Byte, e: Option<CacheEntry>)
    requires TrieOK(t) && n in t.nodes
    ensures TrieOK(SetEntry(t, n, b, e))
  {
    var t' := SetEntry(t, n, b, e);
    forall x ensures NodeAt(t', x) { assert NodeAt(t, x); }
    forall x, c ensures NextAt(t', x, c) { assert NextAt(t, x, c); }
    forall c ensures OwnedAt(t', c) { assert OwnedAt(t, c); }
  }

  lemma SetEntryModels(t: Trie, spec: map<Bytes, CacheEntry>, n: Id, b: Byte, p: Bytes, e: CacheEntry)
    requires TrieOK(t) && Models(t, spec) && n in t.nodes && Names(t, n, b, p)
    ensures Models(SetEntry(t, n, b, Some(e)), spec[p := e])
  {
    var t', spec' := SetEntry(t, n, b, Some(e)), spec[p := e];
    forall x, c, q ensures StoredAt(t', spec', x, c, q) {
      assert StoredAt(t, spec, x, c, q);
      if q == p && Names(t, x, c, q) { if x in t.nodes { OnePlace(t, n, b, x, c, p); } }
    }
    forall q ensures FoundAt(t', spec', q) {
      if q == p {
        assert Names(t', n, b, q) && EntryIn(t', n, b) == Some(e);
      } else if q in spec {
        assert FoundAt(t, spec, q);
        var x, c :| Names(t, x, c, q) && EntryIn(t, x, c) == Some(spec[q]);
        assert Names(t', x, c, q) && EntryIn(t', x, c) == Some(spec[q]);
      }
    }
  }

  lemma ClearModels(t: Trie, spec: map<Bytes, CacheEntry>, n: Id, b: Byte, p: Bytes)
    requires TrieOK(t) && Models(t, spec) && n in t.nodes && Names(t, n, b, p)
    ensures Models(SetEntry(t, n, b, None), spec - {p})
  {
    var t', spec' := SetEntry(t, n, b, None), spec - {p};
    forall x, c, q ensures StoredAt(t', spec', x, c, q) {
      assert StoredAt(t, spec, x, c, q);
      if q == p && Names(t, x, c, q) { if x in t.nodes { OnePlace(t, n, b, x, c, p); } }
    }
    forall q ensures FoundAt(t', spec', q) {
      if q in spec' {
        assert FoundAt(t, spec, q);
        var x, c :| Names(t, x, c, q) && EntryIn(t, x, c) == Some(spec[q]);
        if x == n && c == b { SamePrefix(t, n, b, p, q); }
        assert Names(t', x, c, q) && EntryIn(t', x, c) == Some(spec[q]);
      }
    }
  }

  /** A new node `c` for prefix `f` below byte `b` of node `n`, with one entry. */
  function AddNode(t: Trie, n: Id, b: Byte, c: Id, f: Bytes, last: Byte, e: CacheEntry): Trie
    requires n in t.nodes && n in t.full && |t.full[n]| < |f|
  {
    var u := Put(t, n, b, Val(EntryIn(t, n, b), Some(c)));
    var d := |t.full[n]| + 1;
    u.(nodes := u.nodes[c := Node(d, f[d..], map[last := Val(Some(e), None)])],
       full := u.full[c := f], par := u.par[c := Owner(n, b)])
  }

  lemma AddNodeOK(t: Trie, n: Id, b: Byte, c: Id, f: Bytes, last: Byte, e: CacheEntry)
    requires TrieOK(t) && n in t.nodes && c !in t.nodes && NextIn(t, n, b).None? && Under(t.full[n], b, f)
    ensures TrieOK(AddNode(t, n, b, c, f, last, e))
  {
    var t' := AddNode(t, n, b, c, f, last, e);
    forall x ensures NodeAt(t', x) { assert NodeAt(t, x); }
    forall x, a ensures NextAt(t', x, a) { assert NextAt(t, x, a); }
    forall x ensures OwnedAt(t', x) { assert OwnedAt(t, x); }
  }

  /** Nothing is stored below a byte that points to no node. */
  lemma NothingBelow(t: Trie, n: Id, b: Byte, x: Id)
    requires TrieOK(t) && n in t.nodes && NextIn(t, n, b).None? && x in t.nodes
    ensures !Under(t.full[n], b, t.full[x])
  {
    if Under(t.full[n], b, t.full[x]) { Cover(t, n, b, x); }
  }

  lemma AddNodeModels(t: Trie, spec: map<Bytes, CacheEntry>, n: Id, b: Byte, c: Id, f: Bytes, last: Byte, e: CacheEntry)
    requires TrieOK(t) && Models(t, spec) && n in t.nodes && c !in t.nodes && NextIn(t, n, b).None?
    requires Under(t.full[n], b, f)
    ensures Models(AddNode(t, n, b, c, f, last, e), spec[f + [last] := e])
  {
    var p := f + [last];
    var t', spec' := AddNode(t, n, b, c, f, last, e), spec[p := e];
    forall x, a, q ensures StoredAt(t', spec', x, a, q) {
      assert StoredAt(t, spec, x, a, q);
      if q == p && x in t.nodes && Names(t, x, a, q) { assert t.full[x] == f; NothingBelow(t, n, b, x); }
    }
    assert Names(t', c, last, p) && EntryIn(t', c, last) == Some(e);
    forall q ensures FoundAt(t', spec', q) {
      if q in spec && q != p {
        assert FoundAt(t, spec, q);
        var x, a :| Names(t, x, a, q) && EntryIn(t, x, a) == Some(spec[q]);
        assert Names(t', x, a, q) && EntryIn(t', x, a) == Some(spec[q]);
      }
    }
  }

  /** A new node `c` for prefix `f` between byte `b` of node `n` and the node `x` below it; the header of `x` is cut. */
  function SplitNode(t: Trie, n: Id, b: Byte, c: Id, x: Id, f: Bytes): Trie
    requires n in t.nodes && n in t.full && x in t.nodes && x in t.full && |t.full[n]| < |f| < |t.full[x]|
  {
    var u := Put(t, n, b, Val(EntryIn(t, n, b), Some(c)));
    var d, g := |t.full[n]| + 1, t.full[x];
    u.(nodes := u.nodes[x := Node(|f| + 1, g[|f| + 1..], t.nodes[x].records)]
                       [c := Node(d, f[d..], map[g[|f|] := Val(None, Some(x))])],
       full := u.full[c := f], par := u.par[c := Owner(n, b)][x := Owner(c, g[|f|])])
  }

  ghost predicate CanSplit(t: Trie, n: Id, b: Byte, c: Id, x: Id, f: Bytes) {
    && n in t.nodes && NextIn(t, n, b) == Some(x) && c !in t.nodes && x in t.nodes && n in t.full && x in t.full
    && Under(t.full[n], b, f) && |f| < |t.full[x]| && Ext(f, t.full[x])
  }

  lemma NotSelf(t: Trie, n: Id, b: Byte, x: Id)
    requires TrieOK(t) && n in t.nodes && NextIn(t, n, b) == Some(x)
    ensures x != n && x in t.nodes && |t.full[n]| < |t.full[x]| && x != t.root
  {
    assert NextAt(t, n, b);
  }

  lemma SplitNodeOK(t: Trie, n: Id, b: Byte, c: Id, x: Id, f: Bytes)
    requires TrieOK(t) && CanSplit(t, n, b, c, x, f)
    ensures TrieOK(SplitNode(t, n, b, c, x, f))
  {
    var t' := SplitNode(t, n, b, c, x, f);
    NotSelf(t, n, b, x);
    forall y ensures NodeAt(t', y) { assert NodeAt(t, y); }
    forall y, a ensures NextAt(t', y, a) { SplitNextAt(t, n, b, c, x, f, y, a); }
    forall y ensures OwnedAt(t', y) { assert OwnedAt(t, y); }
  }

  lemma SplitNextAt(t: Trie, n: Id, b: Byte, c: Id, x: Id, f: Bytes, y: Id, a: Byte)
    requires TrieOK(t) && CanSplit(t, n, b, c, x, f)
    ensures NextAt(SplitNode(t, n, b, c, x, f), y, a)
  {
    NotSelf(t, n, b, x);
    assert NextAt(t, y, a) && NextAt(t, n, b);
  }

  /** A split moves no entry. */
  lemma SplitNodeModels(t: Trie, spec: map<Bytes, CacheEntry>, n: Id, b: Byte, c: Id, x: Id, f: Bytes)
    requires TrieOK(t) && Models(t, spec) && CanSplit(t, n, b, c, x, f)
    ensures Models(SplitNode(t, n, b, c, x, f), spec)
  {
    var t' := SplitNode(t, n, b, c, x, f);
    NotSelf(t, n, b, x);
    forall y, a, q ensures StoredAt(t', spec, y, a, q) { assert StoredAt(t, spec, y, a, q); }
    forall q ensures FoundAt(t', spec, q) {
      assert FoundAt(t, spec, q);
      if q in spec {
        var y, a :| Names(t, y, a, q) && EntryIn(t, y, a) == Some(spec[q]);
        assert Names(t', y, a, q) && EntryIn(t', y, a) == Some(spec[q]);
      }
    }
  }
}
