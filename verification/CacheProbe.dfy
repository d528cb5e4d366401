/** Cache lookup as probing the prefixes of a key from long to short. */
module CacheProbe {
  import opened Keys
  import opened RemoteMemory
  import opened Lookup
  import opened CacheTrie

  type Contents = map<Bytes, CacheEntry>

  /** A lookup's answer: the length of the prefix whose entry is used and the index of the record. */
  datatype Answer = Answer(len: nat, idx: nat)

  predicate Expired(e: CacheEntry, now: int) {
    now > e.expire
  }

  function Record(e: CacheEntry, b: Byte): (j: nat)
    ensures j <= |e.records|
  {
    Scan(e.records, b, |e.records|)
  }

  /** Entry `e` answers for a key with next byte `b`. */
  predicate Answers(e: CacheEntry, b: Byte, now: int) {
    !Expired(e, now) && Record(e, b) < |e.records|
  }

  /** The answer of a lookup that probes the prefixes of length `n`, `n - 1`, ..., 0, and the contents it leaves:
      expired entries that it meets are dropped. */
  function Probe(spec: Contents, k: Bytes, n: nat, now: int): (Option<Answer>, Contents)
    requires n < |k|
    decreases n
  {
    var p := k[..n];
    if p in spec && Answers(spec[p], k[n], now) then (Some(Answer(n, Record(spec[p], k[n]))), spec)
    else
      var rest := if p in spec && Expired(spec[p], now) then spec - {p} else spec;
      if n == 0 then (None, rest) else Probe(rest, k, n - 1, now)
  }

  /** Record `j` of `e` is the first one for byte `b`. */
  ghost predicate FirstFor(e: CacheEntry, b: Byte, j: nat) {
    && j < |e.records| && !e.records[j].Null? && e.records[j].partial == b
    && forall i :: 0 <= i < j ==> e.records[i].Null? || e.records[i].partial != b
  }

  /** The prefix of length `l` is cached, its time is not over, and its entry has a record for the next byte of `k`. */
  ghost predicate Good(spec: Contents, k: Bytes, l: nat, now: int) {
    && l < |k| && k[..l] in spec && now <= spec[k[..l]].expire
    && exists j :: 0 <= j < |spec[k[..l]].records| && FirstFor(spec[k[..l]], k[l], j)
  }

  lemma RecordFirst(e: CacheEntry, b: Byte)
    ensures Record(e, b) < |e.records| ==> FirstFor(e, b, Record(e, b))
    ensures (exists j :: 0 <= j < |e.records| && FirstFor(e, b, j)) ==> Record(e, b) < |e.records|
  {}

  lemma GoodAnswers(spec: Contents, k: Bytes, l: nat, now: int)
    ensures Good(spec, k, l, now) <==> l < |k| && k[..l] in spec && Answers(spec[k[..l]], k[l], now)
  {
    if l < |k| && k[..l] in spec { RecordFirst(spec[k[..l]], k[l]); }
  }

  /** The lookup returns the longest cached prefix whose time is not over and whose entry has a record for the next
      byte, and the first such record. */
  lemma {:induction false} ProbeLongest(spec: Contents, k: Bytes, n: nat, now: int)
    requires n < |k|
    ensures var r := Probe(spec, k, n, now).0;
      if r.Some? then
        && Good(spec, k, r.value.len, now) && r.value.len <= n
        && FirstFor(spec[k[..r.value.len]], k[r.value.len], r.value.idx)
        && forall l :: r.value.len < l <= n ==> !Good(spec, k, l, now)
      else
        forall l :: 0 <= l <= n ==> !Good(spec, k, l, now)
    decreases n
  {
    var p := k[..n];
    GoodAnswers(spec, k, n, now);
    if p in spec { RecordFirst(spec[p], k[n]); }
    if !Good(spec, k, n, now) && n > 0 {
      var rest := if p in spec && Expired(spec[p], now) then spec - {p} else spec;
      ProbeLongest(rest, k, n - 1, now);
      forall l: nat | l < n ensures Good(rest, k, l, now) <==> Good(spec, k, l, now) {
        assert |k[..l]| == l && |p| == n;
      }
    }
  }

  /** Exactly the entries of the prefixes longer than the answer whose time is over are dropped. */
  lemma {:induction false} ProbeDrops(spec: Contents, k: Bytes, n: nat, now: int, q: Bytes)
    requires n < |k|
    ensures var (r, rest) := Probe(spec, k, n, now);
      && (q in rest ==> q in spec && rest[q] == spec[q])
      && (q in spec && q !in rest <==>
            q in spec && |q| <= n && q == k[..|q|] && spec[q].expire < now && (r.Some? ==> r.value.len < |q|))
    decreases n
  {
    var p := k[..n];
    assert |q| == n && q == k[..|q|] ==> q == p;
    if !(p in spec && Answers(spec[p], k[n], now)) && n > 0 {
      var rest := if p in spec && Expired(spec[p], now) then spec - {p} else spec;
      ProbeDrops(rest, k, n - 1, now, q);
      ProbeLongest(rest, k, n - 1, now);
    }
  }

  /** Lengths at which nothing is cached can be skipped. */
  lemma {:induction false} ProbeSkips(spec: Contents, k: Bytes, n: nat, m: nat, now: int)
    requires m <= n < |k| && forall l :: m < l <= n ==> k[..l] !in spec
    ensures Probe(spec, k, n, now) == Probe(spec, k, m, now)
    decreases n
  {
    if m < n { ProbeSkips(spec, k, n - 1, m, now); }
  }
}

/** The plain map cache, whose lookup the radix cache speeds up. */
module NormalCaching {
  import opened Keys
  import opened RemoteMemory
  import opened Lookup
  import opened CacheTrie
  import opened CacheProbe

  /** The entries of a map whose invalidated slots stay behind as null pointers. */
  function LiveMap(slots: map<Bytes, Option<CacheEntry>>): (spec: Contents) {
    map p | p in slots && slots[p].Some? :: slots[p].value
  }

  method FindRecord(e: CacheEntry, b: Byte) returns (i: nat)
    ensures i == Record(e, b)
  {
    i := 0;
    while i < |e.records| && (e.records[i].Null? || e.records[i].partial != b)
      invariant i <= |e.records| && Record(e, b) == Scan(e.records, b, |e.records|, i)
    {
      i := i + 1;
    }
  }

  class NormalCache {
    var slots: map<Bytes, Option<CacheEntry>>

    /** Pops bytes off the prefix until an unexpired entry has a record for the byte popped last. */
    method Search(k: Bytes, now: int) returns (r: Option<Answer>)
      requires k != []
      modifies this
      ensures (r, LiveMap(slots)) == Probe(LiveMap(old(slots)), k, |k| - 1, now)
    {
      var prefix, last := k[..|k| - 1], k[|k| - 1];
      while true
        invariant |prefix| < |k| && prefix == k[..|prefix|] && last == k[|prefix|]
        invariant Probe(LiveMap(slots), k, |prefix|, now) == Probe(LiveMap(old(slots)), k, |k| - 1, now)
        decreases |prefix|
      {
        if prefix in slots && slots[prefix].Some? {
          var e := slots[prefix].value;
          if Expired(e, now) {
            assert LiveMap(slots[prefix := None]) == LiveMap(slots) - {prefix};
            slots := slots[prefix := None];
          } else {
            var i := FindRecord(e, last);
            if i < |e.records| {
              return Some(Answer(|prefix|, i));
            }
          }
        }
        if prefix == [] { return None; }
        last, prefix := prefix[|prefix| - 1], prefix[..|prefix| - 1];
      }
    }
  }
}
