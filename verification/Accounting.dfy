/** Sums over finite maps, for the memory accounting of the cache. */
module Accounting {
  import opened Keys

  ghost function Sum<K>(m: map<K, nat>): (s: nat) {
    if m == map[] then 0 else
    var k :| k in m;
    m[k] + Sum(m - {k})
  }

  lemma {:induction false} SumRemove<K>(m: map<K, nat>, k: K)
    requires k in m
    ensures Sum(m) == m[k] + Sum(m - {k})
    decreases |m|
  {
    var j :| j in m && Sum(m) == m[j] + Sum(m - {j});
    if j != k {
      SumRemove(m - {j}, k);
      SumRemove(m - {k}, j);
      assert m - {j} - {k} == m - {k} - {j};
    }
  }

  lemma SumUpdate<K>(m: map<K, nat>, k: K, v: nat)
    ensures Sum(m[k := v]) == Sum(m) - (if k in m then m[k] else 0) + v
  {
    SumRemove(m[k := v], k);
    if k in m {
      SumRemove(m, k);
      assert m[k := v] - {k} == m - {k};
    } else {
      assert m[k := v] - {k} == m;
    }
  }

  /** Between two states of an account with `free` left over the recorded `sizes`, exactly `d` came back. */
  ghost predicate Moved(free: int, sizes: map<nat, nat>, free': int, sizes': map<nat, nat>, d: int) {
    free' + Sum(sizes') == free + Sum(sizes) + d
  }

  lemma MovedSize(free: int, sizes: map<nat, nat>, n: nat, size: nat)
    ensures Moved(free, sizes, free - size + (if n in sizes then sizes[n] else 0), sizes[n := size], 0)
  {
    SumUpdate(sizes, n, size);
  }

  /** `free` is what the recorded sizes and the live entries leave of the budget. */
  ghost predicate Balanced(free: int, budget: int, sizes: map<nat, nat>, live: map<Bytes, nat>) {
    free == budget - Sum(sizes) - Sum(live)
  }

  /** An account stays balanced when an entry is put in or replaced. */
  lemma BalancedPut(free: int, budget: int, sizes: map<nat, nat>, live: map<Bytes, nat>, free': int,
                    sizes': map<nat, nat>, p: Bytes, size: nat)
    requires Balanced(free, budget, sizes, live)
    requires Moved(free, sizes, free', sizes', (if p in live then live[p] else 0) - size)
    ensures Balanced(free', budget, sizes', live[p := size])
  {
    SumUpdate(live, p, size);
  }

  lemma BalancedTake(free: int, budget: int, sizes: map<nat, nat>, live: map<Bytes, nat>, p: Bytes)
    requires Balanced(free, budget, sizes, live) && p in live
    ensures Balanced(free + live[p], budget, sizes, live - {p})
  {
    SumRemove(live, p);
  }
}
