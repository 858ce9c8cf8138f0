/** A nonce-to-transaction map with a heap of its nonces and a cache of its sorted
    contents, all three updated in place. */
module TxSortedMap {
  import opened Common
  import opened Transactions
  import Heap

  function NonceLess(a: nat, b: nat): bool
  {
    a < b
  }

  /** The heap holds exactly the nonces `keys`, once each. */
  ghost predicate Indexes(index: seq<nat>, keys: set<nat>)
  {
    Heap.IsHeap(NonceLess, index) && multiset(index) == multiset(keys)
  }

  lemma IndexPush(index: seq<nat>, keys: set<nat>, n: nat)
    requires Indexes(index, keys) && n !in keys
    ensures Indexes(Heap.Push(NonceLess, index, n), keys + {n})
  {
    Heap.PushOk(NonceLess, index, n);
    assert multiset(keys + {n}) == multiset(keys) + multiset{n};
  }

  lemma IndexSize(index: seq<nat>, keys: set<nat>)
    requires Indexes(index, keys)
    ensures |index| == |keys| && forall n :: n in index <==> n in keys
  {
    assert |multiset(index)| == |index| && |multiset(keys)| == |keys|;
    forall n ensures n in index <==> n in keys {
      assert n in multiset(index) <==> n in multiset(keys);
    }
  }

  lemma CancelOne(a: multiset<nat>, b: multiset<nat>, x: nat)
    requires a + multiset{x} == b + multiset{x}
    ensures a == b
  {
    forall e ensures a[e] == b[e] {
      assert (a + multiset{x})[e] == (b + multiset{x})[e];
    }
  }

  /** The root is the lowest nonce, and popping it takes just it out. */
  lemma IndexPop(index: seq<nat>, keys: set<nat>)
    requires Indexes(index, keys) && index != []
    ensures index[0] in keys && forall n | n in keys :: index[0] <= n
    ensures Indexes(Heap.Pop(NonceLess, index), keys - {index[0]})
  {
    IndexSize(index, keys);
    forall n | n in keys ensures index[0] <= n {
      var k :| 0 <= k < |index| && index[k] == n;
      Heap.RootMin(NonceLess, index, k);
    }
    Heap.PopOk(NonceLess, index);
    assert multiset(keys - {index[0]}) + multiset{index[0]} == multiset(keys);
    CancelOne(multiset(Heap.Pop(NonceLess, index)), multiset(keys - {index[0]}), index[0]);
  }

  lemma IndexRemove(index: seq<nat>, keys: set<nat>, i: nat)
    requires Indexes(index, keys) && i < |index|
    ensures index[i] in keys && Indexes(Heap.Remove(NonceLess, index, i), keys - {index[i]})
  {
    IndexSize(index, keys);
    Heap.RemoveOk(NonceLess, index, i);
    assert multiset(keys - {index[i]}) + multiset{index[i]} == multiset(keys);
    CancelOne(multiset(Heap.Remove(NonceLess, index, i)), multiset(keys - {index[i]}), index[i]);
  }

  lemma IndexInit(s: seq<nat>, keys: set<nat>)
    requires multiset(s) == multiset(keys)
    ensures Indexes(Heap.Init(NonceLess, s), keys)
  {
    Heap.InitOk(NonceLess, s);
  }

  /** The contents with nonces below the threshold. */
  function Under(m: Items, threshold: nat): Items
  {
    map n | n in m && n < threshold :: m[n]
  }

  function From(m: Items, threshold: nat): Items
  {
    map n | n in m && n >= threshold :: m[n]
  }

  lemma SplitIs(m: Items, lo: Items, hi: Items, threshold: nat)
    requires SplitsAt(m, lo, hi)
    requires (forall n | n in lo :: n < threshold) && (forall n | n in hi :: n >= threshold)
    ensures lo == Under(m, threshold) && hi == From(m, threshold)
  {
  }

  /** Moving the lowest remaining nonce to the end of the sorted part. */
  lemma TakeLowest(m: Items, lo: Items, hi: Items, n: nat)
    requires SplitsAt(m, lo, hi) && n in hi && forall k | k in hi :: n <= k
    ensures SplitsAt(m, lo[n := hi[n]], hi - {n})
  {
    var lo', hi' := lo[n := hi[n]], hi - {n};
    assert lo' + hi' == m;
  }

  lemma AppendHighest(m: Items, txs: seq<Tx>, tx: Tx)
    requires Flat(m, txs) && forall k | k in m :: k < tx.nonce
    ensures Flat(m[tx.nonce := tx], txs + [tx])
  {
    var txs' := txs + [tx];
    MoreItems(m, tx);
    forall i | 0 <= i < |txs| ensures txs'[i] == txs[i] && txs[i].nonce < tx.nonce {
    }
  }

  lemma MoreItems(m: Items, tx: Tx)
    requires tx.nonce !in m
    ensures |m[tx.nonce := tx]| == |m| + 1
  {
    assert m[tx.nonce := tx].Keys == m.Keys + {tx.nonce};
  }

  /** The lowest nonces of `m` have been moved to `txs`, `items` and its heap hold the rest. */
  ghost predicate Popped(m: Items, lo: Items, items: Items, index: seq<nat>, txs: seq<Tx>)
  {
    && SplitsAt(m, lo, items) && Flat(lo, txs)
    && WellKeyed(items) && Indexes(index, items.Keys)
  }

  lemma PopOne(m: Items, lo: Items, items: Items, index: seq<nat>, txs: seq<Tx>)
    requires Popped(m, lo, items, index, txs) && index != []
    ensures index[0] in items && forall n | n in items :: index[0] <= n
    ensures var n := index[0];
            Popped(m, lo[n := items[n]], items - {n}, Heap.Pop(NonceLess, index), txs + [items[n]])
  {
    var n := index[0];
    IndexPop(index, items.Keys);
    TakeLowest(m, lo, items, n);
    AppendHighest(lo, txs, items[n]);
    assert (items - {n}).Keys == items.Keys - {n};
  }

  ghost predicate Below(m: Items, threshold: nat)
  {
    forall n | n in m :: n < threshold
  }

  lemma BelowPut(m: Items, threshold: nat, n: nat, tx: Tx)
    requires Below(m, threshold) && n < threshold
    ensures Below(m[n := tx], threshold)
  {
  }

  ghost predicate PoppedBelow(m: Items, lo: Items, items: Items, index: seq<nat>, txs: seq<Tx>, threshold: nat)
  {
    Popped(m, lo, items, index, txs) && Below(lo, threshold)
  }

  lemma PopOneBelow(m: Items, lo: Items, items: Items, index: seq<nat>, txs: seq<Tx>, threshold: nat)
    requires PoppedBelow(m, lo, items, index, txs, threshold) && index != [] && index[0] < threshold
    ensures index[0] in items
    ensures var n := index[0];
            PoppedBelow(m, lo[n := items[n]], items - {n}, Heap.Pop(NonceLess, index), txs + [items[n]], threshold)
  {
    PopOne(m, lo, items, index, txs);
    BelowPut(lo, threshold, index[0], items[index[0]]);
  }

  lemma PopDone(m: Items, lo: Items, items: Items, index: seq<nat>, txs: seq<Tx>, threshold: nat)
    requires PoppedBelow(m, lo, items, index, txs, threshold)
    requires index == [] || index[0] >= threshold
    ensures Popped(m, Under(m, threshold), items, index, txs) && items == From(m, threshold)
  {
    IndexSize(index, items.Keys);
    if index != [] { IndexPop(index, items.Keys); }
    SplitIs(m, lo, items, threshold);
  }

  /** Pop nonces off the heap, and their transactions, until the threshold is reached. */
  method PopBelow(index0: seq<nat>, items0: Items, threshold: nat)
    returns (index: seq<nat>, items: Items, removed: seq<Tx>)
    requires WellKeyed(items0) && Indexes(index0, items0.Keys)
    ensures Popped(items0, Under(items0, threshold), items, index, removed)
    ensures items == From(items0, threshold)
  {
    index, items, removed := index0, items0, [];
    ghost var lo: Items := map[];
    while |index| > 0 && index[0] < threshold
      invariant PoppedBelow(items0, lo, items, index, removed, threshold)
      decreases |index|
    {
      PopOneBelow(items0, lo, items, index, removed, threshold);
      var nonce := index[0];
      lo := lo[nonce := items[nonce]];
      index := Heap.Pop(NonceLess, index);
      removed := removed + [items[nonce]];
      items := items - {nonce};
    }
    PopDone(items0, lo, items, index, removed, threshold);
  }

  // --------------------------------------------------------------- filtering

  function Matching(m: Items, f: Tx -> bool): Items
  {
    map n | n in m && f(m[n]) :: m[n]
  }

  function Rest(m: Items, f: Tx -> bool): Items
  {
    map n | n in m && !f(m[n]) :: m[n]
  }

  /** All but the nonces `todo` have been tried; `gone` matched. */
  ghost predicate Filtered(items0: Items, f: Tx -> bool, todo: set<nat>, items: Items, gone: Items)
  {
    && (forall n :: n in items <==> n in items0 && (n in todo || !f(items0[n])))
    && (forall n :: n in gone <==> n in items0 && n !in todo && f(items0[n]))
    && (forall n | n in items :: items[n] == items0[n])
    && (forall n | n in gone :: gone[n] == items0[n])
  }

  /** Remove what matches, in the map's own order. */
  method FilterItems(items0: Items, f: Tx -> bool) returns (items: Items, removed: seq<Tx>)
    requires WellKeyed(items0)
    ensures items == Rest(items0, f) && Lists(Matching(items0, f), removed)
  {
    items, removed := items0, [];
    var todo := items0.Keys;
    ghost var gone: Items := map[];
    while todo != {}
      invariant todo <= items0.Keys && Filtered(items0, f, todo, items, gone) && Lists(gone, removed)
      decreases todo
    {
      var n :| n in todo;
      todo := todo - {n};
      if f(items[n]) {
        ListOneMore(gone, removed, items[n]);
        gone := gone[n := items[n]];
        removed := removed + [items[n]];
        items := items - {n};
      }
    }
    assert items == Rest(items0, f) && gone == Matching(items0, f);
  }

  lemma ListOneMore(m: Items, txs: seq<Tx>, tx: Tx)
    requires Lists(m, txs) && tx.nonce !in m
    ensures Lists(m[tx.nonce := tx], txs + [tx])
  {
    assert m[tx.nonce := tx].Keys == m.Keys + {tx.nonce};
  }

  /** Collect the nonces anew and heapify. */
  method Reindex(keys: set<nat>) returns (index: seq<nat>)
    ensures Indexes(index, keys)
  {
    index := [];
    var todo := keys;
    while todo != {}
      invariant todo <= keys && multiset(index) == multiset(keys - todo)
      decreases todo
    {
      var n :| n in todo;
      assert multiset(keys - (todo - {n})) == multiset(keys - todo) + multiset{n};
      todo := todo - {n};
      index := index + [n];
    }
    assert keys - todo == keys;
    IndexInit(index, keys);
    index := Heap.Init(NonceLess, index);
  }

  // ----------------------------------------------------------------- capping

  /** Ascending order, by popping a heap empty. */
  function Ascending(index: seq<nat>): (r: seq<nat>)
    ensures multiset(r) == multiset(index) && |r| == |index|
    decreases |index|
  {
    if index == [] then []
    else
      var r := [index[0]] + Ascending(Heap.Pop(NonceLess, index));
      r
  }

  ghost predicate Increasing(s: seq<nat>)
  {
    forall i, j | 0 <= i < j < |s| :: s[i] < s[j]
  }

  lemma PrependLeast(n: nat, s: seq<nat>)
    requires Increasing(s) && forall i | 0 <= i < |s| :: n < s[i]
    ensures Increasing([n] + s)
  {
  }

  lemma {:induction false} AscendingOk(index: seq<nat>, keys: set<nat>)
    requires Indexes(index, keys)
    ensures Increasing(Ascending(index))
    decreases |index|
  {
    if index == [] {
    } else {
      var rest, keys' := Heap.Pop(NonceLess, index), keys - {index[0]};
      IndexPop(index, keys);
      AscendingOk(rest, keys');
      RootBelow(index[0], Ascending(rest), keys, keys');
      PrependLeast(index[0], Ascending(rest));
    }
  }

  lemma RootBelow(n: nat, s: seq<nat>, keys: set<nat>, keys': set<nat>)
    requires (forall k | k in keys :: n <= k) && keys' == keys - {n} && multiset(s) == multiset(keys')
    ensures forall i | 0 <= i < |s| :: n < s[i]
  {
    forall i | 0 <= i < |s| ensures n < s[i] {
      assert s[i] in multiset(s) && s[i] in keys';
    }
  }

  function Reverse(s: seq<Tx>): (r: seq<Tx>)
    ensures |r| == |s|
  {
    if s == [] then [] else [s[|s| - 1]] + Reverse(s[..|s| - 1])
  }

  /** The highest nonces of `m` have been moved to `drops`, highest first. */
  ghost predicate Capped(m: Items, items: Items, hi: Items, sorted: seq<nat>, size: nat, drops: seq<Tx>)
  {
    && SplitsAt(m, items, hi) && Flat(hi, Reverse(drops)) && WellKeyed(items)
    && size <= |sorted| && Increasing(sorted) && multiset(sorted[..size]) == multiset(items.Keys)
  }

  lemma PrependLowest(m: Items, txs: seq<Tx>, tx: Tx)
    requires Flat(m, txs) && forall k | k in m :: tx.nonce < k
    ensures Flat(m[tx.nonce := tx], [tx] + txs)
  {
    var m', txs' := m[tx.nonce := tx], [tx] + txs;
    MoreItems(m, tx);
    assert Sorted(txs') by { PrependSorted(txs, tx); }
    forall i | 0 <= i < |txs'| ensures txs'[i].nonce in m' && m'[txs'[i].nonce] == txs'[i] {
      if i > 0 { assert txs'[i] == txs[i - 1]; }
    }
  }

  lemma PrependSorted(txs: seq<Tx>, tx: Tx)
    requires Sorted(txs) && forall i | 0 <= i < |txs| :: tx.nonce < txs[i].nonce
    ensures Sorted([tx] + txs)
  {
  }

  lemma LastOfSorted(sorted: seq<nat>, size: nat, keys: set<nat>)
    requires 0 < size <= |sorted| && Increasing(sorted) && multiset(sorted[..size]) == multiset(keys)
    ensures sorted[size - 1] in keys && forall k | k in keys :: k <= sorted[size - 1]
    ensures multiset(sorted[..size - 1]) == multiset(keys - {sorted[size - 1]})
  {
    var n, pre := sorted[size - 1], sorted[..size];
    assert pre == sorted[..size - 1] + [n];
    assert n in multiset(pre);
    forall k | k in keys ensures k <= n {
      assert k in multiset(pre);
      var i :| 0 <= i < size && pre[i] == k;
    }
    assert multiset(keys - {n}) + multiset{n} == multiset(keys);
    CancelOne(multiset(sorted[..size - 1]), multiset(keys - {n}), n);
  }

  lemma TakeHighest(m: Items, lo: Items, hi: Items, n: nat)
    requires SplitsAt(m, lo, hi) && n in lo && forall k | k in lo :: k <= n
    ensures SplitsAt(m, lo - {n}, hi[n := lo[n]])
  {
    assert lo - {n} + hi[n := lo[n]] == m;
  }

  lemma CapOne(m: Items, items: Items, hi: Items, sorted: seq<nat>, size: nat, drops: seq<Tx>)
    requires Capped(m, items, hi, sorted, size, drops) && size > 0
    ensures sorted[size - 1] in items
    ensures var n := sorted[size - 1];
            Capped(m, items - {n}, hi[n := items[n]], sorted, size - 1, drops + [items[n]])
  {
    var n := sorted[size - 1];
    LastOfSorted(sorted, size, items.Keys);
    var drops' := drops + [items[n]];
    assert drops'[..|drops|] == drops;
    TakeHighest(m, items, hi, n);
    PrependLowest(hi, Reverse(drops), items[n]);
    assert (items - {n}).Keys == items.Keys - {n};
  }

  /** Drop the highest nonces one by one. */
  method DropHighest(items0: Items, sorted: seq<nat>, threshold: nat)
    returns (items: Items, drops: seq<Tx>, ghost hi: Items)
    requires WellKeyed(items0) && threshold <= |sorted| && Increasing(sorted)
    requires multiset(sorted) == multiset(items0.Keys)
    ensures Capped(items0, items, hi, sorted, threshold, drops)
  {
    items, drops, hi := items0, [], map[];
    var size := |sorted|;
    CapNone(items0, sorted);
    while size > threshold
      invariant threshold <= size && Capped(items0, items, hi, sorted, size, drops)
      decreases size
    {
      CapOne(items0, items, hi, sorted, size, drops);
      var n := sorted[size - 1];
      hi := hi[n := items[n]];
      drops := drops + [items[n]];
      items := items - {n};
      size := size - 1;
    }
  }

  lemma CapNone(m: Items, sorted: seq<nat>)
    requires WellKeyed(m) && Increasing(sorted) && multiset(sorted) == multiset(m.Keys)
    ensures Capped(m, m, map[], sorted, |sorted|, [])
  {
    assert sorted[..|sorted|] == sorted;
  }

  /** Keep the lowest `threshold` nonces. */
  method CapItems(index0: seq<nat>, items0: Items, threshold: nat)
    returns (index: seq<nat>, items: Items, drops: seq<Tx>, ghost hi: Items)
    requires WellKeyed(items0) && Indexes(index0, items0.Keys) && |items0| > threshold
    ensures SplitsAt(items0, items, hi) && |items| == threshold && WellKeyed(items) && Indexes(index, items.Keys)
    ensures Flat(hi, Reverse(drops))
  {
    IndexSize(index0, items0.Keys);
    AscendingOk(index0, items0.Keys);
    var sorted := Ascending(index0);
    items, drops, hi := DropHighest(items0, sorted, threshold);
    IndexInit(sorted[..threshold], items.Keys);
    index := Heap.Init(NonceLess, sorted[..threshold]);
    IndexSize(index, items.Keys);
  }

  // ------------------------------------------------------------------- ready

  /** The nonces of `txs` count up from `first`. */
  ghost predicate CountsFrom(first: nat, txs: seq<Tx>)
  {
    forall i | 0 <= i < |txs| :: txs[i].nonce == first + i
  }

  ghost predicate AllIn(m: Items, txs: seq<Tx>)
  {
    forall i | 0 <= i < |txs| :: txs[i].nonce in m && m[txs[i].nonce] == txs[i]
  }

  /** `txs` is the run of consecutive nonces from the lowest of `m` to the first gap. */
  ghost predicate FirstRun(m: Items, txs: seq<Tx>)
  {
    && txs != [] && CountsFrom(txs[0].nonce, txs) && AllIn(m, txs)
    && (forall n | n in m :: txs[0].nonce <= n)
    && txs[0].nonce + |txs| !in m
  }

  /** The first run so far. */
  ghost predicate Running(m: Items, lo: Items, items: Items, index: seq<nat>, txs: seq<Tx>, first: nat)
  {
    Popped(m, lo, items, index, txs) && CountsFrom(first, txs) && Below(lo, first + |txs|)
  }

  lemma RunOne(m: Items, lo: Items, items: Items, index: seq<nat>, txs: seq<Tx>, first: nat)
    requires Running(m, lo, items, index, txs, first) && index != [] && index[0] == first + |txs|
    ensures var n := index[0];
            && n in items
            && Running(m, lo[n := items[n]], items - {n}, Heap.Pop(NonceLess, index), txs + [items[n]], first)
  {
    PopOne(m, lo, items, index, txs);
    BelowPut(lo, index[0] + 1, index[0], items[index[0]]);
  }

  /** All that is left lies beyond the gap. */
  lemma RunGap(m: Items, lo: Items, items: Items, index: seq<nat>, txs: seq<Tx>, first: nat)
    requires Popped(m, lo, items, index, txs) && CountsFrom(first, txs) && txs != []
    requires index == [] || index[0] != first + |txs|
    ensures forall n | n in items :: n > first + |txs|
  {
    var next := first + |txs|;
    IndexSize(index, items.Keys);
    assert txs[|txs| - 1].nonce == next - 1;
    if index != [] {
      IndexPop(index, items.Keys);
      assert next - 1 < index[0];
    }
  }

  lemma RunCut(m: Items, lo: Items, items: Items, index: seq<nat>, txs: seq<Tx>, first: nat)
    requires Running(m, lo, items, index, txs, first) && txs != []
    requires index == [] || index[0] != first + |txs|
    ensures items == From(m, first + |txs|) && first + |txs| !in m && AllIn(m, txs)
  {
    RunGap(m, lo, items, index, txs, first);
    SplitIs(m, lo, items, first + |txs|);
  }

  lemma RunDone(m: Items, lo: Items, items: Items, index0: seq<nat>, index: seq<nat>, txs: seq<Tx>)
    requires Indexes(index0, m.Keys) && index0 != [] && Running(m, lo, items, index, txs, index0[0]) && txs != []
    requires index == [] || index[0] != index0[0] + |txs|
    ensures FirstRun(m, txs) && items == From(m, txs[0].nonce + |txs|)
  {
    RunCut(m, lo, items, index, txs, index0[0]);
    RunIsFirst(m, index0, txs);
  }

  lemma RunIsFirst(m: Items, index0: seq<nat>, txs: seq<Tx>)
    requires Indexes(index0, m.Keys) && index0 != [] && txs != []
    requires CountsFrom(index0[0], txs) && AllIn(m, txs) && index0[0] + |txs| !in m
    ensures txs[0].nonce == index0[0] && FirstRun(m, txs)
  {
    IndexPop(index0, m.Keys);
    assert txs[0].nonce == index0[0] + 0;
  }

  lemma RootDecides(index: seq<nat>, m: Items, start: nat)
    requires Indexes(index, m.Keys)
    ensures (index == [] || index[0] > start) <==> forall n | n in m :: n > start
  {
    IndexSize(index, m.Keys);
    if index != [] { IndexPop(index, m.Keys); }
  }

  /** Pop consecutive nonces off the heap until there is a gap. */
  method PopConsecutive(index0: seq<nat>, items0: Items)
    returns (index: seq<nat>, items: Items, ready: seq<Tx>, ghost lo: Items)
    requires WellKeyed(items0) && Indexes(index0, items0.Keys) && index0 != []
    ensures Running(items0, lo, items, index, ready, index0[0]) && ready != []
    ensures index == [] || index[0] != index0[0] + |ready|
  {
    index, items, ready, lo := index0, items0, [], map[];
    var next := index[0];
    while |index| > 0 && index[0] == next
      invariant Running(items0, lo, items, index, ready, index0[0]) && next == index0[0] + |ready|
      invariant ready == [] ==> index == index0
      decreases |index|
    {
      RunOne(items0, lo, items, index, ready, index0[0]);
      lo := lo[next := items[next]];
      ready := ready + [items[next]];
      items := items - {next};
      index := Heap.Pop(NonceLess, index);
      next := next + 1;
    }
  }

  method PopRun(index0: seq<nat>, items0: Items) returns (index: seq<nat>, items: Items, ready: seq<Tx>)
    requires WellKeyed(items0) && Indexes(index0, items0.Keys) && index0 != []
    ensures WellKeyed(items) && Indexes(index, items.Keys)
    ensures FirstRun(items0, ready) && items == From(items0, ready[0].nonce + |ready|)
  {
    ghost var lo: Items;
    index, items, ready, lo := PopConsecutive(index0, items0);
    RunDone(items0, lo, items, index0, index, ready);
  }

  lemma IndexDrop(index: seq<nat>, items: Items, i: nat)
    requires WellKeyed(items) && Indexes(index, items.Keys) && i < |index|
    ensures Indexes(Heap.Remove(NonceLess, index, i), (items - {index[i]}).Keys) && WellKeyed(items - {index[i]})
  {
    IndexRemove(index, items.Keys, i);
    assert (items - {index[i]}).Keys == items.Keys - {index[i]};
  }

  method FindNonce(index: seq<nat>, nonce: nat) returns (i: nat)
    requires nonce in index
    ensures i < |index| && index[i] == nonce
  {
    i := 0;
    while index[i] != nonce
      invariant i < |index| && nonce in index[i..]
      decreases |index| - i
    {
      i := i + 1;
    }
  }

  lemma NothingMatches(m: Items, f: Tx -> bool)
    requires Matching(m, f) == map[]
    ensures Rest(m, f) == m
  {
    forall n | n in m ensures !f(m[n]) {
      assert n !in Matching(m, f);
    }
  }

  class SortedMap {
    var items: Items
    var index: seq<nat>
    var cache: Option<seq<Tx>>

    ghost predicate Valid()
      reads this
    {
      && WellKeyed(items) && Indexes(index, items.Keys)
      && (cache.Some? ==> Flat(items, cache.value))
    }

    constructor ()
      ensures Valid() && items == map[]
    {
      items, index, cache := map[], [], None;
    }

    method Put(tx: Tx)
      requires Valid()
      modifies this
      ensures Valid() && items == old(items)[tx.nonce := tx]
    {
      if tx.nonce !in items {
        IndexPush(index, items.Keys, tx.nonce);
        index := Heap.Push(NonceLess, index, tx.nonce);
      }
      items, cache := items[tx.nonce := tx], None;
      assert items.Keys == old(items).Keys + {tx.nonce};
    }

    /** Remove everything below the threshold, lowest first. */
    method Forward(threshold: nat) returns (removed: seq<Tx>)
      requires Valid()
      modifies this
      ensures Valid() && items == From(old(items), threshold)
      ensures Flat(Under(old(items), threshold), removed)
    {
      index, items, removed := PopBelow(index, items, threshold);
      if cache.Some? {
        FlatSplit(old(items), Under(old(items), threshold), items, cache.value);
        cache := Some(cache.value[|removed|..]);
      }
    }

    /** Remove what matches but leave the heap as it was: Reheap must follow. */
    method FilterOnly(f: Tx -> bool) returns (removed: seq<Tx>)
      requires Valid()
      modifies this
      ensures WellKeyed(items) && items == Rest(old(items), f) && Lists(Matching(old(items), f), removed)
    {
      items, removed := FilterItems(items, f);
      if |removed| > 0 {
        cache := None;
      }
    }

    method Reheap()
      requires WellKeyed(items)
      modifies this`index, this`cache
      ensures Valid()
    {
      index := Reindex(items.Keys);
      cache := None;
    }

    /** Remove what matches; the heap is rebuilt and the cache dropped if anything did. */
    method Filter(f: Tx -> bool) returns (removed: seq<Tx>)
      requires Valid()
      modifies this
      ensures Valid() && items == Rest(old(items), f) && Lists(Matching(old(items), f), removed)
    {
      items, removed := FilterItems(items, f);
      if |removed| > 0 {
        Reheap();
      } else {
        NothingMatches(old(items), f);
      }
    }

    /** Keep the lowest `threshold` nonces and return the others, highest first. */
    method Cap(threshold: nat) returns (drops: seq<Tx>)
      requires Valid()
      modifies this
      ensures Valid()
      ensures |old(items)| <= threshold ==> items == old(items) && drops == []
      ensures |old(items)| > threshold ==>
                && |items| == threshold && items.Keys <= old(items).Keys
                && SplitsAt(old(items), items, old(items) - items.Keys)
                && Flat(old(items) - items.Keys, Reverse(drops))
    {
      if |items| <= threshold {
        return [];
      }
      ghost var hi: Items;
      index, items, drops, hi := CapItems(index, items, threshold);
      assert hi == old(items) - items.Keys;
      if cache.Some? {
        FlatSplit(old(items), items, hi, cache.value);
        cache := Some(cache.value[..|cache.value| - |drops|]);
      }
    }

    method Remove(nonce: nat) returns (ok: bool)
      requires Valid()
      modifies this
      ensures Valid() && ok == (nonce in old(items)) && items == old(items) - {nonce}
    {
      if nonce !in items {
        assert items == items - {nonce};
        return false;
      }
      IndexSize(index, items.Keys);
      var i := FindNonce(index, nonce);
      IndexDrop(index, items, i);
      index := Heap.Remove(NonceLess, index, i);
      items := items - {nonce};
      cache := None;
      ok := true;
    }

    /** Take out the first run of consecutive nonces if it starts at or below `start`. */
    method Ready(start: nat) returns (ready: seq<Tx>)
      requires Valid()
      modifies this
      ensures Valid()
      ensures (forall n | n in old(items) :: n > start) ==> ready == [] && items == old(items)
      ensures (exists n | n in old(items) :: n <= start) ==>
                FirstRun(old(items), ready) && items == From(old(items), ready[0].nonce + |ready|)
    {
      RootDecides(index, items, start);
      if |index| == 0 || index[0] > start {
        return [];
      }
      index, items, ready := PopRun(index, items);
      cache := None;
    }

    /** The contents in nonce order, cached. */
    method Flatten() returns (txs: seq<Tx>)
      requires Valid()
      modifies this`cache
      ensures Valid() && Flat(items, txs) && cache == Some(txs)
    {
      if cache.None? {
        var sorted := SortByNonce(items);
        cache := Some(sorted);
      }
      txs := cache.value;
    }

    /** The transaction with the highest nonce. */
    method LastElement() returns (tx: Tx)
      requires Valid() && items != map[]
      modifies this`cache
      ensures Valid() && tx.nonce in items && items[tx.nonce] == tx && forall n | n in items :: n <= tx.nonce
    {
      var txs := Flatten();
      ListsAll(items, txs);
      tx := txs[|txs| - 1];
      forall n | n in items ensures n <= tx.nonce {
        assert n in NoncesOf(txs);
      }
    }
  }

  function Insert(txs: seq<Tx>, tx: Tx): seq<Tx>
  {
    if txs == [] || tx.nonce < txs[0].nonce then [tx] + txs else [txs[0]] + Insert(txs[1..], tx)
  }

  lemma {:induction false} InsertFlat(m: Items, txs: seq<Tx>, tx: Tx)
    requires Flat(m, txs) && tx.nonce !in m
    ensures Flat(m[tx.nonce := tx], Insert(txs, tx))
    decreases |txs|
  {
    if txs == [] {
      assert m == map[];
    } else {
      FlatFirst(m, txs);
      if tx.nonce < txs[0].nonce {
        PrependLowest(m, txs, tx);
      } else {
        var n := txs[0].nonce;
        InsertFlat(m - {n}, txs[1..], tx);
        var rest := (m - {n})[tx.nonce := tx];
        PrependLowest(rest, Insert(txs[1..], tx), txs[0]);
        assert rest[n := txs[0]] == m[tx.nonce := tx];
      }
    }
  }

  ghost predicate Copied(items: Items, todo: set<nat>, done: Items)
  {
    && (forall n :: n in done <==> n in items && n !in todo)
    && (forall n | n in done :: done[n] == items[n])
  }

  /** Collect the map's transactions, in its own order, into a sorted sequence. */
  method SortByNonce(items: Items) returns (txs: seq<Tx>)
    requires WellKeyed(items)
    ensures Flat(items, txs)
  {
    txs := [];
    var todo := items.Keys;
    ghost var done: Items := map[];
    while todo != {}
      invariant todo <= items.Keys && Copied(items, todo, done) && Flat(done, txs)
      decreases todo
    {
      var n :| n in todo;
      InsertFlat(done, txs, items[n]);
      txs := Insert(txs, items[n]);
      done := done[n := items[n]];
      todo := todo - {n};
    }
    assert done == items;
  }
}
