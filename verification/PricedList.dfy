/** The price-sorted view of the remote transactions: an urgent heap ordered by the
    effective tip under the next base fee and a floating heap ordered by fee cap.
    Entries whose transaction left the lookup are stale and skipped when met. */
module PricedList {
  import opened Common
  import opened Transactions
  import opened TxLookup
  import opened MapSum
  import Heap

  const URGENT_RATIO: nat := 4
  const FLOATING_RATIO: nat := 1

  type BaseFee = Option<nat>

  function Tip(tx: Tx, baseFee: nat): int
  {
    if tx.tipCap < tx.feeCap - baseFee then tx.tipCap else tx.feeCap - baseFee
  }

  function Sign(a: int, b: int): int
  {
    if a < b then -1 else if a > b then 1 else 0
  }

  /** Compare by effective tip if a base fee is set, then by fee cap, then by tip cap. */
  function Cmp(baseFee: BaseFee, a: Tx, b: Tx): int
  {
    var tips := if baseFee.Some? then Sign(Tip(a, baseFee.value), Tip(b, baseFee.value)) else 0;
    if tips != 0 then tips
    else if Sign(a.feeCap, b.feeCap) != 0 then Sign(a.feeCap, b.feeCap)
    else Sign(a.tipCap, b.tipCap)
  }

  /** The cheaper comes first; among equals the higher nonce. */
  predicate Cheaper(baseFee: BaseFee, a: Tx, b: Tx)
  {
    if Cmp(baseFee, a, b) == -1 then true else if Cmp(baseFee, a, b) == 1 then false else a.nonce > b.nonce
  }

  function Less(baseFee: BaseFee): (Tx, Tx) -> bool
  {
    (a: Tx, b: Tx) => Cheaper(baseFee, a, b)
  }

  lemma LessOrder(baseFee: BaseFee)
    ensures Heap.Order(Less(baseFee))
  {
  }

  lemma CmpTransitive(baseFee: BaseFee, a: Tx, b: Tx, c: Tx)
    requires Cmp(baseFee, a, b) >= 0 && Cmp(baseFee, b, c) >= 0
    ensures Cmp(baseFee, a, c) >= 0
  {
  }

  // ------------------------------------------------------------ live entries

  /** The entries that are not stale, with multiplicity. */
  ghost function Live(remotes: Pool, ms: multiset<Tx>): multiset<Tx>
    decreases |ms|
  {
    if ms == multiset{} then multiset{}
    else
      var t :| t in ms;
      Live(remotes, ms - multiset{t}) + if t.hash in remotes then multiset{t} else multiset{}
  }

  lemma {:induction false} LiveAt(remotes: Pool, ms: multiset<Tx>, t: Tx)
    ensures Live(remotes, ms)[t] == if t.hash in remotes then ms[t] else 0
    decreases |ms|
  {
    if ms == multiset{} {
    } else {
      var u :| u in ms && Live(remotes, ms) ==
        Live(remotes, ms - multiset{u}) + if u.hash in remotes then multiset{u} else multiset{};
      LiveAt(remotes, ms - multiset{u}, t);
    }
  }

  lemma LiveAdd(remotes: Pool, ms: multiset<Tx>, t: Tx)
    ensures Live(remotes, ms + multiset{t}) == Live(remotes, ms) + if t.hash in remotes then multiset{t} else multiset{}
  {
    var more := Live(remotes, ms) + if t.hash in remotes then multiset{t} else multiset{};
    forall u ensures Live(remotes, ms + multiset{t})[u] == more[u] {
      LiveAt(remotes, ms, u);
      LiveAt(remotes, ms + multiset{t}, u);
    }
  }

  ghost function SlotSum(ms: multiset<Tx>): nat
    decreases |ms|
  {
    if ms == multiset{} then 0 else var t :| t in ms; NumSlots(t) + SlotSum(ms - multiset{t})
  }

  lemma {:induction false} SlotSumTake(ms: multiset<Tx>, t: Tx)
    requires t in ms
    ensures SlotSum(ms) == NumSlots(t) + SlotSum(ms - multiset{t})
    decreases |ms|
  {
    var u :| u in ms && SlotSum(ms) == NumSlots(u) + SlotSum(ms - multiset{u});
    if u == t {
    } else {
      SlotSumTake(ms - multiset{u}, t);
      SlotSumTake(ms - multiset{t}, u);
      assert ms - multiset{u} - multiset{t} == ms - multiset{t} - multiset{u};
    }
  }

  lemma SlotSumAdd(ms: multiset<Tx>, t: Tx)
    ensures SlotSum(ms + multiset{t}) == SlotSum(ms) + NumSlots(t)
  {
    SlotSumTake(ms + multiset{t}, t);
    assert ms + multiset{t} - multiset{t} == ms;
  }

  /** Drop stale entries off the top. */
  method SkipStale(baseFee: BaseFee, remotes: Pool, h0: seq<Tx>) returns (h: seq<Tx>)
    requires Heap.IsHeap(Less(baseFee), h0)
    ensures Heap.IsHeap(Less(baseFee), h) && Live(remotes, multiset(h)) == Live(remotes, multiset(h0))
    ensures h == [] || h[0].hash in remotes
    ensures multiset(h) <= multiset(h0)
  {
    h := h0;
    LessOrder(baseFee);
    while |h| > 0 && h[0].hash !in remotes
      invariant Heap.IsHeap(Less(baseFee), h) && Live(remotes, multiset(h)) == Live(remotes, multiset(h0))
      invariant multiset(h) <= multiset(h0)
      decreases |h|
    {
      Heap.PopOk(Less(baseFee), h);
      LiveAdd(remotes, multiset(Heap.Pop(Less(baseFee), h)), h[0]);
      h := Heap.Pop(Less(baseFee), h);
    }
  }

  /** No live entry of the heap is cheaper than `tx`. */
  ghost predicate NoneCheaper(baseFee: BaseFee, live: multiset<Tx>, tx: Tx)
  {
    forall t | t in live :: Cmp(baseFee, t, tx) >= 0
  }

  lemma TopDecides(baseFee: BaseFee, remotes: Pool, h: seq<Tx>, tx: Tx)
    requires Heap.IsHeap(Less(baseFee), h) && (h == [] || h[0].hash in remotes)
    ensures h == [] <==> Live(remotes, multiset(h)) == multiset{}
    ensures h != [] ==> (Cmp(baseFee, h[0], tx) >= 0 <==> NoneCheaper(baseFee, Live(remotes, multiset(h)), tx))
  {
    var live := Live(remotes, multiset(h));
    if h != [] {
      assert h[0] in multiset(h);
      LiveAt(remotes, multiset(h), h[0]);
      if Cmp(baseFee, h[0], tx) >= 0 {
        LessOrder(baseFee);
        forall t | t in live ensures Cmp(baseFee, t, tx) >= 0 {
          LiveAt(remotes, multiset(h), t);
          assert t in multiset(h);
          var k :| 0 <= k < |h| && h[k] == t;
          Heap.RootMin(Less(baseFee), h, k);
          CmpTransitive(baseFee, t, h[0], tx);
        }
      }
    }
  }

  /** Whether `tx` is no better than the cheapest live entry of the heap. */
  method UnderpricedFor(baseFee: BaseFee, remotes: Pool, h0: seq<Tx>, tx: Tx) returns (h: seq<Tx>, r: bool)
    requires Heap.IsHeap(Less(baseFee), h0)
    ensures Heap.IsHeap(Less(baseFee), h) && Live(remotes, multiset(h)) == Live(remotes, multiset(h0))
    ensures h == [] <==> Live(remotes, multiset(h0)) == multiset{}
    ensures multiset(h) <= multiset(h0)
    ensures r <==> h != [] && NoneCheaper(baseFee, Live(remotes, multiset(h0)), tx)
  {
    h := SkipStale(baseFee, remotes, h0);
    TopDecides(baseFee, remotes, h, tx);
    r := |h| > 0 && Cmp(baseFee, h[0], tx) >= 0;
  }

  /** There is a live entry, and none is cheaper than `tx` in the order of its heap. */
  ghost predicate IsUnderpriced(baseFee: BaseFee, remotes: Pool, urgent: seq<Tx>, floating: seq<Tx>, tx: Tx)
  {
    && (Live(remotes, multiset(urgent)) != multiset{} || Live(remotes, multiset(floating)) != multiset{})
    && NoneCheaper(baseFee, Live(remotes, multiset(urgent)), tx)
    && NoneCheaper(None, Live(remotes, multiset(floating)), tx)
  }

  method UnderpricedIn(baseFee: BaseFee, remotes: Pool, urgent0: seq<Tx>, floating0: seq<Tx>, tx: Tx)
    returns (urgent: seq<Tx>, floating: seq<Tx>, r: bool)
    requires Heap.IsHeap(Less(baseFee), urgent0) && Heap.IsHeap(Less(None), floating0)
    ensures Heap.IsHeap(Less(baseFee), urgent) && Heap.IsHeap(Less(None), floating)
    ensures Live(remotes, multiset(urgent)) == Live(remotes, multiset(urgent0))
    ensures Live(remotes, multiset(floating)) == Live(remotes, multiset(floating0))
    ensures multiset(urgent) <= multiset(urgent0) && multiset(floating) <= multiset(floating0)
    ensures r <==> IsUnderpriced(baseFee, remotes, urgent0, floating0, tx)
  {
    floating := floating0;
    var u, f;
    urgent, u := UnderpricedFor(baseFee, remotes, urgent0, tx);
    if !(u || |urgent| == 0) {
      return urgent, floating, false;
    }
    floating, f := UnderpricedFor(None, remotes, floating0, tx);
    r := (f || |floating| == 0) && (|urgent| != 0 || |floating| != 0);
  }

  // ---------------------------------------------------------------- eviction

  /** Slot `k` is not cheaper than its parent. */
  predicate OverParent(baseFee: BaseFee, h: seq<Tx>, k: nat)
    requires k < |h|
  {
    k == 0 || !Cheaper(baseFee, h[k], h[Heap.Parent(k)])
  }

  ghost predicate ByPrice(baseFee: BaseFee, h: seq<Tx>)
  {
    forall k: nat {:trigger OverParent(baseFee, h, k)} | k < |h| :: OverParent(baseFee, h, k)
  }

  /** Both heaps are in order. */
  ghost predicate Ordered(baseFee: BaseFee, urgent: seq<Tx>, floating: seq<Tx>)
  {
    ByPrice(baseFee, urgent) && ByPrice(None, floating)
  }

  lemma ByPriceIsHeap(baseFee: BaseFee, h: seq<Tx>)
    ensures ByPrice(baseFee, h) <==> Heap.IsHeap(Less(baseFee), h)
  {
    forall k: nat | k < |h| ensures OverParent(baseFee, h, k) <==> Heap.Ok(Less(baseFee), h, k) {
    }
  }

  lemma OrderedIsHeaps(baseFee: BaseFee, urgent: seq<Tx>, floating: seq<Tx>)
    ensures Ordered(baseFee, urgent, floating) <==>
              Heap.IsHeap(Less(baseFee), urgent) && Heap.IsHeap(Less(None), floating)
  {
    ByPriceIsHeap(baseFee, urgent);
    ByPriceIsHeap(None, floating);
  }

  /** The live entries of both heaps. */
  ghost function LiveIn(remotes: Pool, urgent: seq<Tx>, floating: seq<Tx>): multiset<Tx>
  {
    Live(remotes, multiset(urgent)) + Live(remotes, multiset(floating))
  }

  /** Both heaps have the same order and nothing urgent is cheaper than anything floating. */
  ghost predicate Split(baseFee: BaseFee, urgent: multiset<Tx>, floating: multiset<Tx>)
  {
    baseFee.None? && forall t, u | t in floating && u in urgent :: !Cheaper(None, u, t)
  }

  lemma SplitShrinks(baseFee: BaseFee, u0: multiset<Tx>, f0: multiset<Tx>, u: multiset<Tx>, f: multiset<Tx>)
    requires u <= u0 && f <= f0
    ensures Split(baseFee, u0, f0) ==> Split(baseFee, u, f)
  {
  }

  ghost predicate NoneBelow(ms: multiset<Tx>, tx: Tx)
  {
    forall u | u in ms :: !Cheaper(None, u, tx)
  }

  /** Nothing left is cheaper than anything taken. */
  ghost predicate CheapestTaken(drop: seq<Tx>, left: multiset<Tx>)
  {
    forall t | t in drop :: NoneBelow(left, t)
  }

  /** Nothing of `live` that was not taken is cheaper than anything taken. */
  ghost predicate CheapestOf(live: multiset<Tx>, drop: seq<Tx>)
  {
    forall t, u | t in drop && multiset(drop)[u] < live[u] :: !Cheaper(None, u, t)
  }

  lemma TakenOf(live: multiset<Tx>, left: multiset<Tx>, drop: seq<Tx>)
    requires live == left + multiset(drop) && CheapestTaken(drop, left)
    ensures CheapestOf(live, drop)
  {
    forall t, u | t in drop && multiset(drop)[u] < live[u] ensures !Cheaper(None, u, t) {
      assert NoneBelow(left, t) && u in left;
    }
  }

  ghost predicate InOrder(baseFee: BaseFee, urgent: multiset<Tx>, floating: multiset<Tx>, drop: seq<Tx>)
  {
    Split(baseFee, urgent, floating) && CheapestTaken(drop, urgent + floating)
  }

  lemma InOrderNext(baseFee: BaseFee, u0: multiset<Tx>, f0: multiset<Tx>, u: multiset<Tx>, f: multiset<Tx>,
                    drop: seq<Tx>, out: Option<Tx>)
    requires u + f <= u0 + f0
    requires InOrder(baseFee, u0, f0, []) ==> InOrder(baseFee, u, f, if out.Some? then [out.value] else [])
    ensures InOrder(baseFee, u0, f0, drop) ==>
              InOrder(baseFee, u, f, if out.Some? then drop + [out.value] else drop)
  {
    if InOrder(baseFee, u0, f0, drop) {
      forall t | t in drop ensures NoneBelow(u + f, t) {
        assert NoneBelow(u0 + f0, t);
      }
    }
  }

  /** Taking the cheapest floating entry. */
  lemma InOrderTake(baseFee: BaseFee, u: multiset<Tx>, f: multiset<Tx>, tx: Tx, out: Option<Tx>)
    requires NoneBelow(f + multiset{tx}, tx) && (out.Some? ==> out.value == tx)
    ensures InOrder(baseFee, u, f + multiset{tx}, []) ==> InOrder(baseFee, u, f, if out.Some? then [out.value] else [])
  {
  }

  lemma SplitMoves(baseFee: BaseFee, u: multiset<Tx>, f: multiset<Tx>, tx: Tx)
    requires forall t | t in u :: !Cheaper(baseFee, t, tx)
    ensures Split(baseFee, u + multiset{tx}, f) ==> Split(baseFee, u, f) && Split(baseFee, u, f + multiset{tx})
  {
  }

  lemma RootCheapest(baseFee: BaseFee, h: seq<Tx>)
    requires ByPrice(baseFee, h) && h != []
    ensures forall t | t in multiset(h) :: !Cheaper(baseFee, t, h[0])
  {
    ByPriceIsHeap(baseFee, h);
    LessOrder(baseFee);
    forall t | t in multiset(h) ensures !Cheaper(baseFee, t, h[0]) {
      var k :| 0 <= k < |h| && h[k] == t;
      Heap.RootMin(Less(baseFee), h, k);
    }
  }

  /** Put an entry on a heap. */
  method PushOne(baseFee: BaseFee, h0: seq<Tx>, tx: Tx) returns (h: seq<Tx>)
    requires ByPrice(baseFee, h0)
    ensures ByPrice(baseFee, h) && multiset(h) == multiset(h0) + multiset{tx} && |h| == |h0| + 1
  {
    LessOrder(baseFee);
    ByPriceIsHeap(baseFee, h0);
    Heap.PushOk(Less(baseFee), h0, tx);
    h := Heap.Push(Less(baseFee), h0, tx);
    ByPriceIsHeap(baseFee, h);
  }

  /** Take the cheapest entry off a heap. */
  method PopOne(baseFee: BaseFee, h0: seq<Tx>) returns (h: seq<Tx>, tx: Tx)
    requires ByPrice(baseFee, h0) && h0 != []
    ensures ByPrice(baseFee, h) && multiset(h0) == multiset(h) + multiset{tx} && |h| == |h0| - 1
    ensures tx == h0[0] && forall t | t in multiset(h0) :: !Cheaper(baseFee, t, tx)
  {
    RootCheapest(baseFee, h0);
    LessOrder(baseFee);
    ByPriceIsHeap(baseFee, h0);
    Heap.PopOk(Less(baseFee), h0);
    h, tx := Heap.Pop(Less(baseFee), h0), h0[0];
    ByPriceIsHeap(baseFee, h);
  }

  /** Move the top of the urgent heap to the floating one, unless it is stale. */
  method Rebalance(baseFee: BaseFee, remotes: Pool, urgent0: seq<Tx>, floating0: seq<Tx>)
    returns (urgent: seq<Tx>, floating: seq<Tx>)
    requires Ordered(baseFee, urgent0, floating0) && urgent0 != []
    ensures Ordered(baseFee, urgent, floating) && |urgent| == |urgent0| - 1 && |floating| <= |floating0| + 1
    ensures LiveIn(remotes, urgent0, floating0) == LiveIn(remotes, urgent, floating)
    ensures Split(baseFee, multiset(urgent0), multiset(floating0)) ==>
              Split(baseFee, multiset(urgent), multiset(floating))
    ensures multiset(urgent) + multiset(floating) <= multiset(urgent0) + multiset(floating0)
  {
    var tx;
    urgent, tx := PopOne(baseFee, urgent0);
    floating := floating0;
    LiveAdd(remotes, multiset(urgent), tx);
    SplitMoves(baseFee, multiset(urgent), multiset(floating), tx);
    if tx.hash in remotes {
      LiveAdd(remotes, multiset(floating), tx);
      floating := PushOne(None, floating, tx);
    }
  }

  /** Take the top off the floating heap. */
  method TakeFloating(remotes: Pool, floating0: seq<Tx>) returns (floating: seq<Tx>, out: Option<Tx>)
    requires ByPrice(None, floating0) && floating0 != []
    ensures ByPrice(None, floating) && |floating| == |floating0| - 1
    ensures out == if floating0[0].hash in remotes then Some(floating0[0]) else None
    ensures Live(remotes, multiset(floating0)) ==
              Live(remotes, multiset(floating)) + if out.Some? then multiset{out.value} else multiset{}
    ensures multiset(floating0) == multiset(floating) + multiset{floating0[0]}
  {
    var tx;
    floating, tx := PopOne(None, floating0);
    LiveAdd(remotes, multiset(floating), tx);
    out := if tx.hash in remotes then Some(tx) else None;
  }

  /** One round of eviction: rebalance from the urgent to the floating heap, or take
      the cheapest off the floating heap. */
  method EvictOne(baseFee: BaseFee, remotes: Pool, urgent0: seq<Tx>, floating0: seq<Tx>)
    returns (urgent: seq<Tx>, floating: seq<Tx>, out: Option<Tx>)
    requires Ordered(baseFee, urgent0, floating0) && (urgent0 != [] || floating0 != [])
    ensures Ordered(baseFee, urgent, floating)
    ensures 2 * |urgent| + |floating| < 2 * |urgent0| + |floating0|
    ensures out.Some? ==> out.value.hash in remotes
    ensures LiveIn(remotes, urgent0, floating0) ==
              LiveIn(remotes, urgent, floating) + if out.Some? then multiset{out.value} else multiset{}
    ensures out.Some? ==> floating0 != [] && out.value == floating0[0]
                          && |urgent0| * FLOATING_RATIO <= |floating0| * URGENT_RATIO
    ensures multiset(urgent) + multiset(floating) <= multiset(urgent0) + multiset(floating0)
    ensures InOrder(baseFee, multiset(urgent0), multiset(floating0), []) ==>
              InOrder(baseFee, multiset(urgent), multiset(floating), if out.Some? then [out.value] else [])
  {
    urgent, floating, out := urgent0, floating0, None;
    if |urgent| * FLOATING_RATIO > |floating| * URGENT_RATIO {
      urgent, floating := Rebalance(baseFee, remotes, urgent, floating);
    } else {
      RootCheapest(None, floating);
      floating, out := TakeFloating(remotes, floating);
      InOrderTake(baseFee, multiset(urgent), multiset(floating), floating0[0], out);
    }
  }

  /** What was taken is live and would not make up `slots` without its last. */
  ghost predicate Needed(remotes: Pool, drop: seq<Tx>, slots: int)
  {
    && (forall i | 0 <= i < |drop| :: drop[i].hash in remotes)
    && (drop != [] ==> SlotSum(multiset(drop[..|drop| - 1])) < slots)
  }

  lemma NeededMore(remotes: Pool, drop: seq<Tx>, slots: int, tx: Tx)
    requires Needed(remotes, drop, slots) && tx.hash in remotes && SlotSum(multiset(drop)) < slots
    ensures Needed(remotes, drop + [tx], slots)
  {
    assert (drop + [tx])[..|drop|] == drop;
  }

  /** Take the cheapest live entries until they make up `slots`, or none is left. */
  method Evict(baseFee: BaseFee, remotes: Pool, urgent0: seq<Tx>, floating0: seq<Tx>, slots: int)
    returns (urgent: seq<Tx>, floating: seq<Tx>, drop: seq<Tx>, missing: int)
    requires Ordered(baseFee, urgent0, floating0)
    ensures Ordered(baseFee, urgent, floating)
    ensures LiveIn(remotes, urgent0, floating0) == LiveIn(remotes, urgent, floating) + multiset(drop)
    ensures missing == slots - SlotSum(multiset(drop)) && Needed(remotes, drop, slots)
    ensures missing > 0 ==> urgent == [] && floating == []
    ensures InOrder(baseFee, multiset(urgent0), multiset(floating0), []) ==>
              InOrder(baseFee, multiset(urgent), multiset(floating), drop)
  {
    urgent, floating, drop, missing := urgent0, floating0, [], slots;
    while missing > 0 && (|urgent| > 0 || |floating| > 0)
      invariant Ordered(baseFee, urgent, floating)
      invariant LiveIn(remotes, urgent0, floating0) == LiveIn(remotes, urgent, floating) + multiset(drop)
      invariant missing == slots - SlotSum(multiset(drop)) && Needed(remotes, drop, slots)
      invariant InOrder(baseFee, multiset(urgent0), multiset(floating0), []) ==>
                  InOrder(baseFee, multiset(urgent), multiset(floating), drop)
      decreases 2 * |urgent| + |floating|
    {
      urgent, floating, drop, missing := EvictNext(baseFee, remotes, urgent, floating, drop, missing, slots);
    }
  }

  method EvictNext(baseFee: BaseFee, remotes: Pool, urgent0: seq<Tx>, floating0: seq<Tx>, drop0: seq<Tx>, missing0: int,
                   ghost slots: int)
    returns (urgent: seq<Tx>, floating: seq<Tx>, drop: seq<Tx>, missing: int)
    requires Ordered(baseFee, urgent0, floating0) && (urgent0 != [] || floating0 != [])
    requires 0 < missing0 == slots - SlotSum(multiset(drop0)) && Needed(remotes, drop0, slots)
    ensures Ordered(baseFee, urgent, floating) && 2 * |urgent| + |floating| < 2 * |urgent0| + |floating0|
    ensures LiveIn(remotes, urgent0, floating0) + multiset(drop0) == LiveIn(remotes, urgent, floating) + multiset(drop)
    ensures missing == slots - SlotSum(multiset(drop)) && Needed(remotes, drop, slots)
    ensures InOrder(baseFee, multiset(urgent0), multiset(floating0), drop0) ==>
              InOrder(baseFee, multiset(urgent), multiset(floating), drop)
  {
    var out;
    drop, missing := drop0, missing0;
    urgent, floating, out := EvictOne(baseFee, remotes, urgent0, floating0);
    InOrderNext(baseFee, multiset(urgent0), multiset(floating0), multiset(urgent), multiset(floating), drop, out);
    ConserveNext(remotes, LiveIn(remotes, urgent0, floating0), LiveIn(remotes, urgent, floating), drop, out, slots);
    if out.Some? {
      drop := drop + [out.value];
      missing := missing - NumSlots(out.value);
    }
  }

  lemma ConserveNext(remotes: Pool, live0: multiset<Tx>, live: multiset<Tx>, drop: seq<Tx>, out: Option<Tx>, slots: int)
    requires live0 == live + if out.Some? then multiset{out.value} else multiset{}
    requires Needed(remotes, drop, slots) && SlotSum(multiset(drop)) < slots
    requires out.Some? ==> out.value.hash in remotes
    ensures out.None? ==> live0 + multiset(drop) == live + multiset(drop)
    ensures out.Some? ==> live0 + multiset(drop) == live + multiset(drop + [out.value])
    ensures out.Some? ==> SlotSum(multiset(drop + [out.value])) == SlotSum(multiset(drop)) + NumSlots(out.value)
    ensures out.Some? ==> Needed(remotes, drop + [out.value], slots)
  {
    if out.Some? {
      SlotSumAdd(multiset(drop), out.value);
      NeededMore(remotes, drop, slots, out.value);
      assert multiset(drop + [out.value]) == multiset(drop) + multiset{out.value};
    }
  }

  lemma TakeOne(txs: seq<Tx>, i: nat)
    requires i < |txs|
    ensures multiset(txs[..i + 1]) == multiset(txs[..i]) + multiset{txs[i]}
  {
    assert txs[..i + 1] == txs[..i] + [txs[i]];
  }

  lemma MoreLive(remotes: Pool, before: multiset<Tx>, now: multiset<Tx>, txs: seq<Tx>, i: nat)
    requires i < |txs| && txs[i].hash in remotes && Live(remotes, now) == Live(remotes, before) + multiset(txs[..i])
    ensures Live(remotes, now + multiset{txs[i]}) == Live(remotes, before) + multiset(txs[..i + 1])
  {
    LiveAdd(remotes, now, txs[i]);
    TakeOne(txs, i);
  }

  /** Put the given entries back on the urgent heap. */
  method PushAll(baseFee: BaseFee, remotes: Pool, urgent0: seq<Tx>, txs: seq<Tx>) returns (urgent: seq<Tx>)
    requires ByPrice(baseFee, urgent0)
    requires forall i | 0 <= i < |txs| :: txs[i].hash in remotes
    ensures ByPrice(baseFee, urgent)
    ensures Live(remotes, multiset(urgent)) == Live(remotes, multiset(urgent0)) + multiset(txs)
  {
    urgent := urgent0;
    for i := 0 to |txs|
      invariant ByPrice(baseFee, urgent)
      invariant Live(remotes, multiset(urgent)) == Live(remotes, multiset(urgent0)) + multiset(txs[..i])
    {
      MoreLive(remotes, multiset(urgent0), multiset(urgent), txs, i);
      urgent := PushOne(baseFee, urgent, txs[i]);
    }
    assert txs[..|txs|] == txs;
  }

  lemma LiveWithin(remotes: Pool, a: multiset<Tx>, b: multiset<Tx>)
    ensures Live(remotes, a) + Live(remotes, b) <= a + b
  {
    forall t ensures (Live(remotes, a) + Live(remotes, b))[t] <= (a + b)[t] {
      LiveAt(remotes, a, t);
      LiveAt(remotes, b, t);
    }
  }

  lemma NothingLive(remotes: Pool)
    ensures Live(remotes, multiset([])) == multiset{}
  {
  }

  /** Every remote transaction, except those in `out`, has an entry. */
  ghost predicate Tracked(remotes: Pool, entries: multiset<Tx>, out: set<Hash>)
  {
    forall h | h in remotes && h !in out :: remotes[h] in entries
  }

  /** Conserving live entries conserves the tracking of the remotes. */
  lemma TrackedAfter(remotes: Pool, before: multiset<Tx>, after: multiset<Tx>, drop: seq<Tx>)
    requires WellHashed(remotes) && Tracked(remotes, before, {})
    requires Live(remotes, before) == Live(remotes, after) + multiset(drop)
    ensures Tracked(remotes, after, HashesOf(drop))
  {
    forall h | h in remotes ensures h in HashesOf(drop) || remotes[h] in after {
      var t := remotes[h];
      LiveAt(remotes, before, t);
      LiveAt(remotes, after, t);
      if t in multiset(drop) {
        var i :| 0 <= i < |drop| && drop[i] == t;
        assert h in HashesOf(drop);
      }
    }
  }

  lemma LiveSum(remotes: Pool, a: multiset<Tx>, b: multiset<Tx>)
    ensures Live(remotes, a + b) == Live(remotes, a) + Live(remotes, b)
  {
    forall t ensures Live(remotes, a + b)[t] == (Live(remotes, a) + Live(remotes, b))[t] {
      LiveAt(remotes, a, t);
      LiveAt(remotes, b, t);
      LiveAt(remotes, a + b, t);
    }
  }

  lemma KeepTracking(remotes: Pool, u0: seq<Tx>, f0: seq<Tx>, u: seq<Tx>, f: seq<Tx>, drop: seq<Tx>)
    requires LiveIn(remotes, u0, f0) == LiveIn(remotes, u, f) + multiset(drop)
    ensures WellHashed(remotes) && Tracked(remotes, multiset(u0) + multiset(f0), {}) ==>
              Tracked(remotes, multiset(u) + multiset(f), HashesOf(drop))
  {
    LiveSum(remotes, multiset(u0), multiset(f0));
    LiveSum(remotes, multiset(u), multiset(f));
    if WellHashed(remotes) && Tracked(remotes, multiset(u0) + multiset(f0), {}) {
      TrackedAfter(remotes, multiset(u0) + multiset(f0), multiset(u) + multiset(f), drop);
    }
  }

  /** With `rest` kept and `drop` taken, the total decides whether enough was taken. */
  lemma EnoughIff(rest: multiset<Tx>, drop: multiset<Tx>, slots: int)
    requires SlotSum(drop) < slots ==> rest == multiset{}
    ensures slots <= SlotSum(rest + drop) <==> slots <= SlotSum(drop)
  {
    SlotSumMonotone(drop, rest);
    if rest == multiset{} {
      assert rest + drop == drop;
    }
  }

  // --------------------------------------------------------------- reheaping

  /** `ms` holds exactly the remotes, each once. */
  ghost predicate ExactlyRemotes(remotes: Pool, ms: multiset<Tx>)
  {
    forall t :: ms[t] == if t.hash in remotes && remotes[t.hash] == t then 1 else 0
  }

  lemma ExactTracks(remotes: Pool, ms: multiset<Tx>)
    requires WellHashed(remotes) && ExactlyRemotes(remotes, ms)
    ensures Tracked(remotes, ms, {})
  {
    forall h | h in remotes ensures remotes[h] in ms {
      assert ms[remotes[h]] == 1;
    }
  }

  method ListRemotes(remotes: Pool) returns (txs: seq<Tx>)
    requires WellHashed(remotes)
    ensures |txs| == |remotes| && ExactlyRemotes(remotes, multiset(txs))
  {
    txs := [];
    var todo := remotes.Keys;
    assert |remotes| == |remotes.Keys|;
    while todo != {}
      invariant todo <= remotes.Keys && |txs| + |todo| == |remotes|
      invariant forall t :: multiset(txs)[t] ==
                              if t.hash in remotes && t.hash !in todo && remotes[t.hash] == t then 1 else 0
      decreases todo
    {
      var h := Choose(todo);
      todo := todo - {h};
      txs := txs + [remotes[h]];
    }
  }

  /** Move the `count` cheapest entries of the heap into a list. */
  method TakeCheapest(baseFee: BaseFee, h0: seq<Tx>, count: nat) returns (h: seq<Tx>, taken: seq<Tx>)
    requires Heap.IsHeap(Less(baseFee), h0) && count <= |h0|
    ensures Heap.IsHeap(Less(baseFee), h) && |taken| == count
    ensures multiset(h) + multiset(taken) == multiset(h0)
    ensures forall t, u | t in multiset(taken) && u in multiset(h) :: !Cheaper(baseFee, u, t)
  {
    h, taken := h0, [];
    LessOrder(baseFee);
    for i := 0 to count
      invariant Heap.IsHeap(Less(baseFee), h) && |taken| == i && |h| + i == |h0|
      invariant multiset(h) + multiset(taken) == multiset(h0)
      invariant forall t, u | t in multiset(taken) && u in multiset(h) :: !Cheaper(baseFee, u, t)
    {
      forall u | u in multiset(h) ensures !Cheaper(baseFee, u, h[0]) {
        var k :| 0 <= k < |h| && h[k] == u;
        Heap.RootMin(Less(baseFee), h, k);
      }
      Heap.PopOk(Less(baseFee), h);
      taken := taken + [h[0]];
      h := Heap.Pop(Less(baseFee), h);
    }
  }

  /** Evict for `slots`; without force, too few slots undo the eviction.  Also count the
      stale entries met. */
  method DiscardFrom(baseFee: BaseFee, remotes: Pool, urgent0: seq<Tx>, floating0: seq<Tx>, slots: int, force: bool)
    returns (urgent: seq<Tx>, floating: seq<Tx>, drop: seq<Tx>, ok: bool, popped: int)
    requires Ordered(baseFee, urgent0, floating0)
    ensures Ordered(baseFee, urgent, floating)
    ensures ok <==> force || slots <= SlotSum(LiveIn(remotes, urgent0, floating0))
    ensures LiveIn(remotes, urgent0, floating0) == LiveIn(remotes, urgent, floating) + multiset(drop)
    ensures !ok ==> drop == []
    ensures WellHashed(remotes) && Tracked(remotes, multiset(urgent0) + multiset(floating0), {}) ==>
              Tracked(remotes, multiset(urgent) + multiset(floating), HashesOf(drop))
    ensures ok && slots <= SlotSum(LiveIn(remotes, urgent0, floating0)) ==> SlotSum(multiset(drop)) >= slots
    ensures Needed(remotes, drop, slots)
    ensures Split(baseFee, multiset(urgent0), multiset(floating0)) ==>
              CheapestTaken(drop, LiveIn(remotes, urgent, floating))
  {
    var missing;
    urgent, floating, drop, missing := Evict(baseFee, remotes, urgent0, floating0, slots);
    popped := |urgent0| + |floating0| - |urgent| - |floating| - |drop|;
    NothingLive(remotes);
    LiveWithin(remotes, multiset(urgent), multiset(floating));
    EnoughIff(LiveIn(remotes, urgent, floating), multiset(drop), slots);
    if missing > 0 && !force {
      urgent := PushAll(baseFee, remotes, urgent, drop);
      drop, ok := [], false;
    } else {
      ok := true;
    }
    KeepTracking(remotes, urgent0, floating0, urgent, floating, drop);
  }

  // ------------------------------------------------------------- slots freed

  /** What was taken is part of `live` and enough if that is possible at all, and would
      not be without its last. */
  ghost predicate Taken(live: multiset<Tx>, drop: seq<Tx>, slots: int)
  {
    && multiset(drop) <= live && (slots <= SlotSum(live) ==> slots <= SlotSum(multiset(drop)))
    && (drop != [] ==> SlotSum(multiset(drop[..|drop| - 1])) < slots)
  }

  /** Each entry is the transaction found under its hash. */
  ghost predicate Genuine(pool: Pool, entries: multiset<Tx>)
  {
    forall t | t in entries :: t.hash in pool && pool[t.hash] == t
  }

  /** Where hashes identify transactions, as `of` reads them, every live entry is genuine. */
  lemma ReadIsGenuine(of: Hash -> Tx, remotes: Pool, urgent: seq<Tx>, floating: seq<Tx>)
    requires forall t | t in urgent || t in floating :: of(t.hash) == t
    requires forall h | h in remotes :: of(h) == remotes[h]
    ensures Genuine(remotes, LiveIn(remotes, urgent, floating))
  {
    forall t | t in LiveIn(remotes, urgent, floating) ensures t.hash in remotes && remotes[t.hash] == t {
      LiveAt(remotes, multiset(urgent), t);
      LiveAt(remotes, multiset(floating), t);
    }
  }

  /** The slots of those entries whose hash came before. */
  ghost function Repeats(drop: seq<Tx>): nat
  {
    if drop == [] then 0
    else
      var last := |drop| - 1;
      Repeats(drop[..last]) + if drop[last].hash in HashesOf(drop[..last]) then NumSlots(drop[last]) else 0
  }

  /** Removing transactions frees what they take up, less what is counted twice. */
  lemma {:induction false} FreedIs(pool: Pool, drop: seq<Tx>)
    requires Genuine(pool, multiset(drop))
    ensures Sum(SlotsOf(pool - HashesOf(drop))) == Sum(SlotsOf(pool)) - SlotSum(multiset(drop)) + Repeats(drop)
  {
    if drop == [] {
      assert pool - HashesOf(drop) == pool;
    } else {
      var last := |drop| - 1;
      var rest, tx := drop[..last], drop[last];
      assert drop == rest + [tx] && multiset(drop) == multiset(rest) + multiset{tx};
      FreedIs(pool, rest);
      SlotSumAdd(multiset(rest), tx);
      HashesMore(rest, tx);
      assert tx in multiset(drop);
      SlotsDrop(pool - HashesOf(rest), tx.hash);
      DropOneMore(pool, HashesOf(rest), tx.hash);
    }
  }

  /** Entries that are exactly the remotes do not repeat. */
  lemma {:induction false} NoRepeats(remotes: Pool, live: multiset<Tx>, drop: seq<Tx>)
    requires ExactlyRemotes(remotes, live) && multiset(drop) <= live
    ensures Repeats(drop) == 0 && Genuine(remotes, multiset(drop))
  {
    if drop == [] {
    } else {
      var last := |drop| - 1;
      var rest, tx := drop[..last], drop[last];
      assert drop == rest + [tx] && multiset(drop) == multiset(rest) + multiset{tx};
      NoRepeats(remotes, live, rest);
      NotBefore(remotes, live, rest, tx);
    }
  }

  lemma NotBefore(remotes: Pool, live: multiset<Tx>, rest: seq<Tx>, tx: Tx)
    requires ExactlyRemotes(remotes, live) && multiset(rest) + multiset{tx} <= live && Genuine(remotes, multiset(rest))
    ensures tx.hash !in HashesOf(rest) && Genuine(remotes, multiset(rest) + multiset{tx})
  {
    assert 1 <= (multiset(rest) + multiset{tx})[tx] <= live[tx];
    forall i | 0 <= i < |rest| ensures rest[i].hash != tx.hash {
      assert rest[i] in multiset(rest);
    }
  }

  /** If no remote has two live entries, what is taken frees the slots asked for. */
  lemma FreesEnough(pool: Pool, remotes: Pool, live: multiset<Tx>, drop: seq<Tx>, slots: int)
    requires Extends(remotes, pool) && ExactlyRemotes(remotes, live) && Taken(live, drop, slots)
    requires slots <= SlotSum(live)
    ensures Sum(SlotsOf(pool - HashesOf(drop))) <= Sum(SlotsOf(pool)) - slots
  {
    NoRepeats(remotes, live, drop);
    FreedIs(pool, drop);
  }

  /** No eviction frees more than the remotes take up. */
  lemma FreesAtMost(pool: Pool, remotes: Pool, drop: seq<Tx>)
    requires Extends(remotes, pool) && Genuine(remotes, multiset(drop))
    ensures Sum(SlotsOf(pool - HashesOf(drop))) >= Sum(SlotsOf(pool)) - Sum(SlotsOf(remotes))
  {
    FreedIs(pool, drop);
    FreedIs(remotes, drop);
    SlotsPositive(remotes - HashesOf(drop));
  }

  // ----------------------------------------------------------- the list itself

  /** The heaps without their inner order. */
  datatype Heaps = Heaps(urgent: multiset<Tx>, floating: multiset<Tx>, stales: int, baseFee: BaseFee)

  function Grown(h: Heaps, tx: Tx): Heaps
  {
    h.(urgent := h.urgent + multiset{tx})
  }

  /** So many more stale entries do not make the heaps be rebuilt. */
  predicate Bears(h: Heaps, count: nat)
  {
    h.stales + count <= (|h.urgent| + |h.floating|) / 4
  }

  class Priced {
    const all: Lookup
    var urgent: seq<Tx>
    var floating: seq<Tx>
    var baseFee: BaseFee
    var stales: int

    ghost function View(): Heaps
      reads this
    {
      Heaps(multiset(urgent), multiset(floating), stales, baseFee)
    }

    ghost function Entries(): multiset<Tx>
      reads this
    {
      multiset(urgent) + multiset(floating)
    }

    ghost function LiveEntries(): multiset<Tx>
      reads this, all
    {
      LiveIn(all.remotes, urgent, floating)
    }

    ghost predicate Splits()
      reads this
    {
      Split(baseFee, multiset(urgent), multiset(floating))
    }

    /** No live entry is cheaper than `tx`. */
    ghost predicate Outprices(tx: Tx)
      reads this, all
    {
      IsUnderpriced(baseFee, all.remotes, urgent, floating, tx)
    }

    /** The heaps are in order and every remote transaction has an entry. */
    ghost predicate Valid()
      reads this, all
    {
      Ordered(baseFee, urgent, floating) && WellHashed(all.remotes) && Tracked(all.remotes, Entries(), {})
    }

    constructor (all: Lookup)
      requires all.remotes == map[]
      ensures Valid() && this.all == all && View() == Heaps(multiset{}, multiset{}, 0, None)
    {
      this.all := all;
      urgent, floating, baseFee, stales := [], [], None, 0;
    }

    /** Track a new remote transaction; the lookup has it already. */
    method Put(tx: Tx, local: bool)
      requires Ordered(baseFee, urgent, floating)
      modifies this`urgent
      ensures Ordered(baseFee, urgent, floating)
      ensures Entries() == old(Entries()) + if local then multiset{} else multiset{tx}
      ensures View() == if local then old(View()) else Grown(old(View()), tx)
    {
      if local {
        return;
      }
      urgent := PushOne(baseFee, urgent, tx);
    }

    method Underpriced(tx: Tx) returns (r: bool)
      requires Ordered(baseFee, urgent, floating)
      modifies this`urgent, this`floating, this`stales
      ensures Ordered(baseFee, urgent, floating)
      ensures old(Valid()) ==> Valid()
      ensures r <==> old(Outprices(tx))
      ensures LiveEntries() == old(LiveEntries())
      ensures old(Splits()) ==> Splits()
    {
      var u0, f0 := urgent, floating;
      OrderedIsHeaps(baseFee, u0, f0);
      urgent, floating, r := UnderpricedIn(baseFee, all.remotes, urgent, floating, tx);
      stales := stales - (|u0| + |f0| - |urgent| - |floating|);
      OrderedIsHeaps(baseFee, urgent, floating);
      SplitShrinks(baseFee, multiset(u0), multiset(f0), multiset(urgent), multiset(floating));
      KeepTracking(all.remotes, u0, f0, urgent, floating, []);
    }

    /** Rebuild both heaps from the remotes: no stale entry is left, and the cheapest
        fifth by urgent order goes to the floating heap. */
    method Reheap()
      requires WellHashed(all.remotes)
      modifies this`urgent, this`floating, this`stales
      ensures Valid() && stales == 0 && ExactlyRemotes(all.remotes, Entries())
      ensures |floating| == |all.remotes| * FLOATING_RATIO / (URGENT_RATIO + FLOATING_RATIO)
      ensures forall t, u | t in multiset(floating) && u in multiset(urgent) :: !Cheaper(baseFee, u, t)
    {
      stales := 0;
      var list := ListRemotes(all.remotes);
      LessOrder(baseFee);
      Heap.InitOk(Less(baseFee), list);
      var heap := Heap.Init(Less(baseFee), list);
      var count := |heap| * FLOATING_RATIO / (URGENT_RATIO + FLOATING_RATIO);
      var taken;
      urgent, taken := TakeCheapest(baseFee, heap, count);
      LessOrder(None);
      Heap.InitOk(Less(None), taken);
      floating := Heap.Init(Less(None), taken);
      OrderedIsHeaps(baseFee, urgent, floating);
      ExactTracks(all.remotes, Entries());
    }

    /** Count stale entries; reheap above a quarter. */
    method Removed(count: nat)
      requires Ordered(baseFee, urgent, floating) && WellHashed(all.remotes)
      modifies this`urgent, this`floating, this`stales
      ensures Ordered(baseFee, urgent, floating)
      ensures forall out :: old(Tracked(all.remotes, Entries(), out)) ==> Tracked(all.remotes, Entries(), out)
      ensures if Bears(old(View()), count) then View() == old(View()).(stales := old(stales) + count)
              else ExactlyRemotes(all.remotes, Entries()) && stales == 0
    {
      stales := stales + count;
      if stales <= (|urgent| + |floating|) / 4 {
        return;
      }
      Reheap();
    }

    method SetBaseFee(fee: nat)
      requires WellHashed(all.remotes)
      modifies this
      ensures Valid() && baseFee == Some(fee) && ExactlyRemotes(all.remotes, Entries())
    {
      baseFee := Some(fee);
      Reheap();
    }

    /** Find the cheapest live entries that free `slots`.  It fails exactly if all live
        entries together are too few, and then nothing is lost; otherwise what is kept
        and what is dropped make up what was live. */
    method Discard(slots: int, force: bool) returns (drop: seq<Tx>, ok: bool)
      requires Ordered(baseFee, urgent, floating)
      modifies this`urgent, this`floating, this`stales
      ensures Ordered(baseFee, urgent, floating)
      ensures ok <==> force || slots <= SlotSum(old(LiveEntries()))
      ensures old(LiveEntries()) == LiveEntries() + multiset(drop)
      ensures !ok ==> drop == []
      ensures old(Valid()) ==> Tracked(all.remotes, Entries(), HashesOf(drop))
      ensures forall i | 0 <= i < |drop| :: drop[i].hash in all.remotes
      ensures Taken(old(LiveEntries()), drop, slots)
      ensures old(Splits()) ==> CheapestOf(old(LiveEntries()), drop)
    {
      var popped;
      ghost var live, splits := LiveEntries(), Splits();
      urgent, floating, drop, ok, popped := DiscardFrom(baseFee, all.remotes, urgent, floating, slots, force);
      stales := stales - popped;
      if splits { TakenOf(live, LiveEntries(), drop); }
    }
  }

  lemma {:induction false} SlotSumMonotone(a: multiset<Tx>, b: multiset<Tx>)
    ensures SlotSum(b + a) >= SlotSum(a)
    decreases |b|
  {
    if b == multiset{} {
      assert b + a == a;
    } else {
      var t :| t in b;
      SlotSumMonotone(a, b - multiset{t});
      SlotSumAdd(b - multiset{t} + a, t);
      assert b - multiset{t} + a + multiset{t} == b + a;
    }
  }
}
