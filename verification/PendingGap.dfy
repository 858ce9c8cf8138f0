/** A run of the pool after which a pending list has a gap: the chain falls back, the
    transaction at its nonce is added back, the one behind it is refused. */
module PendingGap {
  import opened Common
  import opened Transactions
  import opened MapSum
  import opened TxLookup
  import opened TxSortedMap
  import opened TxList
  import opened PoolLists
  import opened PoolState
  import opened ChainView
  import opened PendingLine
  import opened P = TxPool

  const AHEAD: ChainState := ChainState(map[1 := 5], map[1 := 9], 9)
  const BEHIND: ChainState := ChainState(map[1 := 3], map[1 := 9], 9)

  /** Account 1 has its nonce at `first` or below, and can pay. */
  ghost predicate CanPay(state: ChainState, first: nat)
  {
    Lookup0(state.nonces, 1) <= first && state.balances == map[1 := 9] && state.maxGas == 9
  }

  /** The transaction of account 1 with the given nonce. */
  function At(n: uint64): Tx
  {
    Tx(n, 1, n, 1, 1, 1, 1, TX_SLOT_SIZE)
  }

  /** Account 1 has these lists, and no other account has any. */
  ghost predicate Alone(pending: ByAccount, queue: ByAccount, p: Items, q: Items)
  {
    pending.Keys <= {1} && queue.Keys <= {1} && Get(pending, 1) == p && Get(queue, 1) == q
  }

  /** The pool has these transactions of account 1 and nothing else. */
  ghost predicate Has(pool: TxPool, p: Items, q: Items)
    reads pool, pool.all, pool.priced
  {
    && pool.Valid() && pool.config == DEFAULT_CONFIG && pool.locals == {} && pool.gasPrice == 1
    && Alone(pool.pending, pool.queue, p, q)
  }

  /** All transactions are among those with nonces 3, 5 and 6. */
  ghost predicate Few(m: Items)
  {
    forall n: nat | n in m :: n in {3, 5, 6} && m[n] == At(n)
  }

  lemma OneSlot(n: uint64)
    ensures NumSlots(At(n)) == 1
  {
  }

  lemma {:induction false} OneSlotEach(pool: Pool)
    requires forall h | h in pool :: NumSlots(pool[h]) == 1
    ensures Sum(SlotsOf(pool)) == |pool|
    decreases |pool|
  {
    if pool == map[] {
      assert SlotsOf(pool) == map[];
    } else {
      var h := SomeKey(pool);
      OneSlotEach(pool - {h});
      SlotsDrop(pool, h);
      assert (pool - {h}).Keys == pool.Keys - {h};
    }
  }

  lemma FewSlots(pool: Pool)
    requires forall h: Hash | h in pool :: h in {3, 5, 6} && pool[h] == At(h)
    ensures Sum(SlotsOf(pool)) <= 3
  {
    forall h: Hash | h in pool ensures h in {3, 5, 6} && NumSlots(pool[h]) == 1 {
      assert pool[h] == At(h);
    }
    OneSlotEach(pool);
    SubsetCard(pool.Keys, {3, 5, 6});
    assert |pool.Keys| == |pool|;
  }

  lemma HasFew(pool: TxPool, p: Items, q: Items)
    requires Has(pool, p, q) && Few(p) && Few(q)
    ensures pool.all.slots <= 3 && forall h: Hash | h in pool.all.All() :: h in {3, 5, 6} && pool.all.All()[h] == At(h)
    ensures forall n: uint64 | n !in p && n !in q :: n !in pool.all.All()
  {
    var all := pool.all.All();
    forall h: Hash | h in all ensures h in {3, 5, 6} && all[h] == At(h) && (h in p || h in q) {
      assert InPool(pool.pending, pool.queue, all[h]);
    }
    FewSlots(all);
  }

  /** There is room for one more, and its place is free. */
  lemma Free(pool: TxPool, p: Items, q: Items, n: uint64)
    requires Has(pool, p, q) && Few(p) && Few(q) && n !in p && n !in q
    ensures n !in pool.all.All() && pool.Excess(At(n), pool.all.slots) <= 0
    ensures forall h: Hash | h in pool.all.All() :: !SamePlace(pool.all.All()[h], At(n))
  {
    HasFew(pool, p, q);
    OneSlot(n);
  }

  /** Add a remote transaction at a free place. */
  method AddFree(pool: TxPool, tx: Tx)
    requires pool.Valid() && tx.sender !in pool.locals && Acceptable(tx, false, pool.gasPrice, pool.state)
    requires tx.hash !in pool.all.All() && pool.Excess(tx, pool.all.slots) <= 0
    requires forall h | h in pool.all.All() :: !SamePlace(pool.all.All()[h], tx)
    modifies pool`pending, pool`queue, pool`locals, pool`nonces, pool.all, pool.priced
    ensures pool.Valid() && pool.locals == old(pool.locals) && pool.nonces == old(pool.nonces)
    ensures PlacedIn(old(pool.pending), old(pool.queue), tx, pool.pending, pool.queue)
  {
    ghost var before := pool.all.All();
    var replaced, err, drop := pool.Add(tx, false, true);
    assert before - HashesOf([]) == before;
    assert err.None?;
  }

  /** Queue a transaction with one of these nonces. */
  method Queue(pool: TxPool, n: uint64, ghost p: Items, ghost q: Items)
    requires Has(pool, p, q) && Few(p) && Few(q) && n in {3, 5, 6} && n !in p && n !in q
    requires CanPay(pool.state, n)
    modifies pool`pending, pool`queue, pool`locals, pool`nonces, pool.all, pool.priced
    ensures Has(pool, p, q[n := At(n)]) && pool.nonces == old(pool.nonces)
  {
    Free(pool, p, q, n);
    AddFree(pool, At(n));
  }

  /** The transactions with the nonces from `first` to `last`. */
  function Run(first: uint64, last: uint64): Items
  {
    map n: nat | first <= n <= last :: At(n)
  }

  lemma RunExecutable(state: ChainState, first: uint64, last: uint64)
    requires CanPay(state, first)
    ensures Executable(state, 1, Run(first, last)) == Run(first, last)
  {
    assert From(Run(first, last), Lookup0(state.nonces, 1)) == Run(first, last);
  }

  lemma AllReady(first: uint64, last: uint64, ready: seq<Tx>)
    requires first <= last && IsReady(Run(first, last), first, ready)
    ensures AfterReady(Run(first, last), ready) == map[]
  {
    assert first in Run(first, last) && Reaches(first, Run(first, last));
    assert ready[0].nonce in Run(first, last) && ready[0].nonce == first;
  }

  lemma Promoted(p: ByAccount, q: ByAccount, m: Items, kept: Items)
    requires p.Keys <= {1} && q.Keys <= {1} && kept == map[]
    ensures Merge(p, 1, m).Keys <= {1} && SetList(q, 1, kept).Keys <= {1}
    ensures Get(Merge(p, 1, m), 1) == Get(p, 1) + m && Get(SetList(q, 1, kept), 1) == map[]
  {
    GetMerged(p, 1, m);
  }

  lemma NothingLeft(first: uint64, last: uint64, ready: seq<Tx>, kept: Items)
    requires first <= last && IsReady(Run(first, last), first, ready)
    requires Within(AfterReady(Run(first, last), ready), Limit(false, DEFAULT_CONFIG.accountQueue), kept)
    ensures kept == map[] && Run(first, last) - AfterReady(Run(first, last), ready).Keys == Run(first, last)
  {
    AllReady(first, last, ready);
    assert |kept| == 0;
  }

  lemma RunPromoted(state: ChainState, p0: ByAccount, q0: ByAccount, first: uint64, last: uint64, ready: seq<Tx>,
                    m: Items, kept: Items, p: Items)
    requires Alone(p0, q0, p, Run(first, last)) && first <= last && CanPay(state, first)
    requires m == Executable(state, 1, Get(q0, 1))
    requires IsReady(m, first, ready) && Within(AfterReady(m, ready), Limit(false, DEFAULT_CONFIG.accountQueue), kept)
    ensures Alone(Merge(p0, 1, m - AfterReady(m, ready).Keys), SetList(q0, 1, kept), p + Run(first, last), map[])
  {
    RunExecutable(state, first, last);
    NothingLeft(first, last, ready, kept);
    Promoted(p0, q0, m, kept);
  }

  /** Promote a queue that is ready as a whole. */
  method PromoteRun(pool: TxPool, first: uint64, last: uint64, ghost p: Items)
    requires Has(pool, p, Run(first, last)) && first <= last && CanPay(pool.state, first)
    requires NonceOf(pool.nonces, pool.state.nonces, 1) == first
    modifies pool`pending, pool`queue, pool`nonces, pool.all, pool.priced
    ensures Has(pool, p + Run(first, last), map[])
  {
    ghost var p0, q0 := pool.pending, pool.queue;
    var ready, m, rest, kept := pool.PromoteAccount(1);
    RunPromoted(pool.state, p0, q0, first, last, ready, m, kept, p);
  }

  lemma TwoRun()
    ensures map[5 := At(5), 6 := At(6)] == Run(5, 6) && map[] + Run(5, 6) == Run(5, 6)
  {
  }

  /** Nonces 5 and 6 are queued. */
  method TwoQueued() returns (pool: TxPool)
    ensures fresh(pool) && fresh(pool.all) && fresh(pool.priced)
    ensures Has(pool, map[], Run(5, 6)) && pool.state == AHEAD && pool.nonces == map[]
  {
    pool := new TxPool(DEFAULT_CONFIG, {}, AHEAD);
    Queue(pool, 5, map[], map[]);
    Queue(pool, 6, map[], map[5 := At(5)]);
    TwoRun();
  }

  /** Nonces 5 and 6 are pending, from the chain's nonce on. */
  method TwoPending() returns (pool: TxPool)
    ensures fresh(pool) && fresh(pool.all) && fresh(pool.priced)
    ensures Has(pool, Run(5, 6), map[])
  {
    pool := TwoQueued();
    TwoRun();
    PromoteRun(pool, 5, 6, map[]);
  }

  lemma Separated()
    ensures !GapFree(Standing(BEHIND, 1, Run(5, 6) + Run(3, 3)))
  {
    assert 3 in Run(3, 3);
    MissingRun(Run(5, 6), BEHIND, 1, 5, Run(3, 3), 4);
  }

  lemma FewRuns()
    ensures Few(Run(5, 6)) && Few(Run(3, 3)) && Few(map[]) && map[][3 := At(3)] == Run(3, 3)
  {
  }

  /** Take over a state that has fallen back. */
  method Rewind(pool: TxPool, ghost p: Items)
    requires Has(pool, p, map[])
    modifies pool, pool.all, pool.priced
    ensures Has(pool, p, map[]) && pool.state == BEHIND && pool.nonces == map[]
  {
    pool.Reset(Head(true, BEHIND, [], tx => true, None));
  }

  /** Of what left the chain, add back nonce 3. */
  method QueueBack(pool: TxPool)
    requires Has(pool, Run(5, 6), map[]) && pool.state == BEHIND
    modifies pool`pending, pool`queue, pool`locals, pool`nonces, pool.all, pool.priced
    ensures Has(pool, Run(5, 6), Run(3, 3)) && pool.nonces == old(pool.nonces)
  {
    FewRuns();
    Queue(pool, 3, Run(5, 6), map[]);
  }

  /** The next nonce does not pass. */
  method RefuseNext(pool: TxPool)
    requires Has(pool, Run(5, 6), Run(3, 3))
    modifies pool`pending, pool`queue, pool`locals, pool`nonces, pool.all, pool.priced
    ensures Has(pool, Run(5, 6), Run(3, 3)) && pool.nonces == old(pool.nonces)
  {
    FewRuns();
    Free(pool, Run(5, 6), Run(3, 3), 4);
    var replaced, err, drop := pool.Add(At(4), false, false);
    assert err == Some(Unacceptable);
  }

  method DemoteSeparated(pool: TxPool)
    requires Has(pool, Run(5, 6) + Run(3, 3), map[]) && pool.state == BEHIND
    modifies pool`pending, pool`queue, pool.all, pool.priced
    ensures pool.Valid() && !GapFree(Get(pool.pending, 1))
  {
    ghost var p0 := pool.pending;
    ghost var m, kept := pool.DemoteAccount(1);
    GetSet(p0, 1, kept);
    Separated();
  }

  /** The chain falls back from nonce 5 to nonce 3. */
  method Rewound() returns (pool: TxPool)
    ensures fresh(pool) && fresh(pool.all) && fresh(pool.priced)
    ensures Has(pool, Run(5, 6), map[]) && pool.state == BEHIND && pool.nonces == map[]
  {
    pool := TwoPending();
    Rewind(pool, Run(5, 6));
  }

  /** Nonce 3 is added back, nonce 4 refused. */
  method Fallen() returns (pool: TxPool)
    ensures fresh(pool) && fresh(pool.all) && fresh(pool.priced)
    ensures Has(pool, Run(5, 6), Run(3, 3)) && pool.state == BEHIND && pool.nonces == map[]
  {
    pool := Rewound();
    QueueBack(pool);
    RefuseNext(pool);
  }

  /** So the pending nonces are then 3, 5 and 6. */
  method GapExample() returns (pool: TxPool)
    ensures pool.Valid() && !GapFree(Get(pool.pending, 1))
  {
    pool := Fallen();
    PromoteRun(pool, 3, 3, Run(5, 6));
    DemoteSeparated(pool);
  }
}
