/** A run of the pool that ends above its capacity: a transaction dropped and added back
    has two entries on the price heaps, and an eviction that takes both frees its slots
    only once. */
module Overfull {
  import opened Common
  import opened Transactions
  import opened TxLookup
  import opened PricedList
  import opened ChainView
  import opened P = TxPool

  const SMALL: Config := Config(1, 10, 16, 2, 64, 2)
  const RICH: ChainState := ChainState(map[], map[1 := 9, 2 := 9, 3 := 9, 4 := 9, 5 := 9], 9)

  /** A transaction of account `k` that pays `fee` and takes up `slots` slots. */
  function Sent(k: int, fee: nat, slots: nat): Tx
  {
    Tx(k, k, 0, 1, 1, fee, fee, slots * TX_SLOT_SIZE)
  }

  lemma SentSlots(k: int, fee: nat)
    ensures NumSlots(Sent(k, fee, 1)) == 1 && NumSlots(Sent(k, fee, 2)) == 2
    ensures 1 <= k <= 5 && fee >= 1 ==>
              Acceptable(Sent(k, fee, 1), false, 1, RICH) && Acceptable(Sent(k, fee, 2), false, 1, RICH)
  {
  }

  /** A pool with remote transactions in its queue only, under their senders' numbers. */
  ghost predicate Holding(pool: TxPool, remotes: Pool, heaps: Heaps)
    reads pool, pool.all, pool.priced
  {
    && pool.Valid() && pool.config == SMALL && pool.state == RICH && pool.locals == {} && pool.pending == map[]
    && pool.all.All() == remotes && pool.Prices() == Market(map[], heaps)
    && (forall h | h in remotes :: remotes[h].sender == h)
  }

  lemma EnteredFree(pool: Pool, pool': Pool, tx: Tx, replaced: bool, err: Option<AddError>, priceBump: nat)
    requires Entered(pool, pool', tx, replaced, err, priceBump) && forall h | h in pool :: !SamePlace(pool[h], tx)
    ensures err.None? && !replaced && pool' == pool[tx.hash := tx]
  {
    forall h | h in pool' && h != tx.hash ensures h in pool && pool'[h] == pool[h] {
      assert h in pool' - {tx.hash} && (pool' - {tx.hash})[h] == pool'[h];
    }
    forall h | h in pool ensures h in pool' {
    }
    assert pool'.Keys == pool.Keys + {tx.hash};
  }

  /** Add a remote transaction to a pool with room for it. */
  method AddRemote(pool: TxPool, tx: Tx)
    requires pool.Valid() && tx.sender !in pool.locals && Acceptable(tx, false, pool.gasPrice, pool.state)
    requires tx.hash !in pool.all.All() && pool.Excess(tx, pool.all.slots) <= 0
    requires forall h | h in pool.all.All() :: !SamePlace(pool.all.All()[h], tx)
    modifies pool`pending, pool`queue, pool`locals, pool`nonces, pool.all, pool.priced
    ensures pool.Valid() && pool.locals == old(pool.locals) && pool.all.All() == old(pool.all.All())[tx.hash := tx]
    ensures old(pool.pending) == map[] ==> pool.pending == map[]
    ensures pool.Prices() == Joined(old(pool.Prices()), tx) && pool.all.slots == old(pool.all.slots) + NumSlots(tx)
  {
    ghost var before := pool.all.All();
    var replaced, err, drop := pool.Add(tx, false, true);
    assert drop == [] && before - HashesOf(drop) == before;
    EnteredFree(before, pool.all.All(), tx, replaced, err, pool.config.priceBump);
  }

  method AddSent(pool: TxPool, k: int, fee: nat, ghost remotes: Pool, ghost heaps: Heaps)
    requires Holding(pool, remotes, heaps) && 1 <= k <= 5 && fee >= 1 && pool.gasPrice == 1
    requires k !in remotes && pool.all.slots < 4
    modifies pool, pool.all, pool.priced
    ensures Holding(pool, remotes[k := Sent(k, fee, 1)], Grown(heaps, Sent(k, fee, 1)))
    ensures pool.all.slots == old(pool.all.slots) + 1 && pool.gasPrice == 1
  {
    SentSlots(k, fee);
    AddRemote(pool, Sent(k, fee, 1));
  }

  const CHEAP: Tx := Sent(1, 1, 1)
  const OTHERS: Pool := map[2 := Sent(2, 3, 1), 3 := Sent(3, 3, 1), 4 := Sent(4, 3, 1)]
  const ENTRIES: multiset<Tx> := multiset{CHEAP, Sent(2, 3, 1), Sent(3, 3, 1), Sent(4, 3, 1)}

  /** Fill an empty pool with four remote transactions of one slot; the first is the
      cheapest. */
  method FillUp() returns (pool: TxPool)
    ensures fresh(pool) && fresh(pool.all) && fresh(pool.priced)
    ensures Holding(pool, OTHERS[1 := CHEAP], Heaps(ENTRIES, multiset{}, 0, None))
    ensures pool.all.slots == 4 && pool.gasPrice == 1
  {
    pool := new TxPool(SMALL, {}, RICH);
    ghost var h0 := Heaps(multiset{}, multiset{}, 0, None);
    ghost var h1, h2, h3, h4 := FourEntries(h0);
    ghost var r1, r2, r3, r4 := FourRemotes();
    AddSent(pool, 1, 1, map[], h0);
    AddSent(pool, 2, 3, r1, h1);
    AddSent(pool, 3, 3, r2, h2);
    AddSent(pool, 4, 3, r3, h3);
  }

  lemma FourEntries(h0: Heaps) returns (h1: Heaps, h2: Heaps, h3: Heaps, h4: Heaps)
    requires h0 == Heaps(multiset{}, multiset{}, 0, None)
    ensures h1 == Grown(h0, Sent(1, 1, 1)) && h2 == Grown(h1, Sent(2, 3, 1)) && h3 == Grown(h2, Sent(3, 3, 1))
    ensures h4 == Grown(h3, Sent(4, 3, 1)) == Heaps(ENTRIES, multiset{}, 0, None)
  {
    h1 := Grown(h0, Sent(1, 1, 1));
    h2 := Grown(h1, Sent(2, 3, 1));
    h3 := Grown(h2, Sent(3, 3, 1));
    h4 := Grown(h3, Sent(4, 3, 1));
  }

  lemma FourRemotes() returns (r1: Pool, r2: Pool, r3: Pool, r4: Pool)
    ensures r1 == map[1 := Sent(1, 1, 1)] && r2 == r1[2 := Sent(2, 3, 1)] && r3 == r2[3 := Sent(3, 3, 1)]
    ensures 2 !in r1 && 3 !in r2 && 4 !in r3 && r4 == r3[4 := Sent(4, 3, 1)] == OTHERS[1 := CHEAP]
  {
    r1 := map[1 := Sent(1, 1, 1)];
    r2 := r1[2 := Sent(2, 3, 1)];
    r3 := r2[3 := Sent(3, 3, 1)];
    r4 := r3[4 := Sent(4, 3, 1)];
  }

  lemma CheapGone()
    ensures BelowTip(OTHERS[1 := CHEAP], 2) == {1} && OTHERS[1 := CHEAP] - {1} == OTHERS && 1 !in OTHERS
    ensures Bears(Heaps(ENTRIES, multiset{}, 0, None), 1) && NumSlots(CHEAP) == 1
  {
    SentSlots(1, 1);
  }

  /** Raise the minimum tip for a moment, which drops one transaction. */
  method DropOne(pool: TxPool, ghost remotes: Pool, ghost heaps: Heaps, ghost h: Hash)
    requires Holding(pool, remotes, heaps) && pool.gasPrice == 1
    requires h in remotes && BelowTip(remotes, 2) == {h} && Bears(heaps, 1)
    modifies pool, pool.all, pool.priced
    ensures Holding(pool, remotes - {h}, heaps.(stales := heaps.stales + 1)) && pool.gasPrice == 1
    ensures pool.all.slots == old(pool.all.slots) - NumSlots(remotes[h])
  {
    RaiseTip(pool, remotes, heaps, h);
    LowerTip(pool, remotes - {h}, heaps.(stales := heaps.stales + 1));
  }

  method LowerTip(pool: TxPool, ghost remotes: Pool, ghost heaps: Heaps)
    requires Holding(pool, remotes, heaps) && pool.gasPrice == 2
    modifies pool, pool.all, pool.priced
    ensures Holding(pool, remotes, heaps) && pool.gasPrice == 1 && pool.all.slots == old(pool.all.slots)
  {
    pool.SetGasPrice(1);
  }

  method RaiseTip(pool: TxPool, ghost remotes: Pool, ghost heaps: Heaps, ghost h: Hash)
    requires Holding(pool, remotes, heaps) && pool.gasPrice == 1
    requires h in remotes && BelowTip(remotes, 2) == {h} && Bears(heaps, 1)
    modifies pool, pool.all, pool.priced
    ensures Holding(pool, remotes - {h}, heaps.(stales := heaps.stales + 1)) && pool.gasPrice == 2
    ensures pool.all.slots == old(pool.all.slots) - NumSlots(remotes[h])
  {
    AllRemote(pool.all.locals, pool.all.remotes);
    SlotsDrop(remotes, h);
    pool.SetGasPrice(2);
    AllRemote(pool.all.locals, pool.all.remotes);
  }

  lemma AllRemote(ls: Pool, rs: Pool)
    ensures ls == map[] ==> ls + rs == rs
  {
  }

  /** The cheapest transaction is dropped and comes back before its entry is cleared: now
      it has two live entries. */
  method ComeBack(pool: TxPool)
    requires Holding(pool, OTHERS[1 := CHEAP], Heaps(ENTRIES, multiset{}, 0, None))
    requires pool.all.slots == 4 && pool.gasPrice == 1
    modifies pool, pool.all, pool.priced
    ensures Holding(pool, OTHERS[1 := CHEAP], Heaps(ENTRIES + multiset{CHEAP}, multiset{}, 1, None))
    ensures pool.all.slots == 4 && pool.gasPrice == 1
  {
    CheapGone();
    DropOne(pool, OTHERS[1 := CHEAP], Heaps(ENTRIES, multiset{}, 0, None), 1);
    AddSent(pool, 1, 1, OTHERS, Heaps(ENTRIES, multiset{}, 1, None));
  }

  lemma {:induction false} OneEach(ms: multiset<Tx>)
    requires forall t | t in ms :: NumSlots(t) == 1
    ensures SlotSum(ms) == |ms|
    decreases |ms|
  {
    if ms == multiset{} {
    } else {
      var t :| t in ms && SlotSum(ms) == NumSlots(t) + SlotSum(ms - multiset{t});
      OneEach(ms - multiset{t});
    }
  }

  lemma AnyEntry(t: Tx)
    requires t in ENTRIES + multiset{CHEAP}
    ensures t == Sent(1, 1, 1) || t == Sent(2, 3, 1) || t == Sent(3, 3, 1) || t == Sent(4, 3, 1)
  {
  }

  lemma EntriesSlots(ms: multiset<Tx>)
    requires ms <= ENTRIES + multiset{CHEAP}
    ensures SlotSum(ms) == |ms|
  {
    SentSlots(1, 1);
    SentSlots(2, 3);
    SentSlots(3, 3);
    SentSlots(4, 3);
    forall t | t in ms ensures NumSlots(t) == 1 {
      AnyEntry(t);
    }
    OneEach(ms);
  }

  lemma BothCheapest(live: multiset<Tx>, drop: seq<Tx>, c: Tx)
    requires |drop| == 2 && CheapestOf(live, drop) && live[c] == 2
    requires forall t | t in drop && t != c :: Cheaper(None, c, t)
    ensures drop == [c, c]
  {
    assert drop == [drop[0], drop[1]] && multiset(drop) == multiset{drop[0], drop[1]};
    assert drop[0] in drop && drop[1] in drop;
  }

  lemma TwiceRepeats(c: Tx)
    ensures Repeats([c, c]) == NumSlots(c)
  {
    assert [c, c][..1] == [c] && [c][..0] == [];
    assert [c][0].hash in HashesOf([c]);
    assert Repeats([c]) == 0;
  }

  lemma TwiceDropped(drop: seq<Tx>)
    requires Taken(ENTRIES + multiset{CHEAP}, drop, 2) && CheapestOf(ENTRIES + multiset{CHEAP}, drop)
    ensures SlotSum(multiset(drop)) == 2 && Repeats(drop) == 1
  {
    var live := ENTRIES + multiset{CHEAP};
    TwoDropped(live, drop);
    forall t | t in drop && t != CHEAP ensures Cheaper(None, CHEAP, t) {
      assert t in multiset(drop) && t in live;
    }
    BothCheapest(live, drop, CHEAP);
    TwiceRepeats(CHEAP);
    SentSlots(1, 1);
  }

  lemma TwoDropped(live: multiset<Tx>, drop: seq<Tx>)
    requires live == ENTRIES + multiset{CHEAP} && Taken(live, drop, 2)
    ensures |drop| == 2 && SlotSum(multiset(drop)) == 2
  {
    EntriesSlots(live);
    EntriesSlots(multiset(drop));
    assert |drop| >= 2;
    var last := |drop| - 1;
    assert drop == drop[..last] + [drop[last]];
    EntriesSlots(multiset(drop[..last]));
  }

  lemma LiveAll(remotes: Pool, ms: multiset<Tx>)
    requires forall t | t in ms :: t.hash in remotes
    ensures Live(remotes, ms) == ms
  {
    forall t ensures Live(remotes, ms)[t] == ms[t] {
      LiveAt(remotes, ms, t);
    }
  }

  /** Whatever is taken for two slots frees only one. */
  ghost predicate FreesOne(live: multiset<Tx>)
  {
    forall drop | Taken(live, drop, 2) && CheapestOf(live, drop) :: SlotSum(multiset(drop)) - Repeats(drop) == 1
  }

  lemma EntriesGenuine(remotes: Pool, live: multiset<Tx>)
    requires remotes == OTHERS[1 := CHEAP] && live == ENTRIES + multiset{CHEAP}
    ensures Genuine(remotes, live)
  {
    forall t | t in live ensures t.hash in remotes && remotes[t.hash] == t {
      AnyEntry(t);
      EntryIsRemote(remotes, t);
    }
  }

  lemma EntryIsRemote(remotes: Pool, t: Tx)
    requires remotes == OTHERS[1 := CHEAP]
    requires t == Sent(1, 1, 1) || t == Sent(2, 3, 1) || t == Sent(3, 3, 1) || t == Sent(4, 3, 1)
    ensures t.hash in remotes && remotes[t.hash] == t
  {
  }

  lemma EntryCount(live: multiset<Tx>)
    requires live == ENTRIES + multiset{CHEAP}
    ensures CHEAP in live && |live| == 5
  {
  }

  lemma EntriesDoubled(remotes: Pool, live: multiset<Tx>)
    requires remotes == OTHERS[1 := CHEAP] && live == ENTRIES + multiset{CHEAP}
    ensures Genuine(remotes, live) && CHEAP in live && SlotSum(live) >= 2 && FreesOne(live) && 5 !in remotes
  {
    EntriesGenuine(remotes, live);
    EntryCount(live);
    EntriesSlots(live);
    EntriesFreeOne(live);
    NoFifth();
  }

  lemma NoFifth()
    ensures 5 !in OTHERS[1 := CHEAP]
  {
  }

  lemma EntriesFreeOne(live: multiset<Tx>)
    requires live == ENTRIES + multiset{CHEAP}
    ensures FreesOne(live)
  {
    forall drop | Taken(live, drop, 2) && CheapestOf(live, drop) ensures SlotSum(multiset(drop)) - Repeats(drop) == 1 {
      TwiceDropped(drop);
    }
  }

  /** A dearer transaction is neither too cheap nor too large for what is live. */
  lemma DearerGetsIn(remotes: Pool, urgent: seq<Tx>, floating: seq<Tx>, live: multiset<Tx>, tx: Tx, cheap: Tx)
    requires Genuine(remotes, live) && cheap in live && Cmp(None, cheap, tx) < 0
    requires multiset(urgent) == live && multiset(floating) == multiset{}
    ensures LiveIn(remotes, urgent, floating) == live && !IsUnderpriced(None, remotes, urgent, floating, tx)
  {
    LiveAll(remotes, multiset(urgent));
    LiveAll(remotes, multiset(floating));
  }

  /** For a transaction of two slots the eviction takes the two entries of one transaction
      of one slot. */
  method Overfill(pool: TxPool, ghost remotes: Pool, ghost live: multiset<Tx>)
    requires Holding(pool, remotes, Heaps(live, multiset{}, 1, None)) && pool.all.slots == 4 && pool.gasPrice == 1
    requires Genuine(remotes, live) && CHEAP in live && SlotSum(live) >= 2 && FreesOne(live) && 5 !in remotes
    modifies pool, pool.all, pool.priced
    ensures pool.Valid() && pool.locals == {} && pool.config == SMALL && pool.all.slots == 5
  {
    var tx := Sent(5, 5, 2);
    assert pool.all.remotes == pool.all.All();
    SentSlots(5, 5);
    DearerGetsIn(remotes, pool.priced.urgent, pool.priced.floating, live, tx, CHEAP);
    var replaced, err, drop := pool.Add(tx, false, true);
    EnteredFree(remotes - HashesOf(drop), pool.all.All(), tx, replaced, err, SMALL.priceBump);
  }

  /** Every step of this run is a legal use of the pool, and it ends above the capacity. */
  method OverfullExample() returns (pool: TxPool)
    ensures pool.Valid() && pool.locals == {} && pool.all.slots == 5
    ensures pool.config.globalSlots + pool.config.globalQueue == 4
  {
    pool := FillUp();
    ComeBack(pool);
    EntriesDoubled(OTHERS[1 := CHEAP], ENTRIES + multiset{CHEAP});
    Overfill(pool, OTHERS[1 := CHEAP], ENTRIES + multiset{CHEAP});
  }
}
