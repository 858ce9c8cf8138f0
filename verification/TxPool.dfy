/** The transaction pool: pending and queued lists by account, the lookup of all
    transactions and the price heaps, mutated together by every operation.  Each
    list is held by its contents; module TxList shows that the list object computes
    these contents. */
module TxPool {
  import opened Common
  import MapSum
  import opened Transactions
  import opened TxLookup
  import opened TxSortedMap
  import opened TxList
  import opened PricedList
  import opened PoolLists
  import opened PoolState
  import opened Water
  import opened ChainView
  import opened PendingLine

  datatype Config = Config(priceLimit: nat, priceBump: nat, accountSlots: nat, globalSlots: nat, accountQueue: nat,
                           globalQueue: nat)

  const DEFAULT_CONFIG: Config := Config(1, 10, 16, 4096 + 1024, 64, 1024)

  function AtLeastOne(n: nat, default: nat): nat
  {
    if n < 1 then default else n
  }

  /** Settings of zero are replaced by defaults. */
  function Sanitize(c: Config): Config
  {
    Config(AtLeastOne(c.priceLimit, DEFAULT_CONFIG.priceLimit), AtLeastOne(c.priceBump, DEFAULT_CONFIG.priceBump),
           AtLeastOne(c.accountSlots, DEFAULT_CONFIG.accountSlots),
           AtLeastOne(c.globalSlots, DEFAULT_CONFIG.globalSlots),
           AtLeastOne(c.accountQueue, DEFAULT_CONFIG.accountQueue),
           AtLeastOne(c.globalQueue, DEFAULT_CONFIG.globalQueue))
  }

  /** A new head: its state, the transactions that left the chain and the next base fee.
      It is not `available` if the old head is missing, the two do not meet, or the state
      is not there. */
  datatype Head = Head(available: bool, state: ChainState, reinject: seq<Tx>, admissible: Tx -> bool,
                       baseFee: Option<nat>)

  /** The state after a reset; an unavailable head changes nothing. */
  function StateAfter(reset: Option<Head>, state: ChainState): ChainState
  {
    if reset.Some? && reset.value.available then reset.value.state else state
  }

  datatype AddError = AlreadyKnown | Unacceptable | TooCheap | PoolOverflow | ReplaceTooCheap

  /** No remote transaction is from a local account. */
  ghost predicate Foreign(remotes: Pool, locals: set<Addr>)
  {
    forall h | h in remotes :: remotes[h].sender !in locals
  }

  /** A transaction has left the list that held it; those above a pending one are queued. */
  ghost predicate Unlisted(p: ByAccount, q: ByAccount, t: Tx, p': ByAccount, q': ByAccount)
  {
    if Held(p, t) then
      && p' == SetList(p, t.sender, Under(Get(p, t.sender), t.nonce))
      && q' == Merge(q, t.sender, Over(Get(p, t.sender), t.nonce))
    else
      p' == p && q' == SetList(q, t.sender, Get(q, t.sender) - {t.nonce})
  }

  /** All accounts but those in `todo` are revalidated. */
  ghost predicate Demoted(todo: set<Addr>, state: ChainState, p0: ByAccount, q0: ByAccount, p: ByAccount, q: ByAccount)
  {
    && (forall a :: Get(p, a) == if a in todo then Get(p0, a) else Standing(state, a, Get(p0, a)))
    && (forall a :: Get(q, a) == if a in todo then Get(q0, a) else Get(q0, a) + Back(state, a, Get(p0, a)))
  }

  lemma DemoteNone(state: ChainState, p: ByAccount, q: ByAccount)
    ensures Demoted(p.Keys, state, p, q, p, q)
  {
    forall a | a !in p ensures Standing(state, a, Get(p, a)) == map[] && Back(state, a, Get(p, a)) == map[] {
    }
    assert forall a | a !in p :: Get(q, a) + map[] == Get(q, a);
  }

  lemma DemoteOne(todo: set<Addr>, state: ChainState, p0: ByAccount, q0: ByAccount, p: ByAccount, q: ByAccount,
                  p': ByAccount, q': ByAccount, a: Addr, m: Items, kept: Items)
    requires Demoted(todo, state, p0, q0, p, q) && a in todo
    requires m == Executable(state, a, Get(p, a)) && kept == Standing(state, a, Get(p, a))
    requires p' == SetList(p, a, kept) && q' == Merge(q, a, m - kept.Keys)
    ensures Demoted(todo - {a}, state, p0, q0, p', q')
  {
    GetSet(p, a, kept);
    GetMerged(q, a, m - kept.Keys);
    forall b ensures Get(p', b) == if b in todo - {a} then Get(p0, b) else Standing(state, b, Get(p0, b)) {
    }
    forall b ensures Get(q', b) == if b in todo - {a} then Get(q0, b) else Get(q0, b) + Back(state, b, Get(p0, b)) {
      assert Get(p, a) == Get(p0, a) && Get(q, a) == Get(q0, a);
    }
  }

  function Limit(unlimited: bool, count: nat): Option<nat>
  {
    if unlimited then None else Some(count)
  }

  ghost predicate Within(m: Items, limit: Option<nat>, left: Items)
  {
    if limit.None? then left == m else Lowest(m, limit.value, left)
  }

  /** A queue is payable, lies beyond the pending nonce, and is within its limit. */
  ghost predicate SettledList(m: Items, nonce: nat, balance: nat, maxGas: nat, start: nat, limit: Option<nat>)
  {
    && Payable(From(m, nonce), false, balance, maxGas) == m
    && (forall n | n in m :: n > start)
    && (limit.Some? ==> |m| <= limit.value)
  }

  ghost predicate SettledAt(queue: ByAccount, nonces: map<Addr, nat>, state: ChainState, limit: Option<nat>, a: Addr)
  {
    SettledList(Get(queue, a), Lookup0(state.nonces, a), Lookup0(state.balances, a), state.maxGas,
                NonceOf(nonces, state.nonces, a), limit)
  }

  /** Only account `a` changed. */
  ghost predicate OthersSame(a: Addr, p: ByAccount, q: ByAccount, nonces: map<Addr, nat>,
                             p': ByAccount, q': ByAccount, nonces': map<Addr, nat>)
  {
    && (forall b | b != a :: Get(p', b) == Get(p, b))
    && (forall b | b != a :: Get(q', b) == Get(q, b))
    && (forall b, base | b != a :: NonceOf(nonces', base, b) == NonceOf(nonces, base, b))
  }

  /** The lists hold what they held before and `txs`, which are new. */
  ghost predicate Added(p: ByAccount, p': ByAccount, txs: seq<Tx>)
  {
    && (forall t :: Held(p', t) <==> Held(p, t) || t in txs)
    && (forall t | t in txs :: !Held(p, t))
  }

  lemma AddedMore(p0: ByAccount, p: ByAccount, p': ByAccount, txs: seq<Tx>, more: seq<Tx>)
    requires Added(p0, p, txs) && Added(p, p', more)
    ensures Added(p0, p', txs + more)
  {
  }

  lemma MergeIsAdded(p: ByAccount, a: Addr, m: Items, txs: seq<Tx>)
    requires Lists(m, txs) && (forall n | n in m :: m[n].nonce == n && m[n].sender == a && n !in Get(p, a))
    ensures Added(p, Merge(p, a, m), txs)
  {
    GetMerged(p, a, m);
    ListsAll(m, txs);
    forall t ensures Held(Merge(p, a, m), t) <==> Held(p, t) || t in txs {
      if t.nonce in m && m[t.nonce] == t {
        assert t.nonce in NoncesOf(txs);
      }
    }
  }

  lemma RunIsAdded(p: ByAccount, q: ByAccount, pool: Pool, state: ChainState, a: Addr, m: Items, nonces: map<Addr, nat>,
                   ready: seq<Tx>)
    requires Tidy(p, q, pool, {}) && m == Executable(state, a, Get(q, a))
    requires IsReady(m, NonceOf(nonces, state.nonces, a), ready)
    ensures Added(p, Merge(p, a, m - AfterReady(m, ready).Keys), ready)
  {
    ReadyParts(m, ready);
    var run: Items := m - AfterReady(m, ready).Keys;
    forall n | n in run ensures run[n].nonce == n && run[n].sender == a && n !in Get(p, a) {
      assert n in Get(q, a) && Get(q, a)[n] == run[n];
    }
    MergeIsAdded(p, a, run, ready);
  }

  ghost predicate AllSettled(accounts: seq<Addr>, queue: ByAccount, nonces: map<Addr, nat>, state: ChainState,
                             locals: set<Addr>, count: nat)
  {
    forall a | a in accounts :: SettledAt(queue, nonces, state, Limit(a in locals, count), a)
  }

  ghost predicate SameBut(accounts: seq<Addr>, p: ByAccount, q: ByAccount, p': ByAccount, q': ByAccount)
  {
    && (forall a | a !in accounts :: Get(p', a) == Get(p, a))
    && (forall a | a !in accounts :: Get(q', a) == Get(q, a))
  }

  lemma SettledMore(accounts: seq<Addr>, i: nat, p: ByAccount, q: ByAccount, n: map<Addr, nat>,
                    p': ByAccount, q': ByAccount, n': map<Addr, nat>, state: ChainState, locals: set<Addr>, count: nat)
    requires i < |accounts| && AllSettled(accounts[..i], q, n, state, locals, count)
    requires OthersSame(accounts[i], p, q, n, p', q', n')
    requires SettledAt(q', n', state, Limit(accounts[i] in locals, count), accounts[i])
    ensures AllSettled(accounts[..i + 1], q', n', state, locals, count)
  {
    assert accounts[..i + 1] == accounts[..i] + [accounts[i]];
    forall a | a in accounts[..i + 1] ensures SettledAt(q', n', state, Limit(a in locals, count), a) {
      if a != accounts[i] { assert SettledAt(q, n, state, Limit(a in locals, count), a); }
    }
  }

  lemma SameButMore(accounts: seq<Addr>, i: nat, p0: ByAccount, q0: ByAccount, p: ByAccount, q: ByAccount,
                    n: map<Addr, nat>, p': ByAccount, q': ByAccount, n': map<Addr, nat>)
    requires i < |accounts| && SameBut(accounts, p0, q0, p, q) && OthersSame(accounts[i], p, q, n, p', q', n')
    ensures SameBut(accounts, p0, q0, p', q')
  {
  }

  lemma PayablePart(q: Items, nonce: nat, balance: nat, maxGas: nat, left: Items)
    requires SubItems(left, Payable(From(q, nonce), false, balance, maxGas))
    ensures Payable(From(left, nonce), false, balance, maxGas) == left
  {
  }

  lemma LeftIsBeyond(m: Items, start: nat, ready: seq<Tx>, limit: Option<nat>, left: Items, n: nat)
    requires WellKeyed(m) && IsReady(m, start, ready) && Within(AfterReady(m, ready), limit, left) && n in left
    ensures n in m && m[n] == left[n] && n > if ready == [] then start else Next(ready[|ready| - 1].nonce)
  {
    ReadyParts(m, ready);
    assert n in AfterReady(m, ready) && n in m && m[n].nonce == n;
    if ready != [] {
      var first, last := ready[0].nonce, ready[|ready| - 1];
      assert n != first + |ready| && last.nonce == first + (|ready| - 1);
    }
  }

  /** After promotion nothing more is to be done. */
  lemma PromotedSettles(q: ByAccount, q': ByAccount, nonces: map<Addr, nat>, nonces': map<Addr, nat>, state: ChainState,
                        a: Addr, m: Items, ready: seq<Tx>, rest: Items, limit: Option<nat>)
    requires WellKeyed(Get(q, a)) && m == Executable(state, a, Get(q, a))
    requires IsReady(m, NonceOf(nonces, state.nonces, a), ready) && rest == AfterReady(m, ready)
    requires Within(rest, limit, Get(q', a)) && nonces' == MarkedLast(nonces, a, ready)
    ensures SettledAt(q', nonces', state, limit, a)
  {
    var left, start := Get(q', a), NonceOf(nonces, state.nonces, a);
    forall n | n in left ensures n in m && m[n] == left[n] && n > NonceOf(nonces', state.nonces, a) {
      LeftIsBeyond(m, start, ready, limit, left, n);
    }
    PayablePart(Get(q, a), Lookup0(state.nonces, a), Lookup0(state.balances, a), state.maxGas, left);
  }

  lemma OnlyOne(p: ByAccount, q: ByAccount, nonces: map<Addr, nat>, a: Addr, x: Items, y: Items, txs: seq<Tx>)
    ensures OthersSame(a, p, q, nonces, Merge(p, a, x), SetList(q, a, y), MarkedLast(nonces, a, txs))
  {
    GetMerged(p, a, x);
    GetSet(q, a, y);
  }

  /** The given accounts' lists did not change. */
  ghost predicate SameFor(accounts: set<Addr>, p: ByAccount, q: ByAccount, p': ByAccount, q': ByAccount)
  {
    && (forall a | a in accounts :: Get(p', a) == Get(p, a))
    && (forall a | a in accounts :: Get(q', a) == Get(q, a))
  }

  lemma PlaceKeepsLine(p0: ByAccount, n0: map<Addr, nat>, p: ByAccount, q: ByAccount, nonces: map<Addr, nat>,
                       state: ChainState, t: Tx, p': ByAccount, q': ByAccount)
    requires PaidAt(state, t.sender, t) && (p' == p || PlacedIn(p, q, t, p', q')) && KeepsLine(p0, n0, p, nonces, state)
    ensures KeepsLine(p0, n0, p', nonces, state)
  {
    if t.nonce in Get(p, t.sender) {
      ReplaceKeeps(p, nonces, state, t);
      if p' != p { KeepsBoth(p0, n0, p, nonces, p', nonces, state); }
    }
  }

  lemma MatchKeepsLine(p: ByAccount, nonces: map<Addr, nat>, nonces': map<Addr, nat>, state: ChainState)
    requires InLine(p, nonces, state, true) && NoncesMatch(p, nonces') && Filed(p)
    requires forall a, base | a !in p :: NonceOf(nonces', base, a) == NonceOf(nonces, base, a)
    ensures InLine(p, nonces', state, true)
  {
    forall a | Get(p, a) != map[]
      ensures exists top: uint64 :: top in Get(p, a) && NonceOf(nonces', state.nonces, a) == Next(top)
    {
      assert NonceMatches(p[a], nonces', a);
      var top :| Highest(p[a], top) && nonces'[a] == Next(p[a][top].nonce);
      assert p[a][top].nonce == top && top in Get(p, a);
    }
    RefreshKeeps(p, nonces, nonces', state);
  }

  lemma RemoveKeepsLine(p: ByAccount, q: ByAccount, nonces: map<Addr, nat>, state: ChainState, t: Tx,
                        p': ByAccount, q': ByAccount, nonces': map<Addr, nat>)
    requires Unlisted(p, q, t, p', q')
    requires nonces' == if Held(p, t) then Lowered(nonces, state.nonces, t.sender, t.nonce) else nonces
    ensures KeepsLine(p, nonces, p', nonces', state)
  {
    if Held(p, t) {
      CutKeepsLine(p, nonces, state, t.sender, Under(Get(p, t.sender), t.nonce), t.nonce);
    }
  }

  lemma UnlistOthers(accounts: set<Addr>, p: ByAccount, q: ByAccount, t: Tx, p': ByAccount, q': ByAccount)
    requires Unlisted(p, q, t, p', q') && t.sender !in accounts
    ensures SameFor(accounts, p, q, p', q')
  {
    GetSet(p, t.sender, Under(Get(p, t.sender), t.nonce));
    GetMerged(q, t.sender, Over(Get(p, t.sender), t.nonce));
    GetSet(q, t.sender, Get(q, t.sender) - {t.nonce});
  }

  // What becomes of the place of a new transaction.

  predicate Occupied(p: ByAccount, q: ByAccount, t: Tx)
  {
    t.nonce in Get(p, t.sender) || t.nonce in Get(q, t.sender)
  }

  /** The place is free or its holder is outbid. */
  predicate Placeable(p: ByAccount, q: ByAccount, t: Tx, priceBump: nat)
  {
    if t.nonce in Get(p, t.sender) then Replaces(Get(p, t.sender)[t.nonce], t, priceBump)
    else if t.nonce in Get(q, t.sender) then Replaces(Get(q, t.sender)[t.nonce], t, priceBump)
    else true
  }

  function Vacated(pool: Pool, p: ByAccount, q: ByAccount, t: Tx): Pool
  {
    if t.nonce in Get(p, t.sender) then pool - {Get(p, t.sender)[t.nonce].hash}
    else Discarding(pool, Get(q, t.sender), t.nonce)
  }

  ghost predicate PlacedIn(p: ByAccount, q: ByAccount, t: Tx, p': ByAccount, q': ByAccount)
  {
    if t.nonce in Get(p, t.sender) then p' == With(p, t) && q' == q else p' == p && q' == With(q, t)
  }

  predicate SamePlace(t: Tx, t': Tx)
  {
    t.sender == t'.sender && t.nonce == t'.nonce
  }

  /** Only the holder of the transaction's place is given up. */
  lemma VacatedIs(p: ByAccount, q: ByAccount, pool: Pool, t: Tx)
    requires Tidy(p, q, pool, {}) && t.hash !in pool
    ensures Extends(Vacated(pool, p, q, t)[t.hash := t] - {t.hash}, pool)
    ensures forall h | h in pool ::
              h in Vacated(pool, p, q, t)[t.hash := t] || (Occupied(p, q, t) && SamePlace(pool[h], t))
  {
    if t.nonce in Get(p, t.sender) {
      assert InPool(p, q, Get(p, t.sender)[t.nonce]);
    } else if t.nonce in Get(q, t.sender) {
      assert InPool(p, q, Get(q, t.sender)[t.nonce]);
    }
  }

  ghost predicate HasHolder(pool: Pool, t: Tx)
  {
    exists h | h in pool :: SamePlace(pool[h], t)
  }

  /** The place is held by a transaction that is not outbid. */
  ghost predicate Blocked(pool: Pool, t: Tx, priceBump: nat)
  {
    exists h | h in pool :: SamePlace(pool[h], t) && !Replaces(pool[h], t, priceBump)
  }

  /** The lists of a tidy pool give the same answer as the lookup. */
  lemma PlaceableIff(p: ByAccount, q: ByAccount, pool: Pool, t: Tx, priceBump: nat)
    requires Tidy(p, q, pool, {})
    ensures Placeable(p, q, t, priceBump) <==> !Blocked(pool, t, priceBump)
    ensures Occupied(p, q, t) <==> HasHolder(pool, t)
  {
    if t.nonce in Get(p, t.sender) {
      assert InPool(p, q, Get(p, t.sender)[t.nonce]);
    } else if t.nonce in Get(q, t.sender) {
      assert InPool(p, q, Get(q, t.sender)[t.nonce]);
    }
    forall h | h in pool && SamePlace(pool[h], t)
      ensures pool[h] == if t.nonce in Get(p, t.sender) then Get(p, t.sender)[t.nonce] else Get(q, t.sender)[t.nonce]
    {
      assert InPool(p, q, pool[h]);
    }
  }

  lemma SlotsPlaced(p: ByAccount, q: ByAccount, pool: Pool, t: Tx)
    requires Tidy(p, q, pool, {}) && t.hash !in pool
    ensures MapSum.Sum(SlotsOf(Vacated(pool, p, q, t)[t.hash := t])) <= MapSum.Sum(SlotsOf(pool)) + NumSlots(t)
    ensures !Occupied(p, q, t) ==>
              MapSum.Sum(SlotsOf(Vacated(pool, p, q, t)[t.hash := t])) == MapSum.Sum(SlotsOf(pool)) + NumSlots(t)
  {
    SlotsPut(Vacated(pool, p, q, t), t);
    if t.nonce in Get(p, t.sender) {
      SlotsDrop(pool, Get(p, t.sender)[t.nonce].hash);
    } else if t.nonce in Get(q, t.sender) {
      SlotsDrop(pool, Get(q, t.sender)[t.nonce].hash);
    }
  }

  const TX_MAX_SIZE: nat := 4 * TX_SLOT_SIZE

  /** The checks of a new transaction against the pool's limits and the chain state. */
  predicate Acceptable(tx: Tx, isLocal: bool, gasPrice: nat, state: ChainState)
  {
    && tx.size <= TX_MAX_SIZE && tx.gas <= state.maxGas && tx.tipCap <= tx.feeCap
    && (isLocal || tx.tipCap >= gasPrice)
    && Lookup0(state.nonces, tx.sender) <= tx.nonce && tx.cost <= Lookup0(state.balances, tx.sender)
  }

  /** Accounts still to be visited and local ones have their old queues; the others have
      the lowest part of theirs, and nothing as long as more is to be dropped. */
  ghost predicate Truncating(q0: ByAccount, q: ByAccount, locals: set<Addr>, todo: set<Addr>, drop: nat)
  {
    && todo !! locals && (forall a | a in todo || a in locals :: Get(q, a) == Get(q0, a))
    && (forall a :: Lowest(Get(q0, a), |Get(q, a)|, Get(q, a)))
    && (drop > 0 ==> q.Keys <= locals + todo)
  }

  /** At most one account is cut in part. */
  ghost predicate OneCut(q0: ByAccount, q: ByAccount)
  {
    forall a, b | PartCut(q0, q, a) && PartCut(q0, q, b) :: a == b
  }

  /** The account has lost some of its queue but not all. */
  ghost predicate PartCut(q0: ByAccount, q: ByAccount, a: Addr)
  {
    0 < |Get(q, a)| < |Get(q0, a)|
  }

  lemma TruncateNone(q: ByAccount, locals: set<Addr>, drop: nat)
    ensures Truncating(q, q, locals, q.Keys - locals, drop) && OneCut(q, q)
  {
    forall a ensures Lowest(Get(q, a), |Get(q, a)|, Get(q, a)) {
      LowestAll(Get(q, a));
    }
  }

  lemma TruncateOne(q0: ByAccount, q: ByAccount, q': ByAccount, locals: set<Addr>, todo: set<Addr>, drop: nat,
                    a: Addr, count: nat)
    requires Truncating(q0, q, locals, todo, drop) && a in todo && drop > 0
    requires count == if |Get(q, a)| <= drop then |Get(q, a)| else drop
    requires q' == SetList(q, a, Get(q', a)) && Lowest(Get(q, a), |Get(q, a)| - count, Get(q', a))
    ensures Truncating(q0, q', locals, todo - {a}, drop - count) && Total(q') == Total(q) - count && OneCut(q0, q')
  {
    GetSet(q, a, Get(q', a));
    TotalSet(q, a, Get(q', a));
    forall b ensures Lowest(Get(q0, b), |Get(q', b)|, Get(q', b)) {
      if b == a { assert Get(q, a) == Get(q0, a); } else { assert Get(q', b) == Get(q, b); }
    }
    if drop > count {
      assert Get(q', a) == map[];
    }
    forall b | PartCut(q0, q', b) ensures b == a {
    }
  }

  ghost function BelowTip(remotes: Pool, price: nat): set<Hash>
  {
    set h | h in remotes && remotes[h].tipCap < price
  }

  lemma MoreBelow(remotes: Pool, price: nat, found: seq<Tx>, todo: set<Hash>, h: Hash)
    requires WellHashed(remotes) && h in todo && todo <= remotes.Keys && remotes[h].tipCap < price
    requires HashesOf(found) == BelowTip(remotes, price) - todo && |found| == |HashesOf(found)|
    ensures var found' := found + [remotes[h]];
            HashesOf(found') == BelowTip(remotes, price) - (todo - {h}) && |found'| == |HashesOf(found')|
  {
    HashesMore(found, remotes[h]);
  }

  /** The remote transactions below a tip. */
  method RemotesBelowTip(remotes: Pool, price: nat) returns (found: seq<Tx>)
    requires WellHashed(remotes)
    ensures HashesOf(found) == BelowTip(remotes, price) && |found| == |BelowTip(remotes, price)|
  {
    found := [];
    var todo := remotes.Keys;
    while todo != {}
      invariant todo <= remotes.Keys && HashesOf(found) == BelowTip(remotes, price) - todo
      invariant |found| == |HashesOf(found)|
      decreases todo
    {
      var h := Choose(todo);
      if remotes[h].tipCap < price {
        MoreBelow(remotes, price, found, todo, h);
        found := found + [remotes[h]];
      }
      todo := todo - {h};
    }
  }

  /** The pending nonce is behind the highest of the account's list. */
  ghost predicate NonceMatches(m: Items, nonces: map<Addr, nat>, a: Addr)
  {
    exists top :: Highest(m, top) && a in nonces && nonces[a] == Next(m[top].nonce)
  }

  ghost predicate NoncesMatch(pending: ByAccount, nonces: map<Addr, nat>)
  {
    forall a | a in pending :: NonceMatches(pending[a], nonces, a)
  }

  lemma LastIsHighest(m: Items, txs: seq<Tx>)
    requires Flat(m, txs) && m != map[]
    ensures txs != [] && Highest(m, txs[|txs| - 1].nonce) && m[txs[|txs| - 1].nonce] == txs[|txs| - 1]
  {
    ListsAll(m, txs);
    var n :| n in m;
    assert n in NoncesOf(txs);
    forall k | k in m ensures k <= txs[|txs| - 1].nonce {
      assert k in NoncesOf(txs);
    }
  }

  method NextNonces(pending: ByAccount, nonces0: map<Addr, nat>) returns (nonces: map<Addr, nat>)
    requires Filed(pending) && NoneEmpty(pending)
    ensures NoncesMatch(pending, nonces)
    ensures forall a, base | a !in pending :: NonceOf(nonces, base, a) == NonceOf(nonces0, base, a)
  {
    nonces := nonces0;
    var todo := pending.Keys;
    while todo != {}
      invariant todo <= pending.Keys
      invariant forall a | a in pending && a !in todo :: NonceMatches(pending[a], nonces, a)
      invariant forall a, base | a !in pending :: NonceOf(nonces, base, a) == NonceOf(nonces0, base, a)
      decreases todo
    {
      var a := Choose(todo);
      assert forall n | n in Get(pending, a) :: Get(pending, a)[n].nonce == n;
      var txs := SortByNonce(pending[a]);
      LastIsHighest(pending[a], txs);
      nonces := nonces[a := Next(txs[|txs| - 1].nonce)];
      todo := todo - {a};
    }
  }

  method Listed(s: set<Addr>) returns (list: seq<Addr>)
    ensures forall a :: a in list <==> a in s
  {
    list := [];
    var todo := s;
    while todo != {}
      invariant todo <= s && forall a :: a in list <==> a in s && a !in todo
      decreases todo
    {
      var a := Choose(todo);
      todo, list := todo - {a}, list + [a];
    }
  }

  /** Cutting lists from the top keeps them runnable. */
  lemma StillRunnable(state: ChainState, p0: ByAccount, p: ByAccount, locals: set<Addr>, limit: nat,
                      level: nat, above: ByAccount)
    requires p == p0 || Filled(p0, p, locals, limit, level, above)
    ensures Runnable(state, p0) ==> Runnable(state, p)
  {
    if Runnable(state, p0) && p != p0 {
      forall a ensures RunnableList(state, a, Get(p, a)) {
        assert RunnableList(state, a, Get(p0, a));
        assert Flooded(p0, p, locals, {}, level, a);
        if a !in locals { LowestRunnable(state, a, Get(p0, a), level, Get(p, a)); }
      }
    }
  }

  /** A queue is payable from the chain's nonce on, and within its limit. */
  ghost predicate Fit(queue: ByAccount, state: ChainState, limit: Option<nat>, a: Addr)
  {
    Executable(state, a, Get(queue, a)) == Get(queue, a) && (limit.Some? ==> |Get(queue, a)| <= limit.value)
  }

  ghost predicate AllFit(accounts: seq<Addr>, queue: ByAccount, state: ChainState, locals: set<Addr>, count: nat)
  {
    forall a | a in accounts :: Fit(queue, state, Limit(a in locals, count), a)
  }

  /** All queues are payable. */
  ghost predicate Affordable(queue: ByAccount, state: ChainState)
  {
    forall a :: Fit(queue, state, None, a)
  }

  /** Each queue has lost only its highest nonces. */
  ghost predicate LessQueued(q: ByAccount, q': ByAccount)
  {
    forall a :: Lowest(Get(q, a), |Get(q', a)|, Get(q', a))
  }

  lemma SettledFit(accounts: seq<Addr>, queue: ByAccount, nonces: map<Addr, nat>, state: ChainState, locals: set<Addr>,
                   count: nat)
    requires AllSettled(accounts, queue, nonces, state, locals, count)
    ensures AllFit(accounts, queue, state, locals, count)
  {
    forall a | a in accounts ensures Fit(queue, state, Limit(a in locals, count), a) {
      assert SettledAt(queue, nonces, state, Limit(a in locals, count), a);
    }
  }

  lemma FitLower(q: ByAccount, q': ByAccount, state: ChainState, limit: Option<nat>, a: Addr)
    requires Lowest(Get(q, a), |Get(q', a)|, Get(q', a)) && Fit(q, state, limit, a)
    ensures Fit(q', state, limit, a)
  {
    PayablePart(Get(q, a), Lookup0(state.nonces, a), Lookup0(state.balances, a), state.maxGas, Get(q', a));
  }

  lemma StillFit(q: ByAccount, q': ByAccount, state: ChainState, accounts: seq<Addr>, locals: set<Addr>, count: nat)
    requires LessQueued(q, q')
    ensures AllFit(accounts, q, state, locals, count) ==> AllFit(accounts, q', state, locals, count)
    ensures Affordable(q, state) ==> Affordable(q', state)
  {
    forall a, limit | Fit(q, state, limit, a) ensures Fit(q', state, limit, a) {
      FitLower(q, q', state, limit, a);
    }
  }

  /** What was settled and what was not there is payable. */
  lemma AllAffordable(accounts: seq<Addr>, p0: ByAccount, q0: ByAccount, p: ByAccount, q: ByAccount, state: ChainState,
                      locals: set<Addr>, count: nat)
    requires AllFit(accounts, q, state, locals, count) && SameBut(accounts, p0, q0, p, q)
    requires forall a | a in q0 :: a in accounts
    ensures Affordable(q, state)
  {
    forall a ensures Fit(q, state, None, a) {
      if a in accounts { assert Fit(q, state, Limit(a in locals, count), a); } else { assert Get(q, a) == map[]; }
    }
  }

  lemma BackFits(state: ChainState, a: Addr, m: Items, q: Items, q': Items)
    requires Executable(state, a, q) == q && q' == q + Back(state, a, m)
    ensures Executable(state, a, q') == q'
  {
    ExecutableParts(state, a, m);
    forall n | n in q' ensures n in Executable(state, a, q') {
      if n in Back(state, a, m) { assert n in Executable(state, a, m); } else { assert n in Executable(state, a, q); }
    }
  }

  lemma DemotedAffordable(state: ChainState, p0: ByAccount, q0: ByAccount, p: ByAccount, q: ByAccount)
    requires Demoted({}, state, p0, q0, p, q) && Affordable(q0, state)
    ensures Affordable(q, state)
  {
    forall a ensures Fit(q, state, None, a) {
      assert Fit(q0, state, None, a);
      BackFits(state, a, Get(p0, a), Get(q0, a), Get(q, a));
    }
  }

  method RemoveListed(all: Lookup, txs: seq<Tx>)
    requires all.Valid()
    modifies all
    ensures all.Valid() && all.All() == old(all.All()) - HashesOf(txs)
    ensures all.locals == old(all.locals) - HashesOf(txs) && all.remotes == old(all.remotes) - HashesOf(txs)
  {
    ghost var l0, r0 := all.locals, all.remotes;
    for i := 0 to |txs|
      invariant all.Valid() && all.locals == l0 - HashesOf(txs[..i]) && all.remotes == r0 - HashesOf(txs[..i])
    {
      HashesStep(txs, i);
      DropOneMore(l0, HashesOf(txs[..i]), txs[i].hash);
      DropOneMore(r0, HashesOf(txs[..i]), txs[i].hash);
      all.Remove(txs[i].hash);
    }
    assert txs[..|txs|] == txs;
    DropSets(l0, r0, HashesOf(txs));
  }

  /** By how much the capacity is exceeded after `drop` was evicted for `excess` slots. */
  ghost predicate Roomed(remotes: Pool, live: multiset<Tx>, drop: seq<Tx>, excess: int, left: int)
  {
    && (ExactlyRemotes(remotes, live) && excess <= SlotSum(live) ==> left <= 0)
    && (Genuine(remotes, live) ==> left == excess - SlotSum(multiset(drop)) + Repeats(drop))
    && (Genuine(remotes, live) && excess > MapSum.Sum(SlotsOf(remotes)) ==> left > 0)
  }

  /** A new transaction was checked against the holder of its place. */
  predicate Processed(err: Option<AddError>)
  {
    err.None? || err == Some(ReplaceTooCheap)
  }

  /** The pool has taken in `tx` in place of any holder of its place, or is as it was if
      that holder was not outbid. */
  ghost predicate Entered(pool: Pool, pool': Pool, tx: Tx, replaced: bool, err: Option<AddError>, priceBump: nat)
  {
    && err == (if Blocked(pool, tx, priceBump) then Some(ReplaceTooCheap) else None)
    && (replaced <==> err.None? && HasHolder(pool, tx))
    && (err.None? ==> tx.hash in pool' && pool'[tx.hash] == tx) && Extends(pool' - {tx.hash}, pool)
    && (forall h | h in pool :: h in pool' || (replaced && SamePlace(pool[h], tx)))
  }

  /** By how much a pool exceeds its capacity after a remote transaction that would have
      exceeded it by `excess`, and for which `drop` was evicted; `filed` if it went to a
      free place. */
  ghost predicate Fits(excess: int, remotes: Pool, live: multiset<Tx>, drop: seq<Tx>, over: int, filed: bool)
  {
    && (excess <= 0 || ExactlyRemotes(remotes, live) ==> over <= 0)
    && (excess <= 0 && filed ==> over == excess)
    && (excess > 0 && Genuine(remotes, live) && filed ==> over == excess - SlotSum(multiset(drop)) + Repeats(drop))
    && (excess > MapSum.Sum(SlotsOf(remotes)) && excess > 0 && Genuine(remotes, live) && filed ==> over > 0)
  }

  /** Where hashes identify transactions, the slots over the limit after an addition are
      known exactly. */
  lemma ReadFits(of: Hash -> Tx, excess: int, remotes: Pool, urgent: seq<Tx>, floating: seq<Tx>, drop: seq<Tx>,
                 over: int)
    requires forall t | t in urgent || t in floating :: of(t.hash) == t
    requires forall h | h in remotes :: of(h) == remotes[h]
    requires Fits(excess, remotes, LiveIn(remotes, urgent, floating), drop, over, true)
    ensures over == if excess <= 0 then excess else excess - SlotSum(multiset(drop)) + Repeats(drop)
  {
    ReadIsGenuine(of, remotes, urgent, floating);
  }

  lemma FitsStill(excess: int, remotes: Pool, live: multiset<Tx>, drop: seq<Tx>, before: int, over: int, filed: bool)
    requires over <= before && (filed ==> over == before)
    ensures Fits(excess, remotes, live, drop, before, true) ==> Fits(excess, remotes, live, drop, over, filed)
  {
  }

  /** What is evicted for so many missing slots. */
  ghost predicate Picked(live: multiset<Tx>, splits: bool, excess: int, drop: seq<Tx>)
  {
    if excess > 0 then Taken(live, drop, excess) && (splits ==> CheapestOf(live, drop)) else drop == []
  }

  lemma SlotsFreed(pool: Pool, remotes: Pool, live: multiset<Tx>, drop: seq<Tx>, excess: int)
    requires Extends(remotes, pool) && Taken(live, drop, excess)
    ensures var left := excess - MapSum.Sum(SlotsOf(pool)) + MapSum.Sum(SlotsOf(pool - HashesOf(drop)));
            Roomed(remotes, live, drop, excess, left)
  {
    if ExactlyRemotes(remotes, live) && excess <= SlotSum(live) {
      FreesEnough(pool, remotes, live, drop, excess);
    }
    if Genuine(remotes, live) {
      FreedIs(pool, drop);
      FreesAtMost(pool, remotes, drop);
    }
  }

  /** The local transactions and the price heaps. */
  datatype Market = Market(locals: Pool, heaps: Heaps)

  /** A remote transaction has come in. */
  function Joined(m: Market, tx: Tx): Market
  {
    m.(heaps := Grown(m.heaps, tx))
  }

  class TxPool {
    const config: Config
    const all: Lookup
    const priced: Priced
    var pending: ByAccount
    var queue: ByAccount
    var locals: set<Addr>
    var nonces: map<Addr, nat>
    var state: ChainState
    var gasPrice: nat

    /** The price heaps track every remote transaction except those in `out`. */
    ghost predicate PricedOk(out: set<Hash>)
      reads all, priced
    {
      && priced.all == all && Ordered(priced.baseFee, priced.urgent, priced.floating)
      && Tracked(all.remotes, priced.Entries(), out)
    }

    ghost function Prices(): Market
      reads all, priced
    {
      Market(all.locals, priced.View())
    }

    /** The invariant in the middle of an operation. */
    ghost predicate Ok(loose: set<Hash>, out: set<Hash>)
      reads this`pending, this`queue, this`locals, all, priced
    {
      && all.Valid() && PricedOk(out) && Foreign(all.remotes, locals)
      && Tidy(pending, queue, all.All(), loose)
    }

    /** ... when nothing is loose and no list is empty. */
    ghost predicate Quiet(out: set<Hash>)
      reads this`pending, this`queue, this`locals, all, priced
    {
      Ok({}, out) && NoneEmpty(pending) && NoneEmpty(queue)
    }

    /** The invariant between operations. */
    ghost predicate Valid()
      reads this`pending, this`queue, this`locals, all, priced
    {
      Quiet({})
    }

    constructor (config: Config, locals: set<Addr>, state: ChainState)
      ensures Valid() && fresh(all) && fresh(priced)
      ensures pending == map[] && queue == map[] && this.locals == locals && this.config == Sanitize(config)
      ensures all.All() == map[] && Prices() == Market(map[], Heaps(multiset{}, multiset{}, 0, None))
      ensures nonces == map[] && this.state == state && gasPrice == Sanitize(config).priceLimit
      ensures this.config.accountSlots >= 1
    {
      this.config, this.locals, this.state := Sanitize(config), locals, state;
      pending, queue, nonces, gasPrice := map[], map[], map[], Sanitize(config).priceLimit;
      var lookup := new Lookup();
      all := lookup;
      priced := new Priced(lookup);
    }

    /** Remove a loose transaction from the lookup. */
    method ForgetTx(h: Hash, ghost loose: set<Hash>, ghost out: set<Hash>)
      requires Ok(loose, out) && h in loose
      modifies all
      ensures Ok(loose - {h}, out) && all.All() == old(all.All()) - {h}
      ensures all.remotes == old(all.remotes) - {h}
    {
      Forget(pending, queue, all.All(), loose, h);
      DropBoth(all.locals, all.remotes, h);
      all.Remove(h);
    }

    /** Record a new transaction in the lookup and, if remote, in the heaps. */
    method LearnTx(tx: Tx, local: bool, ghost loose: set<Hash>, ghost out: set<Hash>)
      requires Ok(loose, out) && tx.hash !in all.All() && (tx.sender in locals ==> local)
      modifies all, priced
      ensures Ok(loose + {tx.hash}, out) && all.All() == old(all.All())[tx.hash := tx]
      ensures !local ==> Prices() == Joined(old(Prices()), tx)
    {
      Learn(pending, queue, all.All(), loose, tx);
      all.Add(tx, local);
      priced.Put(tx, local);
    }

    method CountRemoved(count: nat, ghost loose: set<Hash>, ghost out: set<Hash>)
      requires Ok(loose, out)
      modifies priced
      ensures Ok(loose, out)
      ensures Bears(old(priced.View()), count) ==>
                priced.View() == old(priced.View()).(stales := old(priced.stales) + count)
    {
      priced.Removed(count);
    }

    /** Remove loose transactions from the lookup. */
    method ForgetAll(txs: seq<Tx>, ghost loose: set<Hash>, ghost out: set<Hash>)
      requires Ok(loose, out) && HashesOf(txs) <= loose
      modifies all
      ensures Ok(loose - HashesOf(txs), out) && all.All() == old(all.All()) - HashesOf(txs)
      ensures all.remotes == old(all.remotes) - HashesOf(txs)
    {
      ForgetMany(pending, queue, all.All(), loose, HashesOf(txs));
      RemoveListed(all, txs);
    }

    /** Keep only `kept` of an account's queue; the rest leaves the pool. */
    method CutQueue(a: Addr, kept: Items, ghost loose: set<Hash>, ghost out: set<Hash>) returns (dropped: nat)
      requires Ok(loose, out) && SubItems(kept, Get(queue, a))
      modifies this`queue, all
      ensures Ok(loose, out) && queue == old(queue)[a := kept] && dropped == |Get(old(queue), a)| - |kept|
    {
      var gone := SortByNonce(Get(queue, a) - kept.Keys);
      dropped := |gone|;
      RestSize(kept, Get(queue, a));
      ListHashes(Get(queue, a) - kept.Keys, gone);
      ShrinkQueue(pending, queue, all.All(), loose, a, kept);
      queue := queue[a := kept];
      ForgetAll(gone, loose + HashesOf(gone), out);
      assert loose + HashesOf(gone) - HashesOf(gone) == loose;
    }

    /** The same for an account's pending list. */
    method CutPending(a: Addr, kept: Items, ghost loose: set<Hash>, ghost out: set<Hash>) returns (dropped: nat)
      requires Ok(loose, out) && SubItems(kept, Get(pending, a))
      modifies this`pending, all
      ensures Ok(loose, out) && pending == old(pending)[a := kept] && dropped == |Get(old(pending), a)| - |kept|
    {
      var gone := SortByNonce(Get(pending, a) - kept.Keys);
      dropped := |gone|;
      RestSize(kept, Get(pending, a));
      ListHashes(Get(pending, a) - kept.Keys, gone);
      Shrink(pending, queue, all.All(), loose, a, kept);
      pending := pending[a := kept];
      ForgetAll(gone, loose + HashesOf(gone), out);
      assert loose + HashesOf(gone) - HashesOf(gone) == loose;
    }

    /** Take the transaction at a queued nonce out of the pool. */
    method DropQueued(a: Addr, n: nat, ghost loose: set<Hash>, ghost out: set<Hash>)
      requires Ok(loose, out) && n in Get(queue, a)
      modifies this`queue, all
      ensures Ok(loose, out) && queue == Without(old(queue), a, n)
      ensures all.All() == old(all.All()) - {Get(old(queue), a)[n].hash}
      ensures all.remotes == old(all.remotes) - {Get(old(queue), a)[n].hash}
    {
      var h := Get(queue, a)[n].hash;
      assert InPool(pending, queue, Get(queue, a)[n]);
      TakeOutQueue(pending, queue, all.All(), loose, a, n);
      queue := Without(queue, a, n);
      ForgetTx(h, loose + {h}, out);
      assert loose + {h} - {h} == loose;
    }

    method PlaceQueued(tx: Tx, ghost loose: set<Hash>, ghost out: set<Hash>)
      requires Ok(loose, out) && tx.hash in loose && all.All()[tx.hash] == tx
      requires tx.nonce !in Get(pending, tx.sender) && tx.nonce !in Get(queue, tx.sender)
      modifies this`queue
      ensures Ok(loose - {tx.hash}, out) && queue == With(old(queue), tx)
    {
      PlaceQueue(pending, queue, all.All(), loose, tx);
      queue := With(queue, tx);
    }

    /** Make room for a transaction in its sender's queue. */
    method VacateQueued(tx: Tx, ghost loose: set<Hash>, ghost out: set<Hash>)
      requires Ok(loose, out)
      modifies this`queue, all, priced
      ensures Ok(loose, out) && tx.nonce !in Get(queue, tx.sender) && With(queue, tx) == With(old(queue), tx)
      ensures all.All() == Discarding(old(all.All()), Get(old(queue), tx.sender), tx.nonce)
      ensures tx.nonce !in Get(old(queue), tx.sender) ==> unchanged(all) && unchanged(priced)
    {
      if tx.nonce in Get(queue, tx.sender) {
        Replacing(queue, tx);
        DropQueued(tx.sender, tx.nonce, loose, out);
        CountRemoved(1, loose, out);
      }
    }

    /** A new transaction is unknown; one moved between lists is known and loose. */
    ghost predicate Incoming(tx: Tx, local: bool, addAll: bool, loose: set<Hash>)
      reads this`locals, all
    {
      if addAll then tx.hash !in all.All() && (tx.sender in locals ==> local)
      else tx.hash in loose && tx.hash in all.All() && all.All()[tx.hash] == tx
    }

    method FileNew(tx: Tx, local: bool, ghost loose: set<Hash>, ghost out: set<Hash>)
      requires Ok(loose, out) && tx.nonce !in Get(pending, tx.sender) && tx.nonce !in Get(queue, tx.sender)
      requires Incoming(tx, local, true, loose)
      modifies this`queue, all, priced
      ensures Ok(loose - {tx.hash}, out) && queue == With(old(queue), tx)
      ensures all.All() == old(all.All())[tx.hash := tx]
      ensures !local ==> Prices() == Joined(old(Prices()), tx)
    {
      LearnTx(tx, local, loose, out);
      PlaceQueued(tx, loose + {tx.hash}, out);
      assert loose + {tx.hash} - {tx.hash} == loose - {tx.hash};
    }

    method FileQueued(tx: Tx, local: bool, addAll: bool, ghost loose: set<Hash>, ghost out: set<Hash>)
      requires Ok(loose, out) && tx.nonce !in Get(pending, tx.sender) && tx.nonce !in Get(queue, tx.sender)
      requires Incoming(tx, local, addAll, loose)
      modifies this`queue, all, priced
      ensures Ok(loose - {tx.hash}, out) && queue == With(old(queue), tx)
      ensures all.All() == old(all.All())[tx.hash := tx]
      ensures !addAll ==> unchanged(all)
      ensures addAll && !local ==> Prices() == Joined(old(Prices()), tx)
    {
      if addAll {
        FileNew(tx, local, loose, out);
      } else {
        assert all.All()[tx.hash := tx] == all.All();
        PlaceQueued(tx, loose, out);
      }
    }

    /** Put a transaction in its sender's queue.  A new one (`addAll`) enters the
        lookup too; a demoted one is there already. */
    method EnqueueTx(tx: Tx, local: bool, addAll: bool, ghost loose: set<Hash>, ghost out: set<Hash>)
      returns (ok: bool, replaced: bool)
      requires Ok(loose, out) && tx.nonce !in Get(pending, tx.sender)
      requires Incoming(tx, local, addAll, loose)
      modifies this`queue, all, priced
      ensures ok == (tx.nonce in Get(old(queue), tx.sender) ==>
                       Replaces(Get(old(queue), tx.sender)[tx.nonce], tx, config.priceBump))
      ensures replaced == (ok && tx.nonce in Get(old(queue), tx.sender))
      ensures ok ==> Ok(loose - {tx.hash}, out) && queue == With(old(queue), tx)
      ensures ok ==> all.All() == Discarding(old(all.All()), Get(old(queue), tx.sender), tx.nonce)[tx.hash := tx]
      ensures !ok ==> Ok(loose, out) && queue == old(queue) && all.All() == old(all.All())
      ensures !addAll && !replaced ==> unchanged(all)
      ensures ok && addAll && !local && !replaced ==> Prices() == Joined(old(Prices()), tx)
    {
      var items := Get(queue, tx.sender);
      replaced := tx.nonce in items;
      if replaced {
        assert InPool(pending, queue, items[tx.nonce]);
        if !Replaces(items[tx.nonce], tx, config.priceBump) {
          return false, false;
        }
      }
      VacateQueued(tx, loose, out);
      FileQueued(tx, local, addAll, loose, out);
      ok := true;
    }

    /** Take the transaction at a pending nonce out of the pool. */
    method DropPending(a: Addr, n: nat, ghost loose: set<Hash>, ghost out: set<Hash>)
      requires Ok(loose, out) && n in Get(pending, a)
      modifies this`pending, all
      ensures Ok(loose, out) && pending == Without(old(pending), a, n)
      ensures all.All() == old(all.All()) - {Get(old(pending), a)[n].hash}
      ensures all.remotes == old(all.remotes) - {Get(old(pending), a)[n].hash}
    {
      var h := Get(pending, a)[n].hash;
      assert InPool(pending, queue, Get(pending, a)[n]);
      TakeOut(pending, queue, all.All(), loose, a, n);
      pending := Without(pending, a, n);
      ForgetTx(h, loose + {h}, out);
      assert loose + {h} - {h} == loose;
    }

    method PlacePending(tx: Tx, ghost loose: set<Hash>, ghost out: set<Hash>)
      requires Ok(loose, out) && tx.hash in loose && all.All()[tx.hash] == tx
      requires tx.nonce !in Get(pending, tx.sender) && tx.nonce !in Get(queue, tx.sender)
      modifies this`pending
      ensures Ok(loose - {tx.hash}, out) && pending == With(old(pending), tx)
    {
      Place(pending, queue, all.All(), loose, tx);
      pending := With(pending, tx);
    }

    /** Make room for a transaction in its sender's pending list. */
    method VacatePending(tx: Tx, ghost loose: set<Hash>, ghost out: set<Hash>)
      requires Ok(loose, out)
      modifies this`pending, all, priced
      ensures Ok(loose, out) && tx.nonce !in Get(pending, tx.sender) && With(pending, tx) == With(old(pending), tx)
      ensures all.All() == Discarding(old(all.All()), Get(old(pending), tx.sender), tx.nonce)
      ensures tx.nonce !in Get(old(pending), tx.sender) ==> unchanged(all)
    {
      if tx.nonce in Get(pending, tx.sender) {
        Replacing(pending, tx);
        DropPending(tx.sender, tx.nonce, loose, out);
        CountRemoved(1, loose, out);
      }
    }

    /** Move a loose transaction into its sender's pending list; if one with its nonce
        is there and is not outbid, the transaction is dropped instead. */
    method PromoteTx(tx: Tx, ghost loose: set<Hash>, ghost out: set<Hash>) returns (inserted: bool)
      requires Ok(loose, out) && tx.nonce !in Get(queue, tx.sender) && Incoming(tx, false, false, loose)
      modifies this`pending, this`nonces, all, priced
      ensures Ok(loose - {tx.hash}, out)
      ensures inserted == (tx.nonce in Get(old(pending), tx.sender) ==>
                             Replaces(Get(old(pending), tx.sender)[tx.nonce], tx, config.priceBump))
      ensures inserted ==> pending == With(old(pending), tx) && nonces == old(nonces)[tx.sender := Next(tx.nonce)]
      ensures inserted ==> all.All() == Discarding(old(all.All()), Get(old(pending), tx.sender), tx.nonce)
      ensures !inserted ==> pending == old(pending) && nonces == old(nonces) && all.All() == old(all.All()) - {tx.hash}
      ensures inserted && tx.nonce !in Get(old(pending), tx.sender) ==> unchanged(all)
    {
      var items := Get(pending, tx.sender);
      if tx.nonce in items {
        assert InPool(pending, queue, items[tx.nonce]);
        if !Replaces(items[tx.nonce], tx, config.priceBump) {
          ForgetTx(tx.hash, loose, out);
          CountRemoved(1, loose - {tx.hash}, out);
          return false;
        }
      }
      VacatePending(tx, loose, out);
      PlacePending(tx, loose, out);
      nonces := nonces[tx.sender := Next(tx.nonce)];
      inserted := true;
    }

    /** Requeue the first of several loose transactions: it never meets its own nonce. */
    method RequeueFirst(a: Addr, txs: seq<Tx>, ghost loose: set<Hash>, ghost out: set<Hash>)
      requires Ok(loose, out) && Unplaced(pending, queue, all.All(), loose, a, txs) && txs != []
      modifies this`queue, all, priced
      ensures Ok(loose - {txs[0].hash}, out) && queue == With(old(queue), txs[0]) && unchanged(all)
      ensures Unplaced(pending, queue, all.All(), loose - {txs[0].hash}, a, txs[1..])
    {
      assert Homeless(pending, queue, all.All(), loose, txs[0]);
      PlacedFirstQueue(pending, queue, all.All(), loose, a, txs);
      var ok, replaced := EnqueueTx(txs[0], false, false, loose, out);
      assert ok && !replaced;
    }

    method RequeueAll(a: Addr, txs: seq<Tx>, ghost m: Items, ghost loose: set<Hash>, ghost out: set<Hash>)
      requires Ok(loose, out) && Unplaced(pending, queue, all.All(), loose, a, txs) && Lists(m, txs)
      modifies this`queue, all, priced
      ensures Ok(loose - HashesOf(txs), out) && queue == Merge(old(queue), a, m) && unchanged(all)
    {
      var rest := txs;
      ghost var left := loose;
      while rest != []
        invariant Ok(left, out) && unchanged(all) && Unplaced(pending, queue, all.All(), left, a, rest)
        invariant WithAll(queue, rest) == WithAll(old(queue), txs) && LessAll(left, rest) == LessAll(loose, txs)
      {
        RequeueFirst(a, rest, left, out);
        left := left - {rest[0].hash};
        rest := rest[1..];
      }
      WithAllIs(old(queue), a, m, txs);
      LessAllIs(loose, txs);
    }

    /** Promote the first of several loose transactions: it never meets its own nonce. */
    method PromoteFirst(a: Addr, txs: seq<Tx>, ghost loose: set<Hash>, ghost out: set<Hash>)
      requires Ok(loose, out) && Unplaced(pending, queue, all.All(), loose, a, txs) && txs != []
      modifies this`pending, this`nonces, all, priced
      ensures Ok(loose - {txs[0].hash}, out) && pending == With(old(pending), txs[0]) && unchanged(all)
      ensures nonces == old(nonces)[txs[0].sender := Next(txs[0].nonce)]
      ensures Unplaced(pending, queue, all.All(), loose - {txs[0].hash}, a, txs[1..])
    {
      assert Homeless(pending, queue, all.All(), loose, txs[0]);
      PlacedFirst(pending, queue, all.All(), loose, a, txs);
      var inserted := PromoteTx(txs[0], loose, out);
      assert inserted;
    }

    method PromoteAll(a: Addr, txs: seq<Tx>, ghost m: Items, ghost loose: set<Hash>, ghost out: set<Hash>)
      requires Ok(loose, out) && Unplaced(pending, queue, all.All(), loose, a, txs) && Lists(m, txs)
      modifies this`pending, this`nonces, all, priced
      ensures Ok(loose - HashesOf(txs), out) && pending == Merge(old(pending), a, m) && unchanged(all)
      ensures nonces == MarkedLast(old(nonces), a, txs)
    {
      var rest := txs;
      ghost var left := loose;
      while rest != []
        invariant Ok(left, out) && unchanged(all) && Unplaced(pending, queue, all.All(), left, a, rest)
        invariant WithAll(pending, rest) == WithAll(old(pending), txs) && LessAll(left, rest) == LessAll(loose, txs)
        invariant Marked(nonces, rest) == Marked(old(nonces), txs)
      {
        PromoteFirst(a, rest, left, out);
        left := left - {rest[0].hash};
        rest := rest[1..];
      }
      WithAllIs(old(pending), a, m, txs);
      LessAllIs(loose, txs);
      MarkedIs(old(nonces), a, txs);
    }

    /** Keep only `kept` of an account's pending list; the rest goes back to the queue. */
    method DemoteRest(a: Addr, kept: Items, txs: seq<Tx>, ghost out: set<Hash>)
      requires Ok({}, out) && SubItems(kept, Get(pending, a)) && Lists(Get(pending, a) - kept.Keys, txs)
      modifies this`pending, this`queue, all, priced
      ensures Ok({}, out) && pending == old(pending)[a := kept] && unchanged(all)
      ensures queue == Merge(old(queue), a, Get(old(pending), a) - kept.Keys)
    {
      ghost var gone: Items := Get(pending, a) - kept.Keys;
      LoosenPending(a, kept, txs, out);
      RequeueAll(a, txs, gone, HashesOf(txs), out);
      assert HashesOf(txs) - HashesOf(txs) == {};
    }

    /** Keep only `kept` of an account's pending list; the rest becomes loose. */
    method LoosenPending(a: Addr, kept: Items, txs: seq<Tx>, ghost out: set<Hash>)
      requires Ok({}, out) && SubItems(kept, Get(pending, a)) && Lists(Get(pending, a) - kept.Keys, txs)
      modifies this`pending
      ensures Ok(HashesOf(txs), out) && pending == old(pending)[a := kept]
      ensures Unplaced(pending, queue, all.All(), HashesOf(txs), a, txs)
    {
      ListHashes(Get(pending, a) - kept.Keys, txs);
      Shrink(pending, queue, all.All(), {}, a, kept);
      TakenUnplaced(pending, queue, all.All(), {}, a, kept, txs);
      assert {} + HashesOf(txs) == HashesOf(txs);
      pending := pending[a := kept];
    }

    /** Keep only `kept` of an account's queue; the rest becomes pending. */
    method PromoteRest(a: Addr, kept: Items, txs: seq<Tx>, ghost out: set<Hash>)
      requires Ok({}, out) && SubItems(kept, Get(queue, a)) && Lists(Get(queue, a) - kept.Keys, txs)
      modifies this`pending, this`queue, this`nonces, all, priced
      ensures Ok({}, out) && queue == old(queue)[a := kept] && unchanged(all)
      ensures pending == Merge(old(pending), a, Get(old(queue), a) - kept.Keys)
      ensures nonces == MarkedLast(old(nonces), a, txs)
    {
      ghost var gone: Items := Get(queue, a) - kept.Keys;
      LoosenQueue(a, kept, txs, out);
      PromoteAll(a, txs, gone, HashesOf(txs), out);
      assert HashesOf(txs) - HashesOf(txs) == {};
    }

    method LoosenQueue(a: Addr, kept: Items, txs: seq<Tx>, ghost out: set<Hash>)
      requires Ok({}, out) && SubItems(kept, Get(queue, a)) && Lists(Get(queue, a) - kept.Keys, txs)
      modifies this`queue
      ensures Ok(HashesOf(txs), out) && queue == old(queue)[a := kept]
      ensures Unplaced(pending, queue, all.All(), HashesOf(txs), a, txs)
    {
      ListHashes(Get(queue, a) - kept.Keys, txs);
      ShrinkQueue(pending, queue, all.All(), {}, a, kept);
      TakenUnplacedQueue(pending, queue, all.All(), {}, a, kept, txs);
      assert {} + HashesOf(txs) == HashesOf(txs);
      queue := queue[a := kept];
    }

    /** Delete an account's entry if its list is empty. */
    method PrunePending(a: Addr, ghost out: set<Hash>)
      requires Ok({}, out)
      modifies this`pending
      ensures Ok({}, out) && pending == SetList(old(pending), a, Get(old(pending), a))
    {
      if Get(pending, a) == map[] {
        DropEmpty(pending, queue, all.All(), {}, a);
        pending := pending - {a};
      }
    }

    method PruneQueue(a: Addr, ghost out: set<Hash>)
      requires Ok({}, out)
      modifies this`queue
      ensures Ok({}, out) && queue == SetList(old(queue), a, Get(old(queue), a))
    {
      if Get(queue, a) == map[] {
        DropEmptyQueue(pending, queue, all.All(), {}, a);
        queue := queue - {a};
      }
    }

    // ----------------------------------------------------------------- removal

    /** Take one pending transaction out; `kept` stays and `above` goes back to the queue. */
    method WithdrawPending(a: Addr, n: nat, kept: Items, above: Items, ghost out: set<Hash>)
      requires Ok({}, out) && n in Get(pending, a) && Parted(Get(pending, a), n, kept, above)
      modifies this`pending, this`queue, all, priced
      ensures Ok({}, out) && all.All() == old(all.All()) - {Get(old(pending), a)[n].hash}
      ensures all.remotes == old(all.remotes) - {Get(old(pending), a)[n].hash}
      ensures pending == old(pending)[a := kept] && queue == Merge(old(queue), a, above)
    {
      SetAfter(pending, a, n, kept);
      DropPending(a, n, {}, out);
      var invalids := SortByNonce(above);
      DemoteRest(a, kept, invalids, out);
    }

    /** ... and delete the list if it is empty. */
    method RemovePending(a: Addr, n: nat, kept: Items, above: Items, ghost out: set<Hash>)
      requires Quiet(out) && n in Get(pending, a) && Parted(Get(pending, a), n, kept, above)
      modifies this`pending, this`queue, all, priced
      ensures Quiet(out) && all.All() == old(all.All()) - {Get(old(pending), a)[n].hash}
      ensures all.remotes == old(all.remotes) - {Get(old(pending), a)[n].hash}
      ensures pending == SetList(old(pending), a, kept) && queue == Merge(old(queue), a, above)
    {
      SetOnce(pending, a, kept);
      StillNoneEmpty(pending, a, kept);
      StillNoneEmpty(queue, a, above);
      WithdrawPending(a, n, kept, above, out);
      PrunePending(a, out);
    }

    method RemoveAndLower(a: Addr, n: nat, kept: Items, above: Items, ghost out: set<Hash>)
      requires Quiet(out) && n in Get(pending, a) && Parted(Get(pending, a), n, kept, above)
      modifies this`pending, this`queue, this`nonces, all, priced
      ensures Quiet(out) && all.All() == old(all.All()) - {Get(old(pending), a)[n].hash}
      ensures all.remotes == old(all.remotes) - {Get(old(pending), a)[n].hash}
      ensures pending == SetList(old(pending), a, kept) && queue == Merge(old(queue), a, above)
      ensures nonces == Lowered(old(nonces), state.nonces, a, n)
    {
      RemovePending(a, n, kept, above, out);
      nonces := Lowered(nonces, state.nonces, a, n);
    }

    /** Remove a pending transaction and lower its account's pending nonce. */
    method UnlistPending(a: Addr, n: nat, ghost out: set<Hash>) returns (kept: Items, above: Items)
      requires Quiet(out) && n in Get(pending, a)
      modifies this`pending, this`queue, this`nonces, all, priced
      ensures Quiet(out) && all.All() == old(all.All()) - {Get(old(pending), a)[n].hash}
      ensures all.remotes == old(all.remotes) - {Get(old(pending), a)[n].hash}
      ensures kept == Under(Get(old(pending), a), n) && above == Over(Get(old(pending), a), n)
      ensures pending == SetList(old(pending), a, kept) && queue == Merge(old(queue), a, above)
      ensures nonces == Lowered(old(nonces), state.nonces, a, n)
    {
      kept, above := Under(Get(pending, a), n), Over(Get(pending, a), n);
      FiledKeys(pending, queue, all.All(), {}, a);
      RemovalParts(Get(pending, a), n);
      RemoveAndLower(a, n, kept, above, out);
    }

    method RemoveQueued(a: Addr, n: nat, ghost out: set<Hash>)
      requires Quiet(out) && n in Get(queue, a)
      modifies this`queue, all
      ensures Quiet(out) && all.All() == old(all.All()) - {Get(old(queue), a)[n].hash}
      ensures all.remotes == old(all.remotes) - {Get(old(queue), a)[n].hash}
      ensures queue == SetList(old(queue), a, Get(old(queue), a) - {n})
    {
      SetOnce(queue, a, Get(queue, a) - {n});
      StillNoneEmpty(queue, a, Get(queue, a) - {n});
      DropQueued(a, n, {}, out);
      PruneQueue(a, out);
    }

    /** Remove a known transaction from the list that holds it.  The lists are searched
        by nonce, which finds this transaction only because no nonce is in both. */
    method Unlist(tx: Tx, ghost out: set<Hash>)
      requires Quiet(out) && tx.hash in all.All() && all.All()[tx.hash] == tx
      modifies this`pending, this`queue, this`nonces, all, priced
      ensures Quiet(out) && all.All() == old(all.All()) - {tx.hash} && all.remotes == old(all.remotes) - {tx.hash}
      ensures Unlisted(old(pending), old(queue), tx, pending, queue)
      ensures nonces == if Held(old(pending), tx) then Lowered(old(nonces), state.nonces, tx.sender, tx.nonce)
                        else old(nonces)
      ensures !Held(old(pending), tx) ==> unchanged(priced)
    {
      FoundByNonce(pending, queue, all.All(), tx);
      if tx.nonce in Get(pending, tx.sender) {
        ghost var kept, above := UnlistPending(tx.sender, tx.nonce, out);
      } else if tx.nonce in Get(queue, tx.sender) {
        RemoveQueued(tx.sender, tx.nonce, out);
      }
    }

    /** Remove a transaction by hash.  A pending one sends those above it back to the queue. */
    method RemoveTx(h: Hash, outofbound: bool, ghost out: set<Hash>)
      requires Quiet(out)
      modifies this`pending, this`queue, this`nonces, all, priced
      ensures Quiet(out) && all.All() == old(all.All()) - {h} && all.remotes == old(all.remotes) - {h}
      ensures h !in old(all.All()) ==> pending == old(pending) && queue == old(queue) && nonces == old(nonces)
      ensures h in old(all.All()) ==> Unlisted(old(pending), old(queue), old(all.All())[h], pending, queue)
      ensures h in old(all.All()) ==>
                nonces == if Held(old(pending), old(all.All())[h])
                          then Lowered(old(nonces), state.nonces, old(all.All())[h].sender, old(all.All())[h].nonce)
                          else old(nonces)
      ensures !outofbound && (h in old(all.All()) ==> !Held(old(pending), old(all.All())[h])) ==> unchanged(priced)
    {
      if h !in all.All() {
        return;
      }
      Unlist(all.All()[h], out);
      if outofbound {
        CountRemoved(1, {}, out);
      }
    }

    // --------------------------------------------------------------- promotion

    /** Cut an account's queue down to `current`, then to `kept`. */
    method CutQueueTwice(a: Addr, current: Items, kept: Items) returns (dropped: nat)
      requires Ok({}, {}) && SubItems(current, Get(queue, a)) && SubItems(kept, current)
      modifies this`queue, all
      ensures Ok({}, {}) && queue == old(queue)[a := kept]
    {
      SetAgain(queue, a, current, kept);
      var forwards := CutQueue(a, current, {}, {});
      var drops := CutQueue(a, kept, {}, {});
      dropped := forwards + drops;
    }

    /** Drop queued transactions with old nonces, then those the sender cannot pay for. */
    method TrimQueue(a: Addr) returns (kept: Items, dropped: nat)
      requires Ok({}, {})
      modifies this`queue, all
      ensures Ok({}, {}) && queue == old(queue)[a := kept] && kept == Executable(state, a, Get(old(queue), a))
    {
      var current := From(Get(queue, a), Lookup0(state.nonces, a));
      kept := Executable(state, a, Get(queue, a));
      ExecutableParts(state, a, Get(queue, a));
      dropped := CutQueueTwice(a, current, kept);
    }

    /** Move the first run of a queue to the pending list if the pending nonce reaches it. */
    method PromoteReady(a: Addr) returns (ready: seq<Tx>, rest: Items)
      requires Ok({}, {})
      modifies this`pending, this`queue, this`nonces, all, priced
      ensures Ok({}, {}) && IsReady(Get(old(queue), a), NonceOf(old(nonces), state.nonces, a), ready)
      ensures queue == old(queue)[a := rest] && rest == AfterReady(Get(old(queue), a), ready)
      ensures pending == Merge(old(pending), a, Get(old(queue), a) - rest.Keys)
      ensures nonces == MarkedLast(old(nonces), a, ready)
    {
      var m := Get(queue, a);
      ready := ReadyOf(m, NonceOf(nonces, state.nonces, a));
      rest := AfterReady(m, ready);
      PromoteRest(a, rest, ready, {});
    }

    /** Keep only the lowest nonces of a queue that is not local. */
    method CapQueue(a: Addr) returns (kept: Items, dropped: nat)
      requires Ok({}, {})
      modifies this`queue, all
      ensures Ok({}, {}) && queue == old(queue)[a := kept]
      ensures Within(Get(old(queue), a), Limit(a in locals, config.accountQueue), kept)
    {
      kept := Get(queue, a);
      if a !in locals {
        kept := LowestOf(kept, config.accountQueue);
      }
      dropped := CutQueue(a, kept, {}, {});
    }

    /** Trim an account's queue and promote from it. */
    method Advance(a: Addr) returns (ready: seq<Tx>, ghost m: Items, rest: Items, ghost run: Items, dropped: nat)
      requires Ok({}, {})
      modifies this`pending, this`queue, this`nonces, all, priced
      ensures Ok({}, {}) && m == Executable(state, a, Get(old(queue), a))
      ensures IsReady(m, NonceOf(old(nonces), state.nonces, a), ready) && rest == AfterReady(m, ready)
      ensures queue == old(queue)[a := rest] && run == m - rest.Keys && pending == Merge(old(pending), a, run)
      ensures nonces == MarkedLast(old(nonces), a, ready)
    {
      ghost var q0 := queue;
      m, dropped := TrimQueue(a);
      ready, rest := PromoteReady(a);
      run := m - rest.Keys;
      SetAgain(q0, a, m, rest);
    }

    /** Cap the rest of a queue and count what left. */
    method CapAndCount(a: Addr, dropped: nat, ghost q0: ByAccount, ghost rest: Items) returns (ghost kept: Items)
      requires Ok({}, {}) && queue == q0[a := rest]
      modifies this`queue, all, priced
      ensures Ok({}, {}) && queue == q0[a := kept] && Within(rest, Limit(a in locals, config.accountQueue), kept)
    {
      var left, capped := CapQueue(a);
      kept := left;
      SetAgain(q0, a, rest, kept);
      CountRemoved(dropped + capped, {}, {});
    }

    /** Promote from one account's queue: drop what is old or unpayable, move the ready
        run to the pending list, and cap what is left. */
    method PromoteAccount(a: Addr) returns (ready: seq<Tx>, ghost m: Items, ghost rest: Items, ghost kept: Items)
      requires Valid()
      modifies this`pending, this`queue, this`nonces, all, priced
      ensures Valid() && m == Executable(state, a, Get(old(queue), a))
      ensures IsReady(m, NonceOf(old(nonces), state.nonces, a), ready) && rest == AfterReady(m, ready)
      ensures Within(rest, Limit(a in locals, config.accountQueue), kept)
      ensures queue == SetList(old(queue), a, kept) && pending == Merge(old(pending), a, m - rest.Keys)
      ensures nonces == MarkedLast(old(nonces), a, ready)
    {
      ghost var p0, q0 := pending, queue;
      ghost var run;
      var dropped;
      ready, m, rest, run, dropped := Advance(a);
      StillNoneEmpty(p0, a, run);
      kept := FinishQueue(a, dropped, q0, rest);
    }

    /** Cap the rest of a queue, or delete it if nothing is left. */
    method FinishQueue(a: Addr, dropped: nat, ghost q0: ByAccount, ghost rest: Items) returns (ghost kept: Items)
      requires Ok({}, {}) && NoneEmpty(q0) && queue == q0[a := rest]
      modifies this`queue, all, priced
      ensures Ok({}, {}) && NoneEmpty(queue) && queue == SetList(q0, a, kept)
      ensures Within(rest, Limit(a in locals, config.accountQueue), kept)
    {
      kept := CapAndCount(a, dropped, q0, rest);
      PruneRest(a, q0, kept);
    }

    method PruneRest(a: Addr, ghost q0: ByAccount, ghost kept: Items)
      requires Ok({}, {}) && NoneEmpty(q0) && queue == q0[a := kept]
      modifies this`queue
      ensures Ok({}, {}) && NoneEmpty(queue) && queue == SetList(q0, a, kept)
    {
      StillNoneEmpty(q0, a, kept);
      SetOnce(q0, a, kept);
      PruneQueue(a, {});
    }

    /** Promote one account, if it has a queue, and leave the others alone. */
    method SettleAccount(a: Addr) returns (ready: seq<Tx>)
      requires Valid()
      modifies this`pending, this`queue, this`nonces, all, priced
      ensures Valid() && SettledAt(queue, nonces, state, Limit(a in locals, config.accountQueue), a)
      ensures OthersSame(a, old(pending), old(queue), old(nonces), pending, queue, nonces)
      ensures Added(old(pending), pending, ready) && KeepsLine(old(pending), old(nonces), pending, nonces, state)
    {
      ready := [];
      if a in queue {
        ghost var p0, q0, n0 := pending, queue, nonces;
        ghost var m, rest, kept;
        FiledKeys(pending, queue, all.All(), {}, a);
        ready, m, rest, kept := PromoteAccount(a);
        GetSet(q0, a, kept);
        PromotedSettles(q0, queue, n0, nonces, state, a, m, ready, rest, Limit(a in locals, config.accountQueue));
        OnlyOne(p0, q0, n0, a, m - rest.Keys, Get(queue, a), ready);
        RunIsAdded(p0, q0, old(all.All()), state, a, m, n0, ready);
        PromoteKeeps(p0, q0, old(all.All()), n0, state, a, m, ready);
      }
    }

    /** Promote the given accounts.  What remains of their queues is payable, within the
        limit and beyond the pending nonce, so that promoting again would change nothing. */
    method PromoteExecutables(accounts: seq<Addr>) returns (promoted: seq<Tx>)
      requires Valid()
      modifies this`pending, this`queue, this`nonces, all, priced
      ensures Valid() && AllSettled(accounts, queue, nonces, state, locals, config.accountQueue)
      ensures SameBut(accounts, old(pending), old(queue), pending, queue) && Added(old(pending), pending, promoted)
      ensures KeepsLine(old(pending), old(nonces), pending, nonces, state)
    {
      promoted := [];
      for i := 0 to |accounts|
        invariant Valid() && AllSettled(accounts[..i], queue, nonces, state, locals, config.accountQueue)
        invariant SameBut(accounts, old(pending), old(queue), pending, queue) && Added(old(pending), pending, promoted)
        invariant KeepsLine(old(pending), old(nonces), pending, nonces, state)
      {
        ghost var p, q, n := pending, queue, nonces;
        var ready := SettleAccount(accounts[i]);
        SettledMore(accounts, i, p, q, n, pending, queue, nonces, state, locals, config.accountQueue);
        SameButMore(accounts, i, old(pending), old(queue), p, q, n, pending, queue, nonces);
        AddedMore(old(pending), p, pending, promoted, ready);
        promoted := promoted + ready;
      }
      assert accounts[..|accounts|] == accounts;
    }

    // ---------------------------------------------------------------- demotion

    /** Cut an account's pending list down to `current`, then to `kept`. */
    method CutPendingTwice(a: Addr, current: Items, kept: Items)
      requires Ok({}, {}) && SubItems(current, Get(pending, a)) && SubItems(kept, current)
      modifies this`pending, all
      ensures Ok({}, {}) && pending == old(pending)[a := kept]
    {
      SetAgain(pending, a, current, kept);
      var olds := CutPending(a, current, {}, {});
      var drops := CutPending(a, kept, {}, {});
    }

    /** Drop the old and then the unpayable transactions of a pending list. */
    method TrimPending(a: Addr) returns (kept: Items)
      requires Ok({}, {})
      modifies this`pending, all
      ensures Ok({}, {}) && pending == old(pending)[a := kept] && kept == Executable(state, a, Get(old(pending), a))
    {
      var current := From(Get(pending, a), Lookup0(state.nonces, a));
      kept := Executable(state, a, Get(pending, a));
      ExecutableParts(state, a, Get(pending, a));
      CutPendingTwice(a, current, kept);
    }

    /** Send back to the queue what lies above a dropped nonce and, if the list does not
        start at the chain's nonce, everything. */
    method SendBack(a: Addr, kept: Items)
      requires Ok({}, {}) && SubItems(kept, Get(pending, a))
      modifies this`pending, this`queue, all, priced
      ensures Ok({}, {}) && pending == old(pending)[a := kept] && unchanged(all)
      ensures queue == Merge(old(queue), a, Get(old(pending), a) - kept.Keys)
    {
      FiledKeys(pending, queue, all.All(), {}, a);
      var txs := SortByNonce(Get(pending, a) - kept.Keys);
      DemoteRest(a, kept, txs, {});
    }

    /** Requeue what a dropped nonce invalidates, then everything if a gap is in front. */
    method Regroup(a: Addr, strict: Items, nonce: nat) returns (kept: Items)
      requires Ok({}, {}) && SubItems(strict, Get(pending, a))
      modifies this`pending, this`queue, all, priced
      ensures Ok({}, {}) && kept == (if nonce in strict then strict else map[]) && pending == old(pending)[a := kept]
      ensures queue == Merge(old(queue), a, Get(old(pending), a) - kept.Keys)
    {
      ghost var p0, q0, m := pending, queue, Get(pending, a);
      kept := strict;
      SendBack(a, strict);
      if |kept| > 0 && nonce !in kept {
        kept := map[];
        SendBack(a, kept);
        SetAgain(p0, a, strict, kept);
        MergeTwice(q0, a, m, strict, kept);
      }
    }

    /** Revalidate one account's pending list against the chain state. */
    method DemoteAccount(a: Addr) returns (ghost m: Items, ghost kept: Items)
      requires Valid()
      modifies this`pending, this`queue, all, priced
      ensures Valid() && m == Executable(state, a, Get(old(pending), a))
      ensures kept == Standing(state, a, Get(old(pending), a))
      ensures pending == SetList(old(pending), a, kept) && queue == Merge(old(queue), a, m - kept.Keys)
    {
      ghost var p0, q0 := pending, queue;
      var nonce := Lookup0(state.nonces, a);
      var strict := Payable(From(Get(pending, a), nonce), true, Lookup0(state.balances, a), state.maxGas);
      StrictPart(Get(pending, a), nonce, Lookup0(state.balances, a), state.maxGas);
      m := TrimPending(a);
      kept := Regroup(a, strict, nonce);
      SetAgain(p0, a, m, kept);
      SetOnce(p0, a, kept);
      StillNoneEmpty(p0, a, kept);
      StillNoneEmpty(q0, a, m - kept.Keys);
      PrunePending(a, {});
    }

    /** Revalidate every pending list, in any order of the accounts. */
    method DemoteUnexecutables()
      requires Valid()
      modifies this`pending, this`queue, all, priced
      ensures Valid() && Demoted({}, state, old(pending), old(queue), pending, queue)
    {
      var todo := pending.Keys;
      DemoteNone(state, pending, queue);
      while todo != {}
        invariant Valid() && Demoted(todo, state, old(pending), old(queue), pending, queue)
        decreases todo
      {
        var a := Choose(todo);
        ghost var p0, q0 := pending, queue;
        ghost var m, kept := DemoteAccount(a);
        DemoteOne(todo, state, old(pending), old(queue), p0, q0, pending, queue, a, m, kept);
        todo := todo - {a};
      }
    }

    // ------------------------------------------------------------------ adding

    /** Remove remote transactions; local accounts are not touched. */
    method RemoveRemotes(txs: seq<Tx>, ghost out: set<Hash>)
      requires Quiet(out) && HashesOf(txs) <= all.remotes.Keys
      modifies this`pending, this`queue, this`nonces, all, priced
      ensures Quiet(out) && all.All() == old(all.All()) - HashesOf(txs)
      ensures all.remotes == old(all.remotes) - HashesOf(txs)
      ensures SameFor(locals, old(pending), old(queue), pending, queue)
      ensures old(pending) == map[] ==> pending == map[] && unchanged(priced)
      ensures KeepsLine(old(pending), old(nonces), pending, nonces, state)
    {
      for i := 0 to |txs|
        invariant Quiet(out) && all.All() == old(all.All()) - HashesOf(txs[..i])
        invariant all.remotes == old(all.remotes) - HashesOf(txs[..i])
        invariant SameFor(locals, old(pending), old(queue), pending, queue)
        invariant old(pending) == map[] ==> pending == map[] && unchanged(priced)
        invariant KeepsLine(old(pending), old(nonces), pending, nonces, state)
      {
        HashesStep(txs, i);
        DropOneMore(old(all.All()), HashesOf(txs[..i]), txs[i].hash);
        DropOneMore(old(all.remotes), HashesOf(txs[..i]), txs[i].hash);
        RemoveRemote(txs[i].hash, out);
      }
      assert txs[..|txs|] == txs;
    }

    method RemoveRemote(h: Hash, ghost out: set<Hash>)
      requires Quiet(out) && h !in all.locals
      modifies this`pending, this`queue, this`nonces, all, priced
      ensures Quiet(out) && all.All() == old(all.All()) - {h} && all.remotes == old(all.remotes) - {h}
      ensures SameFor(locals, old(pending), old(queue), pending, queue)
      ensures old(pending) == map[] ==> pending == map[] && unchanged(priced)
      ensures KeepsLine(old(pending), old(nonces), pending, nonces, state)
    {
      ghost var p, n := pending, nonces;
      RemoveTx(h, false, out);
      if h in old(all.All()) {
        RemoveKeepsLine(p, old(queue), n, state, old(all.All())[h], pending, queue, nonces);
        UnlistOthers(locals, old(pending), old(queue), old(all.All())[h], pending, queue);
      }
    }

    /** Evict the cheapest remote transactions for `tx`, unless it is itself too cheap or
        would not fit even so; a local one is let in anyway.  There is room afterwards if
        no remote transaction had two live entries on the heaps, and there is not if all
        remote ones together do not take up enough. */
    method MakeRoom(tx: Tx, isLocal: bool) returns (err: Option<AddError>, ghost drop: seq<Tx>)
      requires Valid()
      modifies this`pending, this`queue, this`nonces, all, priced
      ensures Valid() && SameFor(locals, old(pending), old(queue), pending, queue)
      ensures err == if !isLocal && old(priced.Outprices(tx)) then Some(TooCheap)
                     else if !isLocal && Excess(tx, old(all.slots)) > SlotSum(old(priced.LiveEntries()))
                     then Some(PoolOverflow)
                     else None
      ensures if err.Some? then pending == old(pending) && queue == old(queue) && unchanged(all) && drop == []
              else all.All() == old(all.All()) - HashesOf(drop) && HashesOf(drop) <= old(all.remotes).Keys
                   && Taken(old(priced.LiveEntries()), drop, Excess(tx, old(all.slots)))
                   && (old(priced.Splits()) ==> CheapestOf(old(priced.LiveEntries()), drop))
      ensures err.None? ==>
                Roomed(old(all.remotes), old(priced.LiveEntries()), drop, Excess(tx, old(all.slots)),
                       Excess(tx, all.slots))
      ensures KeepsLine(old(pending), old(nonces), pending, nonces, state)
    {
      ghost var live := priced.LiveEntries();
      var cheapest;
      err, cheapest := PickCheapest(tx, isLocal);
      drop := cheapest;
      if err.None? {
        Evict(cheapest, tx, live);
      }
    }

    /** Take the transactions to evict off the price heaps. */
    method PickCheapest(tx: Tx, isLocal: bool) returns (err: Option<AddError>, drop: seq<Tx>)
      requires Valid()
      modifies priced
      ensures Quiet(HashesOf(drop)) && HashesOf(drop) <= all.remotes.Keys
      ensures err == if !isLocal && old(priced.Outprices(tx)) then Some(TooCheap)
                     else if !isLocal && Excess(tx, all.slots) > SlotSum(old(priced.LiveEntries()))
                     then Some(PoolOverflow)
                     else None
      ensures err.Some? ==> drop == []
      ensures err.None? ==> Taken(old(priced.LiveEntries()), drop, Excess(tx, all.slots))
      ensures err.None? && old(priced.Splits()) ==> CheapestOf(old(priced.LiveEntries()), drop)
    {
      if !isLocal {
        var under := priced.Underpriced(tx);
        if under {
          return Some(TooCheap), [];
        }
      }
      var ok;
      drop, ok := priced.Discard(Excess(tx, all.slots), isLocal);
      if !isLocal && !ok {
        return Some(PoolOverflow), [];
      }
      err := None;
    }

    /** Remove what was taken off the price heaps. */
    method Evict(drop: seq<Tx>, ghost tx: Tx, ghost live: multiset<Tx>)
      requires Quiet(HashesOf(drop)) && HashesOf(drop) <= all.remotes.Keys && Taken(live, drop, Excess(tx, all.slots))
      modifies this`pending, this`queue, this`nonces, all, priced
      ensures Valid() && SameFor(locals, old(pending), old(queue), pending, queue)
      ensures all.All() == old(all.All()) - HashesOf(drop)
      ensures Roomed(old(all.remotes), live, drop, Excess(tx, old(all.slots)), Excess(tx, all.slots))
      ensures KeepsLine(old(pending), old(nonces), pending, nonces, state)
    {
      SlotsFreed(all.All(), all.remotes, live, drop, Excess(tx, all.slots));
      RemoveRemotes(drop, HashesOf(drop));
    }

    /** Replace a pending transaction by a better one with its nonce. */
    method ReplacePending(tx: Tx, isLocal: bool) returns (ok: bool)
      requires Valid() && tx.nonce in Get(pending, tx.sender)
      requires tx.hash !in all.All() && (tx.sender in locals ==> isLocal)
      modifies this`pending, all, priced
      ensures Valid() && ok == Replaces(Get(old(pending), tx.sender)[tx.nonce], tx, config.priceBump)
      ensures ok ==> pending == With(old(pending), tx)
                     && all.All() == (old(all.All()) - {Get(old(pending), tx.sender)[tx.nonce].hash})[tx.hash := tx]
      ensures !ok ==> pending == old(pending) && unchanged(all)
    {
      ok := Replaces(Get(pending, tx.sender)[tx.nonce], tx, config.priceBump);
      if ok {
        assert InPool(pending, queue, Get(pending, tx.sender)[tx.nonce]);
        VacatePending(tx, {}, {});
        FilePending(tx, isLocal);
      }
    }

    method FilePending(tx: Tx, isLocal: bool)
      requires Ok({}, {}) && tx.nonce !in Get(pending, tx.sender) && tx.nonce !in Get(queue, tx.sender)
      requires tx.hash !in all.All() && (tx.sender in locals ==> isLocal)
      modifies this`pending, all, priced
      ensures Ok({}, {}) && pending == With(old(pending), tx) && all.All() == old(all.All())[tx.hash := tx]
    {
      LearnTx(tx, isLocal, {}, {});
      PlacePending(tx, {} + {tx.hash}, {});
      assert {} + {tx.hash} - {tx.hash} == {};
    }

    /** Mark an account as local and its remote transactions with it. */
    method MarkLocal(a: Addr)
      requires Valid()
      modifies this`locals, all, priced
      ensures Valid() && locals == old(locals) + {a} && all.All() == old(all.All())
    {
      locals := locals + {a};
      var migrated := all.RemoteToLocals(locals);
      CountRemoved(migrated, {}, {});
    }

    /** Queue a new transaction and mark its sender as local if asked to. */
    method EnqueueNew(tx: Tx, local: bool, isLocal: bool) returns (ok: bool, replaced: bool)
      requires Valid() && tx.nonce !in Get(pending, tx.sender) && tx.hash !in all.All()
      requires isLocal == (local || tx.sender in locals)
      modifies this`queue, this`locals, all, priced
      ensures Valid() && ok == (tx.nonce in Get(old(queue), tx.sender) ==>
                                  Replaces(Get(old(queue), tx.sender)[tx.nonce], tx, config.priceBump))
      ensures replaced == (ok && tx.nonce in Get(old(queue), tx.sender))
      ensures ok ==> queue == With(old(queue), tx) && locals == old(locals) + (if local then {tx.sender} else {})
      ensures ok ==> all.All() == Discarding(old(all.All()), Get(old(queue), tx.sender), tx.nonce)[tx.hash := tx]
      ensures !ok ==> queue == old(queue) && locals == old(locals) && all.All() == old(all.All())
      ensures ok && !isLocal && !replaced ==> Prices() == Joined(old(Prices()), tx)
    {
      WithNoneEmpty(queue, tx);
      ok, replaced := EnqueueTx(tx, isLocal, true, {}, {});
      if ok {
        assert {} - {tx.hash} == {};
        if local && tx.sender !in locals {
          MarkLocal(tx.sender);
        }
      }
    }

    /** File a new transaction: in place of a pending one with its nonce, or in the queue. */
    method Insert(tx: Tx, local: bool, isLocal: bool) returns (ok: bool, replaced: bool)
      requires Valid() && tx.hash !in all.All() && isLocal == (local || tx.sender in locals)
      modifies this`pending, this`queue, this`locals, all, priced
      ensures Valid() && ok == Placeable(old(pending), old(queue), tx, config.priceBump)
      ensures replaced == (ok && Occupied(old(pending), old(queue), tx))
      ensures ok ==> all.All() == Vacated(old(all.All()), old(pending), old(queue), tx)[tx.hash := tx]
      ensures ok ==> PlacedIn(old(pending), old(queue), tx, pending, queue)
      ensures !ok ==> pending == old(pending) && queue == old(queue) && all.All() == old(all.All())
      ensures old(locals) <= locals <= old(locals) + (if local then {tx.sender} else {})
      ensures ok && !isLocal && !replaced ==> Prices() == Joined(old(Prices()), tx)
    {
      if tx.nonce in Get(pending, tx.sender) {
        ok := ReplacePending(tx, isLocal);
        replaced := ok;
      } else {
        ok, replaced := EnqueueNew(tx, local, isLocal);
      }
    }

    /** By how many slots the transaction would exceed the capacity. */
    function Excess(tx: Tx, slots: int): int
    {
      slots - (config.globalSlots + config.globalQueue) + NumSlots(tx)
    }

    /** The transaction is new and passes the checks that come first. */
    ghost predicate Passes(tx: Tx, local: bool, admissible: bool)
      reads this, all
    {
      tx.hash !in all.All() && admissible && Acceptable(tx, local || tx.sender in locals, gasPrice, state)
    }

    /** Why a new transaction is not even compared with the holder of its place. */
    ghost function Refusal(tx: Tx, isLocal: bool): Option<AddError>
      reads all, priced, priced.all
    {
      if Excess(tx, all.slots) <= 0 || isLocal then None
      else if priced.Outprices(tx) then Some(TooCheap)
      else if Excess(tx, all.slots) > SlotSum(priced.LiveEntries()) then Some(PoolOverflow)
      else None
    }

    /** Add a transaction.  `admissible` stands for the checks that need its type, value,
        data and signature.  A full pool first evicts remote transactions, even if the
        new one then fails to outbid the holder of its place.  A remote transaction that
        gets in leaves the pool within its capacity if no eviction was needed or no remote
        transaction had two live entries on the heaps. */
    method Add(tx: Tx, local: bool, admissible: bool)
      returns (replaced: bool, err: Option<AddError>, ghost drop: seq<Tx>)
      requires Valid()
      modifies this`pending, this`queue, this`locals, this`nonces, all, priced
      ensures Valid() && old(locals) <= locals <= old(locals) + (if local then {tx.sender} else {})
      ensures err == if tx.hash in old(all.All()) then Some(AlreadyKnown)
                     else if !old(Passes(tx, local, admissible)) then Some(Unacceptable)
                     else if old(Refusal(tx, local || tx.sender in locals)).Some?
                     then old(Refusal(tx, local || tx.sender in locals))
                     else if Blocked(old(all.All()) - HashesOf(drop), tx, config.priceBump) then Some(ReplaceTooCheap)
                     else None
      ensures !Processed(err) ==> pending == old(pending) && queue == old(queue) && unchanged(all)
      ensures Processed(err) ==>
                Entered(old(all.All()) - HashesOf(drop), all.All(), tx, replaced, err, config.priceBump)
      ensures HashesOf(drop) <= old(all.remotes).Keys
      ensures if Processed(err)
              then Picked(old(priced.LiveEntries()), old(priced.Splits()), Excess(tx, old(all.slots)), drop)
              else drop == []
      ensures Excess(tx, old(all.slots)) <= 0 && err.None? ==> PlacedIn(old(pending), old(queue), tx, pending, queue)
      ensures Excess(tx, old(all.slots)) <= 0 && err.None? && !replaced && !(local || tx.sender in old(locals)) ==>
                Prices() == Joined(old(Prices()), tx)
      ensures Processed(err) && !(local || tx.sender in old(locals)) ==>
                Fits(Excess(tx, old(all.slots)), old(all.remotes), old(priced.LiveEntries()), drop,
                     all.slots - (config.globalSlots + config.globalQueue), err.None? && !replaced)
      ensures KeepsLine(old(pending), old(nonces), pending, nonces, state)
      ensures Excess(tx, old(all.slots)) <= 0 ==> unchanged(this`nonces)
    {
      if tx.hash in all.All() {
        return false, Some(AlreadyKnown), [];
      }
      var isLocal := local || tx.sender in locals;
      if !(admissible && Acceptable(tx, isLocal, gasPrice, state)) {
        return false, Some(Unacceptable), [];
      }
      replaced, err, drop := AddChecked(tx, local, isLocal);
    }

    method AddChecked(tx: Tx, local: bool, isLocal: bool)
      returns (replaced: bool, err: Option<AddError>, ghost drop: seq<Tx>)
      requires Valid() && tx.hash !in all.All() && isLocal == (local || tx.sender in locals)
      modifies this`pending, this`queue, this`locals, this`nonces, all, priced
      ensures Valid() && old(locals) <= locals <= old(locals) + (if local then {tx.sender} else {})
      ensures if old(Refusal(tx, isLocal)).Some?
              then err == old(Refusal(tx, isLocal)) && pending == old(pending) && queue == old(queue) && unchanged(all)
                   && drop == []
              else Entered(old(all.All()) - HashesOf(drop), all.All(), tx, replaced, err, config.priceBump)
                   && Picked(old(priced.LiveEntries()), old(priced.Splits()), Excess(tx, old(all.slots)), drop)
      ensures HashesOf(drop) <= old(all.remotes).Keys
      ensures Excess(tx, old(all.slots)) <= 0 ==>
                && unchanged(this`nonces) && (err.None? ==> PlacedIn(old(pending), old(queue), tx, pending, queue))
                && (err.None? && !replaced && !isLocal ==> Prices() == Joined(old(Prices()), tx))
      ensures Processed(err) && !isLocal ==>
                Fits(Excess(tx, old(all.slots)), old(all.remotes), old(priced.LiveEntries()), drop,
                     all.slots - (config.globalSlots + config.globalQueue), err.None? && !replaced)
      ensures PaidAt(state, tx.sender, tx) ==> KeepsLine(old(pending), old(nonces), pending, nonces, state)
    {
      if Excess(tx, all.slots) > 0 {
        replaced, err, drop := AddEvicting(tx, local, isLocal);
      } else {
        replaced, err, drop := AddRoomy(tx, local, isLocal);
      }
    }

    /** Nothing has to be evicted. */
    method AddRoomy(tx: Tx, local: bool, isLocal: bool)
      returns (replaced: bool, err: Option<AddError>, ghost drop: seq<Tx>)
      requires Valid() && tx.hash !in all.All() && isLocal == (local || tx.sender in locals)
      requires Excess(tx, all.slots) <= 0
      modifies this`pending, this`queue, this`locals, this`nonces, all, priced
      ensures Valid() && old(locals) <= locals <= old(locals) + (if local then {tx.sender} else {})
      ensures if old(Refusal(tx, isLocal)).Some?
              then err == old(Refusal(tx, isLocal)) && pending == old(pending) && queue == old(queue) && unchanged(all)
                   && drop == []
              else Entered(old(all.All()) - HashesOf(drop), all.All(), tx, replaced, err, config.priceBump)
                   && Picked(old(priced.LiveEntries()), old(priced.Splits()), Excess(tx, old(all.slots)), drop)
      ensures HashesOf(drop) <= old(all.remotes).Keys
      ensures Excess(tx, old(all.slots)) <= 0 ==>
                && unchanged(this`nonces) && (err.None? ==> PlacedIn(old(pending), old(queue), tx, pending, queue))
                && (err.None? && !replaced && !isLocal ==> Prices() == Joined(old(Prices()), tx))
      ensures Processed(err) && !isLocal ==>
                Fits(Excess(tx, old(all.slots)), old(all.remotes), old(priced.LiveEntries()), drop,
                     all.slots - (config.globalSlots + config.globalQueue), err.None? && !replaced)
      ensures PaidAt(state, tx.sender, tx) ==> KeepsLine(old(pending), old(nonces), pending, nonces, state)
    {
      ghost var remotes, live, excess := all.remotes, priced.LiveEntries(), Excess(tx, all.slots);
      ghost var p, n := pending, nonces;
      drop := [];
      assert all.All() - HashesOf(drop) == all.All() && Fits(excess, remotes, live, drop, excess, true);
      replaced, err := AddFitting(tx, local, isLocal, excess, remotes, live, drop, p, n);
    }

    /** Make room first. */
    method AddEvicting(tx: Tx, local: bool, isLocal: bool)
      returns (replaced: bool, err: Option<AddError>, ghost drop: seq<Tx>)
      requires Valid() && tx.hash !in all.All() && isLocal == (local || tx.sender in locals)
      requires Excess(tx, all.slots) > 0
      modifies this`pending, this`queue, this`locals, this`nonces, all, priced
      ensures Valid() && old(locals) <= locals <= old(locals) + (if local then {tx.sender} else {})
      ensures if old(Refusal(tx, isLocal)).Some?
              then err == old(Refusal(tx, isLocal)) && pending == old(pending) && queue == old(queue) && unchanged(all)
                   && drop == []
              else Entered(old(all.All()) - HashesOf(drop), all.All(), tx, replaced, err, config.priceBump)
                   && Picked(old(priced.LiveEntries()), old(priced.Splits()), Excess(tx, old(all.slots)), drop)
      ensures HashesOf(drop) <= old(all.remotes).Keys
      ensures Excess(tx, old(all.slots)) <= 0 ==>
                && unchanged(this`nonces) && (err.None? ==> PlacedIn(old(pending), old(queue), tx, pending, queue))
                && (err.None? && !replaced && !isLocal ==> Prices() == Joined(old(Prices()), tx))
      ensures Processed(err) && !isLocal ==>
                Fits(Excess(tx, old(all.slots)), old(all.remotes), old(priced.LiveEntries()), drop,
                     all.slots - (config.globalSlots + config.globalQueue), err.None? && !replaced)
      ensures PaidAt(state, tx.sender, tx) ==> KeepsLine(old(pending), old(nonces), pending, nonces, state)
    {
      ghost var remotes, live, excess := all.remotes, priced.LiveEntries(), Excess(tx, all.slots);
      ghost var p, n := pending, nonces;
      replaced := false;
      err, drop := MakeRoom(tx, isLocal);
      if err.None? {
        replaced, err := AddFitting(tx, local, isLocal, excess, remotes, live, drop, p, n);
      }
    }

    method AddFitting(tx: Tx, local: bool, isLocal: bool, ghost excess: int, ghost remotes: Pool,
                      ghost live: multiset<Tx>, ghost drop: seq<Tx>, ghost p0: ByAccount, ghost n0: map<Addr, nat>)
      returns (replaced: bool, err: Option<AddError>)
      requires Valid() && tx.hash !in all.All() && isLocal == (local || tx.sender in locals)
      requires KeepsLine(p0, n0, pending, nonces, state)
      modifies this`pending, this`queue, this`locals, all, priced
      ensures Valid() && old(locals) <= locals <= old(locals) + (if local then {tx.sender} else {})
      ensures Entered(old(all.All()), all.All(), tx, replaced, err, config.priceBump)
      ensures err.None? ==> PlacedIn(old(pending), old(queue), tx, pending, queue)
      ensures err.None? && !isLocal && !replaced ==> Prices() == Joined(old(Prices()), tx)
      ensures Fits(excess, remotes, live, drop, Excess(tx, old(all.slots)), true) ==>
                Fits(excess, remotes, live, drop, all.slots - (config.globalSlots + config.globalQueue),
                     err.None? && !replaced)
      ensures PaidAt(state, tx.sender, tx) ==> KeepsLine(p0, n0, pending, nonces, state)
    {
      ghost var over := Excess(tx, all.slots);
      replaced, err := PlaceInLine(tx, local, isLocal, p0, n0);
      FitsStill(excess, remotes, live, drop, over, all.slots - (config.globalSlots + config.globalQueue),
                err.None? && !replaced);
    }

    method PlaceInLine(tx: Tx, local: bool, isLocal: bool, ghost p0: ByAccount, ghost n0: map<Addr, nat>)
      returns (replaced: bool, err: Option<AddError>)
      requires Valid() && tx.hash !in all.All() && isLocal == (local || tx.sender in locals)
      requires KeepsLine(p0, n0, pending, nonces, state)
      modifies this`pending, this`queue, this`locals, all, priced
      ensures Valid() && old(locals) <= locals <= old(locals) + (if local then {tx.sender} else {})
      ensures Entered(old(all.All()), all.All(), tx, replaced, err, config.priceBump)
      ensures err.None? ==> PlacedIn(old(pending), old(queue), tx, pending, queue)
      ensures err.None? && !isLocal && !replaced ==> Prices() == Joined(old(Prices()), tx)
      ensures all.slots <= old(all.slots) + NumSlots(tx)
      ensures err.None? && !replaced ==> all.slots == old(all.slots) + NumSlots(tx)
      ensures PaidAt(state, tx.sender, tx) ==> KeepsLine(p0, n0, pending, nonces, state)
    {
      ghost var p, q := pending, queue;
      replaced, err := PlaceNew(tx, local, isLocal);
      if PaidAt(state, tx.sender, tx) { PlaceKeepsLine(p0, n0, p, q, nonces, state, tx, pending, queue); }
    }

    /** File a new transaction, or refuse it. */
    method PlaceNew(tx: Tx, local: bool, isLocal: bool) returns (replaced: bool, err: Option<AddError>)
      requires Valid() && tx.hash !in all.All() && isLocal == (local || tx.sender in locals)
      modifies this`pending, this`queue, this`locals, all, priced
      ensures Valid() && old(locals) <= locals <= old(locals) + (if local then {tx.sender} else {})
      ensures Entered(old(all.All()), all.All(), tx, replaced, err, config.priceBump)
      ensures if err.None? then PlacedIn(old(pending), old(queue), tx, pending, queue) else pending == old(pending)
      ensures err.None? && !isLocal && !replaced ==> Prices() == Joined(old(Prices()), tx)
      ensures all.slots <= old(all.slots) + NumSlots(tx)
      ensures err.None? && !replaced ==> all.slots == old(all.slots) + NumSlots(tx)
    {
      ghost var pool := all.All();
      VacatedIs(pending, queue, pool, tx);
      PlaceableIff(pending, queue, pool, tx, config.priceBump);
      SlotsPlaced(pending, queue, pool, tx);
      var ok;
      ok, replaced := Insert(tx, local, isLocal);
      err := if ok then None else Some(ReplaceTooCheap);
    }

    // ---------------------------------------------------------------- limiting

    method RemoveQueuedTx(a: Addr, n: nat)
      requires Valid() && n in Get(queue, a)
      modifies this`pending, this`queue, this`nonces, all, priced
      ensures Valid() && queue == SetList(old(queue), a, Get(old(queue), a) - {n})
      ensures pending == old(pending) && nonces == old(nonces)
    {
      var tx := Get(queue, a)[n];
      assert InPool(pending, queue, tx);
      RemoveTx(tx.hash, true, {});
    }

    /** Remove the highest nonce of an account's queue; `txs` sorts the contents. */
    method DropLast(a: Addr, txs: seq<Tx>, i: nat, ghost q0: ByAccount, ghost m: Items) returns (ghost kept: Items)
      requires Valid() && 0 < i <= |txs| && Flat(m, txs[..i]) && queue == SetList(q0, a, m)
      modifies this`pending, this`queue, this`nonces, all, priced
      ensures Valid() && pending == old(pending) && nonces == old(nonces)
      ensures Flat(kept, txs[..i - 1]) && queue == SetList(q0, a, kept)
    {
      kept := m - {txs[i - 1].nonce};
      FlatLast(m, txs, i);
      GetSet(q0, a, m);
      SetTwice(q0, a, m, kept);
      RemoveQueuedTx(a, txs[i - 1].nonce);
    }

    /** Remove the transactions from the end of a sorted queue down to position `stop`. */
    method DropDownTo(a: Addr, txs: seq<Tx>, stop: nat) returns (ghost kept: Items)
      requires Valid() && stop <= |txs| && Flat(Get(queue, a), txs[..|txs|])
      modifies this`pending, this`queue, this`nonces, all, priced
      ensures Valid() && pending == old(pending) && nonces == old(nonces)
      ensures Flat(kept, txs[..stop]) && queue == SetList(old(queue), a, kept)
    {
      ghost var q0 := queue;
      kept := Get(queue, a);
      SetSame(queue, a);
      var i := |txs|;
      while i > stop
        invariant stop <= i <= |txs| && Valid() && pending == old(pending) && nonces == old(nonces)
        invariant Flat(kept, txs[..i]) && queue == SetList(q0, a, kept)
      {
        kept := DropLast(a, txs, i, q0, kept);
        i := i - 1;
      }
    }

    /** Remove the highest `count` nonces of an account's queue. */
    method DropTail(a: Addr, count: nat)
      requires Valid() && count <= |Get(queue, a)|
      modifies this`pending, this`queue, this`nonces, all, priced
      ensures Valid() && pending == old(pending) && nonces == old(nonces)
      ensures queue == SetList(old(queue), a, Get(queue, a))
      ensures Lowest(Get(old(queue), a), |Get(old(queue), a)| - count, Get(queue, a))
    {
      ghost var m := Get(queue, a);
      FiledKeys(pending, queue, all.All(), {}, a);
      var txs := SortByNonce(Get(queue, a));
      WholePrefix(m, txs);
      ghost var q0 := queue;
      ghost var kept := DropDownTo(a, txs, |txs| - count);
      GetSet(q0, a, kept);
      PrefixIsLowest(m, txs, |txs| - count, kept);
    }

    /** Drop up to `excess` transactions, the highest first, from one account's queue. */
    method ShedFrom(a: Addr, ghost q0: ByAccount, ghost todo: set<Addr>, excess: nat) returns (left: nat)
      requires Valid() && Truncating(q0, queue, locals, todo, excess) && a in todo && excess > 0
      modifies this`pending, this`queue, this`nonces, all, priced
      ensures Valid() && pending == old(pending) && nonces == old(nonces)
      ensures Truncating(q0, queue, locals, todo - {a}, left) && Total(queue) == Total(old(queue)) - excess + left
      ensures OneCut(q0, queue)
    {
      ghost var q := queue;
      var count := DropUpTo(a, excess);
      TruncateOne(q0, q, queue, locals, todo, excess, a, count);
      left := excess - count;
    }

    method DropUpTo(a: Addr, excess: nat) returns (count: nat)
      requires Valid()
      modifies this`pending, this`queue, this`nonces, all, priced
      ensures Valid() && pending == old(pending) && nonces == old(nonces)
      ensures count == if |Get(old(queue), a)| <= excess then |Get(old(queue), a)| else excess
      ensures queue == SetList(old(queue), a, Get(queue, a))
      ensures Lowest(Get(old(queue), a), |Get(old(queue), a)| - count, Get(queue, a))
    {
      count := if |Get(queue, a)| <= excess then |Get(queue, a)| else excess;
      DropTail(a, count);
    }

    /** Drop `excess` queued transactions, account by account in any order, or all that
        are not local. */
    method Shed(excess: nat) returns (left: nat, todo: set<Addr>)
      requires Valid()
      modifies this`pending, this`queue, this`nonces, all, priced
      ensures Valid() && pending == old(pending) && nonces == old(nonces)
      ensures Total(queue) == Total(old(queue)) - excess + left && (left == 0 || todo == {})
      ensures Truncating(old(queue), queue, locals, todo, left) && OneCut(old(queue), queue)
    {
      ghost var q0 := queue;
      left, todo := excess, queue.Keys - locals;
      TruncateNone(queue, locals, left);
      while left > 0 && todo != {}
        invariant Valid() && pending == old(pending) && nonces == old(nonces)
        invariant Total(queue) == Total(q0) - excess + left && Truncating(q0, queue, locals, todo, left)
        invariant OneCut(q0, queue)
        decreases todo
      {
        var a := Choose(todo);
        left := ShedFrom(a, q0, todo, left);
        todo := todo - {a};
      }
    }

    /** Drop queued transactions until the total is within the limit or only local
        queues are left.  Each account keeps its lowest nonces; at most one is cut in
        part, all others are whole or gone. */
    method TruncateQueue()
      requires Valid()
      modifies this`pending, this`queue, this`nonces, all, priced
      ensures Valid() && pending == old(pending) && nonces == old(nonces)
      ensures Total(old(queue)) <= config.globalQueue ==> queue == old(queue)
      ensures Total(old(queue)) > config.globalQueue ==>
                Total(queue) == config.globalQueue || (Total(queue) > config.globalQueue && queue.Keys <= locals)
      ensures forall a | a in locals :: Get(queue, a) == Get(old(queue), a)
      ensures forall a :: Lowest(Get(old(queue), a), |Get(queue, a)|, Get(queue, a))
      ensures OneCut(old(queue), queue)
    {
      TruncateNone(queue, locals, 0);
      var queued := Count(queue);
      if queued <= config.globalQueue {
        return;
      }
      var left, todo := Shed(queued - config.globalQueue);
    }

    /** Drop all but `kept`, which is not empty, of an account's pending list. */
    method CutAway(a: Addr, kept: Items)
      requires Valid() && SubItems(kept, Get(pending, a)) && kept != map[]
      modifies this`pending, all, priced
      ensures Valid() && pending == SetList(old(pending), a, kept)
    {
      StillNoneEmpty(pending, a, kept);
      var caps := CutPending(a, kept, {}, {});
      CountRemoved(caps, {}, {});
    }

    /** ... and lower its pending nonce. */
    method CutAndLower(a: Addr, kept: Items, top: nat)
      requires Valid() && SubItems(kept, Get(pending, a)) && kept != map[]
      modifies this`pending, this`nonces, all, priced
      ensures Valid() && pending == SetList(old(pending), a, kept)
      ensures nonces == Lowered(old(nonces), state.nonces, a, top)
    {
      CutAway(a, kept);
      nonces := Lowered(nonces, state.nonces, a, top);
    }

    /** Cut the highest nonce off an account's pending list. */
    method CutTop(a: Addr) returns (kept: Items, top: nat)
      requires Valid() && |Get(pending, a)| >= 2
      modifies this`pending, this`nonces, all, priced
      ensures Valid() && pending == SetList(old(pending), a, kept)
      ensures kept == Get(old(pending), a) - {top} && Highest(Get(old(pending), a), top)
      ensures nonces == Lowered(old(nonces), state.nonces, a, top)
      ensures KeepsLine(old(pending), old(nonces), pending, nonces, state)
    {
      ghost var p, n := pending, nonces;
      FiledKeys(pending, queue, all.All(), {}, a);
      kept, top := LessOne(Get(pending, a));
      TopKeepsLine(p, n, state, a, kept, top);
      CutAndLower(a, kept, top);
    }

    /** Cut the next offender's list by one. */
    method CutNext(offs: seq<Addr>, rest: seq<Addr>, ghost p0: ByAccount, ghost n0: map<Addr, nat>,
                   ghost cut: set<Addr>, ghost level: nat)
      requires Valid() && Rounding(p0, pending, locals, offs, level, rest, cut) && rest != [] && level >= 2
      requires NoncesFollow(p0, pending, nonces, state.nonces)
      requires KeepsLine(p0, n0, pending, nonces, state)
      modifies this`pending, this`nonces, all, priced
      ensures Valid() && Rounding(p0, pending, locals, offs, level, rest[1..], cut + {rest[0]})
      ensures Total(pending) == Total(old(pending)) - 1 && NoncesFollow(p0, pending, nonces, state.nonces)
      ensures KeepsLine(p0, n0, pending, nonces, state)
    {
      ghost var p, n := pending, nonces;
      AtLevel(p0, pending, locals, offs, level, rest, cut);
      var kept, top := CutTop(rest[0]);
      KeepsBoth(p0, n0, p, n, pending, nonces, state);
      RoundStep(p0, p, pending, locals, offs, level, rest, cut, kept, top);
      NoncesFollowCut(p0, p, pending, n, state.nonces, rest[0], top);
    }

    /** Cut every offender's list by one. */
    method Round(offs: seq<Addr>, count0: int, ghost p0: ByAccount, ghost n0: map<Addr, nat>, ghost level: nat,
                 ghost next: nat)
      returns (count: int)
      requires Valid() && count0 == Total(pending) && NoncesFollow(p0, pending, nonces, state.nonces)
      requires level == next + 1 >= 2 && Rounding(p0, pending, locals, offs, level, offs, {})
      requires Short(p0, locals, SetOf(offs), next)
      requires KeepsLine(p0, n0, pending, nonces, state)
      modifies this`pending, this`nonces, all, priced
      ensures Valid() && count == Total(pending) && Level(p0, pending, locals, {}, next)
      ensures NoncesFollow(p0, pending, nonces, state.nonces)
      ensures KeepsLine(p0, n0, pending, nonces, state)
    {
      count := count0;
      var rest := offs;
      ghost var cut: set<Addr> := {};
      while rest != []
        invariant Valid() && count == Total(pending) && NoncesFollow(p0, pending, nonces, state.nonces)
        invariant KeepsLine(p0, n0, pending, nonces, state)
        invariant Rounding(p0, pending, locals, offs, level, rest, cut)
      {
        CutNext(offs, rest, p0, n0, cut, level);
        cut := cut + {rest[0]};
        rest, count := rest[1..], count - 1;
      }
      assert cut == SetOf(offs);
      RoundDone(p0, pending, locals, cut, level, next);
    }

    /** Cut all offenders round by round until the limit is met or the last of them is
        down to the threshold. */
    method Equalize(offs: seq<Addr>, threshold: nat, count0: int, ghost p0: ByAccount, ghost n0: map<Addr, nat>,
                    ghost level0: nat, ghost above0: ByAccount)
      returns (count: int, ghost level: nat, ghost above: ByAccount)
      requires Valid() && count0 == Total(pending) && NoncesFollow(p0, pending, nonces, state.nonces)
      requires Sinking(p0, pending, locals, config.globalSlots, offs, threshold, level0, above0)
      requires KeepsLine(p0, n0, pending, nonces, state)
      modifies this`pending, this`nonces, all, priced
      ensures Valid() && count == Total(pending) && NoncesFollow(p0, pending, nonces, state.nonces)
      ensures KeepsLine(p0, n0, pending, nonces, state)
      ensures Sinking(p0, pending, locals, config.globalSlots, offs, threshold, level, above)
      ensures count <= config.globalSlots || level == threshold
    {
      count, level, above := count0, level0, above0;
      while count > config.globalSlots && |Get(pending, offs[|offs| - 1])| > threshold
        invariant Valid() && count == Total(pending) && NoncesFollow(p0, pending, nonces, state.nonces)
        invariant KeepsLine(p0, n0, pending, nonces, state)
        invariant Sinking(p0, pending, locals, config.globalSlots, offs, threshold, level, above)
        decreases level
      {
        count, level, above := Lower(offs, threshold, count, p0, n0, level, above);
      }
      if count > config.globalSlots {
        OffenderAtLevel(p0, pending, locals, config.globalSlots, offs, threshold, level, above);
      }
    }

    /** One round, from one level to the next. */
    method Lower(offs: seq<Addr>, ghost threshold: nat, count0: int, ghost p0: ByAccount, ghost n0: map<Addr, nat>,
                 ghost level0: nat, ghost above0: ByAccount)
      returns (count: int, ghost level: nat, ghost above: ByAccount)
      requires Valid() && count0 == Total(pending) > config.globalSlots
      requires NoncesFollow(p0, pending, nonces, state.nonces)
      requires Sinking(p0, pending, locals, config.globalSlots, offs, threshold, level0, above0)
      requires |Get(pending, offs[|offs| - 1])| > threshold
      requires KeepsLine(p0, n0, pending, nonces, state)
      modifies this`pending, this`nonces, all, priced
      ensures Valid() && count == Total(pending) && NoncesFollow(p0, pending, nonces, state.nonces)
      ensures KeepsLine(p0, n0, pending, nonces, state)
      ensures Sinking(p0, pending, locals, config.globalSlots, offs, threshold, level, above) && level < level0
    {
      above := pending;
      level := OffendersAbove(p0, above, locals, config.globalSlots, offs, threshold, level0, above0);
      count := Round(offs, count0, p0, n0, level0, level);
      SinkOne(p0, above, pending, locals, config.globalSlots, offs, threshold, level0, above0, level);
    }

    /** Cut the offenders so far down to the next one, which then joins them. */
    method Admit(b: Addr, offs: seq<Addr>, count0: int, ghost spammers: map<Addr, nat>,
                 ghost p0: ByAccount, ghost n0: map<Addr, nat>, ghost level0: nat, ghost above0: ByAccount)
      returns (count: int, ghost level: nat, ghost above: ByAccount)
      requires Valid() && count0 == Total(pending) > config.globalSlots
      requires NoncesFollow(p0, pending, nonces, state.nonces)
      requires Filling(p0, pending, locals, config.accountSlots, config.globalSlots, offs, spammers, level0, above0)
      requires Largest(spammers, b)
      requires KeepsLine(p0, n0, pending, nonces, state)
      modifies this`pending, this`nonces, all, priced
      ensures Valid() && count == Total(pending) && NoncesFollow(p0, pending, nonces, state.nonces)
      ensures KeepsLine(p0, n0, pending, nonces, state)
      ensures Filling(p0, pending, locals, config.accountSlots, config.globalSlots, offs + [b], spammers - {b}, level,
                      above)
    {
      if offs == [] {
        FillFirst(pending, locals, config.accountSlots, config.globalSlots, spammers, b);
        count, level, above := count0, |Get(pending, b)|, pending;
        assert [] + [b] == [b];
      } else {
        SinkToNext(p0, pending, locals, config.accountSlots, config.globalSlots, offs, spammers, level0, above0, b);
        count, level, above := Equalize(offs, |Get(pending, b)|, count0, p0, n0, level0, above0);
        FillNext(p0, pending, locals, config.accountSlots, config.globalSlots, offs, spammers, level, above, b);
      }
    }

    /** Cut the longest pending lists, one after the other as they are met. */
    method CutSpammers(count0: int, spammers0: map<Addr, nat>, ghost level0: nat)
      returns (offs: seq<Addr>, spammers: map<Addr, nat>, count: int, ghost level: nat, ghost above: ByAccount)
      requires Valid() && count0 == Total(pending) > config.globalSlots
      requires Filling(pending, pending, locals, config.accountSlots, config.globalSlots, [], spammers0, level0,
                       pending)
      modifies this`pending, this`nonces, all, priced
      ensures Valid() && count == Total(pending) && NoncesFollow(old(pending), pending, nonces, state.nonces)
      ensures KeepsLine(old(pending), old(nonces), pending, nonces, state)
      ensures Filling(old(pending), pending, locals, config.accountSlots, config.globalSlots, offs, spammers, level,
                      above)
      ensures count <= config.globalSlots || spammers == map[]
    {
      ghost var p0, n0 := pending, nonces;
      offs, spammers, count, level, above := [], spammers0, count0, level0, pending;
      while count > config.globalSlots && spammers != map[]
        invariant Valid() && count == Total(pending) && NoncesFollow(p0, pending, nonces, state.nonces)
        invariant KeepsLine(p0, n0, pending, nonces, state)
        invariant Filling(p0, pending, locals, config.accountSlots, config.globalSlots, offs, spammers, level, above)
        decreases |spammers|
      {
        var b := PopLargest(spammers);
        count, level, above := Admit(b, offs, count, spammers, p0, n0, level, above);
        PopSize(spammers, b);
        offs, spammers := offs + [b], spammers - {b};
      }
    }

    /** Cut pending lists if together they exceed the limit.  All lists but the local ones
        end at one level, each with its lowest nonces; the level is not below the
        guaranteed slots, the next higher one would exceed the limit, and the limit is
        met unless nobody has more than the guaranteed slots. */
    method TruncatePending() returns (ghost level: nat, ghost above: ByAccount)
      requires Valid() && config.accountSlots >= 1
      modifies this`pending, this`nonces, all, priced
      ensures Valid() && NoncesFollow(old(pending), pending, nonces, state.nonces)
      ensures KeepsLine(old(pending), old(nonces), pending, nonces, state)
      ensures Total(old(pending)) <= config.globalSlots ==> pending == old(pending)
      ensures Total(old(pending)) > config.globalSlots ==>
                Fair(old(pending), pending, locals, config.globalSlots, config.accountSlots, level, above)
      ensures Total(pending) <= config.globalSlots || Short(pending, locals, {}, config.accountSlots)
    {
      level, above := 0, pending;
      var count: int := Count(pending);
      if count <= config.globalSlots {
        return;
      }
      var spammers := SpammersOf(pending, locals, config.accountSlots);
      SpammersAre(pending, locals, config.accountSlots);
      level := FillStart(pending, locals, config.accountSlots, config.globalSlots, spammers);
      level, above := CutDown(count, spammers, level);
    }

    method CutDown(count0: int, spammers0: map<Addr, nat>, ghost level0: nat)
      returns (ghost level: nat, ghost above: ByAccount)
      requires Valid() && count0 == Total(pending) > config.globalSlots && config.accountSlots >= 1
      requires Filling(pending, pending, locals, config.accountSlots, config.globalSlots, [], spammers0, level0,
                       pending)
      modifies this`pending, this`nonces, all, priced
      ensures Valid() && NoncesFollow(old(pending), pending, nonces, state.nonces)
      ensures KeepsLine(old(pending), old(nonces), pending, nonces, state)
      ensures Fair(old(pending), pending, locals, config.globalSlots, config.accountSlots, level, above)
    {
      ghost var p0, n0 := pending, nonces;
      var offs, spammers, count;
      offs, spammers, count, level, above := CutSpammers(count0, spammers0, level0);
      if count > config.globalSlots {
        if offs != [] {
          SinkToSlots(p0, pending, locals, config.accountSlots, config.globalSlots, offs, spammers, level, above);
          count, level, above := Equalize(offs, config.accountSlots, count, p0, n0, level, above);
        }
        if count > config.globalSlots {
          DownToSlots(p0, pending, locals, config.accountSlots);
        }
      }
    }

    // -------------------------------------------------------------------- runs

    /** Raise or lower the minimum tip; raising it drops the remote transactions below. */
    method SetGasPrice(price: nat)
      requires Valid()
      modifies this`pending, this`queue, this`nonces, this`gasPrice, all, priced
      ensures Valid() && gasPrice == price && SameFor(locals, old(pending), old(queue), pending, queue)
      ensures price <= old(gasPrice) ==> pending == old(pending) && queue == old(queue) && unchanged(all)
      ensures price > old(gasPrice) ==> all.All() == old(all.All()) - BelowTip(old(all.remotes), price)
                                        && all.remotes == old(all.remotes) - BelowTip(old(all.remotes), price)
      ensures price <= old(gasPrice) ==> unchanged(priced)
      ensures KeepsLine(old(pending), old(nonces), pending, nonces, state)
      ensures price > old(gasPrice) && old(pending) == map[] ==> pending == map[]
      ensures price > old(gasPrice) && old(pending) == map[]
              && Bears(old(priced.View()), |BelowTip(old(all.remotes), price)|) ==>
                priced.View() == old(priced.View()).(stales := old(priced.stales) + |BelowTip(old(all.remotes), price)|)
    {
      var before := gasPrice;
      gasPrice := price;
      if price > before {
        var drop := RemotesBelowTip(all.remotes, price);
        RemoveRemotes(drop, {});
        CountRemoved(|drop|, {}, {});
      }
    }

    /** Drop the whole queue of an account that was idle for too long. */
    method EvictIdle(a: Addr)
      requires Valid() && a !in locals
      modifies this`pending, this`queue, this`nonces, all, priced
      ensures Valid() && pending == old(pending) && nonces == old(nonces) && queue == old(queue) - {a}
    {
      ghost var q0 := queue;
      DropTail(a, |Get(queue, a)|);
      GetSet(q0, a, Get(queue, a));
    }

    method AddAll(txs: seq<Tx>, admissible: Tx -> bool)
      requires Valid()
      modifies this`pending, this`queue, this`locals, this`nonces, all, priced
      ensures Valid() && KeepsLine(old(pending), old(nonces), pending, nonces, state)
      ensures txs == [] ==> pending == old(pending) && queue == old(queue) && nonces == old(nonces)
      ensures txs == [] ==> locals == old(locals) && unchanged(all)
    {
      for i := 0 to |txs|
        invariant Valid() && KeepsLine(old(pending), old(nonces), pending, nonces, state)
        invariant i == 0 ==> pending == old(pending) && queue == old(queue) && nonces == old(nonces)
        invariant i == 0 ==> locals == old(locals) && unchanged(all)
      {
        var replaced, err, drop := Add(txs[i], false, admissible(txs[i]));
      }
    }

    /** Point the pending nonce of every pending account behind its last transaction. */
    method RefreshNonces()
      requires Valid()
      modifies this`nonces
      ensures Valid() && NoncesMatch(pending, nonces)
      ensures InLine(pending, old(nonces), state, true) ==> InLine(pending, nonces, state, true)
    {
      ghost var n := nonces;
      nonces := NextNonces(pending, nonces);
      if InLine(pending, n, state, true) { MatchKeepsLine(pending, n, nonces, state); }
    }

    /** Adopt a new head's state, if it is available, and add back the transactions that
        left the chain. */
    method Reset(head: Head)
      requires Valid()
      modifies this`pending, this`queue, this`locals, this`nonces, this`state, all, priced
      ensures Valid() && state == (if head.available then head.state else old(state))
      ensures !head.available ==>
                pending == old(pending) && queue == old(queue) && nonces == old(nonces) && unchanged(all)
      ensures head.available && head.reinject == [] ==>
                && pending == old(pending) && queue == old(queue) && nonces == map[] && locals == old(locals)
                && unchanged(all)
      ensures InLine(old(pending), old(nonces), old(state), true)
              && (head.available ==> Forward(old(pending), old(state), head.state)) ==>
                InLine(pending, nonces, state, false)
    {
      if head.available {
        ghost var p, n, before := pending, nonces, state;
        state := head.state;
        nonces := map[];
        if InLine(p, n, before, true) && Forward(p, before, state) { ResetAligns(p, n, before, state); }
        AddAll(head.reinject, head.admissible);
      } else if InLine(pending, nonces, state, true) {
        Loosen(pending, nonces, state);
      }
    }

    /** Revalidate the pending lists and reprice the remote transactions. */
    method Revalidate(baseFee: Option<nat>)
      requires Valid()
      modifies this`pending, this`queue, all, priced
      ensures Valid() && Runnable(state, pending) && (Affordable(old(queue), state) ==> Affordable(queue, state))
      ensures InLine(old(pending), nonces, state, false) ==> InLine(pending, nonces, state, true)
    {
      ghost var p0, q0 := pending, queue;
      FiledAll(pending, queue, all.All(), {});
      DemoteUnexecutables();
      DemotedRunnable(state, p0, pending);
      if Affordable(q0, state) { DemotedAffordable(state, p0, q0, pending, queue); }
      if InLine(p0, nonces, state, false) { DemoteLines(p0, pending, nonces, state); }
      if baseFee.Some? {
        priced.SetBaseFee(baseFee.value);
      }
    }

    /** Bring the pending lists within their limit. */
    method FitPending() returns (ghost level: nat, ghost above: ByAccount)
      requires Valid() && config.accountSlots >= 1
      modifies this`pending, this`nonces, all, priced
      ensures Valid() && (Total(pending) <= config.globalSlots || Short(pending, locals, {}, config.accountSlots))
      ensures Runnable(state, old(pending)) ==> Runnable(state, pending)
      ensures CutFairly(old(pending), pending, locals, level, above)
      ensures KeepsLine(old(pending), old(nonces), pending, nonces, state)
    {
      ghost var p0 := pending;
      level, above := TruncatePending();
      StillRunnable(state, p0, pending, locals, config.globalSlots, level, above);
    }

    /** The lists were within the limit, or were cut to the fair share. */
    ghost predicate CutFairly(p0: ByAccount, p: ByAccount, locals: set<Addr>, level: nat, above: ByAccount)
    {
      if Total(p0) <= config.globalSlots then p == p0
      else Fair(p0, p, locals, config.globalSlots, config.accountSlots, level, above)
    }

    /** Bring the queues within their limit. */
    method FitQueue()
      requires Valid()
      modifies this`pending, this`queue, this`nonces, all, priced
      ensures Valid() && pending == old(pending) && (Total(queue) <= config.globalQueue || queue.Keys <= locals)
      ensures LessQueued(old(queue), queue) && nonces == old(nonces)
    {
      TruncateQueue();
    }

    /** Bring the queues within their limit and the pending nonces up to date. */
    method Conclude()
      requires Valid()
      modifies this`pending, this`queue, this`nonces, all, priced
      ensures Valid() && NoncesMatch(pending, nonces) && pending == old(pending) && LessQueued(old(queue), queue)
      ensures Total(queue) <= config.globalQueue || queue.Keys <= locals
      ensures InLine(old(pending), old(nonces), state, true) ==> InLine(pending, nonces, state, true)
    {
      FitQueue();
      RefreshNonces();
    }

    /** Promote: all queued accounts against a new head, or the accounts that sent something. */
    method Renew(reset: Option<Head>, dirty: seq<Addr>) returns (promoted: seq<Tx>)
      requires Valid()
      modifies this`pending, this`queue, this`locals, this`nonces, this`state, all, priced
      ensures Valid() && state == StateAfter(reset, old(state))
      ensures reset.Some? ==> Runnable(state, pending) && Affordable(queue, state)
      ensures reset.None? ==> locals == old(locals) && Added(old(pending), pending, promoted)
      ensures reset.None? ==> AllFit(dirty, queue, state, locals, config.accountQueue)
      ensures InLine(old(pending), old(nonces), old(state), true) && Forward(old(pending), old(state), state) ==>
                InLine(pending, nonces, state, true)
    {
      if reset.Some? {
        Reset(reset.value);
        promoted := PromoteQueued();
        Revalidate(reset.value.baseFee);
      } else {
        promoted := PromoteExecutables(dirty);
        SettledFit(dirty, queue, nonces, state, locals, config.accountQueue);
      }
    }

    /** Promote all queued accounts. */
    method PromoteQueued() returns (promoted: seq<Tx>)
      requires Valid()
      modifies this`pending, this`queue, this`nonces, all, priced
      ensures Valid() && Added(old(pending), pending, promoted) && Affordable(queue, state)
      ensures KeepsLine(old(pending), old(nonces), pending, nonces, state)
    {
      ghost var p0, q0 := pending, queue;
      var accounts := Listed(queue.Keys);
      promoted := PromoteExecutables(accounts);
      SettledFit(accounts, queue, nonces, state, locals, config.accountQueue);
      AllAffordable(accounts, p0, q0, pending, queue, state, locals, config.accountQueue);
    }

    /** One run of the pool's maintenance.  Without a reset, `promoted` are exactly the
        transactions new among the pending ones before the limit is enforced, and the
        queues of the dirty accounts are payable and within their limit; with one, all
        lists are payable under the new head.  Pending lists stay without gaps if the
        chain's nonce falls behind for no account that has one. */
    method RunReorg(reset: Option<Head>, dirty: seq<Addr>)
      returns (promoted: seq<Tx>, ghost mid: ByAccount, ghost level: nat, ghost above: ByAccount)
      requires Valid() && config.accountSlots >= 1
      modifies this`pending, this`queue, this`locals, this`nonces, this`state, all, priced
      ensures Valid() && NoncesMatch(pending, nonces) && state == StateAfter(reset, old(state))
      ensures Total(pending) <= config.globalSlots || Short(pending, locals, {}, config.accountSlots)
      ensures Total(queue) <= config.globalQueue || queue.Keys <= locals
      ensures reset.Some? ==> Runnable(state, pending) && Affordable(queue, state)
      ensures CutFairly(mid, pending, locals, level, above)
      ensures reset.None? ==> locals == old(locals) && Added(old(pending), mid, promoted)
      ensures reset.None? ==> AllFit(dirty, queue, state, locals, config.accountQueue)
      ensures InLine(old(pending), old(nonces), old(state), true) && Forward(old(pending), old(state), state) ==>
                InLine(pending, nonces, state, true)
    {
      promoted := Renew(reset, dirty);
      mid := pending;
      ghost var q := queue;
      level, above := FitPending();
      Conclude();
      StillFit(q, queue, state, dirty, locals, config.accountQueue);
    }
  }

  /** What the pool is asked to do from outside. */
  datatype Request =
    | AddTx(tx: Tx, local: bool, admissible: bool)
    | SetPrice(price: nat)
    | Idle(account: Addr)
    | Maintain(reset: Option<Head>, dirty: seq<Addr>)

  /** The state the pool works with after the request. */
  function StateServed(r: Request, state: ChainState): ChainState
  {
    if r.Maintain? then StateAfter(r.reset, state) else state
  }

  method Serve(pool: TxPool, r: Request)
    requires pool.Valid() && pool.config.accountSlots >= 1
    modifies pool, pool.all, pool.priced
    ensures pool.Valid() && pool.state == StateServed(r, old(pool.state))
    ensures InLine(old(pool.pending), old(pool.nonces), old(pool.state), true)
            && Forward(old(pool.pending), old(pool.state), pool.state) ==>
              InLine(pool.pending, pool.nonces, pool.state, true)
  {
    match r
    case AddTx(tx, local, admissible) => var replaced, err, drop := pool.Add(tx, local, admissible);
    case SetPrice(price) => pool.SetGasPrice(price);
    case Idle(a) => if a !in pool.locals { pool.EvictIdle(a); }
    case Maintain(reset, dirty) => var promoted, mid, level, above := pool.RunReorg(reset, dirty);
  }

  /** The state the pool works with after the first requests. */
  function StateAt(state: ChainState, requests: seq<Request>): ChainState
  {
    if requests == [] then state
    else StateServed(requests[|requests| - 1], StateAt(state, requests[..|requests| - 1]))
  }

  /** No account's nonce on the chain ever falls. */
  ghost predicate Rising(state: ChainState, requests: seq<Request>)
  {
    forall i, a | 0 <= i < |requests| ::
      Lookup0(StateAt(state, requests[..i]).nonces, a) <= Lookup0(StateAt(state, requests[..i + 1]).nonces, a)
  }

  /** Every run of the pool, from the start and whatever is asked of it, ends with nonces
      of an account in at most one list, the lookup holding exactly what the lists hold,
      no empty list, exact slots and every remote transaction on a price heap.  If no new
      head put the chain's nonce back for an account with pending transactions, so that the
      run is all `forward`, every pending list is a run of nonces from the chain's nonce on,
      without gaps. */
  method RunPool(config: Config, locals: set<Addr>, state: ChainState, requests: seq<Request>)
    returns (pool: TxPool, ghost forward: bool)
    ensures pool.Valid()
    ensures Tidy(pool.pending, pool.queue, pool.all.All(), {}) && NoneEmpty(pool.pending) && NoneEmpty(pool.queue)
    ensures pool.all.locals.Keys !! pool.all.remotes.Keys && pool.all.slots == MapSum.Sum(SlotsOf(pool.all.All()))
    ensures Tracked(pool.all.remotes, pool.priced.Entries(), {})
    ensures Rising(state, requests) ==> forward
    ensures forward ==> InLine(pool.pending, pool.nonces, pool.state, true)
    ensures forward ==> forall a :: GapFree(Get(pool.pending, a))
  {
    pool := new TxPool(config, locals, state);
    forward := true;
    for i := 0 to |requests|
      invariant pool.Valid() && pool.config.accountSlots >= 1 && fresh(pool) && fresh(pool.all) && fresh(pool.priced)
      invariant forward ==> InLine(pool.pending, pool.nonces, pool.state, true)
      invariant pool.state == StateAt(state, requests[..i]) && (Rising(state, requests) ==> forward)
    {
      assert requests[..i + 1][..i] == requests[..i];
      forward := forward && Forward(pool.pending, pool.state, StateServed(requests[i], pool.state));
      Serve(pool, requests[i]);
    }
    if forward {
      forall a ensures GapFree(Get(pool.pending, a)) {
        InLineGapFree(pool.pending, pool.nonces, pool.state, a);
      }
    }
  }
}
