/** How the pool's three views hang together: the pending and the queued lists by
    account, and the lookup of all transactions by hash. */
module PoolState {
  import opened Common
  import opened MapSum
  import opened Transactions
  import opened TxLookup
  import opened PoolLists

  /** The nonce after `n`, as a 64-bit counter has it. */
  function Next(n: uint64): uint64
  {
    (n + 1) % (MAX_UINT64 + 1)
  }

  type ByAccount = map<Addr, Items>

  function Get(lists: ByAccount, a: Addr): Items
  {
    if a in lists then lists[a] else map[]
  }

  /** The list of the transaction's sender holds it at its nonce. */
  predicate Held(lists: ByAccount, t: Tx)
  {
    t.nonce in Get(lists, t.sender) && Get(lists, t.sender)[t.nonce] == t
  }

  predicate InPool(p: ByAccount, q: ByAccount, t: Tx)
  {
    Held(p, t) || Held(q, t)
  }

  /** Every entry is filed under its sender and nonce. */
  ghost predicate Filed(lists: ByAccount)
  {
    forall a, n | n in Get(lists, a) :: Get(lists, a)[n].nonce == n && Get(lists, a)[n].sender == a
  }

  ghost predicate Disjoint(p: ByAccount, q: ByAccount)
  {
    forall a, n | n in Get(p, a) :: n !in Get(q, a)
  }

  /** The lists hold each nonce of an account at most once between them, and the
      lookup has exactly what they hold and, in passing, the hashes `loose`. */
  ghost predicate Tidy(p: ByAccount, q: ByAccount, pool: Pool, loose: set<Hash>)
  {
    && Filed(p) && Filed(q) && Disjoint(p, q)
    && WellHashed(pool) && loose <= pool.Keys
    && (forall t | InPool(p, q, t) :: t.hash in pool && pool[t.hash] == t && t.hash !in loose)
    && (forall h | h in pool && h !in loose :: InPool(p, q, pool[h]))
  }

  ghost predicate NoneEmpty(lists: ByAccount)
  {
    forall a | a in lists :: lists[a] != map[]
  }

  ghost function Hashes(m: Items): set<Hash>
  {
    set n | n in m :: m[n].hash
  }

  lemma TidySym(p: ByAccount, q: ByAccount, pool: Pool, loose: set<Hash>)
    requires Tidy(p, q, pool, loose)
    ensures Tidy(q, p, pool, loose)
  {
    forall t | InPool(q, p, t) ensures t.hash in pool && pool[t.hash] == t && t.hash !in loose {
      assert InPool(p, q, t);
    }
    forall h | h in pool && h !in loose ensures InPool(q, p, pool[h]) {
      assert InPool(p, q, pool[h]);
    }
  }

  /** Taking transactions out of a list makes them loose. */
  lemma Shrink(p: ByAccount, q: ByAccount, pool: Pool, loose: set<Hash>, a: Addr, kept: Items)
    requires Tidy(p, q, pool, loose) && SubItems(kept, Get(p, a))
    ensures Tidy(p[a := kept], q, pool, loose + Hashes(Get(p, a) - kept.Keys))
    ensures loose !! Hashes(Get(p, a) - kept.Keys)
  {
    var p': ByAccount, gone: Items := p[a := kept], Get(p, a) - kept.Keys;
    forall b, n | n in Get(p', b) ensures n in Get(p, b) && Get(p', b)[n] == Get(p, b)[n] {
    }
    forall t | InPool(p', q, t) ensures t.hash in pool && pool[t.hash] == t && t.hash !in loose + Hashes(gone) {
      assert InPool(p, q, t);
      if t.hash in Hashes(gone) {
        var n :| n in gone && gone[n].hash == t.hash;
        assert InPool(p, q, gone[n]);
      }
    }
    forall n | n in gone ensures gone[n].hash in pool {
      assert InPool(p, q, gone[n]);
    }
    forall h | h in pool && h !in loose ensures h in Hashes(gone) || InPool(p', q, pool[h]) {
      var t := pool[h];
      assert InPool(p, q, t);
      if Held(p, t) && t.sender == a && t.nonce !in kept { assert gone[t.nonce] == t; }
    }
  }

  /** A loose transaction is put in a free place. */
  lemma Place(p: ByAccount, q: ByAccount, pool: Pool, loose: set<Hash>, t: Tx)
    requires Tidy(p, q, pool, loose) && t.hash in loose && pool[t.hash] == t
    requires t.nonce !in Get(p, t.sender) && t.nonce !in Get(q, t.sender)
    ensures Tidy(With(p, t), q, pool, loose - {t.hash})
  {
    var p' := With(p, t);
    forall b, n | n in Get(p', b)
      ensures if b == t.sender && n == t.nonce then Get(p', b)[n] == t
              else n in Get(p, b) && Get(p', b)[n] == Get(p, b)[n]
    {
    }
    forall u | InPool(p', q, u) ensures u.hash in pool && pool[u.hash] == u && u.hash !in loose - {t.hash} {
      assert u == t || InPool(p, q, u);
    }
    forall h | h in pool && h !in loose - {t.hash} ensures InPool(p', q, pool[h]) {
      assert h == t.hash || InPool(p, q, pool[h]);
    }
  }

  lemma Forget(p: ByAccount, q: ByAccount, pool: Pool, loose: set<Hash>, h: Hash)
    requires Tidy(p, q, pool, loose) && h in loose
    ensures Tidy(p, q, pool - {h}, loose - {h})
  {
  }

  lemma ForgetMany(p: ByAccount, q: ByAccount, pool: Pool, loose: set<Hash>, hs: set<Hash>)
    requires Tidy(p, q, pool, loose) && hs <= loose
    ensures Tidy(p, q, pool - hs, loose - hs)
  {
  }

  lemma Learn(p: ByAccount, q: ByAccount, pool: Pool, loose: set<Hash>, t: Tx)
    requires Tidy(p, q, pool, loose) && t.hash !in pool
    ensures Tidy(p, q, pool[t.hash := t], loose + {t.hash})
  {
  }

  lemma DropEmpty(p: ByAccount, q: ByAccount, pool: Pool, loose: set<Hash>, a: Addr)
    requires Tidy(p, q, pool, loose) && Get(p, a) == map[]
    ensures Tidy(p - {a}, q, pool, loose)
  {
    assert forall b :: Get(p - {a}, b) == Get(p, b);
    forall t | InPool(p - {a}, q, t) ensures InPool(p, q, t) {
    }
    forall h | h in pool && h !in loose ensures InPool(p - {a}, q, pool[h]) {
      assert InPool(p, q, pool[h]);
    }
  }

  // The same for the other list.

  lemma ShrinkQueue(p: ByAccount, q: ByAccount, pool: Pool, loose: set<Hash>, a: Addr, kept: Items)
    requires Tidy(p, q, pool, loose) && SubItems(kept, Get(q, a))
    ensures Tidy(p, q[a := kept], pool, loose + Hashes(Get(q, a) - kept.Keys))
    ensures loose !! Hashes(Get(q, a) - kept.Keys)
  {
    TidySym(p, q, pool, loose);
    Shrink(q, p, pool, loose, a, kept);
    TidySym(q[a := kept], p, pool, loose + Hashes(Get(q, a) - kept.Keys));
  }

  lemma PlaceQueue(p: ByAccount, q: ByAccount, pool: Pool, loose: set<Hash>, t: Tx)
    requires Tidy(p, q, pool, loose) && t.hash in loose && pool[t.hash] == t
    requires t.nonce !in Get(p, t.sender) && t.nonce !in Get(q, t.sender)
    ensures Tidy(p, With(q, t), pool, loose - {t.hash})
  {
    TidySym(p, q, pool, loose);
    Place(q, p, pool, loose, t);
    TidySym(With(q, t), p, pool, loose - {t.hash});
  }

  lemma DropEmptyQueue(p: ByAccount, q: ByAccount, pool: Pool, loose: set<Hash>, a: Addr)
    requires Tidy(p, q, pool, loose) && Get(q, a) == map[]
    ensures Tidy(p, q - {a}, pool, loose)
  {
    TidySym(p, q, pool, loose);
    DropEmpty(q, p, pool, loose, a);
    TidySym(q - {a}, p, pool, loose);
  }

  function Without(lists: ByAccount, a: Addr, n: nat): ByAccount
  {
    var one: set<nat> := {n};
    lists[a := Get(lists, a) - one]
  }

  function With(lists: ByAccount, t: Tx): ByAccount
  {
    lists[t.sender := Get(lists, t.sender)[t.nonce := t]]
  }

  /** The pool without the transaction a list has at a nonce. */
  function Discarding(pool: Pool, m: Items, n: nat): Pool
  {
    if n in m then pool - {m[n].hash} else pool
  }

  lemma Replacing(lists: ByAccount, t: Tx)
    ensures With(Without(lists, t.sender, t.nonce), t) == With(lists, t)
  {
    assert Get(With(Without(lists, t.sender, t.nonce), t), t.sender) == Get(lists, t.sender)[t.nonce := t];
  }

  /** Making one nonce free: its transaction becomes loose. */
  lemma TakeOut(p: ByAccount, q: ByAccount, pool: Pool, loose: set<Hash>, a: Addr, n: nat)
    requires Tidy(p, q, pool, loose) && n in Get(p, a)
    ensures Tidy(Without(p, a, n), q, pool, loose + {Get(p, a)[n].hash})
  {
    var m: Items, one: set<nat> := Get(p, a), {n};
    Shrink(p, q, pool, loose, a, m - one);
    assert m - (m - one).Keys == map[n := m[n]];
    assert Hashes(map[n := m[n]]) == {m[n].hash};
  }

  lemma TakeOutQueue(p: ByAccount, q: ByAccount, pool: Pool, loose: set<Hash>, a: Addr, n: nat)
    requires Tidy(p, q, pool, loose) && n in Get(q, a)
    ensures Tidy(p, Without(q, a, n), pool, loose + {Get(q, a)[n].hash})
  {
    TidySym(p, q, pool, loose);
    TakeOut(q, p, pool, loose, a, n);
    TidySym(Without(q, a, n), p, pool, loose + {Get(q, a)[n].hash});
  }

  // ---------------------------------------------------- moving several at once

  lemma ListHashes(m: Items, txs: seq<Tx>)
    requires Lists(m, txs)
    ensures Hashes(m) == HashesOf(txs)
  {
    ListsAll(m, txs);
    forall h | h in Hashes(m) ensures h in HashesOf(txs) {
      var n :| n in m && m[n].hash == h;
      assert n in NoncesOf(txs);
      var i :| 0 <= i < |txs| && txs[i].nonce == n;
      assert txs[i].hash == h;
    }
    forall h | h in HashesOf(txs) ensures h in Hashes(m) {
      var i :| 0 <= i < |txs| && txs[i].hash == h;
      assert m[txs[i].nonce].hash == h;
    }
  }

  /** A loose transaction whose nonce is free in both lists. */
  predicate Homeless(p: ByAccount, q: ByAccount, pool: Pool, loose: set<Hash>, t: Tx)
  {
    && t.hash in loose && t.hash in pool && pool[t.hash] == t
    && t.nonce !in Get(p, t.sender) && t.nonce !in Get(q, t.sender)
  }

  /** Loose transactions of one account, each with a free place of its own. */
  ghost predicate Unplaced(p: ByAccount, q: ByAccount, pool: Pool, loose: set<Hash>, a: Addr, txs: seq<Tx>)
  {
    && (forall i | 0 <= i < |txs| :: Homeless(p, q, pool, loose, txs[i]))
    && (forall i | 0 <= i < |txs| :: txs[i].sender == a)
    && (forall i, j | 0 <= i < j < |txs| :: txs[i].nonce != txs[j].nonce)
  }

  lemma UnplacedSym(p: ByAccount, q: ByAccount, pool: Pool, loose: set<Hash>, a: Addr, txs: seq<Tx>)
    requires Unplaced(p, q, pool, loose, a, txs)
    ensures Unplaced(q, p, pool, loose, a, txs)
  {
    assert forall i | 0 <= i < |txs| :: Homeless(p, q, pool, loose, txs[i]);
  }

  /** Placing the first leaves the others' places free. */
  lemma PlacedFirst(p: ByAccount, q: ByAccount, pool: Pool, loose: set<Hash>, a: Addr, txs: seq<Tx>)
    requires Unplaced(p, q, pool, loose, a, txs) && txs != []
    ensures Unplaced(With(p, txs[0]), q, pool, loose - {txs[0].hash}, a, txs[1..])
  {
    assert Homeless(p, q, pool, loose, txs[0]);
    forall i | 0 <= i < |txs[1..]| ensures Homeless(With(p, txs[0]), q, pool, loose - {txs[0].hash}, txs[1..][i]) {
      assert Homeless(p, q, pool, loose, txs[i + 1]);
    }
  }

  lemma PlacedFirstQueue(p: ByAccount, q: ByAccount, pool: Pool, loose: set<Hash>, a: Addr, txs: seq<Tx>)
    requires Unplaced(p, q, pool, loose, a, txs) && txs != []
    ensures Unplaced(p, With(q, txs[0]), pool, loose - {txs[0].hash}, a, txs[1..])
  {
    UnplacedSym(p, q, pool, loose, a, txs);
    PlacedFirst(q, p, pool, loose, a, txs);
    UnplacedSym(With(q, txs[0]), p, pool, loose - {txs[0].hash}, a, txs[1..]);
  }

  /** What is taken out of a list has no place any more. */
  lemma TakenUnplaced(p: ByAccount, q: ByAccount, pool: Pool, loose: set<Hash>, a: Addr, kept: Items, txs: seq<Tx>)
    requires Tidy(p, q, pool, loose) && SubItems(kept, Get(p, a)) && Lists(Get(p, a) - kept.Keys, txs)
    ensures Unplaced(p[a := kept], q, pool, loose + Hashes(Get(p, a) - kept.Keys), a, txs)
  {
    var gone: Items := Get(p, a) - kept.Keys;
    forall i | 0 <= i < |txs|
      ensures Homeless(p[a := kept], q, pool, loose + Hashes(gone), txs[i]) && txs[i].sender == a
    {
      assert txs[i] == gone[txs[i].nonce] == Get(p, a)[txs[i].nonce];
      assert InPool(p, q, txs[i]);
    }
  }

  lemma TakenUnplacedQueue(p: ByAccount, q: ByAccount, pool: Pool, loose: set<Hash>, a: Addr, kept: Items, txs: seq<Tx>)
    requires Tidy(p, q, pool, loose) && SubItems(kept, Get(q, a)) && Lists(Get(q, a) - kept.Keys, txs)
    ensures Unplaced(p, q[a := kept], pool, loose + Hashes(Get(q, a) - kept.Keys), a, txs)
  {
    TidySym(p, q, pool, loose);
    TakenUnplaced(q, p, pool, loose, a, kept, txs);
    UnplacedSym(q[a := kept], p, pool, loose + Hashes(Get(q, a) - kept.Keys), a, txs);
  }

  /** An account's list with more transactions; no list appears if there are none. */
  function Merge(lists: ByAccount, a: Addr, m: Items): ByAccount
  {
    if m == map[] then lists else lists[a := Get(lists, a) + m]
  }

  // Placing one after another.

  function WithAll(lists: ByAccount, txs: seq<Tx>): ByAccount
    decreases |txs|
  {
    if txs == [] then lists else WithAll(With(lists, txs[0]), txs[1..])
  }

  ghost function LessAll(loose: set<Hash>, txs: seq<Tx>): set<Hash>
  {
    if txs == [] then loose else LessAll(loose - {txs[0].hash}, txs[1..])
  }

  lemma {:induction false} LessAllIs(loose: set<Hash>, txs: seq<Tx>)
    ensures LessAll(loose, txs) == loose - HashesOf(txs)
  {
    if txs == [] {
    } else {
      LessAllIs(loose - {txs[0].hash}, txs[1..]);
      assert HashesOf(txs) == {txs[0].hash} + HashesOf(txs[1..]) by {
        forall h | h in HashesOf(txs) ensures h in {txs[0].hash} + HashesOf(txs[1..]) {
          var i :| 0 <= i < |txs| && txs[i].hash == h;
          if i > 0 { assert txs[1..][i - 1].hash == h; }
        }
        forall h | h in HashesOf(txs[1..]) ensures h in HashesOf(txs) {
          var i :| 0 <= i < |txs[1..]| && txs[1..][i].hash == h;
          assert txs[i + 1].hash == h;
        }
      }
    }
  }

  lemma ListRest(m: Items, txs: seq<Tx>)
    requires Lists(m, txs) && txs != []
    ensures Lists(m - {txs[0].nonce}, txs[1..])
  {
    assert (m - {txs[0].nonce}).Keys == m.Keys - {txs[0].nonce};
  }

  lemma MergeFirst(lists: ByAccount, m: Items, t: Tx)
    requires t.nonce in m && m[t.nonce] == t
    ensures Merge(With(lists, t), t.sender, m - {t.nonce}) == Merge(lists, t.sender, m)
  {
    var rest: Items := m - {t.nonce};
    var added: Items := Get(lists, t.sender)[t.nonce := t];
    assert added + rest == Get(lists, t.sender) + m;
    if rest == map[] {
      assert added + rest == added;
    }
  }

  lemma {:induction false} WithAllIs(lists: ByAccount, a: Addr, m: Items, txs: seq<Tx>)
    requires Lists(m, txs) && forall i | 0 <= i < |txs| :: txs[i].sender == a
    ensures WithAll(lists, txs) == Merge(lists, a, m)
    decreases |txs|
  {
    if txs == [] {
      assert m == map[];
    } else {
      ListRest(m, txs);
      WithAllIs(With(lists, txs[0]), a, m - {txs[0].nonce}, txs[1..]);
      MergeFirst(lists, m, txs[0]);
    }
  }

  /** The pending nonces after promoting `txs` in order. */
  function Marked(nonces: map<Addr, nat>, txs: seq<Tx>): map<Addr, nat>
    decreases |txs|
  {
    if txs == [] then nonces else Marked(nonces[txs[0].sender := Next(txs[0].nonce)], txs[1..])
  }

  /** ... when they are from one account. */
  function MarkedLast(nonces: map<Addr, nat>, a: Addr, txs: seq<Tx>): map<Addr, nat>
  {
    if txs == [] then nonces else nonces[a := Next(txs[|txs| - 1].nonce)]
  }

  lemma {:induction false} MarkedIs(nonces: map<Addr, nat>, a: Addr, txs: seq<Tx>)
    requires forall i | 0 <= i < |txs| :: txs[i].sender == a
    ensures Marked(nonces, txs) == MarkedLast(nonces, a, txs)
    decreases |txs|
  {
    if txs == [] {
    } else {
      MarkedIs(nonces[a := Next(txs[0].nonce)], a, txs[1..]);
    }
  }

  /** Store an account's list, unless it is empty. */
  function SetList(lists: ByAccount, a: Addr, m: Items): ByAccount
  {
    if m == map[] then lists - {a} else lists[a := m]
  }

  lemma GetMerged(lists: ByAccount, a: Addr, m: Items)
    ensures Get(Merge(lists, a, m), a) == Get(lists, a) + m
    ensures forall b | b != a :: Get(Merge(lists, a, m), b) == Get(lists, b)
  {
    if m == map[] { assert Get(lists, a) + m == Get(lists, a); }
  }

  lemma GetSet(lists: ByAccount, a: Addr, m: Items)
    ensures Get(SetList(lists, a, m), a) == m
    ensures forall b | b != a :: Get(SetList(lists, a, m), b) == Get(lists, b)
  {
  }

  lemma SetOnce(lists: ByAccount, a: Addr, m: Items)
    ensures SetList(lists[a := m], a, Get(lists[a := m], a)) == SetList(lists, a, m)
  {
  }

  lemma SetAgain(lists: ByAccount, a: Addr, m: Items, m': Items)
    ensures Get(lists[a := m], a) == m && lists[a := m][a := m'] == lists[a := m']
  {
  }

  lemma SetAfter(lists: ByAccount, a: Addr, n: nat, m: Items)
    ensures Without(lists, a, n)[a := m] == lists[a := m]
  {
  }

  lemma FiledKeys(p: ByAccount, q: ByAccount, pool: Pool, loose: set<Hash>, a: Addr)
    requires Tidy(p, q, pool, loose)
    ensures WellKeyed(Get(p, a)) && WellKeyed(Get(q, a))
  {
  }

  /** A known transaction is the one found at its nonce, pending before queued. */
  lemma FoundByNonce(p: ByAccount, q: ByAccount, pool: Pool, t: Tx)
    requires Tidy(p, q, pool, {}) && t.hash in pool && pool[t.hash] == t
    ensures if t.nonce in Get(p, t.sender) then Held(p, t) else Held(q, t) && !Held(p, t)
  {
    assert InPool(p, q, t);
  }

  /** Adding a list in two parts. */
  lemma MergeTwice(lists: ByAccount, a: Addr, m: Items, part: Items, none: Items)
    requires SubItems(part, m) && none == map[]
    ensures Merge(Merge(lists, a, m - part.Keys), a, part - none.Keys) == Merge(lists, a, m - none.Keys)
  {
    var rest: Items := m - part.Keys;
    assert part - none.Keys == part && m - none.Keys == m;
    if rest == map[] {
      assert m == part;
    } else if part != map[] {
      assert Get(lists, a) + rest + part == Get(lists, a) + m;
      var n :| n in part;
      assert n in m;
    } else {
      assert rest == m;
    }
  }

  lemma WithNoneEmpty(lists: ByAccount, t: Tx)
    requires NoneEmpty(lists)
    ensures NoneEmpty(With(lists, t))
  {
    assert t.nonce in With(lists, t)[t.sender];
  }

  lemma FiledAll(p: ByAccount, q: ByAccount, pool: Pool, loose: set<Hash>)
    requires Tidy(p, q, pool, loose)
    ensures forall a :: WellKeyed(Get(p, a))
  {
  }

  lemma StillNoneEmpty(lists: ByAccount, a: Addr, m: Items)
    requires NoneEmpty(lists)
    ensures NoneEmpty(SetList(lists, a, m)) && NoneEmpty(Merge(lists, a, m))
  {
    if m != map[] {
      var n :| n in m;
      assert n in Get(lists, a) + m;
    }
  }

  /** The pending nonce of an account, by default its nonce in the chain state. */
  function NonceOf(nonces: map<Addr, nat>, base: map<Addr, nat>, a: Addr): nat
  {
    if a in nonces then nonces[a] else if a in base then base[a] else 0
  }

  function Lowered(nonces: map<Addr, nat>, base: map<Addr, nat>, a: Addr, n: nat): map<Addr, nat>
  {
    var now := NonceOf(nonces, base, a);
    nonces[a := if now <= n then now else n]
  }

  // ------------------------------------------------------------------- totals

  function Sizes(lists: ByAccount): map<Addr, int>
  {
    map a | a in lists :: |lists[a]|
  }

  /** The number of transactions in all lists together. */
  ghost function Total(lists: ByAccount): int
  {
    Sum(Sizes(lists))
  }

  lemma TotalSet(lists: ByAccount, a: Addr, m: Items)
    ensures Total(SetList(lists, a, m)) == Total(lists) - |Get(lists, a)| + |m|
  {
    if m == map[] {
      assert Sizes(lists - {a}) == Sizes(lists) - {a};
      SumDrop(Sizes(lists), a);
    } else {
      assert Sizes(lists[a := m]) == Sizes(lists)[a := |m|];
      SumPut(Sizes(lists), a, |m|);
    }
  }

  lemma SomeKey<K, V>(m: map<K, V>) returns (k: K)
    requires m != map[]
    ensures k in m
  {
    k :| k in m;
  }

  lemma TotalPositive(lists: ByAccount)
    ensures Total(lists) >= 0
  {
    SumPositive(Sizes(lists));
  }

  lemma SetTwice(lists: ByAccount, a: Addr, m: Items, m': Items)
    ensures SetList(SetList(lists, a, m), a, m') == SetList(lists, a, m')
  {
  }

  lemma SetSame(lists: ByAccount, a: Addr)
    requires NoneEmpty(lists)
    ensures SetList(lists, a, Get(lists, a)) == lists
  {
    if a !in lists { assert lists - {a} == lists; }
  }

  /** Count the transactions in all lists. */
  method Count(lists: ByAccount) returns (total: nat)
    ensures total == Total(lists)
  {
    total := 0;
    var rest := lists;
    while rest.Keys != {}
      invariant total + Total(rest) == Total(lists)
      decreases rest.Keys
    {
      var a := Choose(rest.Keys);
      TotalSet(rest, a, map[]);
      total, rest := total + |rest[a]|, rest - {a};
    }
  }
}
