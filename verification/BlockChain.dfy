/** The block chain: fork choice on block import, reorganisation of the number
    and transaction indexes, and rewinding. */
module BlockChain {
  import opened Common
  import opened BlockTree

  type TxId = nat
  type Bodies = map<Hash, set<TxId>>

  /** Transaction `t` is in the block at height `n` of the chain ending in `head`. */
  ghost predicate OnChain(hs: Headers, g: Hash, bodies: Bodies, head: Hash, t: TxId, n: nat)
    requires Linked(hs, g) && head in hs && bodies.Keys == hs.Keys
  {
    n <= hs[head].number && t in bodies[Anc(hs, g, head, n)]
  }

  ghost predicate NoRepeats(hs: Headers, g: Hash, bodies: Bodies, head: Hash)
    requires Linked(hs, g) && head in hs && bodies.Keys == hs.Keys
  {
    forall t, m, n ::
      OnChain(hs, g, bodies, head, t, m) && OnChain(hs, g, bodies, head, t, n) ==> m == n
  }

  /** A transaction maps to `n` exactly if it is in the canonical block `n`. */
  ghost predicate LookupExact(hs: Headers, g: Hash, bodies: Bodies, head: Hash, lookup: map<TxId, nat>)
    requires Linked(hs, g) && head in hs && bodies.Keys == hs.Keys
  {
    && (forall t | t in lookup :: OnChain(hs, g, bodies, head, t, lookup[t]))
    && (forall t, n :: OnChain(hs, g, bodies, head, t, n) ==> t in lookup && lookup[t] == n)
  }

  /** Height of the lowest common ancestor, by levelling and then stepping back in parallel. */
  ghost function Fork(hs: Headers, g: Hash, a: Hash, b: Hash): (k: nat)
    requires Linked(hs, g) && a in hs && b in hs
    ensures k <= hs[a].number && k <= hs[b].number
    decreases hs[a].number + hs[b].number
  {
    assert Hangs(hs, g, a) && Hangs(hs, g, b);
    if a == b then hs[a].number
    else if hs[a].number > hs[b].number then Fork(hs, g, hs[a].parent, b)
    else if hs[a].number < hs[b].number then Fork(hs, g, a, hs[b].parent)
    else Fork(hs, g, hs[a].parent, hs[b].parent)
  }

  /** The two chains agree exactly at the heights up to the fork. */
  lemma {:induction false} ForkIsLowestCommon(hs: Headers, g: Hash, a: Hash, b: Hash, n: nat)
    requires Linked(hs, g) && a in hs && b in hs && n <= hs[a].number && n <= hs[b].number
    ensures Anc(hs, g, a, n) == Anc(hs, g, b, n) <==> n <= Fork(hs, g, a, b)
    decreases hs[a].number + hs[b].number
  {
    assert Hangs(hs, g, a) && Hangs(hs, g, b);
    if a == b {
    } else if hs[a].number > hs[b].number {
      ForkIsLowestCommon(hs, g, hs[a].parent, b, n);
    } else if hs[a].number < hs[b].number {
      ForkIsLowestCommon(hs, g, a, hs[b].parent, n);
    } else if n < hs[a].number {
      ForkIsLowestCommon(hs, g, hs[a].parent, hs[b].parent, n);
    }
  }

  /** The blocks of the chain ending in `h` above height `n`, newest first. */
  ghost function Branch(hs: Headers, g: Hash, h: Hash, n: nat): (s: seq<Hash>)
    requires Linked(hs, g) && h in hs && n <= hs[h].number
    ensures |s| == hs[h].number - n
    ensures forall i | 0 <= i < |s| :: s[i] == Anc(hs, g, h, hs[h].number - i)
    decreases hs[h].number
  {
    assert Hangs(hs, g, h);
    if hs[h].number == n then [] else [h] + Branch(hs, g, hs[h].parent, n)
  }

  /** The index `canon` is `canon0` with the chain of `h` written up to height `m`. */
  ghost predicate Indexed(hs: Headers, g: Hash, h: Hash, m: nat, canon0: map<nat, Hash>, canon: map<nat, Hash>)
    requires Linked(hs, g) && h in hs && m <= hs[h].number
  {
    && (forall n: nat | n <= m :: n in canon && canon[n] == Anc(hs, g, h, n))
    && (forall n: nat | n > m :: (n in canon <==> n in canon0) && (n in canon ==> canon[n] == canon0[n]))
  }

  lemma IndexStep(hs: Headers, g: Hash, h: Hash, m: nat, canon0: map<nat, Hash>, canon: map<nat, Hash>)
    requires Linked(hs, g) && h in hs && m < hs[h].number && Indexed(hs, g, h, m, canon0, canon)
    ensures Indexed(hs, g, h, m + 1, canon0, canon[m + 1 := Anc(hs, g, h, m + 1)])
  {
  }

  /** The lookup `lookup` is `lookup0` with the transactions `added` of the chain
      of `h` at the heights above `k` up to `m` written. */
  ghost predicate TxsIndexed(hs: Headers, g: Hash, bodies: Bodies, h: Hash, k: nat, m: nat,
                             lookup0: map<TxId, nat>, lookup: map<TxId, nat>, added: set<TxId>)
    requires Linked(hs, g) && h in hs && bodies.Keys == hs.Keys
  {
    && (forall t | t in added :: t in lookup && k < lookup[t] <= m && OnChain(hs, g, bodies, h, t, lookup[t]))
    && (forall t, j | k < j <= m && OnChain(hs, g, bodies, h, t, j) :: t in added && lookup[t] == j)
    && (forall t | t !in added :: (t in lookup <==> t in lookup0) && (t in lookup ==> lookup[t] == lookup0[t]))
  }

  lemma TxsStep(hs: Headers, g: Hash, bodies: Bodies, h: Hash, k: nat, m: nat,
                lookup0: map<TxId, nat>, lookup: map<TxId, nat>, added: set<TxId>)
    requires Linked(hs, g) && h in hs && bodies.Keys == hs.Keys && NoRepeats(hs, g, bodies, h)
    requires k <= m < hs[h].number && TxsIndexed(hs, g, bodies, h, k, m, lookup0, lookup, added)
    ensures var txs := bodies[Anc(hs, g, h, m + 1)];
            TxsIndexed(hs, g, bodies, h, k, m + 1, lookup0, lookup + map t | t in txs :: m + 1, added + txs)
  {
    var txs := bodies[Anc(hs, g, h, m + 1)];
    assert forall t | t in txs :: OnChain(hs, g, bodies, h, t, m + 1);
  }

  /** Both indexes are moved to the chain of `h` up to height `m`, from `k` on. */
  ghost predicate Adopted(hs: Headers, g: Hash, bodies: Bodies, h: Hash, k: nat, m: nat,
                          canon0: map<nat, Hash>, canon: map<nat, Hash>,
                          lookup0: map<TxId, nat>, lookup: map<TxId, nat>, added: set<TxId>)
    requires Linked(hs, g) && h in hs && k <= m <= hs[h].number && bodies.Keys == hs.Keys
  {
    Indexed(hs, g, h, m, canon0, canon) && TxsIndexed(hs, g, bodies, h, k, m, lookup0, lookup, added)
  }

  lemma AdoptStep(hs: Headers, g: Hash, bodies: Bodies, h: Hash, k: nat, m: nat,
                  canon0: map<nat, Hash>, canon: map<nat, Hash>,
                  lookup0: map<TxId, nat>, lookup: map<TxId, nat>, added: set<TxId>)
    requires Linked(hs, g) && h in hs && k <= m < hs[h].number && bodies.Keys == hs.Keys
    requires NoRepeats(hs, g, bodies, h) && Adopted(hs, g, bodies, h, k, m, canon0, canon, lookup0, lookup, added)
    ensures var b := Anc(hs, g, h, m + 1);
            Adopted(hs, g, bodies, h, k, m + 1, canon0, canon[m + 1 := b],
                    lookup0, lookup + (map t | t in bodies[b] :: m + 1), added + bodies[b])
  {
    IndexStep(hs, g, h, m, canon0, canon);
    TxsStep(hs, g, bodies, h, k, m, lookup0, lookup, added);
  }

  /** The lookup is exact for `h` except that its own transactions may still be missing. */
  ghost predicate LookupBelow(hs: Headers, g: Hash, bodies: Bodies, h: Hash, lookup: map<TxId, nat>)
    requires Linked(hs, g) && h in hs && bodies.Keys == hs.Keys
  {
    && (forall t | t in lookup && t !in bodies[h] :: OnChain(hs, g, bodies, h, t, lookup[t]))
    && (forall t, n: nat | n < hs[h].number && OnChain(hs, g, bodies, h, t, n) :: t in lookup && lookup[t] == n)
  }

  lemma LookupHead(hs: Headers, g: Hash, bodies: Bodies, h: Hash, lookup: map<TxId, nat>)
    requires Linked(hs, g) && h in hs && bodies.Keys == hs.Keys && NoRepeats(hs, g, bodies, h)
    requires LookupBelow(hs, g, bodies, h, lookup)
    ensures LookupExact(hs, g, bodies, h, lookup + map t | t in bodies[h] :: hs[h].number)
  {
    var n := hs[h].number;
    assert forall t | t in bodies[h] :: OnChain(hs, g, bodies, h, t, n);
  }

  /** Dropping what only the old branch held leaves the new branch's lookup: the
      transactions at or below the fork are on both chains. */
  lemma LookupSwitch(hs: Headers, g: Hash, bodies: Bodies, from: Hash, to: Hash, m: nat,
                     lookup0: map<TxId, nat>, lookup1: map<TxId, nat>, added: set<TxId>, deleted: set<TxId>)
    requires Linked(hs, g) && from in hs && to in hs && bodies.Keys == hs.Keys
    requires LookupExact(hs, g, bodies, from, lookup0) && NoRepeats(hs, g, bodies, to)
    requires var k := Fork(hs, g, from, to);
             && (m == hs[to].number - 1 || m == k == hs[to].number) && k <= m
             && TxsIndexed(hs, g, bodies, to, k, m, lookup0, lookup1, added)
             && deleted == set t | t in lookup0 && lookup0[t] > k
    ensures LookupBelow(hs, g, bodies, to, lookup1 - (deleted - added))
  {
    var k := Fork(hs, g, from, to);
    forall t, n: nat | n <= k
      ensures OnChain(hs, g, bodies, from, t, n) == OnChain(hs, g, bodies, to, t, n)
    {
      ForkIsLowestCommon(hs, g, from, to, n);
    }
  }

  predicate NothingAbove(canon: map<nat, Hash>, n: nat)
  {
    forall m | m in canon :: m <= n
  }

  lemma NothingAboveUpdate(canon: map<nat, Hash>, n: nat, b: Hash)
    ensures NothingAbove(canon[n := b], n) <==> NothingAbove(canon, n)
  {
    forall m | m in canon ensures m in canon[n := b] {
    }
  }

  /** The heights of an index have no gap. */
  predicate GapFree(canon: map<nat, Hash>)
  {
    forall n | n in canon :: forall m: nat | m < n :: m in canon
  }

  /** The entries above the head, left behind by an earlier switch, are headers of
      their height that do not descend from the head. */
  ghost predicate StaleAbove(hs: Headers, g: Hash, canon: map<nat, Hash>, head: Hash)
    requires Linked(hs, g) && head in hs
  {
    forall n: nat | n in canon && n > hs[head].number ::
      && canon[n] in hs && hs[canon[n]].number == n
      && Anc(hs, g, canon[n], hs[head].number) != head
  }

  /** Tree, difficulties, bodies and both indexes fit the head. */
  ghost predicate ChainOk(hs: Headers, g: Hash, td: map<Hash, nat>, bodies: Bodies,
                          head: Hash, canon: map<nat, Hash>, lookup: map<TxId, nat>)
  {
    && Linked(hs, g) && TdSums(hs, g, td) && bodies.Keys == hs.Keys && head in hs
    && (forall b | b in hs && b != g :: hs[b].difficulty > 0)
    && (forall b | b in hs :: NoRepeats(hs, g, bodies, b))
    && IndexAgrees(hs, g, canon, head) && GapFree(canon) && StaleAbove(hs, g, canon, head)
    && LookupExact(hs, g, bodies, head, lookup)
  }

  lemma OnChainStable(hs: Headers, hs': Headers, g: Hash, bodies: Bodies, bodies': Bodies, h: Hash)
    requires Linked(hs, g) && Linked(hs', g) && Extends(hs, hs') && h in hs
    requires bodies.Keys == hs.Keys && bodies'.Keys == hs'.Keys
    requires forall b | b in bodies :: bodies'[b] == bodies[b]
    ensures forall t, n :: OnChain(hs', g, bodies', h, t, n) == OnChain(hs, g, bodies, h, t, n)
  {
    forall n: nat | n <= hs[h].number ensures Anc(hs', g, h, n) == Anc(hs, g, h, n) {
      AncStable(hs, hs', g, h, n);
    }
  }

  /** A block on a stored parent whose transactions are new to the parent's chain. */
  ghost predicate Fits(hs: Headers, g: Hash, bodies: Bodies, b: Header, txs: set<TxId>)
    requires Linked(hs, g) && bodies.Keys == hs.Keys
  {
    && ParentKnown(hs, b) && b.difficulty > 0
    && (forall t, n | t in txs :: !OnChain(hs, g, bodies, b.parent, t, n))
    && (b.hash in hs ==> hs[b.hash] == b && bodies[b.hash] == txs)
  }

  /** Storing a block leaves the head's indexes in order. */
  lemma StoreKeeps(hs: Headers, g: Hash, td: map<Hash, nat>, bodies: Bodies,
                   head: Hash, canon: map<nat, Hash>, lookup: map<TxId, nat>, b: Header, txs: set<TxId>)
    requires ChainOk(hs, g, td, bodies, head, canon, lookup) && Fits(hs, g, bodies, b, txs)
    ensures ChainOk(hs[b.hash := b], g, td[b.hash := td[b.parent] + b.difficulty], bodies[b.hash := txs], head, canon,
                    lookup)
    ensures b.hash in hs ==> td[b.hash := td[b.parent] + b.difficulty] == td
  {
    var hs', td', bodies' := hs[b.hash := b], td[b.hash := td[b.parent] + b.difficulty], bodies[b.hash := txs];
    if b.hash in hs {
      assert TdOf(hs, g, td, b.hash);
      assert hs' == hs && td' == td && bodies' == bodies;
    } else {
      AddHeader(hs, g, td, b);
      NewBlockNoRepeats(hs, g, bodies, b, txs);
      forall h | h in hs' ensures NoRepeats(hs', g, bodies', h) {
        if h != b.hash { NoRepeatsStable(hs, hs', g, bodies, bodies', h); }
      }
      IndexesStable(hs, hs', g, bodies, bodies', head, canon, lookup);
    }
  }

  lemma NoRepeatsStable(hs: Headers, hs': Headers, g: Hash, bodies: Bodies, bodies': Bodies, h: Hash)
    requires Linked(hs, g) && Linked(hs', g) && Extends(hs, hs') && h in hs
    requires bodies.Keys == hs.Keys && bodies'.Keys == hs'.Keys
    requires (forall b | b in bodies :: bodies'[b] == bodies[b]) && NoRepeats(hs, g, bodies, h)
    ensures NoRepeats(hs', g, bodies', h)
  {
    OnChainStable(hs, hs', g, bodies, bodies', h);
  }

  /** The head's indexes do not depend on blocks off its chain. */
  lemma IndexesStable(hs: Headers, hs': Headers, g: Hash, bodies: Bodies, bodies': Bodies,
                      head: Hash, canon: map<nat, Hash>, lookup: map<TxId, nat>)
    requires Linked(hs, g) && Linked(hs', g) && Extends(hs, hs') && head in hs
    requires bodies.Keys == hs.Keys && bodies'.Keys == hs'.Keys && forall b | b in bodies :: bodies'[b] == bodies[b]
    requires IndexAgrees(hs, g, canon, head) && StaleAbove(hs, g, canon, head)
    requires LookupExact(hs, g, bodies, head, lookup)
    ensures IndexAgrees(hs', g, canon, head) && StaleAbove(hs', g, canon, head)
    ensures LookupExact(hs', g, bodies', head, lookup)
  {
    OnChainStable(hs, hs', g, bodies, bodies', head);
    forall n: nat | n <= hs[head].number ensures Anc(hs', g, head, n) == Anc(hs, g, head, n) {
      AncStable(hs, hs', g, head, n);
    }
    forall n: nat | n in canon && n > hs[head].number
      ensures Anc(hs', g, canon[n], hs[head].number) != head
    {
      AncStable(hs, hs', g, canon[n], hs[head].number);
    }
  }

  lemma NewBlockNoRepeats(hs: Headers, g: Hash, bodies: Bodies, b: Header, txs: set<TxId>)
    requires Linked(hs, g) && bodies.Keys == hs.Keys && Fits(hs, g, bodies, b, txs) && b.hash !in hs
    requires Linked(hs[b.hash := b], g) && NoRepeats(hs, g, bodies, b.parent)
    ensures NoRepeats(hs[b.hash := b], g, bodies[b.hash := txs], b.hash)
  {
    var hs', bodies' := hs[b.hash := b], bodies[b.hash := txs];
    OnChainStable(hs, hs', g, bodies, bodies', b.parent);
    forall t, n: nat | n < b.number
      ensures OnChain(hs', g, bodies', b.hash, t, n) == OnChain(hs', g, bodies', b.parent, t, n)
    {
    }
    forall t, m: nat, n: nat | OnChain(hs', g, bodies', b.hash, t, m) && OnChain(hs', g, bodies', b.hash, t, n)
      ensures m == n
    {
      assert m < b.number ==> OnChain(hs, g, bodies, b.parent, t, m);
      assert n < b.number ==> OnChain(hs, g, bodies, b.parent, t, n);
    }
  }

  /** Putting a child of the head on top. */
  lemma ExtendOk(hs: Headers, g: Hash, td: map<Hash, nat>, bodies: Bodies,
                 head: Hash, canon: map<nat, Hash>, lookup: map<TxId, nat>, b: Hash)
    requires ChainOk(hs, g, td, bodies, head, canon, lookup)
    requires b in hs && b != g && hs[b].parent == head
    ensures var n := hs[b].number; ChainOk(hs, g, td, bodies, b, canon[n := b], lookup + map t | t in bodies[b] :: n)
    ensures hs[b].number == hs[head].number + 1
    ensures hs[b].number in canon ==> canon[hs[b].number] != b
  {
    assert Hangs(hs, g, b);
    var n := hs[b].number;
    assert NoRepeats(hs, g, bodies, b) && Anc(hs, g, b, n - 1) == head;
    forall t, m: nat | m < n ensures OnChain(hs, g, bodies, b, t, m) == OnChain(hs, g, bodies, head, t, m) {
    }
    LookupHead(hs, g, bodies, b, lookup);
    forall m: nat | m in canon && m > n ensures Anc(hs, g, canon[m], n) != b {
      AncParent(hs, g, canon[m], n - 1);
    }
  }

  /** Writing the new head after its parent's chain, or its sibling's, was indexed. */
  lemma SwitchOk(hs: Headers, g: Hash, td: map<Hash, nat>, bodies: Bodies,
                 top: Hash, canon: map<nat, Hash>, lookup: map<TxId, nat>, b: Hash)
    requires Linked(hs, g) && TdSums(hs, g, td) && bodies.Keys == hs.Keys && b in hs && top in hs
    requires forall h | h in hs && h != g :: hs[h].difficulty > 0
    requires forall h | h in hs :: NoRepeats(hs, g, bodies, h)
    requires IndexExact(hs, g, canon, top) && LookupBelow(hs, g, bodies, b, lookup)
    requires hs[b].number <= Fork(hs, g, top, b) + 1
    requires Fork(hs, g, top, b) == hs[b].number ==> b == top
    ensures var n := hs[b].number; ChainOk(hs, g, td, bodies, b, canon[n := b], lookup + map t | t in bodies[b] :: n)
    ensures b != top && hs[b].number in canon ==> canon[hs[b].number] != b
    ensures var n := hs[b].number;
            NothingAbove(canon[n := b], n) <==> hs[top].number <= n
  {
    var n := hs[b].number;
    assert NoRepeats(hs, g, bodies, b);
    LookupHead(hs, g, bodies, b, lookup);
    SwitchAgrees(hs, g, top, canon, b);
    SwitchStale(hs, g, top, canon, b);
    NothingAboveUpdate(canon, n, b);
  }

  /** Below the new head the index agrees with its chain already. */
  lemma SwitchAgrees(hs: Headers, g: Hash, top: Hash, canon: map<nat, Hash>, b: Hash)
    requires Linked(hs, g) && b in hs && top in hs && IndexExact(hs, g, canon, top)
    requires hs[b].number <= Fork(hs, g, top, b) + 1
    ensures IndexAgrees(hs, g, canon[hs[b].number := b], b) && GapFree(canon[hs[b].number := b])
    ensures NothingAbove(canon, hs[b].number) <==> hs[top].number <= hs[b].number
  {
    var n := hs[b].number;
    forall m: nat | m < n ensures m in canon && canon[m] == Anc(hs, g, b, m) {
      ForkIsLowestCommon(hs, g, top, b, m);
    }
    assert hs[top].number in canon;
  }

  /** What is left above the new head does not descend from it. */
  lemma SwitchStale(hs: Headers, g: Hash, top: Hash, canon: map<nat, Hash>, b: Hash)
    requires Linked(hs, g) && b in hs && top in hs && IndexExact(hs, g, canon, top)
    requires Fork(hs, g, top, b) == hs[b].number ==> b == top
    ensures StaleAbove(hs, g, canon[hs[b].number := b], b)
    ensures b != top && hs[b].number in canon ==> canon[hs[b].number] != b
  {
    var n := hs[b].number;
    if n <= hs[top].number {
      ForkIsLowestCommon(hs, g, top, b, n);
      forall m: nat | m in canon && m > n ensures Anc(hs, g, canon[m], n) != b {
        AncCompose(hs, g, top, m, n);
      }
    }
  }

  lemma ForkOfParent(hs: Headers, g: Hash, b: Hash)
    requires Linked(hs, g) && b in hs && b != g
    ensures hs[b].parent in hs && hs[b].number > 0 && Fork(hs, g, hs[b].parent, b) == hs[b].number - 1
  {
    assert Hangs(hs, g, b);
  }

  /** A block at least as heavy as the head is the head itself or off its chain. */
  lemma HeavierIsNoAncestor(hs: Headers, g: Hash, td: map<Hash, nat>, head: Hash, b: Hash)
    requires Linked(hs, g) && TdSums(hs, g, td) && head in hs && b in hs && td[head] <= td[b]
    requires forall h | h in hs && h != g :: hs[h].difficulty > 0
    ensures Fork(hs, g, head, b) == hs[b].number ==> b == head
  {
    var n := hs[b].number;
    if Fork(hs, g, head, b) == n {
      ForkIsLowestCommon(hs, g, head, b, n);
      if n < hs[head].number { TdGrows(hs, g, td, head, n); }
    }
  }

  /** The nearest ancestor of `h`, itself included, whose state is present, or genesis. */
  ghost function Stateful(hs: Headers, g: Hash, states: set<Hash>, h: Hash): (r: Hash)
    requires Linked(hs, g) && h in hs
    ensures r in hs && hs[r].number <= hs[h].number
    decreases hs[h].number
  {
    assert Hangs(hs, g, h);
    if h in states || h == g then h else Stateful(hs, g, states, hs[h].parent)
  }

  lemma {:induction false} StatefulIsNearest(hs: Headers, g: Hash, states: set<Hash>, h: Hash)
    requires Linked(hs, g) && h in hs
    ensures var r := Stateful(hs, g, states, h);
            && r == Anc(hs, g, h, hs[r].number) && (r in states || r == g)
            && forall n: nat | hs[r].number < n <= hs[h].number :: Anc(hs, g, h, n) !in states
    decreases hs[h].number
  {
    assert Hangs(hs, g, h);
    if h in states || h == g {
    } else {
      StatefulIsNearest(hs, g, states, hs[h].parent);
    }
  }

  /** Where a rewind lands is an ancestor of the old head. */
  lemma RewindIsAncestor(hs: Headers, g: Hash, states: set<Hash>, head: Hash, target: nat, head': Hash)
    requires Linked(hs, g) && head in hs
    requires head' == if target <= hs[head].number then Stateful(hs, g, states, Anc(hs, g, head, target)) else head
    ensures head' in hs && hs[head'].number <= hs[head].number && head' == Anc(hs, g, head, hs[head'].number)
  {
    if target <= hs[head].number {
      StatefulIsNearest(hs, g, states, Anc(hs, g, head, target));
      AncCompose(hs, g, head, target, hs[head'].number);
    }
  }

  /** Some header at height `n` is stored. */
  predicate Populated(hs: Headers, n: nat)
  {
    exists h :: h in hs && hs[h].number == n
  }

  lemma PopulatedBelow(hs: Headers, g: Hash, h: Hash, n: nat)
    requires Linked(hs, g) && h in hs && n <= hs[h].number
    ensures Populated(hs, n)
  {
    var _ := Anc(hs, g, h, n);
  }

  ghost function AtOrAbove(hs: Headers, n: nat): set<Hash>
  {
    set h | h in hs && hs[h].number >= n
  }

  /** `doomed` are the headers above height `n`, `dropped` covers their heights and none up to `n`. */
  ghost predicate AllAbove(hs: Headers, n: nat, doomed: set<Hash>, dropped: set<nat>)
  {
    && (forall h :: h in doomed <==> h in hs && hs[h].number > n)
    && (forall h | h in doomed :: h in hs && hs[h].number in dropped)
    && (forall m | m in dropped :: m > n)
  }

  /** Dooming height `n`, after everything above it or together with it. */
  lemma DoomStep(hs: Headers, n: nat, nums: seq<nat>, first: bool, doomed: set<Hash>, dropped: set<nat>)
    requires n > 0
    requires if first then doomed == {} && dropped == {}
                           && (forall i | 0 <= i < |nums| :: nums[i] == n + |nums| - i)
                           && (forall h | h in hs :: hs[h].number < n + 1 + |nums|)
             else nums == [] && AllAbove(hs, n, doomed, dropped)
    ensures var all := nums + [n];
            AllAbove(hs, n - 1, doomed + (set h | h in hs && hs[h].number in all), dropped + set m | m in all)
  {
    var all := nums + [n];
    assert all[|nums|] == n;
    if first {
      forall m: nat | n <= m < n + 1 + |nums| ensures m in all {
        assert all[n + |nums| - m] == m;
      }
    }
  }

  /** Collect the headers at the given heights, and the heights. */
  method AtHeights(hs: Headers, nums: seq<nat>) returns (found: set<Hash>, heights: set<nat>)
    ensures found == (set h | h in hs && hs[h].number in nums) && heights == set n | n in nums
  {
    found, heights := {}, {};
    for i := 0 to |nums|
      invariant found == set h | h in hs && hs[h].number in nums[..i]
      invariant heights == set n | n in nums[..i]
    {
      found := found + set h | h in hs && hs[h].number == nums[i];
      heights := heights + {nums[i]};
      assert nums[..i + 1] == nums[..i] + [nums[i]];
    }
    assert nums[..|nums|] == nums;
  }

  /** `hs'` are the headers of `hs` up to height `n`. */
  ghost predicate CutAt(hs: Headers, hs': Headers, n: nat)
  {
    hs' == map h | h in hs && hs[h].number <= n :: hs[h]
  }

  lemma CutKeeps(hs: Headers, hs': Headers, g: Hash, n: nat)
    requires Linked(hs, g) && CutAt(hs, hs', n)
    ensures Linked(hs', g)
    ensures forall h, m: nat | h in hs' && m <= hs[h].number :: Anc(hs', g, h, m) == Anc(hs, g, h, m)
  {
    forall h | h in hs' ensures Hangs(hs', g, h) {
      assert Hangs(hs, g, h);
    }
    forall h, m: nat | h in hs' && m <= hs[h].number ensures Anc(hs', g, h, m) == Anc(hs, g, h, m) {
      AncStable(hs', hs, g, h, m);
    }
  }

  /** `head'` is an ancestor of `head` in the tree `hs'`, a part of `hs`. */
  ghost predicate Rewound(hs: Headers, hs': Headers, g: Hash, bodies: Bodies, bodies': Bodies, head: Hash, head': Hash)
  {
    && Linked(hs, g) && Linked(hs', g) && Extends(hs', hs) && head in hs && head' in hs'
    && bodies.Keys == hs.Keys && bodies'.Keys == hs'.Keys && (forall b | b in bodies' :: bodies'[b] == bodies[b])
    && hs[head'].number <= hs[head].number && head' == Anc(hs, g, head, hs[head'].number)
  }

  lemma RewoundChain(hs: Headers, hs': Headers, g: Hash, bodies: Bodies, bodies': Bodies, head: Hash, head': Hash,
                     t: TxId, n: nat)
    requires Rewound(hs, hs', g, bodies, bodies', head, head')
    ensures OnChain(hs', g, bodies', head', t, n) <==> n <= hs[head'].number && OnChain(hs, g, bodies, head, t, n)
  {
    OnChainStable(hs', hs, g, bodies', bodies, head');
    if n <= hs[head'].number { AncCompose(hs, g, head, hs[head'].number, n); }
  }

  /** No block of the chain above height `n` has a transaction. */
  ghost predicate EmptyAbove(hs: Headers, g: Hash, bodies: Bodies, head: Hash, n: nat)
    requires Linked(hs, g) && head in hs && bodies.Keys == hs.Keys
  {
    forall t, m: nat :: OnChain(hs, g, bodies, head, t, m) ==> m <= n
  }

  /** Rewinding leaves the transaction lookup alone: it still fits the new head exactly if
      no block of the old chain above it has a transaction. */
  lemma RewoundLookup(hs: Headers, hs': Headers, g: Hash, bodies: Bodies, bodies': Bodies,
                      head: Hash, head': Hash, lookup: map<TxId, nat>)
    requires Rewound(hs, hs', g, bodies, bodies', head, head') && LookupExact(hs, g, bodies, head, lookup)
    ensures LookupExact(hs', g, bodies', head', lookup) <==> EmptyAbove(hs, g, bodies, head, hs[head'].number)
  {
    forall t, n: nat
      ensures OnChain(hs', g, bodies', head', t, n) <==> n <= hs[head'].number && OnChain(hs, g, bodies, head, t, n)
    {
      RewoundChain(hs, hs', g, bodies, bodies', head, head', t, n);
    }
    if LookupExact(hs', g, bodies', head', lookup) {
      forall t, m: nat | OnChain(hs, g, bodies, head, t, m) ensures m <= hs[head'].number {
        assert OnChain(hs', g, bodies', head', t, lookup[t]);
      }
    }
  }

  /** All of the lookup is at or below height `n`. */
  predicate LookupUpTo(lookup: map<TxId, nat>, n: nat)
  {
    forall t | t in lookup :: lookup[t] <= n
  }

  lemma UpToIsEmptyAbove(hs: Headers, g: Hash, bodies: Bodies, head: Hash, lookup: map<TxId, nat>, n: nat)
    requires Linked(hs, g) && head in hs && bodies.Keys == hs.Keys && LookupExact(hs, g, bodies, head, lookup)
    ensures EmptyAbove(hs, g, bodies, head, n) <==> LookupUpTo(lookup, n)
  {
    if EmptyAbove(hs, g, bodies, head, n) {
      forall t | t in lookup ensures lookup[t] <= n {
        assert OnChain(hs, g, bodies, head, t, lookup[t]);
      }
    }
  }

  /** No block up to height `n` is heavier than `top`. */
  predicate HeaviestUpTo(hs: Headers, td: map<Hash, nat>, n: nat, top: Hash)
    requires td.Keys == hs.Keys && top in td
  {
    forall b | b in hs && hs[b].number <= n :: td[b] <= td[top]
  }

  /** Tree and difficulties are in order, and the indexes have all of the head's chain. */
  ghost predicate Intact(hs: Headers, g: Hash, td: map<Hash, nat>, bodies: Bodies,
                         head: Hash, canon: map<nat, Hash>, lookup: map<TxId, nat>)
  {
    && Linked(hs, g) && TdSums(hs, g, td) && bodies.Keys == hs.Keys && head in hs
    && (forall b | b in hs && b != g :: hs[b].difficulty > 0)
    && (forall b | b in hs :: NoRepeats(hs, g, bodies, b))
    && IndexAgrees(hs, g, canon, head) && GapFree(canon)
    && (forall t, n :: OnChain(hs, g, bodies, head, t, n) ==> t in lookup && lookup[t] == n)
  }

  lemma RewoundIntact(hs: Headers, hs': Headers, g: Hash, td: map<Hash, nat>, td': map<Hash, nat>,
                      bodies: Bodies, bodies': Bodies, head: Hash, head': Hash,
                      canon: map<nat, Hash>, canon': map<nat, Hash>, lookup: map<TxId, nat>)
    requires ChainOk(hs, g, td, bodies, head, canon, lookup) && Rewound(hs, hs', g, bodies, bodies', head, head')
    requires td'.Keys == hs'.Keys && (forall h | h in td' :: td'[h] == td[h])
    requires IndexAgrees(hs', g, canon', head') && GapFree(canon')
    ensures Intact(hs', g, td', bodies', head', canon', lookup)
  {
    forall h | h in hs' ensures TdOf(hs', g, td', h) {
      assert TdOf(hs, g, td, h) && Hangs(hs', g, h);
    }
    forall b | b in hs' ensures NoRepeats(hs', g, bodies', b) {
      OnChainStable(hs', hs, g, bodies', bodies, b);
    }
    forall t, n: nat | OnChain(hs', g, bodies', head', t, n) ensures t in lookup && lookup[t] == n {
      RewoundChain(hs, hs', g, bodies, bodies', head, head', t, n);
    }
  }

  /** The head lost nothing iff its state is present. */
  lemma StatefulStays(hs: Headers, g: Hash, states: set<Hash>, h: Hash)
    requires Linked(hs, g) && h in hs
    ensures Stateful(hs, g, states, h) == h <==> h in states || h == g
  {
    assert Hangs(hs, g, h);
  }

  lemma RepairIntact(hs: Headers, g: Hash, td: map<Hash, nat>, bodies: Bodies, head: Hash, head': Hash,
                     canon: map<nat, Hash>, lookup: map<TxId, nat>)
    requires ChainOk(hs, g, td, bodies, head, canon, lookup)
    requires head' in hs && hs[head'].number <= hs[head].number && head' == Anc(hs, g, head, hs[head'].number)
    ensures Rewound(hs, hs, g, bodies, bodies, head, head') && Intact(hs, g, td, bodies, head', canon, lookup)
    ensures LookupUpTo(lookup, hs[head].number)
  {
    forall m: nat | m <= hs[head'].number ensures canon[m] == Anc(hs, g, head', m) {
      AncCompose(hs, g, head, hs[head'].number, m);
    }
    RewoundIntact(hs, hs, g, td, td, bodies, bodies, head, head', canon, canon, lookup);
  }

  /** What is left of a table when only the headers `hs'` stay. */
  function Left<T>(table: map<Hash, T>, hs: Headers, hs': Headers): map<Hash, T>
  {
    table - (hs.Keys - hs'.Keys)
  }

  /** Deleting everything above `n`, where the old chain has `x`. */
  ghost predicate Cut(hs: Headers, hs': Headers, g: Hash, head: Hash, n: nat, x: Hash, canon': map<nat, Hash>)
  {
    && Linked(hs, g) && head in hs && n < hs[head].number && x == Anc(hs, g, head, n)
    && CutAt(hs, hs', n) && Linked(hs', g) && IndexAgrees(hs', g, canon', x) && forall k: nat :: k in canon' <==> k <= n
  }

  lemma CutIntact(hs: Headers, hs': Headers, g: Hash, td: map<Hash, nat>, bodies: Bodies, head: Hash, head': Hash,
                  canon: map<nat, Hash>, canon': map<nat, Hash>, lookup: map<TxId, nat>, n: nat, x: Hash)
    requires ChainOk(hs, g, td, bodies, head, canon, lookup) && Cut(hs, hs', g, head, n, x, canon')
    requires head' in hs && hs[head'].number <= n && head' == Anc(hs, g, head, hs[head'].number)
    ensures Rewound(hs, hs', g, bodies, Left(bodies, hs, hs'), head, head')
    ensures Intact(hs', g, Left(td, hs, hs'), Left(bodies, hs, hs'), head', canon', lookup)
  {
    CutKeeps(hs, hs', g, n);
    forall m: nat | m <= hs[head'].number ensures m in canon' && canon'[m] == Anc(hs', g, head', m) {
      AncCompose(hs, g, head, n, m);
      AncCompose(hs, g, head, hs[head'].number, m);
    }
    RewoundIntact(hs, hs', g, td, Left(td, hs, hs'), bodies, Left(bodies, hs, hs'), head, head', canon, canon', lookup);
  }

  /** After a cut at the head's own chain the chain is in order exactly if the block there
      has nothing above it in the lookup; it is the heaviest if it was up to that height. */
  lemma CutOk(hs: Headers, hs': Headers, g: Hash, td: map<Hash, nat>, bodies: Bodies, head: Hash,
              canon: map<nat, Hash>, canon': map<nat, Hash>, lookup: map<TxId, nat>, n: nat, x: Hash)
    requires ChainOk(hs, g, td, bodies, head, canon, lookup) && Cut(hs, hs', g, head, n, x, canon')
    ensures ChainOk(hs', g, Left(td, hs, hs'), Left(bodies, hs, hs'), x, canon', lookup) <==> LookupUpTo(lookup, n)
    ensures x in hs'
    ensures (forall b | b in hs' :: Left(td, hs, hs')[b] <= Left(td, hs, hs')[x]) <==> HeaviestUpTo(hs, td, n, x)
  {
    CutIntact(hs, hs', g, td, bodies, head, x, canon, canon', lookup, n, x);
    RewoundLookup(hs, hs', g, bodies, Left(bodies, hs, hs'), head, x, lookup);
    UpToIsEmptyAbove(hs, g, bodies, head, lookup, n);
    forall b | b in hs && hs[b].number <= n ensures b in hs' && Left(td, hs, hs')[b] == td[b] {
    }
  }

  class BlockChain {
    const genesis: Hash
    var headers: Headers
    var td: map<Hash, nat>
    var bodies: Bodies
    var canon: map<nat, Hash>
    var lookup: map<TxId, nat>
    var head: Hash
    var headHeader: Hash
    var headFast: Hash

    ghost predicate TreeOk()
      reads this
    {
      Linked(headers, genesis) && bodies.Keys == headers.Keys && head in headers
    }

    /** Standing at `at`, below `from`, with the blocks passed on the way. */
    ghost predicate Walked(from: Hash, at: Hash, passed: seq<Hash>)
      requires TreeOk()
      reads this
    {
      && from in headers && at in headers && headers[at].number <= headers[from].number
      && at == Anc(headers, genesis, from, headers[at].number)
      && passed == Branch(headers, genesis, from, headers[at].number)
    }

    lemma WalkOn(from: Hash, at: Hash, passed: seq<Hash>)
      requires TreeOk() && Walked(from, at, passed) && headers[at].number > 0
      ensures headers[at].parent in headers && headers[headers[at].parent].number == headers[at].number - 1
      ensures Walked(from, headers[at].parent, passed + [at])
    {
      assert Hangs(headers, genesis, at);
      var n := headers[at].number - 1;
      AncParent(headers, genesis, from, n);
      var b := Branch(headers, genesis, from, n);
      assert forall i | 0 <= i < |b| :: b[i] == (passed + [at])[i];
    }

    /** The transactions indexed above the height of `at`. */
    ghost predicate IndexedAbove(at: Hash, txs: set<TxId>)
      requires at in headers
      reads this
    {
      txs == set t | t in lookup && lookup[t] > headers[at].number
    }

    lemma IndexedOn(from: Hash, at: Hash, passed: seq<Hash>, txs: set<TxId>)
      requires TreeOk() && Walked(from, at, passed) && IndexedAbove(at, txs) && headers[at].number > 0
      requires LookupExact(headers, genesis, bodies, from, lookup)
      ensures headers[at].parent in headers && IndexedAbove(headers[at].parent, txs + bodies[at])
    {
      WalkOn(from, at, passed);
      var n := headers[at].number;
      forall t ensures t in bodies[at] <==> t in lookup && lookup[t] == n {
        assert t in bodies[at] ==> OnChain(headers, genesis, bodies, from, t, n);
      }
    }

    /** The two walks of a reorganisation: level the longer chain, then step both
        back until they meet. */
    method FindFork(oldBlock: Hash, newBlock: Hash)
      returns (fork: Hash, oldChain: seq<Hash>, newChain: seq<Hash>, deleted: set<TxId>)
      requires TreeOk() && oldBlock in headers && newBlock in headers
      requires LookupExact(headers, genesis, bodies, oldBlock, lookup)
      ensures Walked(oldBlock, fork, oldChain) && Walked(newBlock, fork, newChain)
      ensures IndexedAbove(fork, deleted)
      ensures headers[fork].number == Fork(headers, genesis, oldBlock, newBlock)
    {
      var o, n := oldBlock, newBlock;
      oldChain, newChain, deleted := [], [], {};
      assert IndexedAbove(o, deleted) by {
        assert forall t | t in lookup :: OnChain(headers, genesis, bodies, oldBlock, t, lookup[t]);
      }
      if headers[o].number > headers[n].number {
        while headers[o].number != headers[n].number
          invariant Walked(oldBlock, o, oldChain) && IndexedAbove(o, deleted)
          invariant headers[o].number >= headers[n].number
          invariant Fork(headers, genesis, o, n) == Fork(headers, genesis, oldBlock, newBlock)
          decreases headers[o].number
        {
          WalkOn(oldBlock, o, oldChain);
          IndexedOn(oldBlock, o, oldChain, deleted);
          oldChain := oldChain + [o];
          deleted := deleted + bodies[o];
          o := headers[o].parent;
        }
      } else {
        while headers[n].number != headers[o].number
          invariant Walked(newBlock, n, newChain) && headers[n].number >= headers[o].number
          invariant Fork(headers, genesis, o, n) == Fork(headers, genesis, oldBlock, newBlock)
          decreases headers[n].number
        {
          WalkOn(newBlock, n, newChain);
          newChain := newChain + [n];
          n := headers[n].parent;
        }
      }
      while o != n
        invariant Walked(oldBlock, o, oldChain) && IndexedAbove(o, deleted) && Walked(newBlock, n, newChain)
        invariant headers[n].number == headers[o].number
        invariant Fork(headers, genesis, o, n) == Fork(headers, genesis, oldBlock, newBlock)
        decreases headers[o].number
      {
        assert Hangs(headers, genesis, o) && Hangs(headers, genesis, n);
        WalkOn(oldBlock, o, oldChain);
        WalkOn(newBlock, n, newChain);
        IndexedOn(oldBlock, o, oldChain, deleted);
        oldChain := oldChain + [o];
        deleted := deleted + bodies[o];
        newChain := newChain + [n];
        o := headers[o].parent;
        n := headers[n].parent;
      }
      fork := o;
    }

    /** Make `block` the head: index it, index its transactions, move the markers. */
    method WriteHeadBlock(block: Hash)
      requires block in headers && block in bodies
      modifies this`canon, this`lookup, this`head, this`headHeader, this`headFast
      ensures canon == old(canon)[headers[block].number := block] && head == block
      ensures lookup == old(lookup) + map t | t in bodies[block] :: headers[block].number
      ensures var updateHeads := !(headers[block].number in old(canon) && old(canon)[headers[block].number] == block);
              && headHeader == (if updateHeads then block else old(headHeader))
              && headFast == (if updateHeads then block else old(headFast))
    {
      var number := headers[block].number;
      var updateHeads := !(number in canon && canon[number] == block);
      canon := canon[number := block];
      lookup := lookup + map t | t in bodies[block] :: number;
      if updateHeads {
        headHeader, headFast := block, block;
      }
      head := block;
    }

    /** Write the next block of the new branch. */
    method AdoptNext(b: Hash, added: set<TxId>, ghost newBlock: Hash, ghost k: nat, ghost m: nat,
                     ghost canon0: map<nat, Hash>, ghost lookup0: map<TxId, nat>) returns (added': set<TxId>)
      requires TreeOk() && newBlock in headers && NoRepeats(headers, genesis, bodies, newBlock)
      requires k <= m < headers[newBlock].number && b == Anc(headers, genesis, newBlock, m + 1)
      requires Adopted(headers, genesis, bodies, newBlock, k, m, canon0, canon, lookup0, lookup, added)
      modifies this`canon, this`lookup, this`head, this`headHeader, this`headFast
      ensures TreeOk() && head == b
      ensures Adopted(headers, genesis, bodies, newBlock, k, m + 1, canon0, canon, lookup0, lookup, added')
    {
      AdoptStep(headers, genesis, bodies, newBlock, k, m, canon0, canon, lookup0, lookup, added);
      WriteHeadBlock(b);
      added' := added + bodies[b];
    }

    /** Write the new branch except its head, oldest first. */
    method AdoptBranch(newBlock: Hash, newChain: seq<Hash>, ghost k: nat) returns (added: set<TxId>)
      requires TreeOk() && newBlock in headers && NoRepeats(headers, genesis, bodies, newBlock)
      requires k <= headers[newBlock].number && newChain == Branch(headers, genesis, newBlock, k)
      requires forall n: nat | n <= k :: n in canon && canon[n] == Anc(headers, genesis, newBlock, n)
      modifies this`canon, this`lookup, this`head, this`headHeader, this`headFast
      ensures TreeOk()
      ensures |newChain| <= 1 ==> added == {} && canon == old(canon) && lookup == old(lookup) && head == old(head)
      ensures |newChain| <= 1 ==> headHeader == old(headHeader) && headFast == old(headFast)
      ensures |newChain| >= 2 ==> head == newChain[1]
      ensures var m := if newChain == [] then k else headers[newBlock].number - 1;
              Adopted(headers, genesis, bodies, newBlock, k, m, old(canon), canon, old(lookup), lookup, added)
    {
      added := {};
      ghost var m: nat, canon0, lookup0 := k, canon, lookup;
      var i := |newChain| - 1;
      while i >= 1
        invariant i == |newChain| - 1 || 0 <= i < |newChain| - 1
        invariant m == (if i < 0 then k else headers[newBlock].number - 1 - i) && k <= m
        invariant Adopted(headers, genesis, bodies, newBlock, k, m, canon0, canon, lookup0, lookup, added)
        invariant if i == |newChain| - 1 then added == {} && unchanged(this) else head == newChain[i + 1]
      {
        added := AdoptNext(newChain[i], added, newBlock, k, m, canon0, lookup0);
        i, m := i - 1, m + 1;
      }
    }

    /** Drop the index entries above the current head, up to the first gap. */
    method ClearIndex()
      requires head in headers && GapFree(canon)
      modifies this`canon
      ensures canon == map n | n in old(canon) && n <= headers[head].number :: old(canon)[n]
    {
      ghost var top: nat := headers[head].number;
      var i: nat := headers[head].number + 1;
      var stored := canon;
      while i in stored
        invariant i > top && stored == old(canon)
        invariant canon == map n | n in stored && !(top < n < i) :: stored[n]
        decreases canon.Keys
      {
        canon := canon - {i};
        i := i + 1;
      }
      assert forall n: nat | n in stored && n >= i :: n == i || i < n;
    }

    /** Move the indexes from the head's chain to the chain of `newBlock`, short of
        writing `newBlock` itself. */
    method Reorg(newBlock: Hash)
      requires TreeOk() && newBlock in headers && GapFree(canon)
      requires NoRepeats(headers, genesis, bodies, newBlock)
      requires IndexAgrees(headers, genesis, canon, head)
      requires LookupExact(headers, genesis, bodies, head, lookup)
      modifies this`canon, this`lookup, this`head, this`headHeader, this`headFast
      ensures head in headers && LookupBelow(headers, genesis, bodies, newBlock, lookup)
      ensures var k := Fork(headers, genesis, old(head), newBlock);
              if headers[newBlock].number >= k + 2
              then head == headers[newBlock].parent && IndexExact(headers, genesis, canon, head)
              else head == old(head) && IndexExact(headers, genesis, canon, head)
                   && headHeader == old(headHeader) && headFast == old(headFast)
    {
      var fork, oldChain, newChain, deleted := FindFork(head, newBlock);
      ghost var k := Fork(headers, genesis, head, newBlock);
      forall n: nat | n <= k ensures n in canon && canon[n] == Anc(headers, genesis, newBlock, n) {
        ForkIsLowestCommon(headers, genesis, head, newBlock, n);
      }
      ghost var head0, lookup0 := head, lookup;
      var added := AdoptBranch(newBlock, newChain, k);
      LookupSwitch(headers, genesis, bodies, head0, newBlock,
                   if newChain == [] then k else headers[newBlock].number - 1,
        lookup0, lookup, added, deleted);
      lookup := lookup - (deleted - added);
      ClearIndex();
    }

    /** Both indexes fit the head, no stored block has more total difficulty, and
        the three head markers agree. */
    ghost predicate Valid()
      reads this
    {
      && ChainOk(headers, genesis, td, bodies, head, canon, lookup)
      && (forall b | b in headers :: td[b] <= td[head])
      && headHeader == head && headFast == head
    }

    /** Nothing is indexed above the head. */
    ghost predicate Clean()
      reads this
      requires head in headers
    {
      NothingAbove(canon, headers[head].number)
    }

    constructor (g: Header, txs: set<TxId>)
      requires g.number == 0
      ensures Valid() && Clean() && genesis == head == g.hash
      ensures headers == map[g.hash := g] && bodies == map[g.hash := txs]
    {
      genesis, head, headHeader, headFast := g.hash, g.hash, g.hash, g.hash;
      headers := map[g.hash := g];
      td := map[g.hash := g.difficulty];
      bodies := map[g.hash := txs];
      canon := map[0 := g.hash];
      lookup := map t | t in txs :: 0;
    }

    /** The switch to a stored block `b` that is at least as heavy as the head.
        Reorganising onto a branch of one block below the old head's height leaves
        the entries above it behind; every other switch leaves nothing above. */
    method AdoptHead(b: Hash)
      requires ChainOk(headers, genesis, td, bodies, head, canon, lookup) && headHeader == head && headFast == head
      requires b in headers && b != genesis && td[head] <= td[b]
      modifies this`canon, this`lookup, this`head, this`headHeader, this`headFast
      ensures ChainOk(headers, genesis, td, bodies, head, canon, lookup)
      ensures head == b && headHeader == b && headFast == b
      ensures headers[b].parent == old(head) ==> (Clean() <==> NothingAbove(old(canon), headers[b].number))
      ensures headers[b].parent != old(head) ==>
                (Clean() <==> headers[b].number >= Fork(headers, genesis, old(head), b) + 2
                              || headers[b].number >= headers[old(head)].number)
    {
      assert Hangs(headers, genesis, b);
      if headers[b].parent != head {
        ghost var k := Fork(headers, genesis, head, b);
        HeavierIsNoAncestor(headers, genesis, td, head, b);
        assert NoRepeats(headers, genesis, bodies, b);
        Reorg(b);
        ForkOfParent(headers, genesis, b);
        SwitchOk(headers, genesis, td, bodies, head, canon, lookup, b);
      } else {
        ExtendOk(headers, genesis, td, bodies, head, canon, lookup, b);
        NothingAboveUpdate(canon, headers[b].number, b);
      }
      WriteHeadBlock(b);
    }

    /** Store a block with its total difficulty. */
    method StoreBlock(b: Header, txs: set<TxId>)
      requires ChainOk(headers, genesis, td, bodies, head, canon, lookup) && Fits(headers, genesis, bodies, b, txs)
      modifies this`headers, this`td, this`bodies
      ensures ChainOk(headers, genesis, td, bodies, head, canon, lookup)
      ensures headers == old(headers)[b.hash := b] && bodies == old(bodies)[b.hash := txs]
      ensures td == old(td)[b.hash := old(td)[b.parent] + b.difficulty]
      ensures forall k | k in old(td) :: td[k] == old(td)[k]
      ensures b.hash != genesis
    {
      StoreKeeps(headers, genesis, td, bodies, head, canon, lookup, b, txs);
      td := td[b.hash := td[b.parent] + b.difficulty];
      headers := headers[b.hash := b];
      bodies := bodies[b.hash := txs];
    }

    /** Write a block and choose the head.  `currentKept` and `blockKept` are the
        preferences for locally mined blocks, `coin` the toss among equals. */
    method WriteBlockWithState(b: Header, txs: set<TxId>, currentKept: bool, blockKept: bool, coin: bool)
      returns (r: Option<bool>)
      requires Valid()
      requires ParentKnown(headers, b) ==> Fits(headers, genesis, bodies, b, txs)
      modifies this
      ensures !ParentKnown(old(headers), b) ==> r == None && unchanged(this)
      ensures ParentKnown(old(headers), b) ==>
                && Valid() && headers == old(headers)[b.hash := b] && bodies == old(bodies)[b.hash := txs]
                && r == Some(Prefers(td[b.hash], old(td[head]), b.number, old(headers[head].number),
                                     !currentKept && (blockKept || coin)))
                && head == if r == Some(true) then b.hash else old(head)
      ensures r == Some(false) ==> canon == old(canon) && lookup == old(lookup)
      ensures r == Some(true) && b.parent == old(head) ==>
                (Clean() <==> NothingAbove(old(canon), b.number))
      ensures r == Some(true) && b.parent != old(head) ==>
                (Clean() <==> b.number >= Fork(headers, genesis, old(head), head) + 2
                              || b.number >= old(headers[head].number))
    {
      if !ParentKnown(headers, b) {
        return None;
      }
      var localTd, number := td[head], headers[head].number;
      StoreBlock(b, txs);
      var externTd := td[b.hash];
      var reorg := externTd > localTd;
      if !reorg && externTd == localTd {
        if b.number < number {
          reorg := true;
        } else if b.number == number {
          reorg := !currentKept && (blockKept || coin);
        }
      }
      if reorg {
        AdoptHead(b.hash);
      }
      r := Some(reorg);
    }

    /** What a rewind needs: head block, fast block and head header lie on one
        chain in this order, bodies reach up to the fast block, and every index
        entry is a header of its height. */
    ghost predicate Rewindable()
      reads this
    {
      && Linked(headers, genesis) && td.Keys == headers.Keys && bodies.Keys <= headers.Keys
      && headHeader in headers && head in headers && headFast in headers
      && headers[head].number <= headers[headFast].number <= headers[headHeader].number
      && head == Anc(headers, genesis, headHeader, headers[head].number)
      && headFast == Anc(headers, genesis, headHeader, headers[headFast].number)
      && (forall n: nat | n <= headers[headFast].number :: Anc(headers, genesis, headHeader, n) in bodies)
      && IndexAgrees(headers, genesis, canon, headHeader)
      && (forall n: nat | n in canon :: canon[n] in headers && headers[canon[n]].number == n)
    }

    /** Move the block markers down to `parent`: the full block to one with state. */
    method UpdateHeads(parent: Hash, states: set<Hash>)
      requires Linked(headers, genesis) && parent in headers && head in headers && headFast in headers
      requires forall n: nat | n <= headers[parent].number && n <= headers[headFast].number ::
                 Anc(headers, genesis, parent, n) in bodies
      requires headers[head].number <= headers[headFast].number
      modifies this`head, this`headFast
      ensures head == if headers[parent].number <= headers[old(head)].number
                      then Stateful(headers, genesis, states, parent) else old(head)
      ensures headFast == if headers[parent].number < headers[old(headFast)].number then parent else old(headFast)
    {
      assert headers[parent].number <= headers[headFast].number ==>
               Anc(headers, genesis, parent, headers[parent].number) in bodies;
      if headers[parent].number <= headers[head].number {
        var b := parent;
        while b !in states && b != genesis
          invariant head == old(head) && headFast == old(headFast)
          invariant b in headers && headers[b].number <= headers[parent].number
          invariant b == Anc(headers, genesis, parent, headers[b].number)
          invariant Stateful(headers, genesis, states, b) == Stateful(headers, genesis, states, parent)
          decreases headers[b].number
        {
          assert Hangs(headers, genesis, b);
          AncParent(headers, genesis, parent, headers[b].number - 1);
          var next := headers[b].parent;
          b := genesis;
          if next in bodies { b := next; }
        }
        head := b;
      }
      if headers[parent].number < headers[headFast].number {
        headFast := genesis;
        if parent in bodies { headFast := parent; }
      }
    }

    /** The populated heights from `from` up, highest first. */
    method ScanUp(from: nat) returns (nums: seq<nat>)
      requires Linked(headers, genesis)
      ensures forall i | 0 <= i < |nums| :: nums[i] == from + |nums| - 1 - i
      ensures forall h | h in headers :: headers[h].number < from + |nums|
    {
      nums := [];
      var n := from;
      while Populated(headers, n)
        invariant n == from + |nums| && forall i | 0 <= i < |nums| :: nums[i] == from + |nums| - 1 - i
        decreases AtOrAbove(headers, n)
      {
        assert AtOrAbove(headers, n + 1) < AtOrAbove(headers, n) by {
          var h :| h in headers && headers[h].number == n;
          assert h in AtOrAbove(headers, n) && h !in AtOrAbove(headers, n + 1);
        }
        nums := [n] + nums;
        n := n + 1;
      }
      forall h | h in headers ensures headers[h].number < n {
        if headers[h].number >= n { PopulatedBelow(headers, genesis, h, n); }
      }
    }

    /** Add the headers at height `num` to the ones to delete, the first time with
        whatever is left above. */
    method Doom(num: nat, origin: bool, doomed: set<Hash>, dropped: set<nat>)
      returns (doomed': set<Hash>, dropped': set<nat>)
      requires Linked(headers, genesis) && num > 0
      requires if origin then doomed == {} && dropped == {} else AllAbove(headers, num, doomed, dropped)
      ensures AllAbove(headers, num - 1, doomed', dropped')
    {
      var nums: seq<nat> := [];
      if origin {
        nums := ScanUp(num + 1);
      }
      DoomStep(headers, num, nums, origin, doomed, dropped);
      nums := nums + [num];
      var hs, ns := AtHeights(headers, nums);
      doomed', dropped' := doomed + hs, dropped + ns;
    }

    /** Walk the head header down to height `target`, moving the block markers along
        and collecting everything above on every fork. */
    method RewindMarkers(target: nat, states: set<Hash>) returns (doomed: set<Hash>, dropped: set<nat>)
      requires Rewindable() && target < headers[headHeader].number
      modifies this`head, this`headFast, this`headHeader
      ensures AllAbove(headers, target, doomed, dropped)
      ensures headHeader == Anc(headers, genesis, old(headHeader), target)
      ensures head == if target <= headers[old(head)].number
                      then Stateful(headers, genesis, states, headHeader) else old(head)
      ensures headFast == if target < headers[old(headFast)].number then headHeader else old(headFast)
    {
      ghost var top, f0, h0 := headHeader, headFast, head;
      ghost var num0: nat := headers[headHeader].number;
      var origin, num := true, headers[headHeader].number;
      doomed, dropped := {}, {};
      while num > target
        invariant headHeader in headers && headers[headHeader].number == num && target <= num <= num0
        invariant headHeader == Anc(headers, genesis, top, num)
        invariant head in headers && headFast in headers && headers[head].number <= headers[headFast].number
        invariant headFast == if num < headers[f0].number then headHeader else f0
        invariant head == if num < num0 && num <= headers[h0].number
                          then Stateful(headers, genesis, states, headHeader) else h0
        invariant origin <==> num == num0
        invariant if origin then doomed == {} && dropped == {} else AllAbove(headers, num, doomed, dropped)
        decreases num
      {
        assert Hangs(headers, genesis, headHeader);
        AncParent(headers, genesis, top, num - 1);
        var parent := headers[headHeader].parent;
        forall n: nat | n <= headers[parent].number && n <= headers[headFast].number
          ensures Anc(headers, genesis, parent, n) in bodies
        {
          AncCompose(headers, genesis, top, num - 1, n);
        }
        UpdateHeads(parent, states);
        headHeader := parent;
        doomed, dropped := Doom(num, origin, doomed, dropped);
        origin := false;
        num := num - 1;
      }
    }

    /** Rewind the header chain to height `target` and delete what lies above. */
    method RewindHeaders(target: nat, states: set<Hash>)
      requires Rewindable() && target < headers[headHeader].number
      modifies this`headers, this`td, this`bodies, this`canon, this`head, this`headFast, this`headHeader
      ensures CutAt(old(headers), headers, target)
      ensures td == old(td) - (old(headers).Keys - headers.Keys)
      ensures bodies == old(bodies) - (old(headers).Keys - headers.Keys)
      ensures canon == map n | n in old(canon) && n <= target :: old(canon)[n]
      ensures headHeader == Anc(old(headers), genesis, old(headHeader), target)
      ensures head == if target <= old(headers[head].number)
                      then Stateful(old(headers), genesis, states, headHeader) else old(head)
      ensures headFast == if target < old(headers[headFast].number) then headHeader else old(headFast)
    {
      var doomed, dropped := RewindMarkers(target, states);
      canon := canon - dropped;
      td := td - doomed;
      bodies := bodies - doomed;
      headers := headers - doomed;
      assert old(headers).Keys - headers.Keys == doomed;
    }

    lemma ValidRewindable()
      requires Valid()
      ensures Rewindable()
    {
      forall n: nat | n in canon ensures canon[n] in headers && headers[canon[n]].number == n {
      }
    }

    /** The chain down to `target` needs nothing more: its top has its state, no block above
        it has a transaction, and no block on another fork up to that height is heavier. */
    predicate CanRewind(target: nat, states: set<Hash>)
      reads this
      requires head in headers && td.Keys == headers.Keys
    {
      target > headers[head].number
      || (&& target in canon && canon[target] in td && (canon[target] in states || canon[target] == genesis)
          && LookupUpTo(lookup, target) && HeaviestUpTo(headers, td, target, canon[target]))
    }

    /** Repair the block markers at the head's own height. */
    method RepairHead(states: set<Hash>)
      requires Rewindable()
      modifies this`head, this`headFast
      ensures Rewindable() && head == Stateful(headers, genesis, states, old(head))
      ensures headFast == if headers[old(head)].number < headers[old(headFast)].number then old(head) else old(headFast)
    {
      var number := headers[head].number;
      forall n: nat | n <= number ensures Anc(headers, genesis, head, n) in bodies {
        AncCompose(headers, genesis, headHeader, number, n);
      }
      StatefulIsNearest(headers, genesis, states, head);
      AncCompose(headers, genesis, headHeader, number, headers[Stateful(headers, genesis, states, head)].number);
      UpdateHeads(head, states);
    }

    /** Delete everything above `target` on all forks. */
    method CutTo(target: nat, states: set<Hash>)
      requires Rewindable() && target < headers[headHeader].number && target != headers[head].number
      modifies this`headers, this`td, this`bodies, this`canon, this`head, this`headFast, this`headHeader
      ensures Rewindable() && CutAt(old(headers), headers, target)
      ensures td == old(td) - (old(headers).Keys - headers.Keys)
      ensures bodies == old(bodies) - (old(headers).Keys - headers.Keys)
      ensures forall n: nat :: n in canon <==> n <= target
      ensures headHeader == Anc(old(headers), genesis, old(headHeader), target)
      ensures headFast == if target < old(headers[headFast].number) then headHeader else old(headFast)
      ensures head == if target < old(headers[head].number)
                      then Stateful(old(headers), genesis, states, Anc(old(headers), genesis, old(head), target))
                      else old(head)
    {
      ghost var hs, tip := headers, headHeader;
      if target < headers[head].number {
        AncCompose(headers, genesis, headHeader, headers[head].number, target);
      }
      RewindHeaders(target, states);
      StatefulIsNearest(hs, genesis, states, headHeader);
      CutKeeps(hs, headers, genesis, target);
      forall n: nat | n <= target ensures Anc(headers, genesis, headHeader, n) == Anc(hs, genesis, tip, n) {
        AncCompose(hs, genesis, tip, target, n);
      }
    }

    /** Rewind to `target`.  At the head's own height only the block markers are
        repaired; otherwise everything above `target` is deleted on all forks.  The
        transaction lookup is not touched: it fits the new head exactly if no block
        given up on the old chain had a transaction. */
    method SetHead(target: nat, states: set<Hash>)
      requires Rewindable()
      modifies this`headers, this`td, this`bodies, this`canon, this`head, this`headFast, this`headHeader
      ensures Rewindable()
      ensures target == old(headers[head].number) ==>
                && headers == old(headers) && td == old(td) && canon == old(canon) && bodies == old(bodies)
                && headHeader == old(headHeader) && head == Stateful(headers, genesis, states, old(head))
                && headFast == if target < old(headers[headFast].number) then old(head) else old(headFast)
      ensures target != old(headers[head].number) && target >= old(headers[headHeader].number) ==> unchanged(this)
      ensures target != old(headers[head].number) && target < old(headers[headHeader].number) ==>
                && CutAt(old(headers), headers, target)
                && td == old(td) - (old(headers).Keys - headers.Keys)
                && bodies == old(bodies) - (old(headers).Keys - headers.Keys)
                && (forall n: nat :: n in canon <==> n <= target)
                && headHeader == Anc(old(headers), genesis, old(headHeader), target)
                && headFast == if target < old(headers[headFast].number) then headHeader else old(headFast)
      ensures target < old(headers[head].number) ==>
                head == Stateful(old(headers), genesis, states, Anc(old(headers), genesis, old(head), target))
      ensures old(headers[head].number) < target ==> head == old(head)
      ensures old(Valid()) ==>
                && bodies.Keys == headers.Keys
                && (LookupExact(headers, genesis, bodies, head, lookup) <==>
                    EmptyAbove(old(headers), genesis, old(bodies), old(head), headers[head].number))
      ensures old(Valid()) ==> Intact(headers, genesis, td, bodies, head, canon, lookup)
      ensures old(Valid()) ==> (Valid() <==> old(CanRewind(target, states)))
    {
      ghost var hs, bs, top, valid := headers, bodies, head, Valid();
      ghost var d, index := td, canon;
      if headers[head].number == target {
        RepairHead(states);
        if valid {
          StatefulStays(hs, genesis, states, top);
          RewindIsAncestor(hs, genesis, states, top, target, head);
          RepairIntact(hs, genesis, d, bs, top, head, index, lookup);
        }
      } else if target < headers[headHeader].number {
        CutTo(target, states);
        if valid {
          StatefulStays(hs, genesis, states, headHeader);
          RewindIsAncestor(hs, genesis, states, top, target, head);
          CutIntact(hs, headers, genesis, d, bs, top, head, index, canon, lookup, target, headHeader);
          CutOk(hs, headers, genesis, d, bs, top, index, canon, lookup, target, headHeader);
        }
      }
      if valid {
        RewindIsAncestor(hs, genesis, states, top, target, head);
        RewoundLookup(hs, headers, genesis, bs, bodies, top, head, lookup);
      }
    }
  }

  method TwoBlocks(g: Header, a: Header, b: Header) returns (chain: BlockChain)
    requires g == Header(1, 0, 0, 1) && a == Header(2, 1, 1, 1)
    requires b.difficulty > 0 && b == Header(3, 2, 2, b.difficulty)
    ensures fresh(chain) && chain.Valid() && chain.headers == map[1 := g, 2 := a, 3 := b]
    ensures chain.genesis == 1 && chain.head == 3 && chain.bodies == map[1 := {}, 2 := {}, 3 := {}]
  {
    chain := new BlockChain(g, {});
    var _ := chain.WriteBlockWithState(a, {}, false, false, false);
    assert TdOf(chain.headers, 1, chain.td, 2);
    var _ := chain.WriteBlockWithState(b, {}, false, false, false);
    assert TdOf(chain.headers, 1, chain.td, 3);
  }

  /** A single heavy block below the old head's height takes over, and the index
      keeps the old chain's entry above it. */
  method StaleEntryExample() returns (chain: BlockChain)
    ensures chain.Valid() && !chain.Clean()
  {
    var g, a, b, heavy := Header(1, 0, 0, 1), Header(2, 1, 1, 1), Header(3, 2, 2, 1), Header(4, 1, 1, 9);
    chain := TwoBlocks(g, a, b);
    var _ := chain.WriteBlockWithState(heavy, {}, false, false, false);
    assert TdOf(chain.headers, 1, chain.td, 2) && TdOf(chain.headers, 1, chain.td, 3)
           && TdOf(chain.headers, 1, chain.td, 4);
    assert Fork(chain.headers, 1, 2, 4) == 0;
    assert Fork(chain.headers, 1, 3, 4) == 0;
  }

  /** A rewind leaves the head below a heavier block of the same height on another fork. */
  method LighterHeadExample() returns (chain: BlockChain)
    ensures chain.Rewindable() && chain.head in chain.headers
    ensures exists b :: b in chain.headers && chain.td[b] > chain.td[chain.head]
  {
    var g, a, b, fork := Header(1, 0, 0, 1), Header(2, 1, 1, 1), Header(3, 2, 2, 9), Header(4, 1, 1, 5);
    chain := TwoBlocks(g, a, b);
    var _ := chain.WriteBlockWithState(fork, {}, false, false, false);
    assert TdOf(chain.headers, 1, chain.td, 2) && TdOf(chain.headers, 1, chain.td, 3)
           && TdOf(chain.headers, 1, chain.td, 4);
    assert Anc(chain.headers, 1, 3, 1) == 2;
    chain.ValidRewindable();
    chain.SetHead(1, {1, 2, 3, 4});
    assert chain.head == 2 && 4 in chain.headers && chain.td[4] > chain.td[2];
  }

  /** A rewound block leaves its transaction in the lookup. */
  method StaleLookupExample() returns (chain: BlockChain)
    ensures chain.Rewindable() && chain.bodies.Keys == chain.headers.Keys
    ensures !LookupExact(chain.headers, chain.genesis, chain.bodies, chain.head, chain.lookup)
  {
    chain := new BlockChain(Header(1, 0, 0, 1), {});
    var _ := chain.WriteBlockWithState(Header(2, 1, 1, 1), {7}, false, false, false);
    assert TdOf(chain.headers, 1, chain.td, 2);
    chain.ValidRewindable();
    assert Anc(chain.headers, 1, 2, 1) == 2 && Anc(chain.headers, 1, 2, 0) == 1;
    assert OnChain(chain.headers, 1, chain.bodies, 2, 7, 1);
    chain.SetHead(0, {1, 2});
  }

  // ------------------------------------------------------------------ whole runs

  /** The parent, by the reading of hashes as headers. */
  function ParentBy(of: Hash -> Header): Hash -> Hash
  {
    (h: Hash) => of(h).parent
  }

  lemma {:induction false} AncIsUp(hs: Headers, g: Hash, of: Hash -> Header, h: Hash, n: nat)
    requires Linked(hs, g) && h in hs && n <= hs[h].number && forall x | x in hs :: hs[x] == of(x)
    ensures Anc(hs, g, h, n) == Up(ParentBy(of), h, hs[h].number - n)
    decreases hs[h].number
  {
    if n == hs[h].number {
    } else {
      assert Hangs(hs, g, h);
      AncIsUp(hs, g, of, hs[h].parent, n);
    }
  }

  /** No transaction of the block is in a block it descends from. */
  ghost predicate Unrepeated(of: Hash -> Header, body: Hash -> set<TxId>, b: Hash)
  {
    forall t, k: nat | t in body(b) && k < of(b).number :: t !in body(Up(ParentBy(of), of(b).parent, k))
  }

  ghost predicate Reads(hs: Headers, bodies: Bodies, of: Hash -> Header, body: Hash -> set<TxId>)
    requires bodies.Keys == hs.Keys
  {
    (forall h | h in hs :: hs[h] == of(h)) && (forall h | h in hs :: bodies[h] == body(h))
  }

  lemma UnrepeatedFits(hs: Headers, g: Hash, bodies: Bodies, of: Hash -> Header, body: Hash -> set<TxId>, b: Header)
    requires Linked(hs, g) && bodies.Keys == hs.Keys && Reads(hs, bodies, of, body)
    requires of(b.hash) == b && Unrepeated(of, body, b.hash) && b.difficulty > 0 && ParentKnown(hs, b)
    ensures Fits(hs, g, bodies, b, body(b.hash))
  {
    forall t: TxId, n: nat | t in body(b.hash) ensures !OnChain(hs, g, bodies, b.parent, t, n) {
      if n <= hs[b.parent].number {
        AncIsUp(hs, g, of, b.parent, n);
        assert t !in body(Up(ParentBy(of), of(b.hash).parent, hs[b.parent].number - n));
      }
    }
  }

  /** How a block that ties with the head is preferred. */
  datatype Preference = Preference(currentKept: bool, blockKept: bool, coin: bool)

  /** The store after the blocks: each is stored if its parent is known by then. */
  ghost function WriteFold(hs: Headers, blocks: seq<Header>): Headers
  {
    if blocks == [] then hs
    else
      var hs' := WriteFold(hs, blocks[..|blocks| - 1]);
      var b := blocks[|blocks| - 1];
      if ParentKnown(hs', b) then hs'[b.hash := b] else hs'
  }

  /** Whole runs: writing any blocks in any order, whatever the ties decide, stores every
      block whose parent is known when its turn comes, and ends with a head of maximal
      total difficulty among all stored and both indexes fitting it.  `of` and `body`
      are the injective readings of hashes. */
  method WriteAll(chain: BlockChain, blocks: seq<Header>, prefs: seq<Preference>,
                  ghost of: Hash -> Header, body: Hash -> set<TxId>)
    requires chain.Valid() && Reads(chain.headers, chain.bodies, of, body) && |prefs| == |blocks|
    requires forall i | 0 <= i < |blocks| :: Writable(of, body, blocks[i])
    modifies chain
    ensures chain.Valid() && Reads(chain.headers, chain.bodies, of, body)
    ensures chain.headers == WriteFold(old(chain.headers), blocks)
  {
    ghost var hs0 := chain.headers;
    for i := 0 to |blocks|
      invariant chain.Valid() && Reads(chain.headers, chain.bodies, of, body)
      invariant chain.headers == WriteFold(hs0, blocks[..i])
    {
      assert blocks[..i + 1][..i] == blocks[..i];
      WriteOne(chain, blocks[i], prefs[i], of, body);
    }
    assert blocks[..|blocks|] == blocks;
  }

  /** What block validation guarantees: positive difficulty and no repeated transaction. */
  ghost predicate Writable(of: Hash -> Header, body: Hash -> set<TxId>, b: Header)
  {
    of(b.hash) == b && b.difficulty > 0 && Unrepeated(of, body, b.hash)
  }

  method WriteOne(chain: BlockChain, b: Header, pref: Preference, ghost of: Hash -> Header, body: Hash -> set<TxId>)
    requires chain.Valid() && Reads(chain.headers, chain.bodies, of, body) && Writable(of, body, b)
    modifies chain
    ensures chain.Valid() && Reads(chain.headers, chain.bodies, of, body)
    ensures chain.headers == if ParentKnown(old(chain.headers), b) then old(chain.headers)[b.hash := b]
                             else old(chain.headers)
    ensures chain.head == old(chain.head) || chain.head == b.hash
  {
    if ParentKnown(chain.headers, b) {
      UnrepeatedFits(chain.headers, chain.genesis, chain.bodies, of, body, b);
    }
    var _ := chain.WriteBlockWithState(b, body(b.hash), pref.currentKept, pref.blockKept, pref.coin);
  }

  /** A block import, or a rewind with the states then present. */
  datatype Step = Write(block: Header, pref: Preference) | Rewind(target: nat, states: set<Hash>)

  /** Headers and head before and after a step: a block is stored if its parent is known and
      may become the head; a rewind goes back on the head's own chain and deletes all above. */
  ghost predicate Moved(g: Hash, hs: Headers, top: Hash, step: Step, hs': Headers, top': Hash)
  {
    && Linked(hs, g) && top in hs
    && match step {
         case Write(b, pref) =>
           hs' == (if ParentKnown(hs, b) then hs[b.hash := b] else hs) && (top' == top || top' == b.hash)
         case Rewind(target, states) =>
           if target < hs[top].number then CutAt(hs, hs', target) && top' == Anc(hs, g, top, target)
           else hs' == hs && top' == top
       }
  }

  /** The stores and heads of the first `n` steps, from `hs, top` to `hs', top'`. */
  ghost predicate Trace(g: Hash, steps: seq<Step>, n: nat, stores: seq<Headers>, heads: seq<Hash>,
                        hs: Headers, top: Hash, hs': Headers, top': Hash)
  {
    && n <= |steps| && |stores| == |heads| == n + 1
    && stores[0] == hs && heads[0] == top && stores[n] == hs' && heads[n] == top'
    && forall i | 0 <= i < n :: Moved(g, stores[i], heads[i], steps[i], stores[i + 1], heads[i + 1])
  }

  lemma TraceOn(g: Hash, steps: seq<Step>, n: nat, stores: seq<Headers>, heads: seq<Hash>,
                hs: Headers, top: Hash, hs': Headers, top': Hash, hs'': Headers, top'': Hash)
    requires Trace(g, steps, n, stores, heads, hs, top, hs', top') && n < |steps|
    requires Moved(g, hs', top', steps[n], hs'', top'')
    ensures Trace(g, steps, n + 1, stores + [hs''], heads + [top''], hs, top, hs'', top'')
  {
  }

  /** Take the step, unless it is a rewind to a target that cannot be kept. */
  method TakeStep(chain: BlockChain, step: Step, ghost of: Hash -> Header, body: Hash -> set<TxId>) returns (ok: bool)
    requires chain.Valid() && Reads(chain.headers, chain.bodies, of, body)
    requires step.Write? ==> Writable(of, body, step.block)
    modifies chain
    ensures chain.Valid() && Reads(chain.headers, chain.bodies, of, body)
    ensures ok ==> Moved(chain.genesis, old(chain.headers), old(chain.head), step, chain.headers, chain.head)
    ensures !ok ==> step.Rewind? && !chain.CanRewind(step.target, step.states) && unchanged(chain)
  {
    ok := true;
    match step {
      case Write(b, pref) => WriteOne(chain, b, pref, of, body);
      case Rewind(target, states) =>
        if chain.CanRewind(target, states) {
          ghost var hs, top := chain.headers, chain.head;
          chain.ValidRewindable();
          chain.SetHead(target, states);
          RewindIsAncestor(hs, chain.genesis, states, top, target, chain.head);
        } else {
          ok := false;
        }
    }
  }

  /** Runs that mix imports with rewinds: as long as each rewind has a target it can keep,
      the head stays the heaviest block stored and both indexes fit it.  The run stops
      before the first rewind that would end this. */
  method RunChain(chain: BlockChain, steps: seq<Step>, ghost of: Hash -> Header, body: Hash -> set<TxId>)
    returns (done: nat, ghost stores: seq<Headers>, ghost heads: seq<Hash>)
    requires chain.Valid() && Reads(chain.headers, chain.bodies, of, body)
    requires forall i | 0 <= i < |steps| && steps[i].Write? :: Writable(of, body, steps[i].block)
    modifies chain
    ensures chain.Valid() && Reads(chain.headers, chain.bodies, of, body) && done <= |steps|
    ensures Trace(chain.genesis, steps, done, stores, heads, old(chain.headers), old(chain.head),
                  chain.headers, chain.head)
    ensures done < |steps| ==> steps[done].Rewind? && !chain.CanRewind(steps[done].target, steps[done].states)
  {
    ghost var hs0, top0 := chain.headers, chain.head;
    stores, heads := [hs0], [top0];
    for i := 0 to |steps|
      invariant chain.Valid() && Reads(chain.headers, chain.bodies, of, body)
      invariant Trace(chain.genesis, steps, i, stores, heads, hs0, top0, chain.headers, chain.head)
    {
      ghost var hs, top := chain.headers, chain.head;
      var ok := TakeStep(chain, steps[i], of, body);
      if !ok {
        done := i;
        return;
      }
      TraceOn(chain.genesis, steps, i, stores, heads, hs0, top0, hs, top, chain.headers, chain.head);
      stores, heads := stores + [chain.headers], heads + [chain.head];
    }
    done := |steps|;
  }
}
