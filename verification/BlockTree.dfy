/** The block tree: headers linked by parent hash, total difficulty, and the
    number-to-hash index that a head induces.  Hashes are injective ids: a
    header is stored under its own hash. */
module BlockTree {
  type Hash = nat
  datatype Header = Header(hash: Hash, parent: Hash, number: nat, difficulty: nat)
  type Headers = map<Hash, Header>

  predicate ParentKnown(hs: Headers, h: Header)
  {
    h.number > 0 && h.parent in hs && hs[h.parent].number == h.number - 1
  }

  /** Header `h` is stored under its own hash, above a stored parent unless it is genesis. */
  predicate Hangs(hs: Headers, g: Hash, h: Hash)
    requires h in hs
  {
    hs[h].hash == h && (h == g || ParentKnown(hs, hs[h]))
  }

  /** Every stored header hangs off the genesis header `g` by parent links. */
  ghost predicate Linked(hs: Headers, g: Hash)
  {
    && g in hs && hs[g].number == 0
    && forall h {:trigger Hangs(hs, g, h)} | h in hs :: Hangs(hs, g, h)
  }

  ghost predicate Extends(hs: Headers, hs': Headers)
  {
    forall h | h in hs :: h in hs' && hs'[h] == hs[h]
  }

  /** The ancestor of `h` at height `n`, by the plain parent walk. */
  ghost function Anc(hs: Headers, g: Hash, h: Hash, n: nat): (r: Hash)
    requires Linked(hs, g) && h in hs && n <= hs[h].number
    ensures r in hs && hs[r].number == n
    decreases hs[h].number
  {
    assert Hangs(hs, g, h);
    if hs[h].number == n then h else Anc(hs, g, hs[h].parent, n)
  }

  /** Walking to height `m` and then on to `n` is walking to `n`. */
  lemma {:induction false} AncCompose(hs: Headers, g: Hash, h: Hash, m: nat, n: nat)
    requires Linked(hs, g) && h in hs && n <= m <= hs[h].number
    ensures Anc(hs, g, Anc(hs, g, h, m), n) == Anc(hs, g, h, n)
    decreases hs[h].number
  {
    assert Hangs(hs, g, h);
    if hs[h].number == m {
    } else {
      AncCompose(hs, g, hs[h].parent, m, n);
    }
  }

  lemma {:induction false} AncStable(hs: Headers, hs': Headers, g: Hash, h: Hash, n: nat)
    requires Linked(hs, g) && Linked(hs', g) && Extends(hs, hs')
    requires h in hs && n <= hs[h].number
    ensures Anc(hs', g, h, n) == Anc(hs, g, h, n)
    decreases hs[h].number
  {
    assert Hangs(hs, g, h);
    if hs[h].number == n {
    } else {
      AncStable(hs, hs', g, hs[h].parent, n);
    }
  }

  lemma AncGenesis(hs: Headers, g: Hash, h: Hash)
    requires Linked(hs, g) && h in hs
    ensures Anc(hs, g, h, 0) == g
  {
    assert Hangs(hs, g, Anc(hs, g, h, 0));
  }

  /** The ancestor one below: what the index stores at neighbouring heights. */
  lemma AncParent(hs: Headers, g: Hash, h: Hash, n: nat)
    requires Linked(hs, g) && h in hs && n < hs[h].number
    ensures Anc(hs, g, h, n) == hs[Anc(hs, g, h, n + 1)].parent
  {
    AncCompose(hs, g, h, n + 1, n);
    assert Hangs(hs, g, Anc(hs, g, h, n + 1));
  }

  /** The index agrees with the parent walk from `head` at every height up to it. */
  ghost predicate IndexAgrees(hs: Headers, g: Hash, canon: map<nat, Hash>, head: Hash)
    requires Linked(hs, g) && head in hs
  {
    forall n: nat | n <= hs[head].number :: n in canon && canon[n] == Anc(hs, g, head, n)
  }

  /** ... and has nothing above it. */
  ghost predicate IndexExact(hs: Headers, g: Hash, canon: map<nat, Hash>, head: Hash)
    requires Linked(hs, g) && head in hs
  {
    IndexAgrees(hs, g, canon, head) && forall n | n in canon :: n <= hs[head].number
  }

  predicate TdOf(hs: Headers, g: Hash, td: map<Hash, nat>, h: Hash)
    requires h in hs && td.Keys == hs.Keys
  {
    h == g || (hs[h].parent in td && td[h] == td[hs[h].parent] + hs[h].difficulty)
  }

  /** Stored total difficulty is parent total difficulty plus own difficulty. */
  ghost predicate TdSums(hs: Headers, g: Hash, td: map<Hash, nat>)
  {
    && td.Keys == hs.Keys
    && forall h {:trigger TdOf(hs, g, td, h)} | h in hs :: TdOf(hs, g, td, h)
  }

  /** With positive difficulties a proper ancestor has strictly less total difficulty. */
  lemma {:induction false} TdGrows(hs: Headers, g: Hash, td: map<Hash, nat>, h: Hash, n: nat)
    requires Linked(hs, g) && TdSums(hs, g, td) && h in hs && n < hs[h].number
    requires forall k | k in hs && k != g :: hs[k].difficulty > 0
    ensures td[Anc(hs, g, h, n)] < td[h]
    decreases hs[h].number
  {
    assert Hangs(hs, g, h) && TdOf(hs, g, td, h);
    if hs[h].number == n + 1 {
    } else {
      TdGrows(hs, g, td, hs[h].parent, n);
    }
  }

  /** Storing a new header on a stored parent keeps the tree. */
  lemma AddHeader(hs: Headers, g: Hash, td: map<Hash, nat>, h: Header)
    requires Linked(hs, g) && TdSums(hs, g, td) && h.hash !in hs && ParentKnown(hs, h)
    ensures Linked(hs[h.hash := h], g)
    ensures TdSums(hs[h.hash := h], g, td[h.hash := td[h.parent] + h.difficulty])
  {
    var hs', td' := hs[h.hash := h], td[h.hash := td[h.parent] + h.difficulty];
    forall k | k in hs' ensures Hangs(hs', g, k) && TdOf(hs', g, td', k) {
      if k in hs {
        assert Hangs(hs, g, k) && TdOf(hs, g, td, k);
      }
    }
  }

  /** An exact index stays exact while the tree grows. */
  lemma IndexStable(hs: Headers, hs': Headers, g: Hash, canon: map<nat, Hash>, head: Hash)
    requires Linked(hs, g) && Linked(hs', g) && Extends(hs, hs') && head in hs
    requires IndexExact(hs, g, canon, head)
    ensures IndexExact(hs', g, canon, head)
  {
    forall n: nat | n <= hs[head].number ensures Anc(hs', g, head, n) == Anc(hs, g, head, n) {
      AncStable(hs, hs', g, head, n);
    }
  }

  /** Fork choice: more work wins; on a tie the lower number, then the preference. */
  predicate Prefers(newTd: nat, localTd: nat, number: nat, head: nat, preferred: bool)
  {
    newTd > localTd || (newTd == localTd && (number < head || (number == head && preferred)))
  }
}
