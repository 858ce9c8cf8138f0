/** What the state at the chain's head makes of an account's transactions. */
module ChainView {
  import opened Transactions
  import opened TxSortedMap
  import opened TxList
  import opened PoolLists
  import opened PoolState

  /** Account nonces and balances at the current head, and its gas limit. */
  datatype ChainState = ChainState(nonces: map<Addr, nat>, balances: map<Addr, nat>, maxGas: nat)

  function Lookup0(m: map<Addr, nat>, a: Addr): nat
  {
    if a in m then m[a] else 0
  }

  /** What the chain state lets stand of a queue. */
  function Executable(state: ChainState, a: Addr, m: Items): Items
  {
    Payable(From(m, Lookup0(state.nonces, a)), false, Lookup0(state.balances, a), state.maxGas)
  }

  lemma ExecutableParts(state: ChainState, a: Addr, m: Items)
    ensures SubItems(From(m, Lookup0(state.nonces, a)), m)
    ensures SubItems(Executable(state, a, m), From(m, Lookup0(state.nonces, a)))
  {
  }

  /** What stays pending: the payable nonces up to the first unpayable one, provided
      that they start at the chain's nonce. */
  function Standing(state: ChainState, a: Addr, m: Items): Items
  {
    var nonce := Lookup0(state.nonces, a);
    var strict := Payable(From(m, nonce), true, Lookup0(state.balances, a), state.maxGas);
    if nonce in strict then strict else map[]
  }

  lemma StrictPart(m: Items, nonce: nat, balance: nat, maxGas: nat)
    ensures SubItems(Payable(From(m, nonce), true, balance, maxGas), Payable(From(m, nonce), false, balance, maxGas))
  {
  }

  /** What goes back to the queue: the payable rest. */
  function Back(state: ChainState, a: Addr, m: Items): Items
  {
    Executable(state, a, m) - Standing(state, a, m).Keys
  }

  /** What stays pending is executable from the chain's nonce on, without gaps if there
      were none before, and nothing payable is lost. */
  lemma StandingIsExecutable(state: ChainState, a: Addr, m: Items)
    requires WellKeyed(m)
    ensures Standing(state, a, m) != map[] ==> Lookup0(state.nonces, a) in Standing(state, a, m)
    ensures forall n | n in Standing(state, a, m) ::
              n >= Lookup0(state.nonces, a) && !Unpayable(m[n], Lookup0(state.balances, a), state.maxGas)
    ensures GapFree(m) ==> GapFree(Standing(state, a, m))
    ensures Standing(state, a, m) + Back(state, a, m) == Executable(state, a, m)
  {
    var nonce, balance := Lookup0(state.nonces, a), Lookup0(state.balances, a);
    StrictPart(m, nonce, balance, state.maxGas);
    if GapFree(m) {
      ForwardGapFree(m, nonce);
      FilterGapFree(From(m, nonce), balance, state.maxGas);
    }
  }

  /** A list starts at the chain's nonce and can be paid for. */
  ghost predicate RunnableList(state: ChainState, a: Addr, m: Items)
  {
    && (m != map[] ==> Lookup0(state.nonces, a) in m)
    && (forall n | n in m ::
          n >= Lookup0(state.nonces, a) && !Unpayable(m[n], Lookup0(state.balances, a), state.maxGas))
  }

  ghost predicate Runnable(state: ChainState, pending: ByAccount)
  {
    forall a :: RunnableList(state, a, Get(pending, a))
  }

  lemma DemotedRunnable(state: ChainState, p0: ByAccount, p: ByAccount)
    requires forall a :: WellKeyed(Get(p0, a)) && Get(p, a) == Standing(state, a, Get(p0, a))
    ensures Runnable(state, p)
  {
    forall a ensures RunnableList(state, a, Get(p, a)) {
      StandingIsExecutable(state, a, Get(p0, a));
    }
  }

  lemma LowestRunnable(state: ChainState, a: Addr, m: Items, count: nat, kept: Items)
    requires RunnableList(state, a, m) && Lowest(m, count, kept)
    ensures RunnableList(state, a, kept)
  {
    var nonce := Lookup0(state.nonces, a);
    if kept != map[] {
      var n :| n in kept;
      if nonce !in kept { assert nonce in m - kept.Keys && n < nonce; }
    }
  }
}
