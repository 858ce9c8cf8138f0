/** Pending lists without gaps: each is the run of nonces from the chain's nonce on, and
    the pending nonce is at most the one behind it.  What every operation of the pool
    keeps of this, and when a new head breaks it. */
module PendingLine {
  import opened Transactions
  import opened TxSortedMap
  import opened TxList
  import opened PoolLists
  import opened PoolState
  import opened ChainView

  predicate PaidAt(state: ChainState, a: Addr, tx: Tx)
  {
    !Unpayable(tx, Lookup0(state.balances, a), state.maxGas)
  }

  /** From the chain's nonce on the list has no gap, and what lies below the pending nonce
      is there and payable. */
  ghost predicate Aligned(m: Items, state: ChainState, a: Addr, next: nat)
  {
    var start := Lookup0(state.nonces, a);
    && (forall n, k: nat | n in m && start <= k <= n :: k in m)
    && (forall k: nat | start <= k < next :: k in m && PaidAt(state, a, m[k]))
  }

  ghost predicate LinedAt(p: ByAccount, nonces: map<Addr, nat>, state: ChainState, strict: bool, a: Addr)
  {
    && Aligned(Get(p, a), state, a, NonceOf(nonces, state.nonces, a))
    && (strict ==> RunnableList(state, a, Get(p, a)))
  }

  /** All lists are aligned and, if `strict`, start at the chain's nonce and are payable. */
  ghost predicate InLine(p: ByAccount, nonces: map<Addr, nat>, state: ChainState, strict: bool)
  {
    forall a :: LinedAt(p, nonces, state, strict, a)
  }

  /** A change under one chain state that keeps pending lists in line. */
  ghost predicate KeepsLine(p: ByAccount, nonces: map<Addr, nat>, p': ByAccount, nonces': map<Addr, nat>,
                            state: ChainState)
  {
    forall strict: bool :: InLine(p, nonces, state, strict) ==> InLine(p', nonces', state, strict)
  }

  /** Lists in line have no gaps. */
  lemma InLineGapFree(p: ByAccount, nonces: map<Addr, nat>, state: ChainState, a: Addr)
    requires InLine(p, nonces, state, true)
    ensures GapFree(Get(p, a))
  {
    assert LinedAt(p, nonces, state, true, a);
  }

  /** Strictly in line is in line. */
  lemma Loosen(p: ByAccount, nonces: map<Addr, nat>, state: ChainState)
    requires InLine(p, nonces, state, true)
    ensures InLine(p, nonces, state, false)
  {
    forall a ensures LinedAt(p, nonces, state, false, a) {
      assert LinedAt(p, nonces, state, true, a);
    }
  }

  lemma KeepsOne(p: ByAccount, nonces: map<Addr, nat>, p': ByAccount, nonces': map<Addr, nat>, state: ChainState,
                 a: Addr)
    requires forall b | b != a :: Get(p', b) == Get(p, b)
    requires forall b | b != a :: NonceOf(nonces', state.nonces, b) == NonceOf(nonces, state.nonces, b)
    requires forall strict: bool :: LinedAt(p, nonces, state, strict, a) ==> LinedAt(p', nonces', state, strict, a)
    ensures KeepsLine(p, nonces, p', nonces', state)
  {
    forall strict: bool | InLine(p, nonces, state, strict) ensures InLine(p', nonces', state, strict) {
      forall b ensures LinedAt(p', nonces', state, strict, b) {
        assert LinedAt(p, nonces, state, strict, b);
      }
    }
  }

  lemma KeepsBoth(p: ByAccount, n: map<Addr, nat>, p1: ByAccount, n1: map<Addr, nat>, p2: ByAccount, n2: map<Addr, nat>,
                  state: ChainState)
    requires KeepsLine(p, n, p1, n1, state) && KeepsLine(p1, n1, p2, n2, state)
    ensures KeepsLine(p, n, p2, n2, state)
  {
  }

  /** Replacing a pending transaction by a payable one. */
  lemma ReplaceKeeps(p: ByAccount, nonces: map<Addr, nat>, state: ChainState, t: Tx)
    requires t.nonce in Get(p, t.sender) && PaidAt(state, t.sender, t)
    ensures KeepsLine(p, nonces, With(p, t), nonces, state)
  {
    var a := t.sender;
    assert Get(With(p, t), a) == Get(p, a)[t.nonce := t];
    KeepsOne(p, nonces, With(p, t), nonces, state, a);
  }

  /** Keeping only the nonces below `n` and lowering the pending nonce to it. */
  lemma CutKeepsLine(p: ByAccount, nonces: map<Addr, nat>, state: ChainState, a: Addr, kept: Items, n: nat)
    requires kept == Under(Get(p, a), n)
    ensures KeepsLine(p, nonces, SetList(p, a, kept), Lowered(nonces, state.nonces, a, n), state)
  {
    GetSet(p, a, kept);
    KeepsOne(p, nonces, SetList(p, a, kept), Lowered(nonces, state.nonces, a, n), state, a);
  }

  lemma TopKeepsLine(p: ByAccount, nonces: map<Addr, nat>, state: ChainState, a: Addr, kept: Items, top: nat)
    requires Highest(Get(p, a), top) && kept == Get(p, a) - {top}
    ensures KeepsLine(p, nonces, SetList(p, a, kept), Lowered(nonces, state.nonces, a, top), state)
  {
    assert kept == Under(Get(p, a), top);
    CutKeepsLine(p, nonces, state, a, kept, top);
  }

  /** `run` holds the nonces from `first` up to `stop`, none of them in `m`. */
  ghost predicate Runs(m: Items, run: Items, first: nat, stop: nat)
  {
    && first < stop && (forall n: nat | first <= n < stop :: n in run)
    && (forall n | n in run :: first <= n < stop && n !in m)
  }

  lemma AppendRun(m: Items, state: ChainState, a: Addr, next: nat, run: Items, first: nat, stop: nat, next': nat)
    requires Aligned(m, state, a, next) && Runs(m, run, first, stop)
    requires Lookup0(state.nonces, a) <= first <= next && next' <= stop
    requires forall n | n in run :: PaidAt(state, a, run[n])
    ensures Aligned(m + run, state, a, next')
  {
    var start := Lookup0(state.nonces, a);
    assert first !in m;
    forall n, k: nat | n in m + run && start <= k <= n ensures k in m + run {
      if k < first { assert k in m; } else { assert k in run; }
    }
    forall k: nat | start <= k < next' ensures k in m + run && PaidAt(state, a, (m + run)[k]) {
      if k < first { assert k in m && k !in run; } else { assert k in run; }
    }
  }

  lemma ReadyRuns(m: Items, exec: Items, ready: seq<Tx>)
    requires WellKeyed(exec) && FirstRun(exec, ready) && forall n | n in exec :: n !in m
    ensures Runs(m, exec - AfterReady(exec, ready).Keys, ready[0].nonce, ready[0].nonce + |ready|)
  {
    ReadyParts(exec, ready);
    var run: Items, first := exec - AfterReady(exec, ready).Keys, ready[0].nonce;
    forall n: nat | first <= n < first + |ready| ensures n in run {
      assert ready[n - first].nonce == n && ready[n - first].nonce in exec;
    }
    forall n | n in run ensures first <= n < first + |ready| {
      assert n !in AfterReady(exec, ready) && n in exec;
    }
  }

  /** Promoting the first run of a queue that the pending nonce reaches. */
  lemma RunAligned(m: Items, state: ChainState, a: Addr, next: nat, exec: Items, ready: seq<Tx>)
    requires Aligned(m, state, a, next) && WellKeyed(exec) && IsReady(exec, next, ready) && ready != []
    requires forall n | n in exec :: n !in m && n >= Lookup0(state.nonces, a) && PaidAt(state, a, exec[n])
    ensures Aligned(m + (exec - AfterReady(exec, ready).Keys), state, a, Next(ready[|ready| - 1].nonce))
  {
    var run: Items, first := exec - AfterReady(exec, ready).Keys, ready[0].nonce;
    ReadyRuns(m, exec, ready);
    assert first in run && first in exec;
    assert ready[|ready| - 1].nonce == first + (|ready| - 1);
    AppendRun(m, state, a, next, run, first, first + |ready|, Next(ready[|ready| - 1].nonce));
  }

  /** The queue's executable part does not overlap the pending list. */
  ghost predicate Apart(m: Items, state: ChainState, a: Addr, exec: Items)
  {
    && WellKeyed(exec)
    && forall n | n in exec :: n !in m && n >= Lookup0(state.nonces, a) && PaidAt(state, a, exec[n])
  }

  lemma ExecApart(p: ByAccount, q: ByAccount, pool: map<Hash, Tx>, state: ChainState, a: Addr)
    requires Tidy(p, q, pool, {})
    ensures Apart(Get(p, a), state, a, Executable(state, a, Get(q, a)))
  {
    var exec := Executable(state, a, Get(q, a));
    forall n | n in exec
      ensures exec[n].nonce == n && n !in Get(p, a) && n >= Lookup0(state.nonces, a) && PaidAt(state, a, exec[n])
    {
      assert n in Get(q, a);
    }
  }

  lemma RunRunnable(m: Items, state: ChainState, a: Addr, exec: Items, run: Items)
    requires RunnableList(state, a, m) && Apart(m, state, a, exec) && SubItems(run, exec)
    requires m + run != map[] ==> Lookup0(state.nonces, a) in m + run
    ensures RunnableList(state, a, m + run)
  {
  }

  lemma RunLined(p: ByAccount, p': ByAccount, nonces: map<Addr, nat>, state: ChainState, strict: bool, a: Addr,
                 exec: Items, ready: seq<Tx>, run: Items)
    requires LinedAt(p, nonces, state, strict, a) && Apart(Get(p, a), state, a, exec) && ready != []
    requires IsReady(exec, NonceOf(nonces, state.nonces, a), ready) && run == exec - AfterReady(exec, ready).Keys
    requires Get(p', a) == Get(p, a) + run
    ensures LinedAt(p', MarkedLast(nonces, a, ready), state, strict, a)
  {
    RunAligned(Get(p, a), state, a, NonceOf(nonces, state.nonces, a), exec, ready);
    if strict {
      ReadyRuns(Get(p, a), exec, ready);
      assert ready[0].nonce in Get(p', a);
      RunRunnable(Get(p, a), state, a, exec, run);
    }
  }

  lemma PromoteKeeps(p: ByAccount, q: ByAccount, pool: map<Hash, Tx>, nonces: map<Addr, nat>, state: ChainState,
                     a: Addr, exec: Items, ready: seq<Tx>)
    requires Tidy(p, q, pool, {}) && exec == Executable(state, a, Get(q, a))
    requires IsReady(exec, NonceOf(nonces, state.nonces, a), ready)
    ensures KeepsLine(p, nonces, Merge(p, a, exec - AfterReady(exec, ready).Keys), MarkedLast(nonces, a, ready), state)
  {
    var run: Items := exec - AfterReady(exec, ready).Keys;
    var p', nonces' := Merge(p, a, run), MarkedLast(nonces, a, ready);
    if ready == [] {
      assert run == map[];
    } else {
      GetMerged(p, a, run);
      ExecApart(p, q, pool, state, a);
      forall strict: bool | LinedAt(p, nonces, state, strict, a) ensures LinedAt(p', nonces', state, strict, a) {
        RunLined(p, p', nonces, state, strict, a, exec, ready, run);
      }
      KeepsOne(p, nonces, p', nonces', state, a);
    }
  }

  // ------------------------------------------------------------- a new head

  /** The chain's nonce falls behind for no account with pending transactions. */
  ghost predicate Forward(p: ByAccount, state: ChainState, state': ChainState)
  {
    forall a | Get(p, a) != map[] :: Lookup0(state.nonces, a) <= Lookup0(state'.nonces, a)
  }

  /** A new state that does not fall back leaves the lists aligned, with the pending nonces
      forgotten. */
  lemma ResetAligns(p: ByAccount, nonces: map<Addr, nat>, state: ChainState, state': ChainState)
    requires InLine(p, nonces, state, true) && Forward(p, state, state')
    ensures InLine(p, map[], state', false)
  {
    forall a ensures LinedAt(p, map[], state', false, a) {
      assert LinedAt(p, nonces, state, true, a);
    }
  }

  /** What stays pending: all from the chain's nonce on, as far as all of it is payable. */
  lemma StandsIff(m: Items, state: ChainState, a: Addr, n: nat)
    ensures n in Standing(state, a, m) <==>
              var start := Lookup0(state.nonces, a);
              n in m && start in m && start <= n && forall k | k in m && start <= k <= n :: PaidAt(state, a, m[k])
    ensures n in Standing(state, a, m) ==> Standing(state, a, m)[n] == m[n]
  {
    var start := Lookup0(state.nonces, a);
    var from := From(m, start);
    if n in m && start in m && start <= n && forall k | k in m && start <= k <= n :: PaidAt(state, a, m[k]) {
      forall k | k in from && !PaidAt(state, a, from[k]) ensures n < k && start < k {
      }
    } else if n in Standing(state, a, m) {
      forall k | k in m && start <= k <= n ensures PaidAt(state, a, m[k]) {
        assert k in from;
      }
    }
  }

  /** Revalidation puts aligned lists in line. */
  lemma StandingLined(m: Items, state: ChainState, a: Addr, next: nat)
    requires WellKeyed(m) && Aligned(m, state, a, next)
    ensures Aligned(Standing(state, a, m), state, a, next) && RunnableList(state, a, Standing(state, a, m))
  {
    var start, kept := Lookup0(state.nonces, a), Standing(state, a, m);
    StandingIsExecutable(state, a, m);
    forall n, k: nat | n in kept && start <= k <= n ensures k in kept {
      StandsIff(m, state, a, n);
      StandsIff(m, state, a, k);
    }
    forall k: nat | start <= k < next ensures k in kept && PaidAt(state, a, kept[k]) {
      StandsIff(m, state, a, k);
    }
  }

  lemma DemoteLines(p: ByAccount, p': ByAccount, nonces: map<Addr, nat>, state: ChainState)
    requires InLine(p, nonces, state, false)
    requires forall a :: WellKeyed(Get(p, a)) && Get(p', a) == Standing(state, a, Get(p, a))
    ensures InLine(p', nonces, state, true)
  {
    forall a ensures LinedAt(p', nonces, state, true, a) {
      assert LinedAt(p, nonces, state, false, a);
      StandingLined(Get(p, a), state, a, NonceOf(nonces, state.nonces, a));
    }
  }

  /** A gap-free list whose lowest nonce is `low`. */
  ghost predicate StartsAt(m: Items, low: nat)
  {
    low in m && (forall n | n in m :: low <= n) && GapFree(m)
  }

  /** A gap-free list from `low` on, and a payable run from the chain's nonce up to `stop`
      in front of it. */
  ghost predicate InFront(m: Items, state: ChainState, a: Addr, low: nat, run: Items, stop: nat)
  {
    && StartsAt(m, low) && Lookup0(state.nonces, a) < low && Runs(m, run, Lookup0(state.nonces, a), stop)
    && (forall n | n in run :: PaidAt(state, a, run[n]))
  }

  lemma ReachingRun(m: Items, state: ChainState, a: Addr, low: nat, run: Items, stop: nat)
    requires InFront(m, state, a, low, run, stop) && stop >= low
    ensures GapFree(Standing(state, a, m + run))
  {
    var all, kept := m + run, Standing(state, a, m + run);
    forall x, y, n: nat | x in kept && y in kept && x <= n <= y ensures n in kept {
      StandsIff(all, state, a, x);
      StandsIff(all, state, a, y);
      StandsIff(all, state, a, n);
      assert if n < stop then n in run else n in m;
    }
  }

  lemma MissingRun(m: Items, state: ChainState, a: Addr, low: nat, run: Items, stop: nat)
    requires InFront(m, state, a, low, run, stop) && stop < low && PaidAt(state, a, m[low])
    ensures !GapFree(Standing(state, a, m + run))
  {
    var start, all, kept := Lookup0(state.nonces, a), m + run, Standing(state, a, m + run);
    forall k | k in all && start <= k <= low ensures PaidAt(state, a, all[k]) {
      if k in run { assert all[k] == run[k]; } else { assert k == low; }
    }
    StandsIff(all, state, a, start);
    StandsIff(all, state, a, low);
    StandsIff(all, state, a, stop);
    assert start in kept && low in kept && start <= stop <= low && stop !in kept;
  }

  lemma UnpaidList(m: Items, state: ChainState, a: Addr, low: nat, run: Items, stop: nat)
    requires InFront(m, state, a, low, run, stop) && !PaidAt(state, a, m[low])
    ensures GapFree(Standing(state, a, m + run))
  {
    var all, kept := m + run, Standing(state, a, m + run);
    forall x, y, n: nat | x in kept && y in kept && x <= n <= y ensures n in kept {
      StandsIff(all, state, a, x);
      StandsIff(all, state, a, y);
      StandsIff(all, state, a, n);
      assert low in all && all[low] == m[low];
      assert y in run && n in run;
    }
  }

  /** When the chain's nonce falls below a pending list, the list and what is promoted from
      the queue have a gap exactly if something is promoted, does not reach the list, and
      the list's first transaction is still payable. */
  lemma FallIsGap(m: Items, state: ChainState, a: Addr, low: nat, run: Items, stop: nat)
    requires StartsAt(m, low) && Lookup0(state.nonces, a) < low
    requires run == map[] || Runs(m, run, Lookup0(state.nonces, a), stop)
    requires forall n | n in run :: PaidAt(state, a, run[n])
    ensures GapFree(Standing(state, a, m + run)) <==> run == map[] || stop >= low || !PaidAt(state, a, m[low])
  {
    if run == map[] {
      assert m + run == m && Lookup0(state.nonces, a) !in m;
      assert Standing(state, a, m) == map[];
    } else if stop >= low {
      ReachingRun(m, state, a, low, run, stop);
    } else if PaidAt(state, a, m[low]) {
      MissingRun(m, state, a, low, run, stop);
    } else {
      UnpaidList(m, state, a, low, run, stop);
    }
  }

  lemma ReadyInFront(m: Items, state: ChainState, a: Addr, exec: Items, ready: seq<Tx>)
    requires Apart(m, state, a, exec) && IsReady(exec, Lookup0(state.nonces, a), ready)
    ensures var run: Items, start := exec - AfterReady(exec, ready).Keys, Lookup0(state.nonces, a);
            && (if ready == [] then run == map[] else run != map[] && Runs(m, run, start, start + |ready|))
            && forall n | n in run :: PaidAt(state, a, run[n])
  {
    var run: Items, start := exec - AfterReady(exec, ready).Keys, Lookup0(state.nonces, a);
    if ready == [] {
      assert run == map[];
    } else {
      ReadyRuns(m, exec, ready);
      assert ready[0].nonce in exec && ready[0].nonce == start;
      assert start in run;
    }
  }

  lemma FallenRun(m: Items, state: ChainState, a: Addr, low: nat, exec: Items, ready: seq<Tx>)
    requires StartsAt(m, low) && Lookup0(state.nonces, a) < low && Apart(m, state, a, exec)
    requires IsReady(exec, Lookup0(state.nonces, a), ready)
    ensures GapFree(Standing(state, a, m + (exec - AfterReady(exec, ready).Keys))) <==>
              ready == [] || Lookup0(state.nonces, a) + |ready| >= low || !PaidAt(state, a, m[low])
  {
    ReadyInFront(m, state, a, exec, ready);
    FallIsGap(m, state, a, low, exec - AfterReady(exec, ready).Keys, Lookup0(state.nonces, a) + |ready|);
  }

  /** So a new head that falls behind an account's pending list leaves a gap in it exactly
      if the queue has the chain's nonce but not all from there to the list, and the list
      stays payable. */
  lemma FallenReset(p: ByAccount, q: ByAccount, pool: map<Hash, Tx>, nonces: map<Addr, nat>, state: ChainState, a: Addr,
                    low: nat, exec: Items, ready: seq<Tx>)
    requires Tidy(p, q, pool, {}) && exec == Executable(state, a, Get(q, a)) && StartsAt(Get(p, a), low)
    requires NonceOf(nonces, state.nonces, a) == Lookup0(state.nonces, a) < low
    requires IsReady(exec, NonceOf(nonces, state.nonces, a), ready)
    ensures GapFree(Standing(state, a, Get(p, a) + (exec - AfterReady(exec, ready).Keys))) <==>
              ready == [] || Lookup0(state.nonces, a) + |ready| >= low || !PaidAt(state, a, Get(p, a)[low])
  {
    ExecApart(p, q, pool, state, a);
    FallenRun(Get(p, a), state, a, low, exec, ready);
  }

  /** The pending nonce is put behind the last of each list. */
  lemma RefreshKeeps(p: ByAccount, nonces: map<Addr, nat>, nonces': map<Addr, nat>, state: ChainState)
    requires InLine(p, nonces, state, true)
    requires forall a | Get(p, a) == map[] :: NonceOf(nonces', state.nonces, a) == NonceOf(nonces, state.nonces, a)
    requires forall a | Get(p, a) != map[] ::
               exists top: uint64 :: top in Get(p, a) && NonceOf(nonces', state.nonces, a) == Next(top)
    ensures InLine(p, nonces', state, true)
  {
    forall a ensures LinedAt(p, nonces', state, true, a) {
      assert LinedAt(p, nonces, state, true, a);
    }
  }
}
