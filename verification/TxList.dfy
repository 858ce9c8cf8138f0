/** The list of one account's transactions: a sorted map plus two upper bounds that
    let most filtering be skipped.  A strict list holds consecutive nonces. */
module TxList {
  import opened Common
  import opened Transactions
  import opened TxSortedMap

  /** Whether `tx` may replace `old`: both caps higher, and by the bump percentage. */
  predicate Replaces(old': Tx, tx: Tx, priceBump: nat)
  {
    && old'.feeCap < tx.feeCap && old'.tipCap < tx.tipCap
    && tx.feeCap >= old'.feeCap * (100 + priceBump) / 100
    && tx.tipCap >= old'.tipCap * (100 + priceBump) / 100
  }

  predicate Unpayable(tx: Tx, costLimit: nat, gasLimit: nat)
  {
    tx.gas > gasLimit || tx.cost > costLimit
  }

  function TooCostly(costLimit: nat, gasLimit: nat): Tx -> bool
  {
    (tx: Tx) => Unpayable(tx, costLimit, gasLimit)
  }

  function Above(nonce: nat): Tx -> bool
  {
    (tx: Tx) => tx.nonce > nonce
  }

  /** What a full scan keeps: nothing unaffordable and, in strict mode, nothing
      above an unaffordable nonce either. */
  function Payable(m: Items, strict: bool, costLimit: nat, gasLimit: nat): Items
  {
    map n | n in m && !Unpayable(m[n], costLimit, gasLimit)
            && (strict ==> forall k | k in m && Unpayable(m[k], costLimit, gasLimit) :: n < k) :: m[n]
  }

  ghost predicate Bounded(m: Items, costcap: nat, gascap: nat)
  {
    forall n | n in m :: m[n].cost <= costcap && m[n].gas <= gascap
  }

  /** No gap between the lowest and the highest nonce. */
  ghost predicate GapFree(m: Items)
  {
    forall a, b, n: nat | a in m && b in m && a <= n <= b :: n in m
  }

  /** The nonce is occupied or next to an occupied one, or nothing is there yet. */
  predicate Borders(m: Items, n: nat)
  {
    m == map[] || n in m || n + 1 in m || (n > 0 && n - 1 in m)
  }

  /** The caps decide the short circuit soundly: below both, a full scan finds nothing. */
  lemma ShortCircuit(m: Items, strict: bool, costcap: nat, gascap: nat, costLimit: nat, gasLimit: nat)
    requires Bounded(m, costcap, gascap) && costcap <= costLimit && gascap <= gasLimit
    ensures Payable(m, strict, costLimit, gasLimit) == m && Matching(m, TooCostly(costLimit, gasLimit)) == map[]
  {
    var f := TooCostly(costLimit, gasLimit);
    assert forall n | n in m :: !f(m[n]);
  }

  method LowestNonce(txs: seq<Tx>) returns (lowest: nat)
    ensures lowest <= MAX_UINT64
    ensures forall i | 0 <= i < |txs| :: lowest <= txs[i].nonce
    ensures txs != [] ==> exists i :: 0 <= i < |txs| && txs[i].nonce == lowest
  {
    lowest := MAX_UINT64;
    for i := 0 to |txs|
      invariant lowest <= MAX_UINT64 && forall j | 0 <= j < i :: lowest <= txs[j].nonce
      invariant i > 0 ==> exists j :: 0 <= j < i && txs[j].nonce == lowest
      invariant i == 0 ==> lowest == MAX_UINT64
    {
      if lowest > txs[i].nonce {
        lowest := txs[i].nonce;
      }
    }
  }

  /** Dropping what lies above the lowest removed nonce is what the full scan keeps. */
  lemma StrictKeeps(m: Items, removed: seq<Tx>, costLimit: nat, gasLimit: nat, lowest: nat)
    requires WellKeyed(m) && Lists(Matching(m, TooCostly(costLimit, gasLimit)), removed) && removed != []
    requires forall i | 0 <= i < |removed| :: lowest <= removed[i].nonce
    requires exists i :: 0 <= i < |removed| && removed[i].nonce == lowest
    ensures var rest := Rest(m, TooCostly(costLimit, gasLimit));
            && Rest(rest, Above(lowest)) == Payable(m, true, costLimit, gasLimit)
            && Matching(rest, Above(lowest)) == rest - Rest(rest, Above(lowest)).Keys
  {
    var f := TooCostly(costLimit, gasLimit);
    var rest := Rest(m, f);
    ListsAll(Matching(m, f), removed);
    assert lowest in Matching(m, f);
    forall k | k in m && f(m[k]) ensures lowest <= k {
      assert k in NoncesOf(removed);
    }
  }

  lemma LooseKeeps(m: Items, costLimit: nat, gasLimit: nat)
    ensures Rest(m, TooCostly(costLimit, gasLimit)) == Payable(m, false, costLimit, gasLimit)
    ensures Rest(m, TooCostly(costLimit, gasLimit)) - Payable(m, false, costLimit, gasLimit).Keys == map[]
  {
  }

  lemma NothingDropped(m: Items, strict: bool, costLimit: nat, gasLimit: nat)
    requires Matching(m, TooCostly(costLimit, gasLimit)) == map[]
    ensures Payable(m, strict, costLimit, gasLimit) == m && Rest(m, TooCostly(costLimit, gasLimit)) == m
    ensures Rest(m, TooCostly(costLimit, gasLimit)) - m.Keys == map[]
  {
    var f := TooCostly(costLimit, gasLimit);
    forall n | n in m ensures !Unpayable(m[n], costLimit, gasLimit) {
      assert n !in Matching(m, f);
      assert !f(m[n]);
    }
  }

  lemma PayableBounded(m: Items, strict: bool, costLimit: nat, gasLimit: nat)
    ensures Bounded(Payable(m, strict, costLimit, gasLimit), costLimit, gasLimit)
  {
  }

  lemma RemoveStrict(m: Items, n: nat)
    requires WellKeyed(m)
    ensures Rest(m - {n}, Above(n)) == Under(m, n) && Matching(m - {n}, Above(n)) == Matching(m, Above(n))
  {
  }

  class List {
    const strict: bool
    const txs: SortedMap
    var costcap: nat
    var gascap: nat

    /** The caps bound every transaction in the list. */
    ghost predicate Valid()
      reads this, txs
    {
      txs.Valid() && Bounded(txs.items, costcap, gascap)
    }

    constructor (strict: bool)
      ensures Valid() && this.strict == strict && txs.items == map[] && fresh(txs)
    {
      this.strict := strict;
      txs := new SortedMap();
      costcap, gascap := 0, 0;
    }

    /** The new transaction beats both caps of the old one by the bump. */
    static method Outbid(o: Tx, tx: Tx, priceBump: nat) returns (outbid: bool)
      ensures outbid == Replaces(o, tx, priceBump)
    {
      if o.feeCap >= tx.feeCap || o.tipCap >= tx.tipCap {
        return false;
      }
      var thresholdFeeCap := (100 + priceBump) * o.feeCap / 100;
      var thresholdTip := (100 + priceBump) * o.tipCap / 100;
      outbid := tx.feeCap >= thresholdFeeCap && tx.tipCap >= thresholdTip;
    }

    /** Insert unless a transaction with this nonce is there that `tx` may not replace. */
    method Add(tx: Tx, priceBump: nat) returns (inserted: bool, replaced: bool)
      requires Valid()
      modifies this, txs
      ensures Valid()
      ensures inserted == (tx.nonce in old(txs.items) ==> Replaces(old(txs.items)[tx.nonce], tx, priceBump))
      ensures replaced == (inserted && tx.nonce in old(txs.items))
      ensures txs.items == if inserted then old(txs.items)[tx.nonce := tx] else old(txs.items)
      ensures GapFree(old(txs.items)) && inserted ==> (GapFree(txs.items) <==> Borders(old(txs.items), tx.nonce))
    {
      if GapFree(txs.items) { AddGapFree(txs.items, tx); }
      replaced := tx.nonce in txs.items;
      if replaced {
        var outbid := Outbid(txs.items[tx.nonce], tx, priceBump);
        if !outbid {
          return false, false;
        }
      }
      txs.Put(tx);
      if costcap < tx.cost {
        costcap := tx.cost;
      }
      if gascap < tx.gas {
        gascap := tx.gas;
      }
      inserted := true;
    }

    method Forward(threshold: nat) returns (removed: seq<Tx>)
      requires Valid()
      modifies txs
      ensures Valid() && txs.items == From(old(txs.items), threshold)
      ensures Flat(Under(old(txs.items), threshold), removed)
      ensures GapFree(old(txs.items)) ==> GapFree(txs.items)
    {
      removed := txs.Forward(threshold);
    }

    /** Drop what costs too much, and in strict mode everything above it: what was
        removed, what was invalidated and what is kept make up the old contents. */
    method Filter(costLimit: nat, gasLimit: nat) returns (removed: seq<Tx>, invalids: seq<Tx>)
      requires Valid()
      modifies this, txs
      ensures Valid() && txs.items == Payable(old(txs.items), strict, costLimit, gasLimit)
      ensures Lists(Matching(old(txs.items), TooCostly(costLimit, gasLimit)), removed)
      ensures Lists(Rest(old(txs.items), TooCostly(costLimit, gasLimit)) - txs.items.Keys, invalids)
      ensures strict && GapFree(old(txs.items)) ==> GapFree(txs.items)
    {
      ghost var m := txs.items;
      if GapFree(m) { FilterGapFree(m, costLimit, gasLimit); }
      if costcap <= costLimit && gascap <= gasLimit {
        ShortCircuit(m, strict, costcap, gascap, costLimit, gasLimit);
        NothingDropped(m, strict, costLimit, gasLimit);
        return [], [];
      }
      removed, invalids := Scan(costLimit, gasLimit);
    }

    method Scan(costLimit: nat, gasLimit: nat) returns (removed: seq<Tx>, invalids: seq<Tx>)
      requires Valid()
      modifies this, txs
      ensures Valid() && txs.items == Payable(old(txs.items), strict, costLimit, gasLimit)
      ensures Lists(Matching(old(txs.items), TooCostly(costLimit, gasLimit)), removed)
      ensures Lists(Rest(old(txs.items), TooCostly(costLimit, gasLimit)) - txs.items.Keys, invalids)
    {
      ghost var m := txs.items;
      costcap, gascap := costLimit, gasLimit;
      removed := txs.Filter(TooCostly(costLimit, gasLimit));
      PayableBounded(m, strict, costLimit, gasLimit);
      if |removed| == 0 {
        NothingDropped(m, strict, costLimit, gasLimit);
        return [], [];
      }
      invalids := [];
      if strict {
        var lowest := LowestNonce(removed);
        StrictKeeps(m, removed, costLimit, gasLimit, lowest);
        invalids := txs.FilterOnly(Above(lowest));
      } else {
        LooseKeeps(m, costLimit, gasLimit);
      }
      txs.Reheap();
    }

    /** Keep the lowest `threshold` nonces and return the others, highest first. */
    method Cap(threshold: nat) returns (drops: seq<Tx>)
      requires Valid()
      modifies txs
      ensures Valid()
      ensures |old(txs.items)| <= threshold ==> txs.items == old(txs.items) && drops == []
      ensures |old(txs.items)| > threshold ==>
                && |txs.items| == threshold
                && SplitsAt(old(txs.items), txs.items, old(txs.items) - txs.items.Keys)
                && Flat(old(txs.items) - txs.items.Keys, Reverse(drops))
      ensures GapFree(old(txs.items)) ==> GapFree(txs.items)
    {
      ghost var m := txs.items;
      drops := txs.Cap(threshold);
      if GapFree(m) && |m| > threshold { CapGapFree(m, txs.items, m - txs.items.Keys); }
    }

    /** Delete one transaction and, in strict mode, return all above it too. */
    method Remove(tx: Tx) returns (ok: bool, invalids: seq<Tx>)
      requires Valid()
      modifies txs
      ensures Valid() && ok == (tx.nonce in old(txs.items))
      ensures !ok ==> txs.items == old(txs.items) && invalids == []
      ensures ok && !strict ==> txs.items == old(txs.items) - {tx.nonce} && invalids == []
      ensures ok && strict ==> txs.items == Under(old(txs.items), tx.nonce)
                               && Lists(Matching(old(txs.items), Above(tx.nonce)), invalids)
      ensures strict && GapFree(old(txs.items)) ==> GapFree(txs.items)
    {
      if GapFree(txs.items) { RemoveGapFree(txs.items, tx.nonce); }
      ok := txs.Remove(tx.nonce);
      invalids := [];
      if ok && strict {
        RemoveStrict(old(txs.items), tx.nonce);
        invalids := txs.Filter(Above(tx.nonce));
      }
    }

    method Ready(start: nat) returns (ready: seq<Tx>)
      requires Valid()
      modifies txs
      ensures Valid()
      ensures (forall n | n in old(txs.items) :: n > start) ==> ready == [] && txs.items == old(txs.items)
      ensures (exists n | n in old(txs.items) :: n <= start) ==>
                FirstRun(old(txs.items), ready) && txs.items == From(old(txs.items), ready[0].nonce + |ready|)
      ensures GapFree(old(txs.items)) ==> GapFree(txs.items)
    {
      ready := txs.Ready(start);
    }

    /** The sorted contents, which are cached for the next time. */
    method Flatten() returns (sorted: seq<Tx>)
      requires Valid()
      modifies txs
      ensures Valid() && txs.items == old(txs.items) && Flat(txs.items, sorted) && txs.cache == Some(sorted)
    {
      sorted := txs.Flatten();
    }

    method LastElement() returns (tx: Tx)
      requires Valid() && txs.items != map[]
      modifies txs
      ensures Valid() && txs.items == old(txs.items)
      ensures tx.nonce in txs.items && txs.items[tx.nonce] == tx && forall n | n in txs.items :: n <= tx.nonce
    {
      tx := txs.LastElement();
    }
  }

  // ------------------------------------------------------------ no gaps arise

  lemma ForwardGapFree(m: Items, threshold: nat)
    requires GapFree(m)
    ensures GapFree(From(m, threshold))
  {
  }

  lemma FilterGapFree(m: Items, costLimit: nat, gasLimit: nat)
    requires GapFree(m)
    ensures GapFree(Payable(m, true, costLimit, gasLimit))
  {
    var f, kept := TooCostly(costLimit, gasLimit), Payable(m, true, costLimit, gasLimit);
    forall a, b, n: nat | a in kept && b in kept && a <= n <= b ensures n in kept {
      assert n in m;
      assert f(m[n]) ==> b < n;
    }
  }

  lemma CapGapFree(m: Items, lo: Items, hi: Items)
    requires GapFree(m) && SplitsAt(m, lo, hi)
    ensures GapFree(lo) && GapFree(hi)
  {
    forall a, b, n: nat | a in lo && b in lo && a <= n <= b ensures n in lo {
      assert n in m;
    }
    forall a, b, n: nat | a in hi && b in hi && a <= n <= b ensures n in hi {
      assert n in m;
    }
  }

  lemma RemoveGapFree(m: Items, nonce: nat)
    requires GapFree(m)
    ensures GapFree(Under(m, nonce))
  {
  }

  /** Adding keeps a list gap-free exactly when the nonce borders on the contents. */
  lemma AddGapFree(m: Items, tx: Tx)
    requires GapFree(m)
    ensures GapFree(m[tx.nonce := tx]) <==> Borders(m, tx.nonce)
  {
    var m', x: nat := m[tx.nonce := tx], tx.nonce;
    if Borders(m, x) {
      forall a, b, n: nat | a in m' && b in m' && a <= n <= b ensures n in m' {
        if n != x && a == x && b != x {
          assert x + 1 in m || (x > 0 && x - 1 in m) || x in m;
        }
      }
    } else {
      assert m.Keys != {};
      var k :| k in m.Keys;
      var n := if k < x then x - 1 else x + 1;
      assert k in m' && x in m' && n !in m';
    }
  }

  // ---------------------------------------------------- any use of one list

  datatype Op =
    | AddTx(tx: Tx, priceBump: nat)
    | ForwardTo(threshold: nat)
    | FilterBy(costLimit: nat, gasLimit: nat)
    | CapAt(threshold: nat)
    | RemoveTx(tx: Tx)
    | ReadyFrom(start: nat)
    | FlattenAll
    | LastOf

  ghost predicate Inserts(m: Items, op: Op)
  {
    op.AddTx? && (op.tx.nonce in m ==> Replaces(m[op.tx.nonce], op.tx, op.priceBump))
  }

  /** What an operation makes of the contents, told without the caps. */
  ghost predicate Moves(strict: bool, m: Items, op: Op, m': Items)
  {
    match op
    case AddTx(tx, priceBump) => m' == if Inserts(m, op) then m[tx.nonce := tx] else m
    case ForwardTo(threshold) => m' == From(m, threshold)
    case FilterBy(costLimit, gasLimit) => m' == Payable(m, strict, costLimit, gasLimit)
    case CapAt(threshold) => if |m| <= threshold then m' == m else |m'| == threshold && SplitsAt(m, m', m - m'.Keys)
    case RemoveTx(tx) => m' == if tx.nonce !in m then m else if strict then Under(m, tx.nonce) else m - {tx.nonce}
    case ReadyFrom(start) =>
      if exists n | n in m :: n <= start
      then exists ready: seq<Tx> :: FirstRun(m, ready) && m' == From(m, ready[0].nonce + |ready|)
      else m' == m
    case FlattenAll => m' == m
    case LastOf => m' == m
  }

  ghost predicate Traces(strict: bool, ops: seq<Op>, trace: seq<Items>)
  {
    && |trace| == |ops| + 1 && trace[0] == map[]
    && forall i | 0 <= i < |ops| :: Moves(strict, trace[i], ops[i], trace[i + 1])
  }

  method Do(list: List, op: Op)
    requires list.Valid()
    modifies list, list.txs
    ensures list.Valid() && Moves(list.strict, old(list.txs.items), op, list.txs.items)
  {
    match op
    case AddTx(tx, priceBump) => var inserted, replaced := list.Add(tx, priceBump);
    case ForwardTo(threshold) => var removed := list.Forward(threshold);
    case FilterBy(costLimit, gasLimit) => var removed, invalids := list.Filter(costLimit, gasLimit);
    case CapAt(threshold) => var drops := list.Cap(threshold);
    case RemoveTx(tx) => var ok, invalids := list.Remove(tx);
    case ReadyFrom(start) => var ready := list.Ready(start);
    case FlattenAll => var sorted := list.Flatten();
    case LastOf => if list.txs.items != map[] { var last := list.LastElement(); }
  }

  /** Any sequence of operations on a fresh list: the caps bound the contents after each
      of them, so that every filter does what a full scan would, and a cache, filled by
      flattening and shifted or dropped by the others, is the sorted contents. */
  method RunList(strict: bool, ops: seq<Op>) returns (list: List, ghost trace: seq<Items>)
    ensures list.Valid() && list.strict == strict
    ensures Traces(strict, ops, trace) && list.txs.items == trace[|ops|]
    ensures list.txs.cache.Some? ==> Flat(trace[|ops|], list.txs.cache.value)
    ensures strict ==> ((forall i | 0 <= i <= |ops| :: GapFree(trace[i])) <==> Disciplined(ops, trace))
  {
    list := new List(strict);
    trace := [list.txs.items];
    for i := 0 to |ops|
      invariant list.Valid() && list.strict == strict && fresh(list) && fresh(list.txs)
      invariant Traces(strict, ops[..i], trace) && list.txs.items == trace[i]
    {
      Do(list, ops[i]);
      TraceMore(strict, ops, i, trace, list.txs.items);
      trace := trace + [list.txs.items];
    }
    assert ops[..|ops|] == ops;
    if strict { StrictRuns(ops, trace); }
  }

  lemma TraceMore(strict: bool, ops: seq<Op>, i: nat, trace: seq<Items>, m: Items)
    requires i < |ops| && Traces(strict, ops[..i], trace) && Moves(strict, trace[i], ops[i], m)
    ensures Traces(strict, ops[..i + 1], trace + [m])
  {
    var ops', trace' := ops[..i + 1], trace + [m];
    forall k | 0 <= k < i + 1 ensures Moves(strict, trace'[k], ops'[k], trace'[k + 1]) {
      if k < i { assert ops'[k] == ops[..i][k]; }
    }
  }

  /** Every transaction added borders on what is there. */
  ghost predicate Disciplined(ops: seq<Op>, trace: seq<Items>)
    requires |trace| == |ops| + 1
  {
    forall i | 0 <= i < |ops| && Inserts(trace[i], ops[i]) :: Borders(trace[i], ops[i].tx.nonce)
  }

  lemma ReadyGapFree(m: Items, start: nat, m': Items)
    requires Moves(true, m, ReadyFrom(start), m') && GapFree(m)
    ensures GapFree(m')
  {
    if exists n | n in m :: n <= start {
      var ready: seq<Tx> :| FirstRun(m, ready) && m' == From(m, ready[0].nonce + |ready|);
      ForwardGapFree(m, ready[0].nonce + |ready|);
    }
  }

  lemma MovesGapFree(m: Items, op: Op, m': Items)
    requires Moves(true, m, op, m') && GapFree(m)
    ensures GapFree(m') <==> (Inserts(m, op) ==> Borders(m, op.tx.nonce))
  {
    match op
    case AddTx(tx, priceBump) => AddGapFree(m, tx);
    case ForwardTo(threshold) => ForwardGapFree(m, threshold);
    case FilterBy(costLimit, gasLimit) => FilterGapFree(m, costLimit, gasLimit);
    case CapAt(threshold) => if |m| > threshold { CapGapFree(m, m', m - m'.Keys); }
    case RemoveTx(tx) => RemoveGapFree(m, tx.nonce);
    case ReadyFrom(start) => ReadyGapFree(m, start, m');
    case FlattenAll =>
    case LastOf =>
  }

  lemma {:induction false} GapFreeUpTo(ops: seq<Op>, trace: seq<Items>, i: nat)
    requires Traces(true, ops, trace) && Disciplined(ops, trace) && i <= |ops|
    ensures GapFree(trace[i])
  {
    if i == 0 {
    } else {
      GapFreeUpTo(ops, trace, i - 1);
      MovesGapFree(trace[i - 1], ops[i - 1], trace[i]);
    }
  }

  /** A strict list is free of gaps throughout exactly if all additions border on the
      contents: no other operation makes a gap. */
  lemma StrictRuns(ops: seq<Op>, trace: seq<Items>)
    requires Traces(true, ops, trace)
    ensures (forall i | 0 <= i <= |ops| :: GapFree(trace[i])) <==> Disciplined(ops, trace)
  {
    if Disciplined(ops, trace) {
      forall i | 0 <= i <= |ops| ensures GapFree(trace[i]) {
        GapFreeUpTo(ops, trace, i);
      }
    }
    if forall i | 0 <= i <= |ops| :: GapFree(trace[i]) {
      forall i | 0 <= i < |ops| && Inserts(trace[i], ops[i]) ensures Borders(trace[i], ops[i].tx.nonce) {
        assert Moves(true, trace[i], ops[i], trace[i + 1]);
        MovesGapFree(trace[i], ops[i], trace[i + 1]);
      }
    }
  }
}
