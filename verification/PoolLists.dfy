/** The list operations the pool uses, on the contents of a list. */
module PoolLists {
  import opened Transactions
  import opened TxSortedMap
  import opened TxList

  /** The transactions above a nonce. */
  function Over(m: Items, n: nat): Items
  {
    map k | k in m && k > n :: m[k]
  }

  /** `kept` is the lowest `count` nonces of `m`, or all of them. */
  ghost predicate Lowest(m: Items, count: nat, kept: Items)
  {
    && SubItems(kept, m) && SplitsAt(m, kept, m - kept.Keys)
    && |kept| == if |m| <= count then |m| else count
  }

  ghost predicate SubItems(kept: Items, m: Items)
  {
    forall n | n in kept :: n in m && kept[n] == m[n]
  }

  /** `ready` is the first run of consecutive nonces, if it starts at or below `start`. */
  ghost predicate IsReady(m: Items, start: nat, ready: seq<Tx>)
  {
    if Reaches(start, m) then FirstRun(m, ready) else ready == []
  }

  /** Some nonce is at or below `start`. */
  ghost predicate Reaches(start: nat, m: Items)
  {
    exists n :: n in m && n <= start
  }

  function AfterReady(m: Items, ready: seq<Tx>): Items
  {
    if ready == [] then m else From(m, ready[0].nonce + |ready|)
  }

  /** Without nonce `n`, the contents are `kept` and `above`. */
  ghost predicate Parted(m: Items, n: nat, kept: Items, above: Items)
  {
    SubItems(kept, m - {n}) && (m - {n}) - kept.Keys == above && WellKeyed(above)
  }

  /** Removing a nonce leaves those below it in the list and those above it over. */
  lemma RemovalParts(m: Items, n: nat)
    requires WellKeyed(m)
    ensures Parted(m, n, Under(m, n), Over(m, n)) && Over(m, n) == Matching(m, Above(n))
  {
  }

  lemma RestSize(kept: Items, m: Items)
    requires SubItems(kept, m)
    ensures |m - kept.Keys| == |m| - |kept|
  {
    assert (m - kept.Keys).Keys == m.Keys - kept.Keys && kept.Keys <= m.Keys;
  }

  lemma ReadyParts(m: Items, ready: seq<Tx>)
    requires ready == [] || FirstRun(m, ready)
    ensures SubItems(AfterReady(m, ready), m) && Lists(m - AfterReady(m, ready).Keys, ready)
  {
    if ready != [] {
      var run: Items := m - AfterReady(m, ready).Keys;
      var first := ready[0].nonce;
      assert run.Keys == NoncesOf(ready) by {
        forall n | n in run ensures n in NoncesOf(ready) {
          assert ready[n - first].nonce == n;
        }
        forall n | n in NoncesOf(ready) ensures n in run {
          var i :| 0 <= i < |ready| && ready[i].nonce == n;
        }
      }
      NonceCount(ready);
      assert |run| == |run.Keys|;
    } else {
      assert m - m.Keys == map[];
    }
  }

  method ReadyOf(m: Items, start: nat) returns (ready: seq<Tx>)
    requires WellKeyed(m)
    ensures IsReady(m, start, ready) && SubItems(AfterReady(m, ready), m)
    ensures Lists(m - AfterReady(m, ready).Keys, ready)
  {
    var index := Reindex(m.Keys);
    RootDecides(index, m, start);
    ready := [];
    if |index| > 0 && index[0] <= start {
      var rest;
      index, rest, ready := PopRun(index, m);
    }
    ReadyParts(m, ready);
  }

  method LowestOf(m: Items, count: nat) returns (kept: Items)
    requires WellKeyed(m)
    ensures Lowest(m, count, kept)
  {
    kept := m;
    if |m| > count {
      var index := Reindex(m.Keys);
      var drops;
      ghost var hi: Items;
      index, kept, drops, hi := CapItems(index, m, count);
      assert hi == m - kept.Keys;
    } else {
      assert m - m.Keys == map[] && m + map[] == m;
    }
  }

  lemma PrefixSplits(m: Items, txs: seq<Tx>, i: nat, kept: Items, n: nat) returns (k: nat)
    requires Flat(m, txs) && i <= |txs| && Flat(kept, txs[..i]) && n in m
    ensures k < |txs| && txs[k].nonce == n && (n in kept <==> k < i)
  {
    ListsAll(m, txs);
    ListsAll(kept, txs[..i]);
    assert n in NoncesOf(txs);
    k :| k < |txs| && txs[k].nonce == n;
    if k < i { assert txs[..i][k].nonce in kept; }
    if n in kept {
      var j: nat :| j < i && txs[..i][j].nonce == n;
      assert txs[j].nonce == n && j == k;
    }
  }

  lemma PrefixInside(m: Items, txs: seq<Tx>, i: nat, kept: Items, n: nat)
    requires Flat(m, txs) && i <= |txs| && Flat(kept, txs[..i]) && n in kept
    ensures n in m && kept[n] == m[n]
  {
    ListsAll(kept, txs[..i]);
    var j: nat :| j < i && txs[..i][j].nonce == n;
    assert txs[j].nonce in m;
  }

  /** The first `i` of the sorted contents are the lowest `i` nonces. */
  lemma PrefixIsLowest(m: Items, txs: seq<Tx>, i: nat, kept: Items)
    requires Flat(m, txs) && i <= |txs| && Flat(kept, txs[..i])
    ensures Lowest(m, i, kept)
  {
    forall n | n in kept ensures n in m && kept[n] == m[n] {
      PrefixInside(m, txs, i, kept, n);
    }
    forall a, b | a in kept && b in m - kept.Keys ensures a < b {
      var j := PrefixSplits(m, txs, i, kept, a);
      var k := PrefixSplits(m, txs, i, kept, b);
    }
    assert m == kept + (m - kept.Keys);
  }

  lemma SplitOff(m: Items, kept: Items)
    requires SubItems(kept, m)
    ensures m == kept + (m - kept.Keys) && kept.Keys !! (m - kept.Keys).Keys
  {
  }

  lemma LowestAll(m: Items)
    ensures Lowest(m, |m|, m)
  {
    assert m - m.Keys == map[] && m + map[] == m;
  }

  lemma WholePrefix(m: Items, txs: seq<Tx>)
    requires Flat(m, txs)
    ensures Flat(m, txs[..|txs|])
  {
    assert txs[..|txs|] == txs;
  }

  lemma FlatLast(m: Items, txs: seq<Tx>, i: nat)
    requires 0 < i <= |txs| && Flat(m, txs[..i])
    ensures txs[i - 1].nonce in m && m[txs[i - 1].nonce] == txs[i - 1] && Flat(m - {txs[i - 1].nonce}, txs[..i - 1])
  {
    var n := txs[i - 1].nonce;
    assert txs[..i][i - 1].nonce in m;
    assert (m - {n}).Keys == m.Keys - {n};
    forall j | 0 <= j < i - 1 ensures txs[j].nonce in m && m[txs[j].nonce] == txs[j] && txs[j].nonce != n {
      assert txs[..i][j].nonce in m && txs[..i][j].nonce < txs[..i][i - 1].nonce;
    }
    forall j, k | 0 <= j < k < i - 1 ensures txs[j].nonce < txs[k].nonce {
      assert txs[..i][j].nonce < txs[..i][k].nonce;
    }
  }

  ghost predicate Highest(m: Items, top: nat)
  {
    top in m && forall n | n in m :: n <= top
  }

  lemma TopOff(m: Items, top: nat)
    requires Highest(m, top)
    ensures Lowest(m, |m| - 1, m - {top})
  {
    assert (m - {top}).Keys == m.Keys - {top};
    SplitOff(m, m - {top});
  }

  /** Cap a list at one less than it has. */
  method LessOne(m: Items) returns (kept: Items, top: nat)
    requires WellKeyed(m) && m != map[]
    ensures Highest(m, top) && kept == m - {top} && SubItems(kept, m) && |kept| == |m| - 1
  {
    kept := LowestOf(m, |m| - 1);
    RestSize(kept, m);
    ghost var gone: Items := m - kept.Keys;
    assert |gone.Keys| == 1;
    top :| top in m && top !in kept;
    Singleton(gone.Keys, top);
  }

  lemma Singleton<T>(s: set<T>, x: T)
    requires |s| == 1 && x in s
    ensures s == {x}
  {
    assert |s - {x}| == 0;
  }
}
