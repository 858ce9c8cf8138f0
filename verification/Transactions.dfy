/** Pool transactions and collections of them keyed by nonce. */
module Transactions {
  const MAX_UINT64: nat := 0xFFFF_FFFF_FFFF_FFFF
  type uint64 = n: nat | n <= MAX_UINT64

  type Addr = int
  type Hash = int

  const TX_SLOT_SIZE: nat := 32 * 1024

  /** `cost` is value plus gas price times gas limit; hashes identify transactions. */
  datatype Tx = Tx(hash: Hash, sender: Addr, nonce: uint64, gas: nat, cost: nat,
                   feeCap: nat, tipCap: nat, size: nat)

  /** Slots a transaction takes up, by its size. */
  function NumSlots(tx: Tx): nat
  {
    (tx.size + TX_SLOT_SIZE - 1) / TX_SLOT_SIZE
  }

  /** The contents of a list: transactions by nonce. */
  type Items = map<nat, Tx>

  ghost predicate WellKeyed(m: Items)
  {
    forall n | n in m :: m[n].nonce == n
  }

  /** `txs` lists the contents of `m`, each once, in some order. */
  ghost predicate Lists(m: Items, txs: seq<Tx>)
  {
    && |txs| == |m|
    && (forall i | 0 <= i < |txs| :: txs[i].nonce in m && m[txs[i].nonce] == txs[i])
    && (forall i, j | 0 <= i < j < |txs| :: txs[i].nonce != txs[j].nonce)
  }

  /** ... in nonce order. */
  ghost predicate Sorted(txs: seq<Tx>)
  {
    forall i, j | 0 <= i < j < |txs| :: txs[i].nonce < txs[j].nonce
  }

  ghost predicate Flat(m: Items, txs: seq<Tx>)
  {
    Lists(m, txs) && Sorted(txs)
  }

  ghost function NoncesOf(txs: seq<Tx>): set<nat>
  {
    set i | 0 <= i < |txs| :: txs[i].nonce
  }

  ghost function HashesOf(txs: seq<Tx>): set<Hash>
  {
    set i | 0 <= i < |txs| :: txs[i].hash
  }

  lemma HashesMore(txs: seq<Tx>, t: Tx)
    ensures HashesOf(txs + [t]) == HashesOf(txs) + {t.hash}
  {
    assert (txs + [t])[..|txs|] == txs && (txs + [t])[..|txs| + 1] == txs + [t];
    HashesStep(txs + [t], |txs|);
  }

  lemma HashesStep(txs: seq<Tx>, i: nat)
    requires i < |txs|
    ensures HashesOf(txs[..i + 1]) == HashesOf(txs[..i]) + {txs[i].hash}
  {
    assert txs[..i + 1] == txs[..i] + [txs[i]];
    forall h | h in HashesOf(txs[..i]) ensures h in HashesOf(txs[..i + 1]) {
      var j :| 0 <= j < i && txs[..i][j].hash == h;
      assert txs[..i + 1][j].hash == h;
    }
    assert txs[..i + 1][i].hash == txs[i].hash;
  }

  lemma {:induction false} NonceCount(txs: seq<Tx>)
    requires forall i, j | 0 <= i < j < |txs| :: txs[i].nonce != txs[j].nonce
    ensures |NoncesOf(txs)| == |txs|
  {
    if txs == [] {
    } else {
      var k := |txs| - 1;
      NonceCount(txs[..k]);
      assert NoncesOf(txs) == NoncesOf(txs[..k]) + {txs[k].nonce} by {
        forall n | n in NoncesOf(txs) ensures n in NoncesOf(txs[..k]) + {txs[k].nonce} {
          var i :| 0 <= i < |txs| && txs[i].nonce == n;
          if i < k { assert txs[..k][i].nonce == n; }
        }
        forall n | n in NoncesOf(txs[..k]) ensures n in NoncesOf(txs) {
          var i :| 0 <= i < k && txs[..k][i].nonce == n;
          assert txs[i].nonce == n;
        }
      }
    }
  }

  /** A listing covers every nonce. */
  lemma ListsAll(m: Items, txs: seq<Tx>)
    requires Lists(m, txs)
    ensures NoncesOf(txs) == m.Keys
  {
    NonceCount(txs);
    assert NoncesOf(txs) <= m.Keys;
    SubsetSameSize(NoncesOf(txs), m.Keys);
  }

  lemma SubsetSameSize<T>(a: set<T>, b: set<T>)
    requires a <= b && |a| == |b|
    ensures a == b
  {
    assert |b - a| == |b| - |a|;
  }

  /** `lo` and `hi` split `m` at some nonce. */
  ghost predicate SplitsAt(m: Items, lo: Items, hi: Items)
  {
    && m == lo + hi && lo.Keys !! hi.Keys
    && forall a, b | a in lo && b in hi :: a < b
  }

  lemma SplitSize(m: Items, lo: Items, hi: Items)
    requires SplitsAt(m, lo, hi)
    ensures |m| == |lo| + |hi|
  {
    assert m.Keys == lo.Keys + hi.Keys;
  }

  lemma PrefixOf(m: Items, c: seq<Tx>, i: nat)
    requires Lists(m, c) && i <= |c|
    ensures |NoncesOf(c[..i])| == i && NoncesOf(c[..i]) <= m.Keys
    ensures forall n | n in m :: n in NoncesOf(c[..i]) || exists j :: i <= j < |c| && c[j].nonce == n
  {
    NonceCount(c[..i]);
    ListsAll(m, c);
    forall n | n in m ensures n in NoncesOf(c[..i]) || exists j :: i <= j < |c| && c[j].nonce == n {
      var j :| 0 <= j < |c| && c[j].nonce == n;
      if j < i { assert c[..i][j].nonce == n; }
    }
  }

  lemma NoncesWithin(txs: seq<Tx>, nonces: set<nat>)
    requires forall i | 0 <= i < |txs| :: txs[i].nonce in nonces
    ensures NoncesOf(txs) <= nonces
  {
  }

  lemma LowerIsLow(m: Items, lo: Items, hi: Items, a: nat, b: nat)
    requires SplitsAt(m, lo, hi) && a in m && b in lo && a <= b
    ensures a in lo
  {
  }

  lemma LowEarly(m: Items, lo: Items, hi: Items, c: seq<Tx>, i: nat)
    requires SplitsAt(m, lo, hi) && Flat(m, c) && i < |c| && c[i].nonce in lo
    ensures i < |lo|
  {
    var pre := c[..i + 1];
    NonceCount(pre);
    forall j | 0 <= j < |pre| ensures pre[j].nonce in lo {
      LowerIsLow(m, lo, hi, c[j].nonce, c[i].nonce);
    }
    NoncesWithin(pre, lo.Keys);
    SubsetCard(NoncesOf(pre), lo.Keys);
  }

  lemma HighLate(m: Items, lo: Items, hi: Items, c: seq<Tx>, i: nat)
    requires SplitsAt(m, lo, hi) && Flat(m, c) && i < |c| && c[i].nonce in hi
    ensures |lo| <= i
  {
    var pre := NoncesOf(c[..i]);
    PrefixOf(m, c, i);
    forall n | n in lo ensures n in pre {
      assert n in m && n < c[i].nonce;
      assert forall j | i <= j < |c| :: c[j].nonce >= c[i].nonce;
    }
    SubsetCard(lo.Keys, pre);
  }

  lemma SubsetCard<T>(a: set<T>, b: set<T>)
    requires a <= b
    ensures |a| <= |b|
  {
    assert |b - a| == |b| - |a|;
  }

  /** Cutting a sorted listing at the split gives sorted listings of the parts. */
  lemma FlatSplit(m: Items, lo: Items, hi: Items, c: seq<Tx>)
    requires SplitsAt(m, lo, hi) && Flat(m, c)
    ensures |m| == |lo| + |hi| && Flat(lo, c[..|lo|]) && Flat(hi, c[|lo|..])
  {
    SplitSize(m, lo, hi);
    forall i | 0 <= i < |c| ensures c[i].nonce in lo <==> i < |lo| {
      if c[i].nonce in lo { LowEarly(m, lo, hi, c, i); } else { HighLate(m, lo, hi, c, i); }
    }
  }

  lemma FirstIsLowest(m: Items, c: seq<Tx>)
    requires Flat(m, c) && c != []
    ensures c[0].nonce in m && forall n | n in m :: c[0].nonce <= n
  {
    ListsAll(m, c);
    forall k | k in m ensures c[0].nonce <= k {
      var i :| 0 <= i < |c| && c[i].nonce == k;
    }
  }

  lemma LowestSplits(m: Items, n: nat)
    requires n in m && forall k | k in m :: n <= k
    ensures SplitsAt(m, map[n := m[n]], m - {n}) && |map[n := m[n]]| == 1
  {
    assert m == map[n := m[n]] + (m - {n});
  }

  /** The first of a sorted listing has the lowest nonce; the rest lists the rest. */
  lemma FlatFirst(m: Items, c: seq<Tx>)
    requires Flat(m, c) && c != []
    ensures c[0].nonce in m && (forall n | n in m :: c[0].nonce <= n) && Flat(m - {c[0].nonce}, c[1..])
  {
    FirstIsLowest(m, c);
    var n := c[0].nonce;
    LowestSplits(m, n);
    FlatSplit(m, map[n := m[n]], m - {n}, c);
  }

  /** Sorted listings are unique. */
  lemma {:induction false} FlatUnique(m: Items, a: seq<Tx>, b: seq<Tx>)
    requires Flat(m, a) && Flat(m, b)
    ensures a == b
    decreases |a|
  {
    if a == [] {
    } else {
      FlatFirst(m, a);
      FlatFirst(m, b);
      FlatUnique(m - {a[0].nonce}, a[1..], b[1..]);
      assert a == [a[0]] + a[1..] && b == [b[0]] + b[1..];
    }
  }
}
