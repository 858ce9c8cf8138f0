/** The block-hash lookup handed to the EVM: a closure that walks parents from a
    reference header and caches the hashes it has passed. */
module BlockHash {
  import opened Common
  import opened BlockTree

  /** A header is found under its hash and number only. */
  predicate Found(hs: Headers, h: Hash, n: int)
  {
    h in hs && hs[h].number == n
  }

  /** A fresh parent walk: the hash `i + 1` parents below `ref`, if every header on the way is found. */
  function Walk(hs: Headers, ref: Header, i: nat): (r: Option<Hash>)
  {
    if i == 0 then Some(ref.parent)
    else
      match Walk(hs, ref, i - 1)
      case None => None
      case Some(h) => if Found(hs, h, ref.number - i) then Some(hs[h].parent) else None
  }

  lemma {:induction false} WalkStops(hs: Headers, ref: Header, i: nat, j: nat)
    requires i <= j && Walk(hs, ref, i) == None
    ensures Walk(hs, ref, j) == None
  {
    if i == j {
    } else {
      WalkStops(hs, ref, i, j - 1);
    }
  }

  const TWO_64: nat := 0x1_0000_0000_0000_0000

  class HashLookup {
    const chain: Headers
    const ref: Header
    var cache: seq<Hash>

    /** The cache is what fresh walks return, front to back. */
    ghost predicate Valid()
      reads this
    {
      && ref.number < TWO_64 && |cache| <= ref.number + 1
      && forall i | 0 <= i < |cache| :: Walk(chain, ref, i) == Some(cache[i])
    }

    constructor (chain: Headers, ref: Header)
      requires ref.number < TWO_64
      ensures Valid() && this.chain == chain && this.ref == ref && cache == []
    {
      this.chain, this.ref, cache := chain, ref, [];
    }

    /** Whatever earlier queries cached, a query below the reference number returns
        what a fresh walk returns (None is the zero hash). */
    method Query(n: nat) returns (r: Option<Hash>)
      requires Valid() && n < TWO_64
      modifies this`cache
      ensures Valid() && old(cache) <= cache
      ensures n < ref.number ==> r == Walk(chain, ref, ref.number - n - 1)
    {
      if |cache| == 0 {
        cache := [ref.parent];
      }
      // unsigned subtraction: a number at or above the reference wraps around
      var idx := if n < ref.number then ref.number - n - 1 else ref.number + TWO_64 - n - 1;
      if idx < |cache| {
        return Some(cache[idx]);
      }
      var lastHash, lastNumber: int := cache[|cache| - 1], ref.number - |cache|;
      while true
        invariant Valid() && old(cache) <= cache && |cache| > 0
        invariant lastHash == cache[|cache| - 1] && lastNumber == ref.number - |cache|
        invariant n < ref.number ==> |cache| < ref.number - n
        decreases lastNumber
      {
        if !Found(chain, lastHash, lastNumber) {
          break;
        }
        cache := cache + [chain[lastHash].parent];
        lastHash := chain[lastHash].parent;
        lastNumber := lastNumber - 1;
        if n == lastNumber {
          return Some(lastHash);
        }
      }
      if n < ref.number { WalkStops(chain, ref, |cache|, ref.number - n - 1); }
      r := None;
    }
  }

  /** Every sequence of queries, in any order and with repetitions. */
  method QueryAll(lookup: HashLookup, ns: seq<nat>) returns (rs: seq<Option<Hash>>)
    requires lookup.Valid() && forall i | 0 <= i < |ns| :: ns[i] < lookup.ref.number
    modifies lookup
    ensures lookup.Valid() && |rs| == |ns|
    ensures forall i | 0 <= i < |ns| :: rs[i] == Walk(lookup.chain, lookup.ref, lookup.ref.number - ns[i] - 1)
  {
    rs := [];
    for i := 0 to |ns|
      invariant lookup.Valid() && |rs| == i
      invariant forall j | 0 <= j < i :: rs[j] == Walk(lookup.chain, lookup.ref, lookup.ref.number - ns[j] - 1)
    {
      var r := lookup.Query(ns[i]);
      rs := rs + [r];
    }
  }

  /** In a linked store the walk is the ancestor at the queried height. */
  lemma {:induction false} WalkIsAncestor(hs: Headers, g: Hash, h: Hash, n: nat)
    requires Linked(hs, g) && h in hs && n < hs[h].number
    ensures Walk(hs, hs[h], hs[h].number - n - 1) == Some(Anc(hs, g, h, n))
    decreases hs[h].number - n
  {
    AncParent(hs, g, h, n);
    if n + 1 == hs[h].number {
    } else {
      WalkIsAncestor(hs, g, h, n + 1);
    }
  }
}
