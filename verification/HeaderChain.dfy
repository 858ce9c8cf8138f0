/** The header chain: batch import with fork choice, and ancestor queries that
    use the canonical index as a short cut. */
module HeaderChain {
  import opened Common
  import opened BlockTree

  datatype Status = NonStat | CanonStat | SideStat
  datatype WriteResult =
    | UnknownAncestor
    | Written(status: Status, ignored: nat, imported: nat)

  predicate Follows(batch: seq<Header>, i: nat)
    requires 0 < i < |batch|
  {
    batch[i].parent == batch[i - 1].hash && batch[i].number == batch[i - 1].number + 1
  }

  /** What header validation guarantees about a batch before it is imported. */
  predicate Contiguous(batch: seq<Header>)
  {
    forall i {:trigger Follows(batch, i)} | 0 < i < |batch| :: Follows(batch, i)
  }

  /** Hashes are injective: equal hashes mean equal headers, in the store and in the batch. */
  ghost predicate NoCollision(hs: Headers, batch: seq<Header>)
  {
    && (forall i | 0 <= i < |batch| :: batch[i].hash in hs ==> hs[batch[i].hash] == batch[i])
    && (forall i, j | 0 <= i < j < |batch| :: batch[i].hash == batch[j].hash ==> batch[i] == batch[j])
  }

  predicate AllPositive(batch: seq<Header>)
  {
    forall i | 0 <= i < |batch| :: batch[i].difficulty > 0
  }

  ghost predicate AllKnown(hs: Headers, batch: seq<Header>)
  {
    forall i | 0 <= i < |batch| :: batch[i].hash in hs
  }

  /** A batch that hangs off the stored tree. */
  ghost predicate Importable(hs: Headers, g: Hash, batch: seq<Header>)
  {
    && Linked(hs, g) && Contiguous(batch) && NoCollision(hs, batch) && AllPositive(batch)
    && batch != [] && ParentKnown(hs, batch[0])
  }

  lemma {:induction false} BatchNumber(batch: seq<Header>, i: nat)
    requires Contiguous(batch) && i < |batch|
    ensures batch[i].number == batch[0].number + i
  {
    if i == 0 {
    } else {
      assert Follows(batch, i);
      BatchNumber(batch, i - 1);
    }
  }

  /** A known header's predecessors in the batch are known too. */
  lemma {:induction false} KnownPrefix(hs: Headers, g: Hash, batch: seq<Header>, j: nat, i: nat)
    requires Importable(hs, g, batch) && j <= i < |batch| && batch[i].hash in hs
    ensures batch[j].hash in hs
    decreases i - j
  {
    if j == i {
    } else {
      BatchNumber(batch, i);
      assert Hangs(hs, g, batch[i].hash) && Follows(batch, i);
      KnownPrefix(hs, g, batch, j, i - 1);
    }
  }

  /** The ancestors of a batch header: the batch itself, then the ancestors of its parent. */
  lemma {:induction false} BatchAncestors(hs: Headers, g: Hash, batch: seq<Header>, i: nat, n: nat)
    requires Linked(hs, g) && Contiguous(batch) && i < |batch|
    requires forall j | 0 <= j < |batch| :: batch[j].hash in hs && hs[batch[j].hash] == batch[j]
    requires ParentKnown(hs, batch[0]) && n <= batch[i].number
    ensures batch[i].number == batch[0].number + i
    ensures Anc(hs, g, batch[i].hash, n) ==
            if n >= batch[0].number then batch[n - batch[0].number].hash
            else Anc(hs, g, batch[0].parent, n)
  {
    BatchNumber(batch, i);
    assert Hangs(hs, g, batch[i].hash);
    if batch[i].number == n || i == 0 {
    } else {
      assert Follows(batch, i);
      BatchAncestors(hs, g, batch, i - 1, n);
    }
  }

  /** The store after the first `i` headers of the batch. */
  function Insert(hs: Headers, batch: seq<Header>, i: nat): Headers
    requires i <= |batch|
  {
    if i == 0 then hs else Insert(hs, batch, i - 1)[batch[i - 1].hash := batch[i - 1]]
  }

  /** It holds the old headers, the batch so far, and nothing else. */
  lemma {:induction false} InsertHolds(hs: Headers, batch: seq<Header>, i: nat, k: Hash)
    requires i <= |batch| && NoCollision(hs, batch)
    ensures k in hs ==> k in Insert(hs, batch, i) && Insert(hs, batch, i)[k] == hs[k]
    ensures forall j | 0 <= j < i && batch[j].hash == k ::
              k in Insert(hs, batch, i) && Insert(hs, batch, i)[k] == batch[j]
    ensures k in Insert(hs, batch, i) ==> k in hs || exists j | 0 <= j < i :: batch[j].hash == k
  {
    if i == 0 {
    } else {
      InsertHolds(hs, batch, i - 1, k);
    }
  }

  /** The headers of the batch up to `i` that are new to `hs` start at index `first`, or none is (-1). */
  ghost predicate NewFrom(hs: Headers, batch: seq<Header>, i: nat, first: int)
    requires i <= |batch|
  {
    && -1 <= first < i
    && forall j | 0 <= j < i :: batch[j].hash in hs <==> (j < first || first == -1)
  }

  lemma NewFromStep(hs: Headers, g: Hash, batch: seq<Header>, i: nat, first: int)
    requires Importable(hs, g, batch) && i < |batch| && NewFrom(hs, batch, i, first)
    ensures batch[i].hash in hs ==> first == -1
    ensures NewFrom(hs, batch, i + 1, if first == -1 && batch[i].hash !in hs then i else first)
    ensures first >= 0 ==> batch[first..i] + [batch[i]] == batch[first..i + 1]
    ensures batch[i..i + 1] == [batch[i]]
  {
    if first >= 0 && batch[i].hash in hs { KnownPrefix(hs, g, batch, first, i); }
  }

  /** Record an inserted header, and the first of them. */
  method NoteInserted(ghost hs: Headers, ghost g: Hash, batch: seq<Header>, i: nat, first0: int, inserted0: seq<Header>)
    returns (first: int, inserted: seq<Header>)
    requires Importable(hs, g, batch) && i < |batch| && NewFrom(hs, batch, i, first0) && batch[i].hash !in hs
    requires inserted0 == if first0 < 0 then [] else batch[first0..i]
    ensures NewFrom(hs, batch, i + 1, first) && first >= 0 && inserted == batch[first..i + 1]
  {
    NewFromStep(hs, g, batch, i, first0);
    first, inserted := first0, inserted0 + [batch[i]];
    if first < 0 {
      first := i;
    }
  }

  /** `hs`, `td` are `hs0`, `td0` with the first `i` headers of the batch stored
      and nothing else; `work` is the total difficulty reached. */
  ghost predicate Stored(hs0: Headers, td0: map<Hash, nat>, g: Hash, batch: seq<Header>, i: nat,
                         hs: Headers, td: map<Hash, nat>, work: nat)
    requires i <= |batch| && batch != []
  {
    && hs == Insert(hs0, batch, i) && Linked(hs, g) && TdSums(hs, g, td)
    && (forall k | k in td0 :: k in td && td[k] == td0[k])
    && (forall k | k in hs && k !in hs0 :: td[k] <= work && hs[k].difficulty > 0)
    && (var last := if i == 0 then batch[0].parent else batch[i - 1].hash;
        last in td && work == td[last])
  }

  lemma NothingNew(hs0: Headers, td0: map<Hash, nat>, g: Hash, batch: seq<Header>,
                   hs: Headers, td: map<Hash, nat>, work: nat)
    requires Importable(hs0, g, batch) && td0.Keys == hs0.Keys && forall i | 0 <= i < |batch| :: batch[i].hash in hs0
    requires Stored(hs0, td0, g, batch, |batch|, hs, td, work)
    ensures hs == hs0 && td == td0
  {
    KnownInsert(hs0, batch, |batch|);
  }

  /** During the import, `known` still means known before it. */
  lemma KnownIsOld(hs: Headers, batch: seq<Header>, i: nat)
    requires Contiguous(batch) && NoCollision(hs, batch) && i < |batch|
    ensures batch[i].hash in Insert(hs, batch, i) <==> batch[i].hash in hs
  {
    var k := batch[i].hash;
    InsertHolds(hs, batch, i, k);
    BatchNumber(batch, i);
    if k in Insert(hs, batch, i) && k !in hs {
      var j :| 0 <= j < i && batch[j].hash == k;
      BatchNumber(batch, j);
    }
  }

  /** One round of the import loop. */
  lemma StoreOne(hs0: Headers, td0: map<Hash, nat>, g: Hash, batch: seq<Header>, i: nat,
                 hs: Headers, td: map<Hash, nat>, work: nat)
    requires Importable(hs0, g, batch) && i < |batch| && td0.Keys == hs0.Keys
    requires Stored(hs0, td0, g, batch, i, hs, td, work)
    ensures batch[i].hash in hs <==> batch[i].hash in hs0
    ensures var h := batch[i]; var work' := work + h.difficulty;
            Stored(hs0, td0, g, batch, i + 1, hs[h.hash := h], td[h.hash := work'], work')
    ensures batch[i].hash in hs ==>
              hs[batch[i].hash := batch[i]] == hs && td[batch[i].hash := work + batch[i].difficulty] == td
  {
    var h := batch[i];
    KnownIsOld(hs0, batch, i);
    BatchNumber(batch, i);
    InsertHolds(hs0, batch, i, h.hash);
    InsertHolds(hs0, batch, i, h.parent);
    if i > 0 {
      assert Follows(batch, i);
    }
    assert ParentKnown(hs, h);
    if h.hash !in hs {
      AddHeader(hs, g, td, h);
    } else {
      assert hs[h.hash] == h && TdOf(hs, g, td, h.hash);
      assert hs[h.hash := h] == hs && td[h.hash := work + h.difficulty] == td;
    }
  }

  /** Store the `i`-th header unless it is known. */
  method StoreHeader(ghost hs0: Headers, ghost td0: map<Hash, nat>, ghost g: Hash, batch: seq<Header>, i: nat,
                     hs: Headers, td: map<Hash, nat>, work: nat)
    returns (hs': Headers, td': map<Hash, nat>, added: bool)
    requires i < |batch| && Importable(hs0, g, batch) && td0.Keys == hs0.Keys
    requires Stored(hs0, td0, g, batch, i, hs, td, work)
    ensures Stored(hs0, td0, g, batch, i + 1, hs', td', work + batch[i].difficulty) && added == (batch[i].hash !in hs0)
  {
    var header := batch[i];
    StoreOne(hs0, td0, g, batch, i, hs, td, work);
    hs', td', added := hs, td, header.hash !in hs;
    if added {
      hs', td' := hs[header.hash := header], td[header.hash := work + header.difficulty];
    }
  }

  /** Store the unknown headers of the batch with their total difficulty. */
  method StoreAll(hs0: Headers, td0: map<Hash, nat>, ghost g: Hash, batch: seq<Header>)
    returns (hs: Headers, td: map<Hash, nat>, work: nat, first: int, inserted: seq<Header>)
    requires Importable(hs0, g, batch) && TdSums(hs0, g, td0)
    ensures Stored(hs0, td0, g, batch, |batch|, hs, td, work) && NewFrom(hs0, batch, |batch|, first)
    ensures first == -1 ==> hs == hs0 && td == td0
    ensures inserted == if first < 0 then [] else batch[first..]
  {
    hs, td, work, first, inserted := hs0, td0, td0[batch[0].parent], -1, [];
    for i := 0 to |batch|
      invariant Stored(hs0, td0, g, batch, i, hs, td, work) && NewFrom(hs0, batch, i, first)
      invariant inserted == if first < 0 then [] else batch[first..i]
    {
      var added;
      hs, td, added := StoreHeader(hs0, td0, g, batch, i, hs, td, work);
      work := work + batch[i].difficulty;
      if added {
        first, inserted := NoteInserted(hs0, g, batch, i, first, inserted);
      } else {
        NewFromStep(hs0, g, batch, i, first);
      }
    }
    assert first >= 0 ==> batch[first..|batch|] == batch[first..];
    if first == -1 { NothingNew(hs0, td0, g, batch, hs, td, work); }
  }

  /** `markers` is `base` with the batch headers `lo..hi` written at their heights. */
  ghost predicate Overlaid(base: map<nat, Hash>, batch: seq<Header>, lo: nat, hi: nat, markers: map<nat, Hash>)
    requires lo <= hi <= |batch| && batch != []
  {
    var n0 := batch[0].number;
    && (forall n :: n in markers <==> n in base || n0 + lo <= n < n0 + hi)
    && (forall n | n in markers ::
          markers[n] == if n0 + lo <= n < n0 + hi then batch[n - n0].hash else base[n])
  }

  method WriteCanonical(base: map<nat, Hash>, batch: seq<Header>, lo: nat, part: seq<Header>)
    returns (markers: map<nat, Hash>)
    requires Contiguous(batch) && batch != []
    requires lo + |part| <= |batch| && part == batch[lo..lo + |part|]
    ensures Overlaid(base, batch, lo, lo + |part|, markers)
  {
    markers := base;
    for i := 0 to |part|
      invariant Overlaid(base, batch, lo, lo + i, markers)
    {
      BatchNumber(batch, lo + i);
      markers := markers[part[i].number := part[i].hash];
    }
  }

  /** The parent's ancestors below, the batch above, nothing higher: that is the
      exact index of the batch's last header. */
  lemma BatchOnTop(hs: Headers, g: Hash, batch: seq<Header>, canon: map<nat, Hash>)
    requires Importable(hs, g, batch) && AllKnown(hs, batch)
    requires forall n: nat | n in canon :: n < batch[0].number + |batch|
    requires forall n: nat | n < batch[0].number + |batch| :: n in canon &&
               canon[n] == if n >= batch[0].number then batch[n - batch[0].number].hash
                           else Anc(hs, g, batch[0].parent, n)
    ensures IndexExact(hs, g, canon, batch[|batch| - 1].hash)
  {
    var last := batch[|batch| - 1];
    BatchNumber(batch, |batch| - 1);
    forall n: nat | n <= last.number ensures n in canon && canon[n] == Anc(hs, g, last.hash, n) {
      BatchAncestors(hs, g, batch, |batch| - 1, n);
    }
  }

  lemma AllStored(hs: Headers, g: Hash, batch: seq<Header>)
    requires Importable(hs, g, batch) && Linked(Insert(hs, batch, |batch|), g)
    ensures var hs' := Insert(hs, batch, |batch|);
            Extends(hs, hs') && AllKnown(hs', batch) && Importable(hs', g, batch)
  {
    var hs' := Insert(hs, batch, |batch|);
    forall k | k in hs ensures k in hs' && hs'[k] == hs[k] { InsertHolds(hs, batch, |batch|, k); }
    forall i | 0 <= i < |batch| ensures batch[i].hash in hs' && hs'[batch[i].hash] == batch[i] {
      InsertHolds(hs, batch, |batch|, batch[i].hash);
    }
  }

  /** The best header has no stored child, so a batch on top of it is all new. */
  lemma BestHasNoChild(hs: Headers, g: Hash, td: map<Hash, nat>, best: Hash, batch: seq<Header>)
    requires Importable(hs, g, batch) && TdSums(hs, g, td) && best in hs && batch[0].parent == best
    requires forall k | k in hs :: td[k] <= td[best]
    ensures batch[0].hash !in hs
  {
    assert batch[0].hash in hs ==> TdOf(hs, g, td, batch[0].hash);
  }

  /** The index has the parent's ancestors below the batch, and the old entries from
      there up to the batch's last height. */
  ghost predicate HeightsKept(hs: Headers, g: Hash, batch: seq<Header>, canon: map<nat, Hash>, canon': map<nat, Hash>)
    requires Linked(hs, g) && batch != []
  {
    && ParentKnown(hs, batch[0])
    && (forall n: nat | n >= batch[0].number ::
          && (n in canon' <==> n in canon && n <= batch[|batch| - 1].number)
          && (n in canon' ==> canon'[n] == canon[n]))
    && (forall n: nat | n < batch[0].number :: n in canon' && canon'[n] == Anc(hs, g, batch[0].parent, n))
  }

  /** Re-importing known headers leaves their heights as they were, so the index
      of the last one is exact afterwards only if it was the head already. */
  lemma KnownTie(hs: Headers, g: Hash, td: map<Hash, nat>, batch: seq<Header>,
                 best: Hash, canon: map<nat, Hash>, canon': map<nat, Hash>)
    requires Importable(hs, g, batch) && AllKnown(hs, batch) && TdSums(hs, g, td)
    requires forall k | k in hs && k != g :: hs[k].difficulty > 0
    requires best in hs && IndexExact(hs, g, canon, best)
    requires var last := batch[|batch| - 1]; td[last.hash] == td[best] && last.number <= hs[best].number
    requires HeightsKept(hs, g, batch, canon, canon')
    ensures IndexExact(hs, g, canon', batch[|batch| - 1].hash) <==> batch[|batch| - 1].hash == best
  {
    var last := batch[|batch| - 1];
    BatchNumber(batch, |batch| - 1);
    if last.hash == best {
      forall n: nat | n <= last.number ensures n in canon' && canon'[n] == Anc(hs, g, best, n) {
        BatchAncestors(hs, g, batch, |batch| - 1, n);
      }
    } else {
      assert Anc(hs, g, last.hash, last.number) == last.hash;
      if last.number < hs[best].number {
        TdGrows(hs, g, td, best, last.number);
      }
    }
  }

  class HeaderChain {
    const genesis: Hash
    var headers: Headers
    var td: map<Hash, nat>
    var canon: map<nat, Hash>
    var current: Hash

    /** Stored total difficulties are the sums along the parent links and the
        current header has the largest one. */
    ghost predicate TreeOk()
      reads this
    {
      && Linked(headers, genesis) && TdSums(headers, genesis, td)
      && (forall k | k in headers && k != genesis :: headers[k].difficulty > 0)
      && current in headers
      && (forall k | k in headers :: td[k] <= td[current])
    }

    /** ... and the index is one gap-free parent-linked path from genesis to the
        current header with nothing above it. */
    ghost predicate Valid()
      reads this
    {
      TreeOk() && IndexExact(headers, genesis, canon, current)
    }

    constructor (g: Header)
      requires g.number == 0
      ensures Valid() && genesis == g.hash && headers == map[g.hash := g] && current == g.hash
    {
      genesis := g.hash;
      headers := map[g.hash := g];
      td := map[g.hash := g.difficulty];
      canon := map[0 := g.hash];
      current := g.hash;
    }

    /** The first loop of the import: store the unknown headers with their total difficulty. */
    method StoreHeaders(batch: seq<Header>) returns (newTd: nat, firstInserted: int, inserted: seq<Header>)
      requires TreeOk() && Importable(headers, genesis, batch)
      modifies this`headers, this`td
      ensures Stored(old(headers), old(td), genesis, batch, |batch|, headers, td, newTd)
      ensures NewFrom(old(headers), batch, |batch|, firstInserted)
      ensures firstInserted == -1 ==> headers == old(headers) && td == old(td)
      ensures inserted == if firstInserted < 0 then [] else batch[firstInserted..]
    {
      headers, td, newTd, firstInserted, inserted := StoreAll(headers, td, genesis, batch);
    }

    /** The index without the assignments above `top`. */
    method ClearAbove(top: nat) returns (markers: map<nat, Hash>)
      requires Linked(headers, genesis) && current in headers && IndexExact(headers, genesis, canon, current)
      ensures markers == map n: nat | n in canon && n <= top :: canon[n]
    {
      markers := canon;
      var i := top + 1;
      while i in canon
        invariant i > top
        invariant markers == map n: nat | n in canon && !(top < n < i) :: canon[n]
        decreases headers[current].number + 1 - i
      {
        markers := markers - {i};
        i := i + 1;
      }
      assert forall n: nat | n in canon && n >= i :: n <= top by {
        assert i > headers[current].number || i <= top;
      }
    }

    /** Overwrite stale assignments walking back from `parent` until the walk is canonical. */
    method Relink(parent: Hash, number: nat, pending: map<nat, Hash>) returns (markers: map<nat, Hash>)
      requires Linked(headers, genesis) && current in headers && IndexExact(headers, genesis, canon, current)
      requires parent in headers && headers[parent].number == number
      requires forall n: nat | n in canon && n <= number :: n in pending && pending[n] == canon[n]
      ensures forall n: nat | n <= number :: n in markers && markers[n] == Anc(headers, genesis, parent, n)
      ensures forall n: nat | n > number :: n in markers <==> n in pending
      ensures forall n: nat | n > number && n in pending :: markers[n] == pending[n]
    {
      markers := pending;
      var headHash: Hash, headNumber: nat := parent, number;
      AncGenesis(headers, genesis, current);
      while !(headNumber in canon && canon[headNumber] == headHash)
        invariant headNumber <= number && headHash == Anc(headers, genesis, parent, headNumber)
        invariant forall n: nat | headNumber < n <= number ::
                    n in markers && markers[n] == Anc(headers, genesis, parent, n)
        invariant forall n: nat | n <= headNumber || n > number :: n in markers <==> n in pending
        invariant forall n: nat | n in pending && (n <= headNumber || n > number) :: markers[n] == pending[n]
        decreases headNumber
      {
        assert Hangs(headers, genesis, headHash);
        assert headHash != genesis;
        markers := markers[headNumber := headHash];
        AncParent(headers, genesis, parent, headNumber - 1);
        headHash := headers[headHash].parent;
        headNumber := headNumber - 1;
      }
      forall n: nat | n <= headNumber ensures n in markers && markers[n] == Anc(headers, genesis, parent, n) {
        AncCompose(headers, genesis, parent, headNumber, n);
        if headNumber <= headers[current].number { AncCompose(headers, genesis, current, headNumber, n); }
      }
    }

    /** Rewrite the index for the new head, the last header of the batch.  When
        nothing was inserted the batch's own heights are left as they were. */
    method WriteMarkers(batch: seq<Header>, firstInserted: int, inserted: seq<Header>)
      requires Importable(headers, genesis, batch) && AllKnown(headers, batch)
      requires current in headers && IndexExact(headers, genesis, canon, current)
      requires -1 <= firstInserted < |batch|
      requires inserted == if firstInserted < 0 then [] else batch[firstInserted..]
      requires batch[0].parent == current ==> firstInserted == 0
      modifies this`canon, this`current
      ensures current == batch[|batch| - 1].hash
      ensures firstInserted >= 0 ==> IndexExact(headers, genesis, canon, current)
      ensures firstInserted < 0 ==> HeightsKept(headers, genesis, batch, old(canon), canon)
    {
      var markers: map<nat, Hash> := canon;
      var last := batch[|batch| - 1];
      BatchNumber(batch, |batch| - 1);
      if batch[0].parent != current {
        markers := ClearAbove(last.number);
        markers := Relink(batch[0].parent, batch[0].number - 1, markers);
        if firstInserted > 0 {
          markers := WriteCanonical(markers, batch, 0, batch[..firstInserted]);
        }
      }
      if firstInserted >= 0 {
        markers := WriteCanonical(markers, batch, firstInserted, inserted);
        BatchOnTop(headers, genesis, batch, markers);
      }
      canon := markers;
      current := last.hash;
    }

    /** Import a batch.  With at least one new header in it the index is exact
        afterwards; a batch of known headers that wins a tie breaks it unless
        its last header was the head already. */
    method WriteHeaders(batch: seq<Header>, coin: bool) returns (r: WriteResult)
      requires Valid()
      requires Contiguous(batch) && NoCollision(headers, batch) && AllPositive(batch)
      modifies this
      ensures batch == [] ==> unchanged(this) && r == Written(NonStat, 0, 0)
      ensures batch != [] && !ParentKnown(old(headers), batch[0]) ==> unchanged(this) && r == UnknownAncestor
      ensures batch != [] && ParentKnown(old(headers), batch[0]) ==>
                var last := batch[|batch| - 1];
                && TreeOk() && headers == Insert(old(headers), batch, |batch|) && last.hash in td
                && (forall k | k in old(td) :: k in td && td[k] == old(td)[k])
                && var switch := Prefers(td[last.hash], old(td[current]), last.number, old(headers[current].number),
                                         coin);
                var known := AllKnown(old(headers), batch);
                && current == (if switch then last.hash else old(current))
                && r.Written? && r.imported + r.ignored == |batch| && (r.imported == 0 <==> known)
                && r.status == (if known then NonStat else if switch then CanonStat else SideStat)
                && (IndexExact(headers, genesis, canon, current) <==>
                    !known || !switch || last.hash == old(current))
                && (known && switch ==> HeightsKept(headers, genesis, batch, old(canon), canon))
    {
      if batch == [] {
        return Written(NonStat, 0, 0);
      }
      if !ParentKnown(headers, batch[0]) {
        return UnknownAncestor;
      }
      ghost var hs0, canon0, best := headers, canon, current;
      if batch[0].parent == current { BestHasNoChild(headers, genesis, td, current, batch); }
      var head, last := headers[current].number, batch[|batch| - 1];
      var localTd := td[current];
      var newTd, firstInserted, inserted := StoreHeaders(batch);
      AllStored(hs0, genesis, batch);
      IndexStable(hs0, headers, genesis, canon, current);
      var reorg := newTd > localTd;
      if !reorg && newTd == localTd {
        if last.number < head {
          reorg := true;
        } else if last.number == head {
          reorg := coin;
        }
      }
      var status := SideStat;
      if reorg {
        WriteMarkers(batch, firstInserted, inserted);
        if firstInserted < 0 { KnownTie(headers, genesis, td, batch, best, canon0, canon); }
        status := CanonStat;
      }
      if |inserted| == 0 {
        status := NonStat;
      }
      r := Written(status, |batch| - |inserted|, |inserted|);
    }

    ghost predicate OnIndex(h: Hash)
      reads this
    {
      h in headers && headers[h].number in canon && canon[headers[h].number] == h
    }

    /** Every entry of the index is a stored header of its height. */
    ghost predicate IndexStored()
      reads this
    {
      forall n | n in canon :: canon[n] in headers && headers[canon[n]].number == n
    }

    /** The entry below is the parent. */
    predicate LinkedAt(n: nat)
      requires n in canon && canon[n] in headers
      reads this
    {
      n > 0 ==> n - 1 in canon && canon[n - 1] == headers[canon[n]].parent
    }

    /** ... throughout: the index is one parent-linked path from genesis up, which need
        not end at the current header. */
    ghost predicate LinkedIndex()
      reads this
    {
      IndexStored() && forall n {:trigger LinkedAt(n)} | n in canon :: LinkedAt(n)
    }

    lemma {:induction false} OnIndexBelow(h: Hash, n: nat)
      requires Linked(headers, genesis) && LinkedIndex() && OnIndex(h) && n <= headers[h].number
      ensures OnIndex(Anc(headers, genesis, h, n)) && canon[n] == Anc(headers, genesis, h, n)
      decreases headers[h].number
    {
      if n == headers[h].number {
      } else {
        assert Hangs(headers, genesis, h) && LinkedAt(headers[h].number);
        OnIndexBelow(headers[h].parent, n);
      }
    }

    /** An exact index is linked. */
    lemma ExactIsLinked()
      requires Valid()
      ensures LinkedIndex()
    {
      forall n | n in canon ensures LinkedAt(n) {
        if n > 0 { AncParent(headers, genesis, current, n - 1); }
      }
    }

    ghost predicate Known(hash: Hash, number: nat)
      reads this
    {
      hash in headers && headers[hash].number == number
    }

    /** The ancestor at height `m` is on the index. */
    ghost predicate OnIndexAt(hash: Hash, m: nat)
      requires Linked(headers, genesis) && hash in headers && m <= headers[hash].number
      reads this
    {
      OnIndex(Anc(headers, genesis, hash, m))
    }

    /** Walking down to height `low` meets the index. */
    ghost predicate Meets(hash: Hash, low: nat)
      requires Linked(headers, genesis) && hash in headers
      reads this
    {
      exists m: nat :: low <= m <= headers[hash].number && OnIndexAt(hash, m)
    }

    /** The lowest height at which the index is consulted. */
    function Lowest(number: nat, ancestor: nat, maxNonCanonical: nat): nat
      requires 2 <= ancestor <= number
    {
      if maxNonCanonical < ancestor then number - maxNonCanonical else number - ancestor + 1
    }

    /** The answer for a known header, whatever the index holds: where the walk meets the
        index, the entry of the target height, or else the walk itself if the budget lasts. */
    ghost predicate Answers(hash: Hash, number: nat, ancestor: nat, maxNonCanonical: nat, r: Option<(Hash, nat)>)
      requires Linked(headers, genesis) && Known(hash, number) && 2 <= ancestor <= number
      reads this
    {
      var target := number - ancestor;
      r == if Meets(hash, Lowest(number, ancestor, maxNonCanonical)) then
             (if target in canon then Some((canon[target], target)) else None)
           else if ancestor <= maxNonCanonical then Some((Anc(headers, genesis, hash, target), target)) else None
    }

    method Seek(hash: Hash, number: nat, ancestor: nat, maxNonCanonical: nat)
      returns (r: Option<(Hash, nat)>, budget: nat)
      requires Linked(headers, genesis) && IndexStored() && 2 <= ancestor <= number
      ensures !Known(hash, number) ==> r == None
      ensures Known(hash, number) ==> Answers(hash, number, ancestor, maxNonCanonical, r)
      ensures maxNonCanonical - ancestor <= budget <= maxNonCanonical
      ensures Known(hash, number) ==>
                forall m: nat | number - (maxNonCanonical - budget) < m <= number :: !OnIndexAt(hash, m)
    {
      budget := maxNonCanonical;
      var h, num: nat, rest: nat := hash, number, ancestor;
      ghost var known := Known(hash, number);
      while rest != 0
        invariant rest <= ancestor && number - num == ancestor - rest == maxNonCanonical - budget
        invariant known ==> h == Anc(headers, genesis, hash, num)
        invariant known ==> forall m: nat | num < m <= number :: !OnIndexAt(hash, m)
        invariant !known ==> h == hash && rest == ancestor
        decreases rest
      {
        if num in canon && canon[num] == h {
          assert known && OnIndexAt(hash, num);
          if num - rest in canon {
            return Some((canon[num - rest], num - rest)), budget;
          }
          return None, budget;
        }
        assert known ==> !OnIndexAt(hash, num);
        if budget == 0 {
          return None, budget;
        }
        budget := budget - 1;
        rest := rest - 1;
        if !(h in headers && headers[h].number == num) {
          return None, budget;
        }
        AncParent(headers, genesis, hash, num - 1);
        h := headers[h].parent;
        num := num - 1;
      }
      r := Some((h, num));
    }

    /** On a linked index, meeting it anywhere is meeting it at the lowest height. */
    lemma MeetsLowest(hash: Hash, low: nat)
      requires Linked(headers, genesis) && LinkedIndex() && hash in headers && low <= headers[hash].number
      ensures Meets(hash, low) <==> OnIndexAt(hash, low)
      ensures Meets(hash, low) ==>
                forall m: nat | m <= low :: OnIndexAt(hash, m) && canon[m] == Anc(headers, genesis, hash, m)
    {
      if Meets(hash, low) {
        var k: nat :| low <= k <= headers[hash].number && OnIndexAt(hash, k);
        forall m: nat | m <= low ensures OnIndexAt(hash, m) && canon[m] == Anc(headers, genesis, hash, m) {
          AncCompose(headers, genesis, hash, k, m);
          OnIndexBelow(Anc(headers, genesis, hash, k), m);
        }
      }
    }

    /** The n-th ancestor by the index where possible; `None` stands for the zero hash.
        Whatever the index holds, an answer is the block that the plain parent walk reaches
        exactly if the short cut was not taken or the target's own height is indexed
        rightly.  On a linked index every answer is right, and there is one exactly when
        the budget reaches the target or the index.  The budget is spent only off the
        index. */
    method GetAncestor(hash: Hash, number: nat, ancestor: nat, maxNonCanonical: nat)
      returns (r: Option<(Hash, nat)>, budget: nat)
      requires Linked(headers, genesis) && IndexStored()
      ensures ancestor > number ==> r == None
      ensures ancestor == 0 ==> r == Some((hash, number))
      ensures !Known(hash, number) && ancestor > 0 ==> r == None
      ensures Known(hash, number) && 2 <= ancestor <= number ==>
                && Answers(hash, number, ancestor, maxNonCanonical, r)
                && (r.Some? ==>
                      (r.value == (Anc(headers, genesis, hash, number - ancestor), number - ancestor) <==>
                       !Meets(hash, Lowest(number, ancestor, maxNonCanonical)) || OnIndexAt(hash, number - ancestor)))
      ensures Known(hash, number) && ancestor <= number && (ancestor <= 1 || LinkedIndex()) ==>
                && (r.Some? ==> r.value == (Anc(headers, genesis, hash, number - ancestor), number - ancestor))
                && (r.Some? <==>
                      ancestor <= 1 || ancestor <= maxNonCanonical || OnIndexAt(hash, number - maxNonCanonical))
      ensures maxNonCanonical - ancestor <= budget <= maxNonCanonical
      ensures ancestor <= 1 || ancestor > number ==> budget == maxNonCanonical
      ensures Known(hash, number) && ancestor <= number ==>
                forall m: nat | number - (maxNonCanonical - budget) < m <= number :: !OnIndexAt(hash, m)
    {
      if ancestor > number {
        return None, maxNonCanonical;
      }
      if ancestor == 1 {
        if hash in headers && headers[hash].number == number {
          AncParent(headers, genesis, hash, number - 1);
          return Some((headers[hash].parent, number - 1)), maxNonCanonical;
        }
        return None, maxNonCanonical;
      }
      if ancestor == 0 {
        return Some((hash, number)), maxNonCanonical;
      }
      r, budget := Seek(hash, number, ancestor, maxNonCanonical);
      if Known(hash, number) && LinkedIndex() {
        MeetsLowest(hash, Lowest(number, ancestor, maxNonCanonical));
      }
    }
  }

  /** The store after the batches: each is stored if its parent is known by then. */
  ghost function ImportFold(hs: Headers, batches: seq<seq<Header>>): Headers
  {
    if batches == [] then hs
    else
      var hs' := ImportFold(hs, batches[..|batches| - 1]);
      var batch := batches[|batches| - 1];
      if batch != [] && ParentKnown(hs', batch[0]) then Insert(hs', batch, |batch|) else hs'
  }

  /** Whole runs: importing any sequence of batches, skipping those without a new
      header, stores every batch whose parent is known when its turn comes, and ends
      with the exact index of a header of maximal total difficulty among all stored.
      `of` is the injective reading of hashes. */
  method ImportAll(chain: HeaderChain, batches: seq<seq<Header>>, coins: seq<bool>, ghost of: Hash -> Header)
    requires chain.Valid() && |coins| == |batches|
    requires forall h | h in chain.headers :: chain.headers[h] == of(h)
    requires forall i | 0 <= i < |batches| :: Contiguous(batches[i]) && AllPositive(batches[i])
    requires forall i, j | 0 <= i < |batches| && 0 <= j < |batches[i]| :: of(batches[i][j].hash) == batches[i][j]
    modifies chain
    ensures chain.Valid() && chain.headers == ImportFold(old(chain.headers), batches)
    ensures Linked(chain.headers, chain.genesis) && chain.LinkedIndex()
  {
    ghost var hs0 := chain.headers;
    for i := 0 to |batches|
      invariant chain.Valid() && chain.headers == ImportFold(hs0, batches[..i])
      invariant forall h | h in chain.headers :: chain.headers[h] == of(h)
    {
      assert batches[..i + 1][..i] == batches[..i];
      ImportBatch(chain, batches[i], coins[i], of);
    }
    assert batches[..|batches|] == batches;
    chain.ExactIsLinked();
  }

  /** Storing known headers again changes nothing. */
  lemma {:induction false} KnownInsert(hs: Headers, batch: seq<Header>, i: nat)
    requires i <= |batch| && NoCollision(hs, batch) && AllKnown(hs, batch)
    ensures Insert(hs, batch, i) == hs
  {
    if i == 0 {
    } else {
      KnownInsert(hs, batch, i - 1);
    }
  }

  /** Write one batch if any of it is new. */
  method ImportBatch(chain: HeaderChain, batch: seq<Header>, coin: bool, ghost of: Hash -> Header)
    requires chain.Valid() && Contiguous(batch) && AllPositive(batch)
    requires forall h | h in chain.headers :: chain.headers[h] == of(h)
    requires forall j | 0 <= j < |batch| :: of(batch[j].hash) == batch[j]
    modifies chain
    ensures chain.Valid() && forall h | h in chain.headers :: chain.headers[h] == of(h)
    ensures chain.headers == if batch != [] && ParentKnown(old(chain.headers), batch[0])
                             then Insert(old(chain.headers), batch, |batch|) else old(chain.headers)
  {
    if exists j | 0 <= j < |batch| :: batch[j].hash !in chain.headers {
      ghost var hs := chain.headers;
      var _ := chain.WriteHeaders(batch, coin);
      if ParentKnown(hs, batch[0]) {
        AllStored(hs, chain.genesis, batch);
        forall h | h in chain.headers ensures chain.headers[h] == of(h) {
          InsertHolds(hs, batch, |batch|, h);
        }
      }
    } else {
      KnownInsert(chain.headers, batch, |batch|);
    }
  }

  method OneBlock(genesis: Header, a: Header) returns (chain: HeaderChain)
    requires genesis == Header(1, 0, 0, 1) && a == Header(2, 1, 1, 1)
    ensures fresh(chain) && chain.Valid() && chain.headers == map[1 := genesis, 2 := a] && chain.current == 2
    ensures chain.genesis == 1
  {
    chain := new HeaderChain(genesis);
    var _ := chain.WriteHeaders([a], false);
    assert Insert(map[1 := genesis], [a], 1) == map[1 := genesis, 2 := a];
    assert TdOf(chain.headers, 1, chain.td, 2);
  }

  method TwoSiblings(genesis: Header, a: Header, b: Header) returns (chain: HeaderChain)
    requires genesis == Header(1, 0, 0, 1) && a == Header(2, 1, 1, 1) && b == Header(3, 1, 1, 1)
    ensures fresh(chain) && chain.Valid() && chain.headers == map[1 := genesis, 2 := a, 3 := b] && chain.current == 2
    ensures chain.genesis == 1
  {
    chain := OneBlock(genesis, a);
    var _ := chain.WriteHeaders([b], false);
    assert Insert(map[1 := genesis, 2 := a], [b], 1) == map[1 := genesis, 2 := a, 3 := b];
    assert TdOf(chain.headers, 1, chain.td, 2) && TdOf(chain.headers, 1, chain.td, 3);
  }

  /** Two siblings of equal difficulty; importing the losing one again and
      winning the coin toss leaves its sibling in the index. */
  method KnownTieExample() returns (chain: HeaderChain)
    ensures fresh(chain) && chain.TreeOk() && !IndexExact(chain.headers, chain.genesis, chain.canon, chain.current)
  {
    var genesis, a, b := Header(1, 0, 0, 1), Header(2, 1, 1, 1), Header(3, 1, 1, 1);
    chain := TwoSiblings(genesis, a, b);
    var _ := chain.WriteHeaders([b], true);
    assert Insert(map[1 := genesis, 2 := a, 3 := b], [b], 1) == map[1 := genesis, 2 := a, 3 := b];
    assert TdOf(chain.headers, 1, chain.td, 2) && TdOf(chain.headers, 1, chain.td, 3);
  }

  function Branches(genesis: Header, a: seq<Header>, b: seq<Header>): Headers
    requires |a| == |b| == 3
  {
    map[genesis.hash := genesis, a[0].hash := a[0], a[1].hash := a[1], a[2].hash := a[2],
        b[0].hash := b[0], b[1].hash := b[1], b[2].hash := b[2]]
  }

  /** The headers of the example. */
  predicate Forked(genesis: Header, a: seq<Header>, b: seq<Header>)
  {
    && genesis == Header(1, 0, 0, 1)
    && a == [Header(2, 1, 1, 1), Header(3, 2, 2, 1), Header(4, 3, 3, 1)]
    && b == [Header(5, 1, 1, 1), Header(6, 5, 2, 1), Header(7, 6, 3, 1)]
  }

  lemma BranchTds(genesis: Header, a: seq<Header>, b: seq<Header>, td: map<Hash, nat>)
    requires Forked(genesis, a, b) && TdSums(Branches(genesis, a, b), 1, td)
    ensures td[2] == td[5] == td[1] + 1 && td[3] == td[6] == td[1] + 2 && td[4] == td[7] == td[1] + 3
  {
    var hs := Branches(genesis, a, b);
    assert TdOf(hs, 1, td, 2) && TdOf(hs, 1, td, 3) && TdOf(hs, 1, td, 4);
    assert TdOf(hs, 1, td, 5) && TdOf(hs, 1, td, 6) && TdOf(hs, 1, td, 7);
  }

  lemma BranchAncestors(genesis: Header, a: seq<Header>, b: seq<Header>)
    requires Forked(genesis, a, b) && Linked(Branches(genesis, a, b), 1)
    ensures var hs := Branches(genesis, a, b);
            && Anc(hs, 1, 4, 0) == 1 && Anc(hs, 1, 4, 1) == 2 && Anc(hs, 1, 4, 2) == 3 && Anc(hs, 1, 4, 3) == 4
            && Anc(hs, 1, 6, 0) == 1 && Anc(hs, 1, 6, 1) == 5 && Anc(hs, 1, 6, 2) == 6
  {
    var hs := Branches(genesis, a, b);
    AncGenesis(hs, 1, 4);
    AncGenesis(hs, 1, 6);
    assert Anc(hs, 1, 3, 1) == Anc(hs, 1, 2, 1) == 2;
    assert Anc(hs, 1, 5, 1) == 5;
  }

  method OneBranch(genesis: Header, a: seq<Header>, b: seq<Header>) returns (chain: HeaderChain)
    requires Forked(genesis, a, b)
    ensures fresh(chain) && chain.Valid() && chain.genesis == 1 && chain.current == 4
    ensures chain.headers == map[1 := genesis, 2 := a[0], 3 := a[1], 4 := a[2]]
  {
    chain := new HeaderChain(genesis);
    var _ := chain.WriteHeaders(a, false);
    assert Insert(map[1 := genesis], a, 1) == map[1 := genesis, 2 := a[0]];
    assert Insert(map[1 := genesis], a, 2) == map[1 := genesis, 2 := a[0], 3 := a[1]];
    assert TdOf(chain.headers, 1, chain.td, 2) && TdOf(chain.headers, 1, chain.td, 3)
           && TdOf(chain.headers, 1, chain.td, 4);
  }

  lemma InsertSecond(genesis: Header, a: seq<Header>, b: seq<Header>)
    requires Forked(genesis, a, b)
    ensures Insert(map[1 := genesis, 2 := a[0], 3 := a[1], 4 := a[2]], b, 3) == Branches(genesis, a, b)
  {
    var hs := map[1 := genesis, 2 := a[0], 3 := a[1], 4 := a[2]];
    assert Insert(hs, b, 0) == hs;
    assert Insert(hs, b, 1) == hs[5 := b[0]];
    assert Insert(hs, b, 2) == hs[5 := b[0]][6 := b[1]];
    assert Insert(hs, b, 3) == hs[5 := b[0]][6 := b[1]][7 := b[2]];
  }

  /** The first branch is canonical, the second loses the toss. */
  method TwoBranches(genesis: Header, a: seq<Header>, b: seq<Header>) returns (chain: HeaderChain)
    requires Forked(genesis, a, b)
    ensures fresh(chain) && chain.Valid() && chain.headers == Branches(genesis, a, b)
    ensures chain.genesis == 1 && chain.current == 4
  {
    chain := OneBranch(genesis, a, b);
    InsertSecond(genesis, a, b);
    var _ := chain.WriteHeaders(b, false);
    BranchTds(genesis, a, b, chain.td);
  }

  lemma HalfIndex(genesis: Header, a: seq<Header>, b: seq<Header>, canon: map<nat, Hash>, canon': map<nat, Hash>)
    requires Forked(genesis, a, b) && Linked(Branches(genesis, a, b), 1)
    requires IndexExact(Branches(genesis, a, b), 1, canon, 4)
    requires HeightsKept(Branches(genesis, a, b), 1, [b[2]], canon, canon')
    ensures canon' == map[0 := 1, 1 := 5, 2 := 6, 3 := 4]
  {
    BranchAncestors(genesis, a, b);
    assert canon'.Keys == {0, 1, 2, 3};
  }

  /** Importing the last header of the losing branch again and winning the coin toss
      leaves the index half on either branch. */
  method HalfIndexed(genesis: Header, a: seq<Header>, b: seq<Header>) returns (chain: HeaderChain)
    requires Forked(genesis, a, b)
    ensures fresh(chain) && Linked(chain.headers, 1) && chain.headers == Branches(genesis, a, b) && chain.genesis == 1
    ensures chain.canon == map[0 := 1, 1 := 5, 2 := 6, 3 := 4]
  {
    chain := TwoBranches(genesis, a, b);
    ghost var canon := chain.canon;
    BranchTds(genesis, a, b, chain.td);
    KnownInsert(chain.headers, [b[2]], 1);
    var _ := chain.WriteHeaders([b[2]], true);
    HalfIndex(genesis, a, b, canon, chain.canon);
  }

  /** ... and the second ancestor of the indexed top is answered from the wrong branch. */
  method UnlinkedExample() returns (chain: HeaderChain, r: Option<(Hash, nat)>)
    ensures fresh(chain) && Linked(chain.headers, chain.genesis) && chain.IndexStored() && !chain.LinkedIndex()
    ensures chain.Known(4, 3) && Anc(chain.headers, chain.genesis, 4, 1) == 2 && r == Some((5, 1))
  {
    var genesis, a, b := Header(1, 0, 0, 1), [Header(2, 1, 1, 1), Header(3, 2, 2, 1), Header(4, 3, 3, 1)],
                         [Header(5, 1, 1, 1), Header(6, 5, 2, 1), Header(7, 6, 3, 1)];
    chain := HalfIndexed(genesis, a, b);
    BranchAncestors(genesis, a, b);
    assert chain.OnIndexAt(4, 3) && !chain.LinkedAt(3);
    var budget;
    r, budget := chain.GetAncestor(4, 3, 2, 0);
  }
}
