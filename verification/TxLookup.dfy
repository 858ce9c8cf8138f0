/** The hash lookup of all pooled transactions, local and remote, with a running
    count of the slots they take up. */
module TxLookup {
  import opened Common
  import opened Transactions
  import opened MapSum

  type Pool = map<Hash, Tx>

  ghost predicate WellHashed(m: Pool)
  {
    forall h | h in m :: m[h].hash == h
  }

  function SlotsOf(m: Pool): map<Hash, int>
  {
    map h | h in m :: NumSlots(m[h])
  }

  lemma SlotsPut(m: Pool, tx: Tx)
    requires tx.hash !in m
    ensures Sum(SlotsOf(m[tx.hash := tx])) == Sum(SlotsOf(m)) + NumSlots(tx)
  {
    SumPut(SlotsOf(m), tx.hash, NumSlots(tx));
    assert SlotsOf(m[tx.hash := tx]) == SlotsOf(m)[tx.hash := NumSlots(tx)];
  }

  lemma SlotsDrop(m: Pool, h: Hash)
    ensures Sum(SlotsOf(m - {h})) == Sum(SlotsOf(m)) - if h in m then NumSlots(m[h]) else 0
  {
    SumDrop(SlotsOf(m), h);
    assert SlotsOf(m - {h}) == SlotsOf(m) - {h};
  }

  lemma SlotsPositive(m: Pool)
    ensures Sum(SlotsOf(m)) >= 0
  {
    forall h | h in SlotsOf(m) ensures SlotsOf(m)[h] >= 0 {
      assert SlotsOf(m)[h] == NumSlots(m[h]);
    }
    SumPositive(SlotsOf(m));
  }

  ghost predicate Extends(m: Pool, m': Pool)
  {
    forall h | h in m :: h in m' && m'[h] == m[h]
  }

  /** `m'` is the part of `m` not sent by the given accounts. */
  ghost predicate Unsent(m: Pool, accounts: set<Addr>, m': Pool)
  {
    Extends(m', m) && forall h | h in m :: h in m' <==> m[h].sender !in accounts
  }

  lemma MoveOver(ls: Pool, rs: Pool, h: Hash)
    requires h in rs && h !in ls
    ensures ls[h := rs[h]] + (rs - {h}) == ls + rs
  {
    var a, b := ls[h := rs[h]] + (rs - {h}), ls + rs;
    assert a.Keys == b.Keys;
    forall k | k in b ensures a[k] == b[k] {
    }
  }

  lemma PutEither(ls: Pool, rs: Pool, tx: Tx)
    requires tx.hash !in ls && tx.hash !in rs
    ensures ls[tx.hash := tx] + rs == (ls + rs)[tx.hash := tx] && ls + rs[tx.hash := tx] == (ls + rs)[tx.hash := tx]
  {
  }

  lemma DropBoth(ls: Pool, rs: Pool, h: Hash)
    ensures (ls - {h}) + (rs - {h}) == ls + rs - {h}
  {
    var a, b := (ls - {h}) + (rs - {h}), ls + rs - {h};
    assert a.Keys == b.Keys;
    forall k | k in b ensures a[k] == b[k] {
    }
  }

  lemma DropSets(ls: Pool, rs: Pool, hs: set<Hash>)
    ensures (ls - hs) + (rs - hs) == ls + rs - hs
  {
    var a, b := (ls - hs) + (rs - hs), ls + rs - hs;
    assert a.Keys == b.Keys;
    forall k | k in b ensures a[k] == b[k] {
    }
  }

  lemma DropOneMore(m: Pool, hs: set<Hash>, h: Hash)
    ensures m - hs - {h} == m - (hs + {h})
  {
  }

  /** Of the second map's transactions, those not in `todo` have been moved or kept as
      their senders demand. */
  ghost predicate Moving(ls0: Pool, rs0: Pool, accounts: set<Addr>, ls: Pool, rs: Pool, todo: set<Hash>)
  {
    && todo <= rs.Keys && ls.Keys !! rs.Keys && ls + rs == ls0 + rs0 && Extends(rs, rs0)
    && (forall h | h in rs0 && h !in todo :: h in rs <==> rs0[h].sender !in accounts)
  }

  lemma MoveStep(ls0: Pool, rs0: Pool, accounts: set<Addr>, ls: Pool, rs: Pool, todo: set<Hash>, h: Hash)
    requires Moving(ls0, rs0, accounts, ls, rs, todo) && h in todo
    ensures if rs[h].sender in accounts
            then Moving(ls0, rs0, accounts, ls[h := rs[h]], rs - {h}, todo - {h}) && |rs - {h}| == |rs| - 1
            else Moving(ls0, rs0, accounts, ls, rs, todo - {h})
  {
    if rs[h].sender in accounts {
      MoveOver(ls, rs, h);
      assert (rs - {h}).Keys == rs.Keys - {h};
    }
  }

  /** Move the second map's transactions sent by the given accounts over to the first. */
  method Migrate(ls0: Pool, rs0: Pool, accounts: set<Addr>) returns (ls: Pool, rs: Pool, migrated: nat)
    requires ls0.Keys !! rs0.Keys
    ensures Moving(ls0, rs0, accounts, ls, rs, {}) && migrated == |rs0| - |rs|
  {
    ls, rs, migrated := ls0, rs0, 0;
    var todo := rs.Keys;
    while todo != {}
      invariant Moving(ls0, rs0, accounts, ls, rs, todo) && migrated == |rs0| - |rs|
      decreases todo
    {
      var h := Choose(todo);
      MoveStep(ls0, rs0, accounts, ls, rs, todo, h);
      todo := todo - {h};
      if rs[h].sender in accounts {
        ls, rs, migrated := ls[h := rs[h]], rs - {h}, migrated + 1;
      }
    }
  }

  class Lookup {
    var locals: Pool
    var remotes: Pool
    var slots: int

    /** The two halves are disjoint and the counter is the sum of their slots. */
    ghost predicate Valid()
      reads this
    {
      && WellHashed(locals) && WellHashed(remotes) && locals.Keys !! remotes.Keys
      && slots == Sum(SlotsOf(All()))
    }

    /** All transactions by hash. */
    function All(): Pool
      reads this
    {
      locals + remotes
    }

    constructor ()
      ensures Valid() && locals == map[] && remotes == map[]
    {
      locals, remotes, slots := map[], map[], 0;
    }

    method Add(tx: Tx, local: bool)
      requires Valid() && tx.hash !in All()
      modifies this
      ensures Valid() && All() == old(All())[tx.hash := tx]
      ensures slots == old(slots) + NumSlots(tx)
      ensures locals == if local then old(locals)[tx.hash := tx] else old(locals)
      ensures remotes == if local then old(remotes) else old(remotes)[tx.hash := tx]
    {
      SlotsPut(All(), tx);
      PutEither(locals, remotes, tx);
      slots := slots + NumSlots(tx);
      if local {
        locals := locals[tx.hash := tx];
      } else {
        remotes := remotes[tx.hash := tx];
      }
    }

    method Remove(h: Hash)
      requires Valid()
      modifies this
      ensures Valid() && locals == old(locals) - {h} && remotes == old(remotes) - {h}
      ensures slots == old(slots) - if h in old(All()) then NumSlots(old(All())[h]) else 0
    {
      SlotsDrop(All(), h);
      DropBoth(locals, remotes, h);
      if h in locals {
        slots := slots - NumSlots(locals[h]);
      } else if h in remotes {
        slots := slots - NumSlots(remotes[h]);
      }
      locals, remotes := locals - {h}, remotes - {h};
    }

    /** Move the remotes sent by the given accounts over to the locals. */
    method RemoteToLocals(accounts: set<Addr>) returns (migrated: nat)
      requires Valid()
      modifies this`locals, this`remotes
      ensures Valid() && All() == old(All())
      ensures Unsent(old(remotes), accounts, remotes)
      ensures migrated == |old(remotes)| - |remotes|
    {
      locals, remotes, migrated := Migrate(locals, remotes, accounts);
      assert forall h | h in locals :: locals[h] == All()[h];
    }
  }
}
