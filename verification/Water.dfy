/** Cutting many lists down to one level, as the pool does with pending lists that
    together exceed the global limit. */
module Water {
  import opened Common
  import opened Transactions
  import opened PoolLists
  import opened PoolState

  /** Local lists are whole, lists in `cut` are at level `level - 1`, all others at
      `level`: each keeps its lowest nonces, at most that many. */
  ghost predicate Level(p0: ByAccount, p: ByAccount, locals: set<Addr>, cut: set<Addr>, level: nat)
  {
    forall a {:trigger Flooded(p0, p, locals, cut, level, a)} :: Flooded(p0, p, locals, cut, level, a)
  }

  ghost predicate Flooded(p0: ByAccount, p: ByAccount, locals: set<Addr>, cut: set<Addr>, level: nat, a: Addr)
  {
    if a in locals then Get(p, a) == Get(p0, a)
    else if a in cut then level > 0 && Lowest(Get(p0, a), level - 1, Get(p, a))
    else Lowest(Get(p0, a), level, Get(p, a))
  }

  /** All lists but those in `offs` are within `count` or local. */
  ghost predicate Short(p0: ByAccount, locals: set<Addr>, offs: set<Addr>, count: nat)
  {
    forall a | a !in locals && a !in offs :: |Get(p0, a)| <= count
  }

  /** No list but the local ones reaches the level: nothing is cut. */
  lemma LevelAbove(p: ByAccount, locals: set<Addr>, level: nat)
    requires Short(p, locals, {}, level)
    ensures Level(p, p, locals, {}, level)
  {
    forall a ensures Flooded(p, p, locals, {}, level, a) {
      LowestAll(Get(p, a));
    }
  }

  lemma DownPair(m: Items, level: nat, k1: Items, k2: Items, a: nat, b: nat)
    requires Lowest(m, level, k1) && SubItems(k2, k1) && (forall x, y | x in k2 && y in k1 - k2.Keys :: x < y)
    requires a in k2 && b in m && b !in k2
    ensures a < b
  {
    if b in k1 { assert b in k1 - k2.Keys; } else { assert a in k1 && b in m - k1.Keys; }
  }

  lemma LowestDown(m: Items, level: nat, k1: Items, k2: Items)
    requires 0 < level <= |m| && Lowest(m, level, k1) && Lowest(k1, level - 1, k2)
    ensures Lowest(m, level - 1, k2)
  {
    forall n | n in k2 ensures n in m && k2[n] == m[n] {
      assert n in k1;
    }
    SplitOff(m, k2);
    forall a, b | a in k2 && b in m - k2.Keys ensures a < b {
      DownPair(m, level, k1, k2, a, b);
    }
  }

  lemma FloodedCut(p0: ByAccount, p: ByAccount, p': ByAccount, locals: set<Addr>, cut: set<Addr>, level: nat, a: Addr)
    requires Level(p0, p, locals, cut, level) && a !in locals && a !in cut && 0 < level <= |Get(p0, a)|
    requires Lowest(Get(p, a), level - 1, Get(p', a))
    ensures Flooded(p0, p', locals, cut + {a}, level, a) && |Get(p, a)| == level && |Get(p', a)| == level - 1
  {
    assert Flooded(p0, p, locals, cut, level, a);
    LowestDown(Get(p0, a), level, Get(p, a), Get(p', a));
  }

  lemma FloodedSame(p0: ByAccount, p: ByAccount, p': ByAccount, locals: set<Addr>, cut: set<Addr>, cut': set<Addr>,
                    level: nat, b: Addr)
    requires Level(p0, p, locals, cut, level) && Get(p', b) == Get(p, b) && (b in cut <==> b in cut')
    ensures Flooded(p0, p', locals, cut', level, b)
  {
    assert Flooded(p0, p, locals, cut, level, b);
  }

  lemma LevelCut(p0: ByAccount, p: ByAccount, p': ByAccount, locals: set<Addr>, cut: set<Addr>, level: nat, a: Addr)
    requires Level(p0, p, locals, cut, level) && Flooded(p0, p', locals, cut + {a}, level, a)
    requires forall b | b != a :: Get(p', b) == Get(p, b)
    ensures Level(p0, p', locals, cut + {a}, level)
  {
    forall b ensures Flooded(p0, p', locals, cut + {a}, level, b) {
      if b != a { FloodedSame(p0, p, p', locals, cut, cut + {a}, level, b); }
    }
  }

  /** Cutting one more list by one. */
  lemma CutOneMore(p0: ByAccount, p: ByAccount, p': ByAccount, locals: set<Addr>, cut: set<Addr>, level: nat, a: Addr)
    requires Level(p0, p, locals, cut, level) && a !in locals && a !in cut && 0 < level <= |Get(p0, a)|
    requires p' == SetList(p, a, Get(p', a)) && Lowest(Get(p, a), level - 1, Get(p', a))
    ensures Level(p0, p', locals, cut + {a}, level) && Total(p') == Total(p) - 1
  {
    FloodedCut(p0, p, p', locals, cut, level, a);
    GetSet(p, a, Get(p', a));
    TotalSet(p, a, Get(p', a));
    LevelCut(p0, p, p', locals, cut, level, a);
  }

  /** Once all lists above the next level are cut, that level is reached. */
  lemma RoundDone(p0: ByAccount, p: ByAccount, locals: set<Addr>, offs: set<Addr>, level: nat, next: nat)
    requires level == next + 1 && Level(p0, p, locals, offs, level) && Short(p0, locals, offs, next)
    ensures Level(p0, p, locals, {}, next)
  {
    forall a ensures Flooded(p0, p, locals, {}, next, a) {
      assert Flooded(p0, p, locals, offs, level, a);
    }
  }

  /** The accounts' lists are at one level, and at the next higher level they would
      together exceed the limit. */
  ghost predicate Filled(p0: ByAccount, p: ByAccount, locals: set<Addr>, limit: nat, level: nat, above: ByAccount)
  {
    && Level(p0, p, locals, {}, level)
    && Level(p0, above, locals, {}, level + 1) && Total(above) > limit
  }

  /** The pending nonce of an account is at most any nonce cut from its list. */
  ghost predicate NoncesFollow(p0: ByAccount, p: ByAccount, nonces: map<Addr, nat>, base: map<Addr, nat>)
  {
    forall a, n | n in Get(p0, a) && n !in Get(p, a) :: NonceOf(nonces, base, a) <= n
  }

  lemma NoncesFollowCut(p0: ByAccount, p: ByAccount, p': ByAccount, nonces: map<Addr, nat>, base: map<Addr, nat>,
                        a: Addr, top: nat)
    requires NoncesFollow(p0, p, nonces, base) && p' == SetList(p, a, Get(p, a) - {top})
    ensures NoncesFollow(p0, p', Lowered(nonces, base, a, top), base)
  {
    GetSet(p, a, Get(p, a) - {top});
    forall b, n | n in Get(p0, b) && n !in Get(p', b) ensures NonceOf(Lowered(nonces, base, a, top), base, b) <= n {
      assert n !in Get(p, b) || (b == a && n == top);
    }
  }

  // ------------------------------------------------- choosing whom to cut next

  function SetOf(s: seq<Addr>): set<Addr>
  {
    set a | a in s
  }

  ghost predicate Distinct(s: seq<Addr>)
  {
    forall i, j | 0 <= i < j < |s| :: s[i] != s[j]
  }

  ghost predicate AllLong(p0: ByAccount, locals: set<Addr>, offs: seq<Addr>, count: nat)
  {
    forall i | 0 <= i < |offs| :: offs[i] !in locals && |Get(p0, offs[i])| >= count
  }

  /** Whoever is not local and has more than `slots` is an offender or still queued as a
      spammer, with the length of its list. */
  ghost predicate Spammers(p0: ByAccount, locals: set<Addr>, slots: nat, offs: seq<Addr>, spammers: map<Addr, nat>)
  {
    && Distinct(offs) && SetOf(offs) !! spammers.Keys
    && AllLong(p0, locals, offs, slots + 1)
    && (forall a | a in spammers :: a !in locals && spammers[a] == |Get(p0, a)| > slots)
    && Short(p0, locals, SetOf(offs) + spammers.Keys, slots)
  }

  /** The state between two rounds of choosing an offender. */
  ghost predicate Filling(p0: ByAccount, p: ByAccount, locals: set<Addr>, slots: nat, limit: nat,
                          offs: seq<Addr>, spammers: map<Addr, nat>, level: nat, above: ByAccount)
  {
    && Filled(p0, p, locals, limit, level, above) && level >= slots
    && Spammers(p0, locals, slots, offs, spammers)
    && (offs == [] ==> p == p0)
    && (offs != [] ==> forall a | a in spammers :: spammers[a] <= level)
    && (Total(p) > limit ==> AllLong(p0, locals, offs, level) || offs == [])
  }

  lemma {:induction false} LongestBound(p: ByAccount) returns (bound: nat)
    ensures forall a :: |Get(p, a)| <= bound
    decreases |p|
  {
    if p == map[] {
      bound := 0;
    } else {
      var a := SomeKey(p);
      var rest := LongestBound(p - {a});
      bound := if rest < |p[a]| then |p[a]| else rest;
      forall b ensures |Get(p, b)| <= bound {
        assert b == a || Get(p, b) == Get(p - {a}, b);
      }
    }
  }

  lemma FillStart(p: ByAccount, locals: set<Addr>, slots: nat, limit: nat, spammers: map<Addr, nat>)
    returns (level: nat)
    requires Total(p) > limit && Spammers(p, locals, slots, [], spammers)
    ensures Filling(p, p, locals, slots, limit, [], spammers, level, p)
  {
    var bound := LongestBound(p);
    level := bound + slots;
    LevelAbove(p, locals, level);
    LevelAbove(p, locals, level + 1);
  }

  ghost predicate Largest(spammers: map<Addr, nat>, b: Addr)
  {
    b in spammers && forall a | a in spammers :: spammers[a] <= spammers[b]
  }

  lemma PopKeeps(p0: ByAccount, locals: set<Addr>, slots: nat, offs: seq<Addr>, spammers: map<Addr, nat>, b: Addr)
    requires Spammers(p0, locals, slots, offs, spammers) && b in spammers
    ensures Spammers(p0, locals, slots, offs + [b], spammers - {b})
    ensures SetOf(offs + [b]) == SetOf(offs) + {b}
  {
  }

  lemma FirstIsLongest(p0: ByAccount, locals: set<Addr>, slots: nat, spammers: map<Addr, nat>, b: Addr)
    requires Spammers(p0, locals, slots, [], spammers) && Largest(spammers, b)
    ensures Short(p0, locals, {}, |Get(p0, b)|)
  {
    forall a | a !in locals ensures |Get(p0, a)| <= |Get(p0, b)| {
      if a in spammers { assert spammers[a] <= spammers[b]; } else { assert a !in SetOf([]) + spammers.Keys; }
    }
  }

  /** The first offender sets the level. */
  lemma FillFirst(p: ByAccount, locals: set<Addr>, slots: nat, limit: nat, spammers: map<Addr, nat>, b: Addr)
    requires Spammers(p, locals, slots, [], spammers) && Largest(spammers, b) && Total(p) > limit
    ensures Filling(p, p, locals, slots, limit, [b], spammers - {b}, |Get(p, b)|, p)
  {
    FirstIsLongest(p, locals, slots, spammers, b);
    LevelAbove(p, locals, |Get(p, b)|);
    LevelAbove(p, locals, |Get(p, b)| + 1);
    FillNext(p, p, locals, slots, limit, [], spammers, |Get(p, b)|, p, b);
    assert [] + [b] == [b];
  }

  /** The next one joins once the others are cut down to it, or the limit is met. */
  lemma FillNext(p0: ByAccount, p: ByAccount, locals: set<Addr>, slots: nat, limit: nat, offs: seq<Addr>,
                 spammers: map<Addr, nat>, level: nat, above: ByAccount, b: Addr)
    requires Filled(p0, p, locals, limit, level, above) && Spammers(p0, locals, slots, offs, spammers)
    requires Largest(spammers, b) && spammers[b] <= level && (Total(p) > limit ==> level == spammers[b])
    requires Total(p) > limit ==> AllLong(p0, locals, offs, level)
    ensures Filling(p0, p, locals, slots, limit, offs + [b], spammers - {b}, level, above)
  {
    PopKeeps(p0, locals, slots, offs, spammers, b);
  }

  // ------------------------------------------------------------ one round of cuts

  /** A round has cut the lists in `cut` and has `rest` to go. */
  ghost predicate Rounding(p0: ByAccount, p: ByAccount, locals: set<Addr>, offs: seq<Addr>, level: nat,
                           rest: seq<Addr>, cut: set<Addr>)
  {
    && Level(p0, p, locals, cut, level) && Distinct(rest) && AllLong(p0, locals, rest, level)
    && SetOf(rest) !! cut && SetOf(rest) + cut == SetOf(offs)
  }

  lemma AtLevel(p0: ByAccount, p: ByAccount, locals: set<Addr>, offs: seq<Addr>, level: nat, rest: seq<Addr>,
                cut: set<Addr>)
    requires Rounding(p0, p, locals, offs, level, rest, cut) && rest != []
    ensures |Get(p, rest[0])| == level
  {
    assert rest[0] in SetOf(rest);
    assert Flooded(p0, p, locals, cut, level, rest[0]);
  }

  lemma CutHead(p0: ByAccount, p: ByAccount, p': ByAccount, locals: set<Addr>, cut: set<Addr>, level: nat,
                a: Addr, kept: Items, top: nat)
    requires Level(p0, p, locals, cut, level) && a !in locals && a !in cut && 0 < level <= |Get(p0, a)|
    requires |Get(p, a)| == level && p' == SetList(p, a, kept) && kept == Get(p, a) - {top} && Highest(Get(p, a), top)
    ensures Level(p0, p', locals, cut + {a}, level) && Total(p') == Total(p) - 1
  {
    TopOff(Get(p, a), top);
    GetSet(p, a, kept);
    CutOneMore(p0, p, p', locals, cut, level, a);
  }

  lemma RestLong(p0: ByAccount, locals: set<Addr>, rest: seq<Addr>, level: nat)
    requires rest != [] && Distinct(rest) && AllLong(p0, locals, rest, level)
    ensures Distinct(rest[1..]) && AllLong(p0, locals, rest[1..], level)
  {
  }

  lemma RoundStep(p0: ByAccount, p: ByAccount, p': ByAccount, locals: set<Addr>, offs: seq<Addr>, level: nat,
                  rest: seq<Addr>, cut: set<Addr>, kept: Items, top: nat)
    requires Rounding(p0, p, locals, offs, level, rest, cut) && rest != [] && level > 0
    requires p' == SetList(p, rest[0], kept) && kept == Get(p, rest[0]) - {top} && Highest(Get(p, rest[0]), top)
    ensures Rounding(p0, p', locals, offs, level, rest[1..], cut + {rest[0]}) && Total(p') == Total(p) - 1
  {
    AtLevel(p0, p, locals, offs, level, rest, cut);
    RestSet(rest);
    RestLong(p0, locals, rest, level);
    CutHead(p0, p, p', locals, cut, level, rest[0], kept, top);
  }

  lemma RestSet(s: seq<Addr>)
    requires s != [] && Distinct(s)
    ensures SetOf(s) == {s[0]} + SetOf(s[1..]) && s[0] !in SetOf(s[1..])
  {
    assert s == [s[0]] + s[1..];
  }

  // -------------------------------------------------------- rounds to a threshold

  /** Offenders are being cut down to `threshold`, and nobody else is longer than that. */
  ghost predicate Sinking(p0: ByAccount, p: ByAccount, locals: set<Addr>, limit: nat, offs: seq<Addr>, threshold: nat,
                          level: nat, above: ByAccount)
  {
    && Filled(p0, p, locals, limit, level, above) && 1 <= threshold <= level
    && offs != [] && Distinct(offs) && Short(p0, locals, SetOf(offs), threshold)
    && (Total(p) > limit ==> AllLong(p0, locals, offs, level))
  }

  lemma OffenderAtLevel(p0: ByAccount, p: ByAccount, locals: set<Addr>, limit: nat, offs: seq<Addr>, threshold: nat,
                        level: nat, above: ByAccount)
    requires Sinking(p0, p, locals, limit, offs, threshold, level, above) && Total(p) > limit
    ensures |Get(p, offs[|offs| - 1])| == level && Rounding(p0, p, locals, offs, level, offs, {})
    ensures level > threshold ==> Short(p0, locals, SetOf(offs), level - 1)
  {
    assert Flooded(p0, p, locals, {}, level, offs[|offs| - 1]);
  }

  lemma OffendersAbove(p0: ByAccount, p: ByAccount, locals: set<Addr>, limit: nat, offs: seq<Addr>, threshold: nat,
                       level: nat, above: ByAccount) returns (next: nat)
    requires Sinking(p0, p, locals, limit, offs, threshold, level, above) && Total(p) > limit
    requires |Get(p, offs[|offs| - 1])| > threshold
    ensures level == next + 1 > threshold && next >= 1
    ensures Rounding(p0, p, locals, offs, level, offs, {}) && Short(p0, locals, SetOf(offs), next)
  {
    OffenderAtLevel(p0, p, locals, limit, offs, threshold, level, above);
    next := level - 1;
  }

  lemma SinkOne(p0: ByAccount, p: ByAccount, p': ByAccount, locals: set<Addr>, limit: nat, offs: seq<Addr>,
                threshold: nat, level: nat, above: ByAccount, next: nat)
    requires Sinking(p0, p, locals, limit, offs, threshold, level, above) && Total(p) > limit
    requires level == next + 1 > threshold && Level(p0, p', locals, {}, next)
    ensures Sinking(p0, p', locals, limit, offs, threshold, next, p)
  {
  }

  /** Offenders are cut down to the length of the next spammer. */
  lemma SinkToNext(p0: ByAccount, p: ByAccount, locals: set<Addr>, slots: nat, limit: nat, offs: seq<Addr>,
                   spammers: map<Addr, nat>, level: nat, above: ByAccount, b: Addr)
    requires Filling(p0, p, locals, slots, limit, offs, spammers, level, above) && offs != [] && Largest(spammers, b)
    ensures Sinking(p0, p, locals, limit, offs, spammers[b], level, above) && |Get(p, b)| == spammers[b]
  {
    assert Flooded(p0, p, locals, {}, level, b);
    forall a | a !in locals && a !in SetOf(offs) ensures |Get(p0, a)| <= spammers[b] {
      if a in spammers { assert spammers[a] <= spammers[b]; } else { assert a !in SetOf(offs) + spammers.Keys; }
    }
  }

  /** With no spammer left, offenders may be cut down to the guaranteed slots. */
  lemma SinkToSlots(p0: ByAccount, p: ByAccount, locals: set<Addr>, slots: nat, limit: nat, offs: seq<Addr>,
                    spammers: map<Addr, nat>, level: nat, above: ByAccount)
    requires Filling(p0, p, locals, slots, limit, offs, spammers, level, above) && offs != [] && spammers == map[]
    requires slots > 0
    ensures Sinking(p0, p, locals, limit, offs, slots, level, above)
  {
    forall a | a !in locals && a !in SetOf(offs) ensures |Get(p0, a)| <= slots {
      assert a !in SetOf(offs) + spammers.Keys;
    }
  }

  /** At the level of the guaranteed slots, nobody but local accounts has more. */
  lemma DownToSlots(p0: ByAccount, p: ByAccount, locals: set<Addr>, slots: nat)
    requires Level(p0, p, locals, {}, slots) || (p == p0 && Short(p0, locals, {}, slots))
    ensures Short(p, locals, {}, slots)
  {
    forall a | a !in locals ensures |Get(p, a)| <= slots {
      if Level(p0, p, locals, {}, slots) { assert Flooded(p0, p, locals, {}, slots, a); }
    }
  }

  method PopLargest(spammers: map<Addr, nat>) returns (b: Addr)
    requires spammers != map[]
    ensures Largest(spammers, b)
  {
    var todo := spammers.Keys;
    b := Choose(todo);
    todo := todo - {b};
    while todo != {}
      invariant b in spammers && b !in todo && todo <= spammers.Keys
      invariant forall a | a in spammers && a !in todo :: spammers[a] <= spammers[b]
      decreases todo
    {
      var a := Choose(todo);
      todo := todo - {a};
      if spammers[a] > spammers[b] {
        b := a;
      }
    }
  }

  /** Accounts that are not local and have more than the guaranteed slots. */
  function SpammersOf(p: ByAccount, locals: set<Addr>, slots: nat): map<Addr, nat>
  {
    map a | a in p && a !in locals && |p[a]| > slots :: |p[a]|
  }

  lemma SpammersAre(p: ByAccount, locals: set<Addr>, slots: nat)
    ensures Spammers(p, locals, slots, [], SpammersOf(p, locals, slots))
  {
  }

  lemma PopSize(spammers: map<Addr, nat>, b: Addr)
    requires b in spammers
    ensures |spammers - {b}| < |spammers|
  {
    assert (spammers - {b}).Keys == spammers.Keys - {b};
  }

  // ------------------------------------------------------ the result is determined

  lemma LowestUnique(m: Items, count: nat, k1: Items, k2: Items)
    requires Lowest(m, count, k1) && Lowest(m, count, k2)
    ensures k1 == k2
  {
    if k1.Keys == k2.Keys {
      assert k1 == k2;
    } else {
      var x := OnlyIn(k1.Keys, k2.Keys);
      var y := OnlyIn(k2.Keys, k1.Keys);
      assert false;
    }
  }

  lemma OnlyIn(a: set<nat>, b: set<nat>) returns (x: nat)
    requires a != b && |a| == |b|
    ensures x in a && x !in b
  {
    if a <= b { SubsetSameSize(a, b); }
    x :| x in a && x !in b;
  }

  lemma {:induction false} TotalGrows(p: ByAccount, p': ByAccount)
    requires forall a :: |Get(p, a)| <= |Get(p', a)|
    ensures Total(p) <= Total(p')
    decreases |p|
  {
    if p == map[] {
      assert Sizes(p) == map[];
      TotalPositive(p');
    } else {
      var a := SomeKey(p);
      TotalSet(p, a, map[]);
      TotalSet(p', a, map[]);
      forall b ensures |Get(p - {a}, b)| <= |Get(p' - {a}, b)| {
        GetSet(p, a, map[]);
        GetSet(p', a, map[]);
        assert |Get(p, b)| <= |Get(p', b)|;
      }
      TotalGrows(p - {a}, p' - {a});
    }
  }

  lemma HigherHoldsMore(p0: ByAccount, p: ByAccount, p': ByAccount, locals: set<Addr>, low: nat, high: nat)
    requires Level(p0, p, locals, {}, low) && Level(p0, p', locals, {}, high) && low <= high
    ensures Total(p) <= Total(p')
  {
    forall a ensures |Get(p, a)| <= |Get(p', a)| {
      assert Flooded(p0, p, locals, {}, low, a) && Flooded(p0, p', locals, {}, high, a);
    }
    TotalGrows(p, p');
  }

  /** A level within the limit is not above one that cannot be raised. */
  lemma NotHigher(p0: ByAccount, p: ByAccount, p': ByAccount, locals: set<Addr>, limit: nat, level: nat, level': nat,
                  above: ByAccount)
    requires Filled(p0, p, locals, limit, level, above) && Level(p0, p', locals, {}, level') && Total(p') <= limit
    ensures level' <= level
  {
    if level < level' {
      HigherHoldsMore(p0, above, p', locals, level + 1, level');
      assert false;
    }
  }

  lemma OneLevelOneResult(p0: ByAccount, p: ByAccount, p': ByAccount, locals: set<Addr>, level: nat, level': nat)
    requires Level(p0, p, locals, {}, level) && Level(p0, p', locals, {}, level') && level == level'
    ensures forall a :: Get(p, a) == Get(p', a)
  {
    forall a ensures Get(p, a) == Get(p', a) {
      assert Flooded(p0, p, locals, {}, level, a) && Flooded(p0, p', locals, {}, level', a);
      if a !in locals { LowestUnique(Get(p0, a), level, Get(p, a), Get(p', a)); }
    }
  }

  /** Lists that are all within the guaranteed slots were cut down to these. */
  lemma DownTo(p0: ByAccount, p: ByAccount, locals: set<Addr>, slots: nat, level: nat)
    requires Level(p0, p, locals, {}, level) && slots <= level && Short(p, locals, {}, slots)
    ensures Level(p0, p, locals, {}, slots)
  {
    forall a ensures Flooded(p0, p, locals, {}, slots, a) {
      assert Flooded(p0, p, locals, {}, level, a);
    }
  }

  /** What cutting has to achieve: one level for all, not below the guaranteed slots and
      not to be raised, and the limit met unless nobody has more than those slots. */
  ghost predicate Fair(p0: ByAccount, p: ByAccount, locals: set<Addr>, limit: nat, slots: nat, level: nat,
                       above: ByAccount)
  {
    && level >= slots && Filled(p0, p, locals, limit, level, above)
    && (Total(p) <= limit || Short(p, locals, {}, slots))
  }

  lemma MetOrNot(p0: ByAccount, p: ByAccount, p': ByAccount, locals: set<Addr>, limit: nat, slots: nat,
                 level: nat, level': nat, above: ByAccount, above': ByAccount)
    requires Fair(p0, p, locals, limit, slots, level, above) && Fair(p0, p', locals, limit, slots, level', above')
    requires Total(p') > limit
    ensures Total(p) > limit
  {
    DownTo(p0, p', locals, slots, level');
    HigherHoldsMore(p0, p', p, locals, slots, level);
  }

  /** The lists are the same in whatever order the accounts were cut. */
  lemma FairShareIsUnique(p0: ByAccount, p: ByAccount, p': ByAccount, locals: set<Addr>, limit: nat, slots: nat,
                          level: nat, level': nat, above: ByAccount, above': ByAccount)
    requires Fair(p0, p, locals, limit, slots, level, above) && Fair(p0, p', locals, limit, slots, level', above')
    ensures forall a :: Get(p, a) == Get(p', a)
  {
    if Total(p) <= limit && Total(p') <= limit {
      NotHigher(p0, p, p', locals, limit, level, level', above);
      NotHigher(p0, p', p, locals, limit, level', level, above');
      OneLevelOneResult(p0, p, p', locals, level, level');
    } else {
      if Total(p) > limit {
        MetOrNot(p0, p', p, locals, limit, slots, level', level, above', above);
      } else {
        MetOrNot(p0, p, p', locals, limit, slots, level, level', above, above');
      }
      DownTo(p0, p, locals, slots, level);
      DownTo(p0, p', locals, slots, level');
      OneLevelOneResult(p0, p, p', locals, slots, slots);
    }
  }
}
