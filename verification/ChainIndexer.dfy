/** The chain indexer: sections of the canonical chain are handed to a backend
    header by header with the lock released, so head notifications, rollbacks and
    queries interleave with the processing and every canonical hash is read at a
    different moment. */
module ChainIndexer {
  import opened Common

  type Hash = nat
  const ZERO: Hash := 0

  /** The update loop's place in its cycle, with its local variables. */
  datatype Job =
    | Idle
    | Working(section: nat, oldHead: Hash, number: nat, lastHead: Hash, done: seq<Hash>)
    | Finished(section: nat, oldHead: Hash, newHead: Option<Hash>)

  /** `heads` is the section-head table, `indexed` what the backend committed per section. */
  datatype State = State(stored: nat, known: nat, heads: map<nat, Hash>,
                         indexed: map<nat, seq<Hash>>, job: Job)

  /** Section size, confirmations required, and the parent recorded in each header. */
  datatype Config = Config(size: nat, confirms: nat, par: Hash -> Hash)

  /** Atomic steps; `canon` answers the canonical-hash reads a step makes. */
  datatype Step =
    | NewHead(head: nat, reorg: bool)
    | Sections(canon: map<nat, Hash>)
    | Start(canon: map<nat, Hash>)
    | ResetFails
    | ReadHeader(hash: Hash, found: bool, processed: bool)
    | Commit(ok: bool)
    | Finish(canon: map<nat, Hash>)

  function SectionHead(heads: map<nat, Hash>, i: nat): Hash
  {
    if i in heads then heads[i] else ZERO
  }

  function Canonical(canon: map<nat, Hash>, n: nat): Hash
  {
    if n in canon then canon[n] else ZERO
  }

  function SetValid(s: State, n: nat): State
  {
    s.(stored := n, heads := map i | i in s.heads && !(n <= i < s.stored) :: s.heads[i])
  }

  /** Roll back until the topmost section head is canonical. */
  /** The last stored section's head is the canonical header of its height. */
  predicate TopCanonical(c: Config, s: State, canon: map<nat, Hash>)
    requires c.size > 0 && s.stored > 0
  {
    SectionHead(s.heads, s.stored - 1) == Canonical(canon, s.stored * c.size - 1)
  }

  function Verify(c: Config, s: State, canon: map<nat, Hash>): State
    requires c.size > 0
    decreases s.stored
  {
    if s.stored == 0 || TopCanonical(c, s, canon) then s
    else Verify(c, SetValid(s, s.stored - 1), canon)
  }

  /** Verifying `s` gives `goal`. */
  ghost predicate VerifiesTo(c: Config, s: State, canon: map<nat, Hash>, goal: State)
    requires c.size > 0
  {
    Verify(c, s, canon) == goal
  }

  lemma VerifyStep(c: Config, s: State, canon: map<nat, Hash>, goal: State)
    requires c.size > 0 && VerifiesTo(c, s, canon, goal)
    ensures if s.stored == 0 || TopCanonical(c, s, canon) then s == goal
            else VerifiesTo(c, SetValid(s, s.stored - 1), canon, goal)
  {
  }

  function OnNewHead(c: Config, s: State, head: nat, reorg: bool): State
    requires c.size > 0
  {
    if reorg then
      var k := (head + 1) / c.size;
      var s1 := if k < s.known then s.(known := k) else s;
      if k < s1.stored then SetValid(s1, k) else s1
    else if head >= c.confirms && (head + 1 - c.confirms) / c.size > s.known then
      s.(known := (head + 1 - c.confirms) / c.size)
    else s
  }

  function Apply(c: Config, s: State, step: Step): State
    requires c.size > 0
  {
    match (step, s.job)
    case (NewHead(head, reorg), _) => OnNewHead(c, s, head, reorg)
    case (Sections(canon), _) => Verify(c, s, canon)
    case (Start(canon), Idle) =>
      if s.known <= s.stored then s
      else
        var s1 := Verify(c, s, canon);
        var oldHead := if s1.stored > 0 then SectionHead(s1.heads, s1.stored - 1) else ZERO;
        s1.(job := Working(s1.stored, oldHead, s1.stored * c.size, oldHead, []))
    case (ResetFails, Working(section, oldHead, number, _, done)) =>
      if done != [] then s else SetValid(s, 0).(job := Finished(section, oldHead, None))
    case (ReadHeader(hash, found, processed), Working(section, oldHead, number, lastHead, done)) =>
      if number >= (section + 1) * c.size then s
      else if hash == ZERO || !found || c.par(hash) != lastHead || !processed then
        s.(job := Finished(section, oldHead, None))
      else s.(job := Working(section, oldHead, number + 1, hash, done + [hash]))
    case (Commit(ok), Working(section, oldHead, number, lastHead, done)) =>
      if number < (section + 1) * c.size then s
      else if !ok then s.(job := Finished(section, oldHead, None))
      else s.(indexed := s.indexed[section := done], job := Finished(section, oldHead, Some(lastHead)))
    case (Finish(canon), Finished(section, oldHead, newHead)) =>
      if newHead.Some? && (section == 0 || oldHead == SectionHead(s.heads, section - 1)) then
        SetValid(s.(heads := s.heads[section := newHead.value]), section + 1).(job := Idle)
      else
        var s1 := Verify(c, s, canon);
        s1.(known := s1.stored, job := Idle)
    case (_, _) => s
  }

  function Run(c: Config, s: State, steps: seq<Step>): State
    requires c.size > 0
  {
    if steps == [] then s
    else Apply(c, Run(c, s, steps[..|steps| - 1]), steps[|steps| - 1])
  }

  const INITIAL: State := State(0, 0, map[], map[], Idle)

  // ---------------------------------------------------------------- invariant

  predicate LinkAt(par: Hash -> Hash, from: Hash, list: seq<Hash>, i: nat)
    requires i < |list|
  {
    list[i] != ZERO && par(list[i]) == if i == 0 then from else list[i - 1]
  }

  /** `list` is a run of non-zero headers, each the parent of the next, on top of `from`. */
  ghost predicate Linked(par: Hash -> Hash, from: Hash, list: seq<Hash>)
  {
    forall i {:trigger LinkAt(par, from, list, i)} | 0 <= i < |list| :: LinkAt(par, from, list, i)
  }

  function Last(from: Hash, list: seq<Hash>): Hash
  {
    if list == [] then from else list[|list| - 1]
  }

  function Below(heads: map<nat, Hash>, i: nat): Hash
  {
    if i == 0 then ZERO else SectionHead(heads, i - 1)
  }

  /** Section `i` was committed as a linked run of `size` headers from head `i-1` to head `i`. */
  ghost predicate SectionOk(c: Config, heads: map<nat, Hash>, indexed: map<nat, seq<Hash>>, i: nat)
  {
    && i in heads && i in indexed && |indexed[i]| == c.size
    && Linked(c.par, Below(heads, i), indexed[i])
    && heads[i] == Last(ZERO, indexed[i])
  }

  ghost predicate JobOk(c: Config, s: State)
  {
    match s.job
    case Idle => true
    case Working(section, oldHead, number, lastHead, done) =>
      && s.stored <= section && (oldHead == ZERO <==> section == 0)
      && number == section * c.size + |done| && |done| <= c.size
      && Linked(c.par, oldHead, done) && lastHead == Last(oldHead, done)
    case Finished(section, oldHead, newHead) =>
      && s.stored <= section && (oldHead == ZERO <==> section == 0)
      && (newHead.Some? ==>
            && section in s.indexed && |s.indexed[section]| == c.size
            && Linked(c.par, oldHead, s.indexed[section])
            && newHead.value == Last(ZERO, s.indexed[section]))
  }

  /** Section heads are recorded exactly below `stored`, each reached from the
      previous one by the committed headers. */
  ghost predicate Inv(c: Config, s: State)
  {
    && c.size > 0
    && (forall i :: i in s.heads <==> 0 <= i < s.stored)
    && (forall i: nat | i < s.stored :: SectionOk(c, s.heads, s.indexed, i))
    && JobOk(c, s)
  }

  lemma SetValidKeeps(c: Config, s: State, n: nat)
    requires Inv(c, s) && n <= s.stored
    ensures Inv(c, SetValid(s, n))
  {
    var s' := SetValid(s, n);
    forall i: nat | i < n ensures SectionOk(c, s'.heads, s'.indexed, i) {
      assert SectionOk(c, s.heads, s.indexed, i);
    }
  }

  lemma {:induction false} VerifyKeeps(c: Config, s: State, canon: map<nat, Hash>)
    requires Inv(c, s)
    ensures var s' := Verify(c, s, canon);
            Inv(c, s') && s'.stored <= s.stored && s'.job == s.job && s'.known == s.known && s'.indexed == s.indexed
    decreases s.stored
  {
    if s.stored == 0 {
    } else {
      SetValidKeeps(c, s, s.stored - 1);
      if !TopCanonical(c, s, canon) {
        VerifyKeeps(c, SetValid(s, s.stored - 1), canon);
      }
    }
  }

  lemma LastNonZero(c: Config, s: State, i: nat)
    requires Inv(c, s) && i < s.stored
    ensures s.heads[i] != ZERO
  {
    assert SectionOk(c, s.heads, s.indexed, i);
    assert LinkAt(c.par, Below(s.heads, i), s.indexed[i], c.size - 1);
  }

  lemma LinkedAppend(par: Hash -> Hash, from: Hash, list: seq<Hash>, h: Hash)
    requires Linked(par, from, list) && h != ZERO && par(h) == Last(from, list)
    ensures Linked(par, from, list + [h])
  {
    forall i: nat | i < |list| + 1 ensures LinkAt(par, from, list + [h], i) {
      if i < |list| { assert LinkAt(par, from, list, i); }
    }
  }

  /** Recording a finished section whose predecessor is still the one it was built on. */
  lemma FinishKeeps(c: Config, s: State, canon: map<nat, Hash>)
    requires Inv(c, s) && s.job.Finished?
    ensures Inv(c, Apply(c, s, Finish(canon)))
  {
    var Finished(section, oldHead, newHead) := s.job;
    if newHead.Some? && (section == 0 || oldHead == SectionHead(s.heads, section - 1)) {
      assert s.stored == section;
      var s' := Apply(c, s, Finish(canon));
      forall i: nat | i < section + 1 ensures SectionOk(c, s'.heads, s'.indexed, i) {
        if i < section { assert SectionOk(c, s.heads, s.indexed, i); }
      }
    } else {
      VerifyKeeps(c, s, canon);
    }
  }

  lemma NewHeadKeeps(c: Config, s: State, head: nat, reorg: bool)
    requires Inv(c, s)
    ensures Inv(c, OnNewHead(c, s, head, reorg))
  {
    var k := (head + 1) / c.size;
    var s1 := if reorg && k < s.known then s.(known := k) else s;
    if reorg && k < s.stored { SetValidKeeps(c, s1, k); }
  }

  lemma StartKeeps(c: Config, s: State, canon: map<nat, Hash>)
    requires Inv(c, s) && s.job.Idle?
    ensures Inv(c, Apply(c, s, Start(canon)))
  {
    VerifyKeeps(c, s, canon);
    var s1 := Verify(c, s, canon);
    if s1.stored > 0 { LastNonZero(c, s1, s1.stored - 1); }
  }

  lemma ReadHeaderKeeps(c: Config, s: State, hash: Hash, found: bool, processed: bool)
    requires Inv(c, s) && s.job.Working?
    ensures Inv(c, Apply(c, s, ReadHeader(hash, found, processed)))
  {
    if hash != ZERO && c.par(hash) == s.job.lastHead {
      LinkedAppend(c.par, s.job.oldHead, s.job.done, hash);
    }
  }

  lemma CommitKeeps(c: Config, s: State, ok: bool)
    requires Inv(c, s) && s.job.Working?
    ensures Inv(c, Apply(c, s, Commit(ok)))
  {
    var s' := Apply(c, s, Commit(ok));
    forall i: nat | i < s.stored ensures SectionOk(c, s'.heads, s'.indexed, i) {
      assert SectionOk(c, s.heads, s.indexed, i);
    }
  }

  lemma StepKeeps(c: Config, s: State, step: Step)
    requires Inv(c, s)
    ensures Inv(c, Apply(c, s, step))
  {
    match (step, s.job)
    case (NewHead(head, reorg), _) => NewHeadKeeps(c, s, head, reorg);
    case (Sections(canon), _) => VerifyKeeps(c, s, canon);
    case (Start(canon), Idle) => StartKeeps(c, s, canon);
    case (ResetFails, Working(_, _, _, _, _)) => SetValidKeeps(c, s, 0);
    case (ReadHeader(hash, found, processed), Working(_, _, _, _, _)) => ReadHeaderKeeps(c, s, hash, found, processed);
    case (Commit(ok), Working(_, _, _, _, _)) => CommitKeeps(c, s, ok);
    case (Finish(canon), Finished(_, _, _)) => FinishKeeps(c, s, canon);
    case (_, _) =>
  }

  /** Every interleaving keeps the invariant. */
  lemma {:induction false} RunKeeps(c: Config, s: State, steps: seq<Step>)
    requires Inv(c, s)
    ensures Inv(c, Run(c, s, steps))
  {
    if steps == [] {
    } else {
      RunKeeps(c, s, steps[..|steps| - 1]);
      StepKeeps(c, Run(c, s, steps[..|steps| - 1]), steps[|steps| - 1]);
    }
  }

  // ------------------------------------------------------------ consequences

  /** Walking `j` parents down a linked run. */
  lemma {:induction false} UpAlong(par: Hash -> Hash, from: Hash, list: seq<Hash>, top: nat, j: nat)
    requires Linked(par, from, list) && top < |list| && j <= top + 1
    ensures Up(par, list[top], j) == if j == top + 1 then from else list[top - j]
    decreases j
  {
    if j == 0 {
    } else {
      assert LinkAt(par, from, list, top);
      if top > 0 { UpAlong(par, from, list, top - 1, j - 1); }
    }
  }

  lemma HeadsLinked(c: Config, s: State)
    requires Inv(c, s)
    ensures forall i :: i in s.heads <==> 0 <= i < s.stored
    ensures forall i: nat | i < s.stored :: Up(c.par, s.heads[i], c.size) == Below(s.heads, i)
  {
    forall i: nat | i < s.stored ensures Up(c.par, s.heads[i], c.size) == Below(s.heads, i) {
      assert SectionOk(c, s.heads, s.indexed, i);
      UpAlong(c.par, Below(s.heads, i), s.indexed[i], c.size - 1, c.size);
    }
  }

  /** For every interleaving, section heads are recorded exactly for the sections
      below `stored`, and each is reached from the previous one by exactly
      `size` parent links. */
  lemma SectionHeadsLinked(c: Config, steps: seq<Step>)
    requires c.size > 0
    ensures var s := Run(c, INITIAL, steps);
            && (forall i :: i in s.heads <==> 0 <= i < s.stored)
            && (forall i: nat | i < s.stored :: Up(c.par, s.heads[i], c.size) == Below(s.heads, i))
  {
    RunKeeps(c, INITIAL, steps);
    HeadsLinked(c, Run(c, INITIAL, steps));
  }

  /** The canonical chain read at one moment: a parent-linked index without gaps. */
  ghost predicate CanonicalChain(c: Config, canon: map<nat, Hash>)
  {
    forall n: nat {:trigger c.par(canon[n])} | n in canon && n > 0 :: n - 1 in canon && canon[n - 1] == c.par(canon[n])
  }

  /** If a section's last header is canonical, all its headers are, and so is the
      previous section's head. */
  lemma {:induction false} SectionCanonical(c: Config, from: Hash, list: seq<Hash>, base: nat, canon: map<nat, Hash>,
                                            j: nat)
    requires Linked(c.par, from, list) && CanonicalChain(c, canon) && j < |list|
    requires base + |list| - 1 in canon && canon[base + |list| - 1] == list[|list| - 1]
    ensures base + j in canon && canon[base + j] == list[j]
    ensures j == 0 && base > 0 ==> base - 1 in canon && canon[base - 1] == from
    decreases |list| - j
  {
    if j == |list| - 1 {
    } else {
      SectionCanonical(c, from, list, base, canon, j + 1);
      assert LinkAt(c.par, from, list, j + 1);
      assert c.par(canon[base + j + 1]) == list[j];
    }
    if j == 0 {
      assert LinkAt(c.par, from, list, 0);
      assert c.par(canon[base]) == from;
    }
  }

  /** Every header committed for section `i` is canonical. */
  ghost predicate SectionIsCanonical(c: Config, indexed: map<nat, seq<Hash>>, canon: map<nat, Hash>, i: nat)
  {
    var base := i * c.size;
    && i in indexed
    && forall j: nat | j < |indexed[i]| :: indexed[i][j] == Canonical(canon, base + j)
  }

  ghost predicate CanonicalBelow(c: Config, indexed: map<nat, seq<Hash>>, canon: map<nat, Hash>, k: nat)
  {
    forall i: nat | i < k :: SectionIsCanonical(c, indexed, canon, i)
  }

  /** A canonical head makes its whole section canonical, and the head below. */
  lemma HeadDecidesSection(c: Config, s: State, canon: map<nat, Hash>, i: nat)
    requires Inv(c, s) && CanonicalChain(c, canon) && i < s.stored
    ensures s.heads[i] == Canonical(canon, (i + 1) * c.size - 1) <==> SectionIsCanonical(c, s.indexed, canon, i)
    ensures i > 0 && SectionIsCanonical(c, s.indexed, canon, i) ==> s.heads[i - 1] == Canonical(canon, i * c.size - 1)
  {
    var base, list := i * c.size, s.indexed[i];
    assert base + c.size == (i + 1) * c.size;
    LastNonZero(c, s, i);
    assert SectionOk(c, s.heads, s.indexed, i);
    var from := Below(s.heads, i);
    if s.heads[i] == Canonical(canon, base + c.size - 1) {
      forall j: nat | j < |list| ensures list[j] == Canonical(canon, base + j) {
        SectionCanonical(c, from, list, base, canon, j);
      }
      SectionCanonical(c, from, list, base, canon, 0);
    }
  }

  lemma {:induction false} TopDecidesAll(c: Config, s: State, canon: map<nat, Hash>, k: nat)
    requires Inv(c, s) && CanonicalChain(c, canon) && 0 < k <= s.stored
    requires SectionIsCanonical(c, s.indexed, canon, k - 1)
    ensures CanonicalBelow(c, s.indexed, canon, k)
  {
    if k <= 1 {
    } else {
      HeadDecidesSection(c, s, canon, k - 1);
      HeadDecidesSection(c, s, canon, k - 2);
      TopDecidesAll(c, s, canon, k - 1);
    }
  }

  /** The roll-back looks at one head at a time and stops at the first match, yet
      it ends with exactly the sections that are canonical throughout. */
  lemma {:induction false} VerifyExact(c: Config, s: State, canon: map<nat, Hash>)
    requires Inv(c, s) && CanonicalChain(c, canon)
    ensures var s' := Verify(c, s, canon);
            && s'.stored <= s.stored
            && forall k: nat | k <= s.stored :: CanonicalBelow(c, s.indexed, canon, k) <==> k <= s'.stored
    decreases s.stored
  {
    if s.stored == 0 {
    } else {
      var top := s.stored - 1;
      HeadDecidesSection(c, s, canon, top);
      assert SectionHead(s.heads, top) == s.heads[top];
      if TopCanonical(c, s, canon) {
        TopDecidesAll(c, s, canon, s.stored);
      } else {
        SetValidKeeps(c, s, top);
        VerifyExact(c, SetValid(s, top), canon);
      }
    }
  }

  // ------------------------------------------------------ the object in place

  /** The indexer object; each method is one atomic step of the protocol above. */
  class Indexer {
    const c: Config
    var stored: nat
    var known: nat
    var heads: map<nat, Hash>
    var indexed: map<nat, seq<Hash>>
    var job: Job

    ghost function Now(): State
      reads this
    {
      State(stored, known, heads, indexed, job)
    }

    constructor (c: Config)
      requires c.size > 0
      ensures this.c == c && Now() == INITIAL && Inv(c, Now())
    {
      this.c := c;
      stored, known, heads, indexed, job := 0, 0, map[], map[], Idle;
    }

    method SetValidSections(n: nat)
      modifies this`stored, this`heads
      ensures Now() == SetValid(old(Now()), n)
    {
      ghost var from := stored;
      while stored > n
        invariant stored <= from && (stored < from ==> stored >= n)
        invariant heads == map i | i in old(heads) && !(stored <= i < from) :: old(heads)[i]
      {
        stored := stored - 1;
        heads := heads - {stored};
      }
      stored := n;
    }

    /** Give up the last section unless its head is canonical. */
    method VerifyTop(canon: map<nat, Hash>) returns (ok: bool)
      requires c.size > 0 && stored > 0
      modifies this`stored, this`heads
      ensures ok == old(TopCanonical(c, Now(), canon))
      ensures Now() == if ok then old(Now()) else SetValid(old(Now()), old(stored) - 1)
    {
      ok := SectionHead(heads, stored - 1) == Canonical(canon, stored * c.size - 1);
      if !ok {
        SetValidSections(stored - 1);
      }
    }

    method VerifyLastHead(canon: map<nat, Hash>)
      requires c.size > 0
      modifies this`stored, this`heads
      ensures Now() == Verify(c, old(Now()), canon)
    {
      ghost var s, goal := Now(), Verify(c, Now(), canon);
      while stored > 0
        invariant Now() == s && VerifiesTo(c, s, canon, goal)
        decreases stored
      {
        VerifyStep(c, s, canon, goal);
        var ok := VerifyTop(canon);
        if ok {
          return;
        }
        s := Now();
      }
      VerifyStep(c, s, canon, goal);
    }

    method NewHead(head: nat, reorg: bool)
      requires Inv(c, Now())
      modifies this`stored, this`heads, this`known
      ensures Now() == Apply(c, old(Now()), Step.NewHead(head, reorg)) && Inv(c, Now())
    {
      StepKeeps(c, Now(), Step.NewHead(head, reorg));
      if reorg {
        var k := (head + 1) / c.size;
        if k < known {
          known := k;
        }
        if k < stored {
          SetValidSections(k);
        }
        return;
      }
      if head >= c.confirms {
        var sections := (head + 1 - c.confirms) / c.size;
        if sections > known {
          known := sections;
        }
      }
    }

    /** The number of sections, the last header number and the last section head. */
    method Sections(canon: map<nat, Hash>) returns (n: nat, last: int, head: Hash)
      requires Inv(c, Now())
      modifies this`stored, this`heads
      ensures Now() == Apply(c, old(Now()), Step.Sections(canon)) && Inv(c, Now())
      ensures n == stored && last == stored * c.size - 1
      ensures head == if n == 0 then ZERO else heads[n - 1]
    {
      StepKeeps(c, Now(), Step.Sections(canon));
      VerifyLastHead(canon);
      n, last := stored, stored * c.size - 1;
      head := if stored == 0 then ZERO else SectionHead(heads, stored - 1);
    }

    /** Under the lock: pick the next section and remember the head it builds on. */
    method Begin(canon: map<nat, Hash>)
      requires Inv(c, Now()) && job.Idle?
      modifies this`stored, this`heads, this`job
      ensures Now() == Apply(c, old(Now()), Start(canon)) && Inv(c, Now())
    {
      StepKeeps(c, Now(), Start(canon));
      if known > stored {
        VerifyLastHead(canon);
        var oldHead := ZERO;
        if stored > 0 {
          oldHead := SectionHead(heads, stored - 1);
        }
        job := Working(stored, oldHead, stored * c.size, oldHead, []);
      }
    }

    /** Without the lock: read and process one header of the section. */
    method ProcessNext(hash: Hash, found: bool, processed: bool)
      requires Inv(c, Now()) && job.Working? && job.number < (job.section + 1) * c.size
      modifies this`job
      ensures Now() == Apply(c, old(Now()), ReadHeader(hash, found, processed)) && Inv(c, Now())
    {
      StepKeeps(c, Now(), ReadHeader(hash, found, processed));
      var Working(section, oldHead, number, lastHead, done) := job;
      if hash == ZERO || !found || c.par(hash) != lastHead || !processed {
        job := Finished(section, oldHead, None);
      } else {
        job := Working(section, oldHead, number + 1, hash, done + [hash]);
      }
    }

    /** Under the lock again: record the section if nothing rolled it back. */
    method End(canon: map<nat, Hash>)
      requires Inv(c, Now()) && job.Finished?
      modifies this`stored, this`heads, this`known, this`job
      ensures Now() == Apply(c, old(Now()), Finish(canon)) && Inv(c, Now())
    {
      StepKeeps(c, Now(), Finish(canon));
      var Finished(section, oldHead, newHead) := job;
      if newHead.Some? && (section == 0 || oldHead == SectionHead(heads, section - 1)) {
        heads := heads[section := newHead.value];
        SetValidSections(section + 1);
      } else {
        VerifyLastHead(canon);
        known := stored;
      }
      job := Idle;
    }
  }
}
