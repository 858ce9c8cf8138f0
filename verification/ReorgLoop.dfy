/** The pool's reorg scheduler: requests are coalesced into the next background run
    while at most one run is active; every requester gets the channel that the run
    serving it will close.  Channels are numbered by the run they belong to. */
module ReorgLoop {
  import opened Common
  import opened Transactions

  type Head = nat
  /** Queued events: one sorted map per sender. */
  type EventMap = map<Addr, Items>

  datatype Reset = Reset(oldHead: Head, newHead: Head)
  /** A launched background run with the arguments it was given. */
  datatype Job = Job(reset: Option<Reset>, dirty: Option<set<Addr>>, events: EventMap)
  /** What was asked for, and the channel handed back. */
  datatype Request = ForReset(done: nat) | ForPromote(addrs: set<Addr>, done: nat)

  /** `curDone` is the channel of the active run as the loop sees it; the variables
      `launch`, `reset`, `dirty`, `events` describe the next run.  `jobs`, `closed`,
      `requests`, `queued` are the history, with the events queued before each launch
      in `batches` and those since the latest in `since`; `head` is the block the
      chain-event loop saw last. */
  datatype State = State(
    curDone: Option<nat>, launch: bool, reset: Option<Reset>, dirty: Option<set<Addr>>, events: EventMap,
    jobs: seq<Job>, closed: set<nat>, down: bool,
    head: Head, requests: seq<Request>, queued: seq<Tx>, batches: seq<seq<Tx>>, since: seq<Tx>)

  datatype Step =
    | RequestReset(newHead: Head)
    | RequestPromote(addrs: set<Addr>)
    | QueueEvent(tx: Tx)
    | RunEnds
    | ObserveDone
    | Shutdown

  function Initial(head: Head): State
  {
    State(None, false, None, None, map[], [], {}, false, head, [], [], [], [])
  }

  /** An event takes the place of an earlier one of its sender and nonce. */
  function File(events: EventMap, tx: Tx): EventMap
  {
    var items := if tx.sender in events then events[tx.sender] else map[];
    events[tx.sender := items[tx.nonce := tx]]
  }

  /** The channel of the run to be launched next. */
  function NextDone(s: State): nat
  {
    |s.jobs|
  }

  /** Top of the loop: hand the collected work to a background run if none is active. */
  function LaunchIfNeeded(s: State): State
  {
    if s.curDone == None && s.launch && !s.down then
      s.(curDone := Some(NextDone(s)), launch := false, reset := None, dirty := None, events := map[],
         jobs := s.jobs + [Job(s.reset, s.dirty, s.events)], batches := s.batches + [s.since], since := [])
    else s
  }

  /** A new head starts a reset or extends the one that waits. */
  function Retarget(reset: Option<Reset>, head: Head, newHead: Head): Reset
  {
    if reset.None? then Reset(head, newHead) else reset.value.(newHead := newHead)
  }

  /** One step of the environment or one select of the loop, and the loop's top after it. */
  function Apply(s: State, step: Step): State
  {
    if s.down then s
    else
      match step
      case RequestReset(newHead) =>
        var r := Retarget(s.reset, s.head, newHead);
        LaunchIfNeeded(s.(reset := Some(r), launch := true, head := newHead,
                          requests := s.requests + [ForReset(NextDone(s))]))
      case RequestPromote(addrs) =>
        var d := if s.dirty.None? then addrs else s.dirty.value + addrs;
        LaunchIfNeeded(s.(dirty := Some(d), launch := true,
                          requests := s.requests + [ForPromote(addrs, NextDone(s))]))
      case QueueEvent(tx) =>
        LaunchIfNeeded(s.(events := File(s.events, tx), queued := s.queued + [tx], since := s.since + [tx]))
      case RunEnds =>
        if s.curDone.Some? then s.(closed := s.closed + {s.curDone.value}) else s
      case ObserveDone =>
        if s.curDone.Some? && s.curDone.value in s.closed then LaunchIfNeeded(s.(curDone := None)) else s
      case Shutdown =>
        // waits for the current run, then releases those queued for the next
        if s.curDone.Some? && s.curDone.value !in s.closed then s
        else s.(down := true, closed := s.closed + {NextDone(s)})
  }

  function Run(s: State, steps: seq<Step>): State
  {
    if steps == [] then s else Apply(Run(s, steps[..|steps| - 1]), steps[|steps| - 1])
  }

  /** The run does what the request asked for: a reset promotes the whole queue. */
  predicate Covers(j: Job, r: Request)
  {
    match r
    case ForReset(_) => j.reset.Some?
    case ForPromote(addrs, _) => j.reset.Some? || (j.dirty.Some? && addrs <= j.dirty.value)
  }

  function Resets(jobs: seq<Job>): seq<Reset>
  {
    if jobs == [] then []
    else Resets(jobs[..|jobs| - 1]) + match jobs[|jobs| - 1].reset case None => [] case Some(r) => [r]
  }

  function Concat(batches: seq<seq<Tx>>): seq<Tx>
  {
    if batches == [] then [] else Concat(batches[..|batches| - 1]) + batches[|batches| - 1]
  }

  /** What is left of events queued in this order. */
  function Latest(txs: seq<Tx>): EventMap
  {
    if txs == [] then map[] else File(Latest(txs[..|txs| - 1]), txs[|txs| - 1])
  }

  /** No later event has the sender and nonce of the `i`-th. */
  ghost predicate IsLast(txs: seq<Tx>, i: nat)
  {
    i < |txs| && forall j | i < j < |txs| :: txs[j].sender != txs[i].sender || txs[j].nonce != txs[i].nonce
  }

  ghost predicate Holds(events: EventMap, tx: Tx)
  {
    tx.sender in events && tx.nonce in events[tx.sender] && events[tx.sender][tx.nonce] == tx
  }

  /** Consecutive resets share a head, from `first` to `last`. */
  ghost predicate Telescope(first: Head, rs: seq<Reset>, last: Head)
  {
    if rs == [] then first == last
    else rs[|rs| - 1].newHead == last && Telescope(first, rs[..|rs| - 1], rs[|rs| - 1].oldHead)
  }

  ghost predicate Served(s: State, r: Request)
  {
    if r.done == NextDone(s) then
      && s.launch && Covers(Job(s.reset, s.dirty, s.events), r)
      && (r.ForPromote? ==> s.dirty.Some? && r.addrs <= s.dirty.value)
    else r.done < NextDone(s) && Covers(s.jobs[r.done], r)
  }

  /** What holds between the loop's select and its top. */
  ghost predicate Consistent(s: State, first: Head)
  {
    // one run at a time: all but the latest have closed their channel
    && (s.curDone.Some? ==> |s.jobs| > 0 && s.curDone.value == |s.jobs| - 1)
    && (forall i: nat | i < |s.jobs| :: i in s.closed || s.curDone == Some(i))
    && (forall i | i in s.closed :: i < |s.jobs| || (s.down && i == |s.jobs|))
    && (forall k | 0 <= k < |s.requests| :: Served(s, s.requests[k]))
    && (s.launch <==> s.reset.Some? || s.dirty.Some?)
    && Telescope(first, Resets(s.jobs) + Pending(s.reset), s.head)
  }

  /** ... and at the select: collected work waits only for the active run. */
  ghost predicate Inv(s: State, first: Head)
  {
    Consistent(s, first) && (s.launch && !s.down ==> s.curDone.Some?)
  }

  function Pending(r: Option<Reset>): seq<Reset>
  {
    match r case None => [] case Some(v) => [v]
  }

  lemma LaunchKeeps(s: State, first: Head)
    requires Consistent(s, first)
    ensures Inv(LaunchIfNeeded(s), first)
  {
    if s.curDone == None && s.launch && !s.down {
      var s' := LaunchIfNeeded(s);
      assert s'.jobs[..|s.jobs|] == s.jobs;
      assert Resets(s'.jobs) + [] == Resets(s.jobs) + Pending(s.reset);
      forall k | 0 <= k < |s'.requests| ensures Served(s', s'.requests[k]) {
        assert Served(s, s.requests[k]);
      }
    }
  }

  lemma ResetTelescopes(first: Head, resets: seq<Reset>, reset: Option<Reset>, head: Head, newHead: Head)
    requires Telescope(first, resets + Pending(reset), head)
    ensures Telescope(first, resets + [Retarget(reset, head, newHead)], newHead)
  {
    var before, after := resets + Pending(reset), resets + [Retarget(reset, head, newHead)];
    assert after[..|after| - 1] == resets;
    if reset.Some? { assert before[..|before| - 1] == resets; } else { assert before == resets; }
  }

  lemma ResetKeeps(s: State, newHead: Head, first: Head)
    requires Inv(s, first) && !s.down
    ensures Inv(Apply(s, RequestReset(newHead)), first)
  {
    var r := Retarget(s.reset, s.head, newHead);
    var s' := s.(reset := Some(r), launch := true, head := newHead, requests := s.requests + [ForReset(NextDone(s))]);
    ResetTelescopes(first, Resets(s.jobs), s.reset, s.head, newHead);
    forall k | 0 <= k < |s'.requests| ensures Served(s', s'.requests[k]) {
      if k < |s.requests| { assert Served(s, s.requests[k]); }
    }
    LaunchKeeps(s', first);
  }

  lemma PromoteKeeps(s: State, addrs: set<Addr>, first: Head)
    requires Inv(s, first) && !s.down
    ensures Inv(Apply(s, RequestPromote(addrs)), first)
  {
    var d := if s.dirty.None? then addrs else s.dirty.value + addrs;
    var s' := s.(dirty := Some(d), launch := true, requests := s.requests + [ForPromote(addrs, NextDone(s))]);
    forall k | 0 <= k < |s'.requests| ensures Served(s', s'.requests[k]) {
      if k < |s.requests| { assert Served(s, s.requests[k]); }
    }
    LaunchKeeps(s', first);
  }

  lemma EventKeeps(s: State, tx: Tx, first: Head)
    requires Inv(s, first) && !s.down
    ensures Inv(Apply(s, QueueEvent(tx)), first)
  {
    var s' := s.(events := File(s.events, tx), queued := s.queued + [tx], since := s.since + [tx]);
    forall k | 0 <= k < |s'.requests| ensures Served(s', s'.requests[k]) {
      assert Served(s, s.requests[k]);
    }
    LaunchKeeps(s', first);
  }

  lemma StepKeeps(s: State, step: Step, first: Head)
    requires Inv(s, first)
    ensures Inv(Apply(s, step), first)
  {
    if !s.down {
      match step
      case RequestReset(newHead) => ResetKeeps(s, newHead, first);
      case RequestPromote(addrs) => PromoteKeeps(s, addrs, first);
      case QueueEvent(tx) => EventKeeps(s, tx, first);
      case RunEnds =>
        var s' := Apply(s, step);
        forall k | 0 <= k < |s.requests| ensures Served(s', s.requests[k]) { assert Served(s, s.requests[k]); }
      case ObserveDone =>
        if s.curDone.Some? && s.curDone.value in s.closed {
          var s' := s.(curDone := None);
          forall k | 0 <= k < |s.requests| ensures Served(s', s.requests[k]) { assert Served(s, s.requests[k]); }
          LaunchKeeps(s', first);
        }
      case Shutdown =>
        var s' := Apply(s, step);
        forall k | 0 <= k < |s.requests| ensures Served(s', s.requests[k]) { assert Served(s, s.requests[k]); }
    }
  }

  lemma {:induction false} RunKeeps(s: State, steps: seq<Step>, first: Head)
    requires Inv(s, first)
    ensures Inv(Run(s, steps), first)
  {
    if steps == [] {
    } else {
      RunKeeps(s, steps[..|steps| - 1], first);
      StepKeeps(Run(s, steps[..|steps| - 1]), steps[|steps| - 1], first);
    }
  }

  /** Each run was given the latest of the events queued since the previous launch. */
  ghost predicate Batched(s: State)
  {
    && s.queued == Concat(s.batches) + s.since && |s.batches| == |s.jobs|
    && (forall i | 0 <= i < |s.jobs| :: s.jobs[i].events == Latest(s.batches[i]))
    && s.events == Latest(s.since)
  }

  lemma LaunchBatches(s: State)
    requires Batched(s)
    ensures Batched(LaunchIfNeeded(s))
  {
    var s' := LaunchIfNeeded(s);
    if s.jobs != s'.jobs {
      assert s'.batches[..|s.batches|] == s.batches;
      assert s.queued == Concat(s'.batches) + [];
    }
  }

  lemma StepBatches(s: State, step: Step)
    requires Batched(s)
    ensures Batched(Apply(s, step))
  {
    if !s.down {
      match step
      case RequestReset(newHead) =>
        var r := Retarget(s.reset, s.head, newHead);
        LaunchBatches(s.(reset := Some(r), launch := true, head := newHead,
                         requests := s.requests + [ForReset(NextDone(s))]));
      case RequestPromote(addrs) =>
        var d := if s.dirty.None? then addrs else s.dirty.value + addrs;
        LaunchBatches(s.(dirty := Some(d), launch := true, requests := s.requests + [ForPromote(addrs, NextDone(s))]));
      case QueueEvent(tx) =>
        var since := s.since + [tx];
        assert since[..|s.since|] == s.since && Concat(s.batches) + since == s.queued + [tx];
        LaunchBatches(s.(events := File(s.events, tx), queued := s.queued + [tx], since := since));
      case RunEnds =>
      case ObserveDone =>
        LaunchBatches(s.(curDone := None));
      case Shutdown =>
    }
  }

  lemma {:induction false} RunBatches(head: Head, steps: seq<Step>)
    ensures Batched(Run(Initial(head), steps))
  {
    if steps == [] {
    } else {
      var last := |steps| - 1;
      RunBatches(head, steps[..last]);
      StepBatches(Run(Initial(head), steps[..last]), steps[last]);
    }
  }

  /** For every sequence of requests, events and run ends, short of a shutdown: at
      most one run is unfinished; a requester's channel is closed only by a run that
      covers the request; the executed resets telescope from the first head, with no
      gap, to the last head seen once nothing is pending; and the queued events are cut
      in order into one batch per run and those still waiting, of which the run is given
      what `LatestIsLast` describes. */
  lemma SchedulerServes(head: Head, steps: seq<Step>)
    ensures var s := Run(Initial(head), steps);
            !s.down ==>
              && (forall i: nat | i + 1 < |s.jobs| :: i in s.closed)
              && (forall k | 0 <= k < |s.requests| && s.requests[k].done in s.closed ::
                    s.requests[k].done < |s.jobs| && Covers(s.jobs[s.requests[k].done], s.requests[k]))
              && Telescope(head, Resets(s.jobs) + Pending(s.reset), s.head)
              && Batched(s)
  {
    RunKeeps(Initial(head), steps, head);
    RunBatches(head, steps);
    var s := Run(Initial(head), steps);
    forall k | 0 <= k < |s.requests| && s.requests[k].done in s.closed && !s.down
      ensures s.requests[k].done < |s.jobs| && Covers(s.jobs[s.requests[k].done], s.requests[k])
    {
      assert Served(s, s.requests[k]);
    }
  }

  /** The last event queued for each sender and nonce is kept, nothing else is, and no
      sender is listed without an event. */
  ghost predicate LastOnes(txs: seq<Tx>, events: EventMap)
  {
    && (forall i: nat | IsLast(txs, i) :: Holds(events, txs[i]))
    && (forall a, n | a in events && n in events[a] :: LastAt(txs, a, n, events[a][n]))
    && (forall a | a in events :: events[a] != map[])
  }

  ghost predicate LastAt(txs: seq<Tx>, a: Addr, n: nat, tx: Tx)
  {
    tx.sender == a && tx.nonce == n && exists i: nat :: IsLast(txs, i) && txs[i] == tx
  }

  lemma FileKeeps(txs: seq<Tx>, events: EventMap, tx: Tx)
    requires LastOnes(txs, events)
    ensures LastOnes(txs + [tx], File(events, tx))
  {
    var txs', events' := txs + [tx], File(events, tx);
    forall i: nat | IsLast(txs', i) ensures Holds(events', txs'[i]) {
      if i < |txs| {
        assert forall j | i < j < |txs| :: txs[j] == txs'[j];
        assert IsLast(txs, i);
        assert txs'[|txs|] == tx;
      }
    }
    forall a, n | a in events' && n in events'[a] ensures LastAt(txs', a, n, events'[a][n]) {
      if a == tx.sender && n == tx.nonce {
        assert IsLast(txs', |txs|);
      } else {
        assert LastAt(txs, a, n, events[a][n]);
        var i: nat :| IsLast(txs, i) && txs[i] == events[a][n];
        assert IsLast(txs', i);
      }
    }
    assert tx.nonce in events'[tx.sender];
  }

  lemma {:induction false} LatestIsLast(txs: seq<Tx>)
    ensures LastOnes(txs, Latest(txs))
  {
    if txs == [] {
    } else {
      var k := |txs| - 1;
      LatestIsLast(txs[..k]);
      var events := Latest(txs[..k]);
      FileKeeps(txs[..k], events, txs[k]);
      assert txs[..k] + [txs[k]] == txs && Latest(txs) == File(events, txs[k]);
    }
  }

  lemma NextRunServes(s: State, first: Head)
    requires Inv(s, first) && !s.down
    ensures var s' := Apply(Apply(s, RunEnds), ObserveDone);
            forall k | 0 <= k < |s.requests| ::
              s.requests[k].done < |s'.jobs| && Covers(s'.jobs[s.requests[k].done], s.requests[k])
  {
    var s' := Apply(Apply(s, RunEnds), ObserveDone);
    forall k | 0 <= k < |s.requests|
      ensures s.requests[k].done < |s'.jobs| && Covers(s'.jobs[s.requests[k].done], s.requests[k])
    {
      assert Served(s, s.requests[k]);
    }
  }

  /** No request is lost: after the active run ends the loop launches the run that
      serves all the requests still waiting. */
  lemma NothingWaitsForever(head: Head, steps: seq<Step>)
    ensures var s := Run(Initial(head), steps);
            var s' := Apply(Apply(s, RunEnds), ObserveDone);
            !s.down ==> forall k | 0 <= k < |s.requests| ::
                s.requests[k].done < |s'.jobs| && Covers(s'.jobs[s.requests[k].done], s.requests[k])
  {
    RunKeeps(Initial(head), steps, head);
    var s := Run(Initial(head), steps);
    if !s.down { NextRunServes(s, head); }
  }

  /** Telescoping, read pairwise. */
  lemma {:induction false} TelescopeAt(first: Head, rs: seq<Reset>, last: Head, i: nat)
    requires Telescope(first, rs, last) && i < |rs|
    ensures rs[i].oldHead == if i == 0 then first else rs[i - 1].newHead
  {
    if i == |rs| - 1 {
    } else {
      TelescopeAt(first, rs[..|rs| - 1], rs[|rs| - 1].oldHead, i);
    }
  }
}
