/** The event feed: one-to-many delivery over channels.  Subscriptions wait in an
    inbox until a Send collects them; a Send works through a prefix of the case
    list, swapping delivered cases behind it, while unsubscribing channels are
    deleted from the list in place. */
module Feed {
  type Chan = nat

  // ------------------------------------------------------- case list operations

  /** Index of the first case for `ch`, or -1. */
  function Find(cs: seq<Chan>, ch: Chan): (i: int)
    ensures -1 <= i < |cs|
    ensures i >= 0 ==> cs[i] == ch
    ensures i == -1 <==> ch !in cs
  {
    if cs == [] then -1
    else if cs[0] == ch then 0
    else
      var j := Find(cs[1..], ch);
      if j == -1 then -1 else j + 1
  }

  function Delete(cs: seq<Chan>, i: nat): seq<Chan>
    requires i < |cs|
  {
    cs[..i] + cs[i + 1..]
  }

  /** Swap case `i` with the last of the active prefix of length `k`. */
  function Deactivate(cs: seq<Chan>, i: nat, k: nat): seq<Chan>
    requires i < k <= |cs|
  {
    cs[i := cs[k - 1]][k - 1 := cs[i]]
  }

  predicate NoDup(cs: seq<Chan>)
  {
    forall i, j | 0 <= i < j < |cs| :: cs[i] != cs[j]
  }

  method FindCase(a: array<Chan>, n: nat, ch: Chan) returns (i: int)
    requires n <= a.Length
    ensures i == Find(a[..n], ch)
  {
    i := 0;
    while i < n
      invariant 0 <= i <= n
      invariant Find(a[..n], ch) == var r := Find(a[i..n], ch); if r == -1 then -1 else r + i
    {
      assert a[i..n][1..] == a[i + 1..n];
      if a[i] == ch {
        return;
      }
      i := i + 1;
    }
    i := -1;
  }

  /** Shift the tail left over the deleted case, in the shared array. */
  method DeleteCase(a: array<Chan>, n: nat, index: nat)
    requires index < n <= a.Length
    modifies a
    ensures a[..n - 1] == Delete(old(a[..n]), index)
    ensures a[n - 1..] == old(a[n - 1..])
  {
    var i := index;
    while i < n - 1
      invariant index <= i <= n - 1
      invariant forall j | index <= j < i :: a[j] == old(a[j + 1])
      invariant forall j | 0 <= j < a.Length && !(index <= j < i) :: a[j] == old(a[j])
    {
      a[i] := a[i + 1];
      i := i + 1;
    }
    ghost var cs := old(a[..n]);
    assert forall j | 0 <= j < n - 1 :: a[..n - 1][j] == Delete(cs, index)[j];
  }

  method DeactivateCase(a: array<Chan>, index: nat, k: nat)
    requires index < k <= a.Length
    modifies a
    ensures a[..] == Deactivate(old(a[..]), index, k)
  {
    a[index], a[k - 1] := a[k - 1], a[index];
  }

  // ------------------------------------------------------------- the protocol

  datatype Phase = Fast(i: nat) | Select

  /** A Send under way: active prefix length, place in the loop, count, and history. */
  datatype Sending = Sending(k: nat, phase: Phase, nsent: nat,
                             collected: seq<Chan>, delivered: seq<Chan>, removed: set<Chan>)

  datatype Sender = Idle | Locked | Busy(send: Sending)

  /** `live` are the channels subscribed and not yet removed, `removing` those whose
      removal missed the inbox and waits for a Send or for the send lock, `log` the
      completed Sends. */
  datatype State = State(inbox: seq<Chan>, cases: seq<Chan>, live: set<Chan>, removing: set<Chan>,
                         sender: Sender, log: seq<Sending>, crashed: bool)

  const INITIAL := State([], [], {}, {}, Idle, [], false)

  datatype Step =
    | Subscribe(ch: Chan)
    | RemoveFromInbox(ch: Chan)
    | RemoveWithLock(ch: Chan)
    | SendLock
    | Collect
    | TrySend(ok: bool)
    | FastDone
    | SelectSend(j: nat)
    | SelectRemove(ch: Chan)

  /** Delete a channel from the case list; a missing one is an index panic. */
  function Drop(s: State, ch: Chan): State
  {
    var index := Find(s.cases, ch);
    if index < 0 then s.(crashed := true)
    else s.(cases := Delete(s.cases, index), removing := s.removing - {ch}, live := s.live - {ch})
  }

  function Deliver(s: State, m: Sending, i: nat, phase: Phase): State
    requires i < m.k <= |s.cases|
  {
    s.(cases := Deactivate(s.cases, i, m.k),
       sender := Busy(m.(k := m.k - 1, phase := phase, nsent := m.nsent + 1, delivered := m.delivered + [s.cases[i]])))
  }

  function Apply(s: State, step: Step): State
  {
    match step
    case Subscribe(ch) =>
      if ch in s.live then s else s.(inbox := s.inbox + [ch], live := s.live + {ch})
    case RemoveFromInbox(ch) =>
      if ch !in s.live || ch in s.removing then s
      else
        var index := Find(s.inbox, ch);
        if index != -1 then s.(inbox := Delete(s.inbox, index), live := s.live - {ch})
        else s.(removing := s.removing + {ch})
    case RemoveWithLock(ch) =>
      if ch in s.removing && s.sender.Idle? then Drop(s, ch) else s
    case SendLock =>
      if s.sender.Idle? then s.(sender := Locked) else s
    case Collect =>
      if !s.sender.Locked? then s
      else
        var cases := s.cases + s.inbox;
        s.(cases := cases, inbox := [], sender := Busy(Sending(|cases|, Fast(0), 0, cases, [], {})))
    case TrySend(ok) =>
      if !(s.sender.Busy? && s.sender.send.phase.Fast?) then s
      else
        var m := s.sender.send;
        if !(m.phase.i < m.k <= |s.cases|) then s
        else if ok then Deliver(s, m, m.phase.i, m.phase)
        else s.(sender := Busy(m.(phase := Fast(m.phase.i + 1))))
    case FastDone =>
      if !(s.sender.Busy? && s.sender.send.phase.Fast? && s.sender.send.phase.i >= s.sender.send.k) then s
      else
        var m := s.sender.send;
        if m.k == 0 then s.(sender := Idle, log := s.log + [m])
        else s.(sender := Busy(m.(phase := Select)))
    case SelectSend(j) =>
      if s.sender.Busy? && s.sender.send.phase.Select? && j < s.sender.send.k <= |s.cases|
      then Deliver(s, s.sender.send, j, Fast(0)) else s
    case SelectRemove(ch) =>
      if !(s.sender.Busy? && s.sender.send.phase.Select? && ch in s.removing) then s
      else
        var m := s.sender.send;
        var k := if 0 <= Find(s.cases, ch) < m.k then m.k - 1 else m.k;
        Drop(s, ch).(sender := Busy(m.(k := k, phase := Fast(0), removed := m.removed + {ch})))
  }

  function Run(s: State, steps: seq<Step>): State
  {
    if steps == [] then s else Apply(Run(s, steps[..|steps| - 1]), steps[|steps| - 1])
  }

  // ---------------------------------------------------------------- invariant

  /** Deleting removes that one channel from the list, from its active prefix if it
      was there and else from the rest. */
  lemma DeleteMembers(cs: seq<Chan>, i: nat, k: nat)
    requires NoDup(cs) && i < |cs| && k <= |cs|
    ensures NoDup(Delete(cs, i))
    ensures forall x :: x in Delete(cs, i) <==> x in cs && x != cs[i]
    ensures var k' := if i < k then k - 1 else k;
            && (forall x :: x in Delete(cs, i)[..k'] <==> x in cs[..k] && x != cs[i])
            && (forall x :: x in Delete(cs, i)[k'..] <==> x in cs[k..] && x != cs[i])
  {
    DeleteParts(cs, i, k);
    DeleteOne(cs, i);
    if i < k {
      DeleteOne(cs[..k], i);
    } else {
      DeleteOne(cs[k..], i - k);
    }
  }

  lemma DeleteOne(cs: seq<Chan>, i: nat)
    requires NoDup(cs) && i < |cs|
    ensures NoDup(Delete(cs, i)) && forall x :: x in Delete(cs, i) <==> x in cs && x != cs[i]
  {
    var ds := Delete(cs, i);
    forall x | x in cs && x != cs[i] ensures x in ds {
      var j :| 0 <= j < |cs| && cs[j] == x;
      assert ds[if j < i then j else j - 1] == x;
    }
  }

  /** Deleting commutes with taking the prefix and the rest. */
  lemma DeleteParts(cs: seq<Chan>, i: nat, k: nat)
    requires i < |cs| && k <= |cs|
    ensures i < k ==> Delete(cs, i)[..k - 1] == Delete(cs[..k], i) && Delete(cs, i)[k - 1..] == cs[k..]
    ensures i >= k ==> Delete(cs, i)[..k] == cs[..k] && Delete(cs, i)[k..] == Delete(cs[k..], i - k)
  {
  }

  /** Deactivating moves that one channel out of the active prefix and keeps the list. */
  lemma DeactivateMembers(cs: seq<Chan>, i: nat, k: nat)
    requires NoDup(cs) && i < k <= |cs|
    ensures NoDup(Deactivate(cs, i, k)) && |Deactivate(cs, i, k)| == |cs|
    ensures forall x :: x in Deactivate(cs, i, k) <==> x in cs
    ensures forall x :: x in Deactivate(cs, i, k)[..k - 1] <==> x in cs[..k] && x != cs[i]
    ensures forall x :: x in Deactivate(cs, i, k)[k - 1..] <==> x in cs[k..] || x == cs[i]
  {
    var ds, last := Deactivate(cs, i, k), k - 1;
    assert ds[..last] == SwapOut(cs[..k], i) && ds[last..] == [cs[i]] + cs[k..];
    SwapOutMembers(cs[..k], i);
    assert ds == ds[..last] + ds[last..] && cs == cs[..k] + cs[k..];
    assert NoDup(ds) by {
      assert cs[i] == cs[..k][i];
      NoDupParts(cs, k);
      NoDupAppend([cs[i]], cs[k..]);
      NoDupAppend(ds[..last], ds[last..]);
    }
  }

  /** The last takes the place of the `i`-th. */
  function SwapOut(cs: seq<Chan>, i: nat): seq<Chan>
    requires i < |cs|
  {
    var last := |cs| - 1;
    if i == last then cs[..last] else cs[..last][i := cs[last]]
  }

  lemma SwapOutMembers(cs: seq<Chan>, i: nat)
    requires i < |cs| && NoDup(cs)
    ensures NoDup(SwapOut(cs, i)) && forall x :: x in SwapOut(cs, i) <==> x in cs && x != cs[i]
  {
    var last, ds := |cs| - 1, SwapOut(cs, i);
    forall x | x in cs && x != cs[i] ensures x in ds {
      var j :| 0 <= j < |cs| && cs[j] == x;
      assert ds[if j == last then i else j] == x;
    }
  }

  lemma NoDupParts(cs: seq<Chan>, k: nat)
    requires NoDup(cs) && k <= |cs|
    ensures NoDup(cs[..k]) && NoDup(cs[k..]) && forall x | x in cs[..k] :: x !in cs[k..]
  {
  }

  lemma NoDupAppend(a: seq<Chan>, b: seq<Chan>)
    requires NoDup(a) && NoDup(b) && forall x | x in b :: x !in a
    ensures NoDup(a + b)
  {
    forall i, j | 0 <= i < j < |a + b| ensures (a + b)[i] != (a + b)[j] {
      if i < |a| <= j { assert b[j - |a|] in b; }
    }
  }

  /** What a Send may claim at any moment: distinct deliveries among the channels
      collected at its start, counted by `nsent`. */
  ghost predicate SendOk(m: Sending)
  {
    && NoDup(m.delivered) && m.nsent == |m.delivered|
    && (forall x | x in m.delivered :: x in m.collected)
    && (forall x | x in m.removed :: x in m.collected)
  }

  /** The active prefix holds what is still to be delivered, the rest what was. */
  ghost predicate BusyOk(cases: seq<Chan>, m: Sending)
  {
    && SendOk(m) && m.k <= |cases| && (if m.phase.Fast? then m.phase.i <= m.k else m.k > 0)
    && (forall x :: x in cases[..m.k] <==> x in m.collected && x !in m.delivered && x !in m.removed)
    && (forall x :: x in cases[m.k..] <==> x in m.delivered && x !in m.removed)
  }

  /** A completed Send delivered to every collected channel that was not removed. */
  ghost predicate Complete(m: Sending)
  {
    SendOk(m) && forall x | x in m.collected :: x in m.delivered || x in m.removed
  }

  /** Each live channel is in exactly one of inbox and case list, once. */
  ghost predicate Inv(s: State)
  {
    && !s.crashed && NoDup(s.inbox) && NoDup(s.cases)
    && (forall x | x in s.inbox :: x !in s.cases)
    && (forall x :: x in s.live <==> x in s.inbox || x in s.cases)
    && (forall x | x in s.removing :: x in s.cases)
    && (s.sender.Busy? ==> BusyOk(s.cases, s.sender.send))
    && (forall i | 0 <= i < |s.log| :: Complete(s.log[i]))
  }

  lemma DropKeeps(s: State, ch: Chan)
    requires Inv(s) && ch in s.removing && s.sender.Idle?
    ensures Inv(Drop(s, ch))
  {
    DeleteMembers(s.cases, Find(s.cases, ch), 0);
  }

  lemma InboxKeeps(s: State, ch: Chan)
    requires Inv(s)
    ensures Inv(Apply(s, RemoveFromInbox(ch)))
  {
    var index := Find(s.inbox, ch);
    if index != -1 { DeleteMembers(s.inbox, index, 0); }
  }

  lemma DeliverKeeps(s: State, i: nat, phase: Phase)
    requires Inv(s) && s.sender.Busy? && i < s.sender.send.k
    requires phase.Fast? && phase.i < s.sender.send.k
    ensures Inv(Deliver(s, s.sender.send, i, phase))
  {
    var m := s.sender.send;
    DeactivateMembers(s.cases, i, m.k);
    assert s.cases[..m.k][i] == s.cases[i];
    NoDupAppend(m.delivered, [s.cases[i]]);
    var s' := Deliver(s, m, i, phase);
    assert BusyOk(s'.cases, s'.sender.send);
  }

  lemma SelectRemoveKeeps(s: State, ch: Chan)
    requires Inv(s) && s.sender.Busy? && s.sender.send.phase.Select? && ch in s.removing
    ensures Inv(Apply(s, SelectRemove(ch)))
  {
    var m, index := s.sender.send, Find(s.cases, ch);
    DeleteMembers(s.cases, index, m.k);
    if index < m.k { assert s.cases[..m.k][index] == ch; } else { assert s.cases[m.k..][index - m.k] == ch; }
    var s' := Apply(s, SelectRemove(ch));
    assert BusyOk(s'.cases, s'.sender.send);
  }

  lemma CollectKeeps(s: State)
    requires Inv(s) && s.sender.Locked?
    ensures Inv(Apply(s, Collect))
  {
    NoDupAppend(s.cases, s.inbox);
    var s' := Apply(s, Collect);
    assert s'.cases[..|s'.cases|] == s'.cases;
  }

  lemma FastDoneKeeps(s: State)
    requires Inv(s)
    ensures Inv(Apply(s, FastDone))
  {
    if s.sender.Busy? && s.sender.send.k == 0 {
      assert s.cases[..0] == [];
    }
  }

  lemma StepKeeps(s: State, step: Step)
    requires Inv(s)
    ensures Inv(Apply(s, step))
  {
    match step
    case Subscribe(ch) =>
    case RemoveFromInbox(ch) => InboxKeeps(s, ch);
    case RemoveWithLock(ch) => if ch in s.removing && s.sender.Idle? { DropKeeps(s, ch); }
    case SendLock =>
    case Collect => if s.sender.Locked? { CollectKeeps(s); }
    case TrySend(ok) =>
      if s.sender.Busy? && s.sender.send.phase.Fast? && s.sender.send.phase.i < s.sender.send.k && ok {
        DeliverKeeps(s, s.sender.send.phase.i, s.sender.send.phase);
      }
    case FastDone => FastDoneKeeps(s);
    case SelectSend(j) =>
      if s.sender.Busy? && s.sender.send.phase.Select? && j < s.sender.send.k { DeliverKeeps(s, j, Fast(0)); }
    case SelectRemove(ch) =>
      if s.sender.Busy? && s.sender.send.phase.Select? && ch in s.removing { SelectRemoveKeeps(s, ch); }
  }

  /** For every interleaving of subscriptions, removals and sends. */
  lemma {:induction false} RunKeeps(s: State, steps: seq<Step>)
    requires Inv(s)
    ensures Inv(Run(s, steps))
  {
    if steps == [] {
    } else {
      RunKeeps(s, steps[..|steps| - 1]);
      StepKeeps(Run(s, steps[..|steps| - 1]), steps[|steps| - 1]);
    }
  }

  // ------------------------------------------------------------ consequences

  /** In every run a subscribed channel is in exactly one of inbox and case list, and
      there once, and no other channel is in either; a removal that missed the inbox finds its channel in the case
      list; and every completed Send delivered exactly once to each channel that
      it collected and that was not removed meanwhile, at most once to any, and
      returned the number of deliveries. */
  lemma FeedDelivers(steps: seq<Step>)
    ensures var s := Run(INITIAL, steps);
            && !s.crashed && (forall ch | ch in s.removing :: Find(s.cases, ch) >= 0)
            && (forall ch :: multiset(s.inbox)[ch] + multiset(s.cases)[ch] == if ch in s.live then 1 else 0)
            && forall n | 0 <= n < |s.log| ::
                 var m := s.log[n];
                 && m.nsent == |m.delivered|
                 && (forall ch | ch in m.collected && ch !in m.removed :: multiset(m.delivered)[ch] == 1)
                 && (forall ch :: multiset(m.delivered)[ch] <= if ch in m.collected then 1 else 0)
  {
    RunKeeps(INITIAL, steps);
    var s := Run(INITIAL, steps);
    forall ch ensures multiset(s.inbox)[ch] + multiset(s.cases)[ch] == if ch in s.live then 1 else 0 {
      CountOnce(s.inbox, ch);
      CountOnce(s.cases, ch);
    }
    forall n | 0 <= n < |s.log|
      ensures var m := s.log[n];
              && (forall ch | ch in m.collected && ch !in m.removed :: multiset(m.delivered)[ch] == 1)
              && (forall ch :: multiset(m.delivered)[ch] <= if ch in m.collected then 1 else 0)
    {
      var m := s.log[n];
      assert Complete(m);
      forall ch ensures multiset(m.delivered)[ch] == if ch in m.delivered then 1 else 0 {
        CountOnce(m.delivered, ch);
      }
    }
  }

  lemma {:induction false} CountOnce(cs: seq<Chan>, ch: Chan)
    requires NoDup(cs)
    ensures multiset(cs)[ch] == if ch in cs then 1 else 0
  {
    if cs == [] {
    } else {
      CountOnce(cs[1..], ch);
      assert cs == [cs[0]] + cs[1..];
    }
  }

  function Width(s: State): nat
  {
    |s.cases| + if s.sender.Busy? then s.sender.send.k else 0
  }

  function Rest(s: State): nat
  {
    match s.sender
    case Busy(m) => if m.phase.Fast? && m.phase.i <= m.k then m.k - m.phase.i + 1 else 0
    case _ => 0
  }

  /** A Send under way cannot go on forever: each of its steps that does anything
      lowers the measure, and nobody else's step touches it. */
  lemma SendMakesProgress(s: State, step: Step)
    requires Inv(s) && s.sender.Busy?
    ensures var s' := Apply(s, step);
            if step.TrySend? || step.FastDone? || step.SelectSend? || step.SelectRemove?
            then s' == s || s'.sender.Idle? || Width(s') < Width(s) || (Width(s') == Width(s) && Rest(s') < Rest(s))
            else Width(s') == Width(s) && Rest(s') == Rest(s)
  {
  }

  /** While a Send is under way one of its steps can always be taken. */
  lemma SendNeverStuck(s: State)
    requires Inv(s) && s.sender.Busy?
    ensures Apply(s, TrySend(false)) != s || Apply(s, FastDone) != s || Apply(s, SelectSend(0)) != s
  {
    var m := s.sender.send;
    if m.phase.Select? {
      assert Apply(s, SelectSend(0)).sender.send.nsent == m.nsent + 1;
    }
  }
}
