/** Binary min-heaps kept in a sequence, as the standard container/heap keeps them:
    the parent of slot `k` is slot `(k - 1) / 2`.  `less` is any strict weak order. */
module Heap {
  ghost predicate Order<T(!new)>(less: (T, T) -> bool)
  {
    && (forall a, b :: less(a, b) ==> !less(b, a))
    && (forall a, b, c :: !less(b, a) && !less(c, b) ==> !less(c, a))
  }

  function Parent(k: nat): nat
    requires k > 0
  {
    (k - 1) / 2
  }

  /** Slot `k` is in order with its parent. */
  predicate Ok<T>(less: (T, T) -> bool, s: seq<T>, k: nat)
    requires k < |s|
  {
    k == 0 || !less(s[k], s[Parent(k)])
  }

  ghost predicate IsHeap<T(!new)>(less: (T, T) -> bool, s: seq<T>)
  {
    forall k: nat | k < |s| :: Ok(less, s, k)
  }

  function Swap<T>(s: seq<T>, i: nat, j: nat): (r: seq<T>)
    requires i < |s| && j < |s|
    ensures |r| == |s| && multiset(r) == multiset(s)
  {
    s[i := s[j]][j := s[i]]
  }

  function SiftUp<T>(less: (T, T) -> bool, s: seq<T>, j: nat): (r: seq<T>)
    requires j < |s|
    ensures |r| == |s| && multiset(r) == multiset(s)
    decreases j
  {
    if j > 0 && less(s[j], s[Parent(j)]) then SiftUp(less, Swap(s, j, Parent(j)), Parent(j)) else s
  }

  /** The smaller child of slot `i`. */
  function Child<T>(less: (T, T) -> bool, s: seq<T>, i: nat): nat
    requires 2 * i + 1 < |s|
  {
    if 2 * i + 2 < |s| && less(s[2 * i + 2], s[2 * i + 1]) then 2 * i + 2 else 2 * i + 1
  }

  function SiftDown<T>(less: (T, T) -> bool, s: seq<T>, i: nat): (r: seq<T>)
    requires i < |s|
    ensures |r| == |s| && multiset(r) == multiset(s)
    decreases |s| - i
  {
    if 2 * i + 1 < |s| && less(s[Child(less, s, i)], s[i])
    then SiftDown(less, Swap(s, i, Child(less, s, i)), Child(less, s, i)) else s
  }

  lemma {:induction false} SiftUpOk<T(!new)>(less: (T, T) -> bool, s: seq<T>, j: nat)
    requires Order(less) && j < |s|
    requires forall k: nat | k < |s| && k != j :: Ok(less, s, k)
    requires j > 0 ==> forall k: nat | 0 < k < |s| && Parent(k) == j :: !less(s[k], s[Parent(j)])
    ensures IsHeap(less, SiftUp(less, s, j))
    decreases j
  {
    if j == 0 || !less(s[j], s[Parent(j)]) {
    } else {
      var p := Parent(j);
      var t := Swap(s, j, p);
      assert Ok(less, s, p);
      forall k: nat | k < |t| && k != p ensures Ok(less, t, k) {
        assert k != j ==> Ok(less, s, k);
      }
      if p > 0 {
        forall k: nat | 0 < k < |t| && Parent(k) == p ensures !less(t[k], t[Parent(p)]) {
          assert k != j ==> Ok(less, s, k);
        }
      }
      SiftUpOk(less, t, p);
    }
  }

  /** Everything whose parent is at or after `lo` is in order, except around slot `i`. */
  ghost predicate NearHeap<T(!new)>(less: (T, T) -> bool, s: seq<T>, i: nat, lo: nat)
    requires i < |s|
  {
    && (forall k: nat | 0 < k < |s| && k != i && Parent(k) != i && Parent(k) >= lo :: Ok(less, s, k))
    && (i > 0 && Parent(i) >= lo ==> forall k: nat | 0 < k < |s| && Parent(k) == i :: !less(s[k], s[Parent(i)]))
  }

  /** Swapping the smaller child up moves the disturbance down to it. */
  lemma NearBelow<T(!new)>(less: (T, T) -> bool, s: seq<T>, i: nat, lo: nat)
    requires Order(less) && lo <= i && 2 * i + 1 < |s| && NearHeap(less, s, i, lo)
    requires less(s[Child(less, s, i)], s[i])
    ensures var j := Child(less, s, i);
            var t := Swap(s, i, j);
            NearHeap(less, t, j, lo) && Ok(less, t, j) && (i > 0 && Parent(i) >= lo ==> Ok(less, t, i))
  {
    var j := Child(less, s, i);
    var t := Swap(s, i, j);
    forall k: nat | 0 < k < |t| && k != j && Parent(k) != j && Parent(k) >= lo ensures Ok(less, t, k) {
      assert k != i && Parent(k) != i ==> Ok(less, s, k);
    }
    forall k: nat | 0 < k < |t| && Parent(k) == j ensures !less(t[k], t[Parent(j)]) {
      assert Ok(less, s, k);
    }
  }

  lemma {:induction false} SiftDownOk<T(!new)>(less: (T, T) -> bool, s: seq<T>, i: nat, lo: nat)
    requires Order(less) && lo <= i < |s| && NearHeap(less, s, i, lo)
    ensures var r := SiftDown(less, s, i);
            && (forall k: nat | 0 < k < |s| && k != i && Parent(k) >= lo :: Ok(less, r, k))
            && (r == s || (i > 0 && Parent(i) >= lo ==> Ok(less, r, i)))
    decreases |s| - i
  {
    if 2 * i + 1 >= |s| {
    } else {
      var j := Child(less, s, i);
      if less(s[j], s[i]) {
        NearBelow(less, s, i, lo);
        SiftDownOk(less, Swap(s, i, j), j, lo);
      }
    }
  }

  function Push<T>(less: (T, T) -> bool, s: seq<T>, x: T): (r: seq<T>)
    ensures |r| == |s| + 1 && multiset(r) == multiset(s) + multiset{x}
  {
    SiftUp(less, s + [x], |s|)
  }

  lemma PushOk<T(!new)>(less: (T, T) -> bool, s: seq<T>, x: T)
    requires Order(less) && IsHeap(less, s)
    ensures IsHeap(less, Push(less, s, x))
  {
    var t := s + [x];
    forall k: nat | k < |t| && k != |s| ensures Ok(less, t, k) {
      assert Ok(less, s, k);
    }
    SiftUpOk(less, t, |s|);
  }

  /** What is left after popping `s[0]`. */
  function Pop<T>(less: (T, T) -> bool, s: seq<T>): (r: seq<T>)
    requires s != []
    ensures |r| == |s| - 1 && multiset(r) + multiset{s[0]} == multiset(s)
  {
    var n := |s| - 1;
    var t := Swap(s, 0, n);
    assert t == t[..n] + [s[0]];
    if n == 0 then [] else SiftDown(less, t[..n], 0)
  }

  /** Filling slot `i` with the last element disturbs the heap around `i` only. */
  lemma NearAfterFill<T(!new)>(less: (T, T) -> bool, s: seq<T>, i: nat)
    requires Order(less) && IsHeap(less, s) && i < |s| - 1
    ensures NearHeap(less, Swap(s, i, |s| - 1)[..|s| - 1], i, 0)
  {
    var n := |s| - 1;
    var t := Swap(s, i, n)[..n];
    assert forall k: nat | k < n && k != i :: t[k] == s[k];
    forall k: nat | 0 < k < n && k != i && Parent(k) != i && Parent(k) >= 0 ensures Ok(less, t, k) {
      assert Ok(less, s, k);
    }
    if i > 0 {
      forall k: nat | 0 < k < n && Parent(k) == i ensures !less(t[k], t[Parent(i)]) {
        assert Ok(less, s, k) && Ok(less, s, i);
      }
    }
  }

  lemma PopOk<T(!new)>(less: (T, T) -> bool, s: seq<T>)
    requires Order(less) && IsHeap(less, s) && s != []
    ensures IsHeap(less, Pop(less, s))
  {
    var n := |s| - 1;
    if n > 0 {
      NearAfterFill(less, s, 0);
      SiftDownOk(less, Swap(s, 0, n)[..n], 0, 0);
    }
  }

  /** What is left after removing slot `i`. */
  function Remove<T(==)>(less: (T, T) -> bool, s: seq<T>, i: nat): (r: seq<T>)
    requires i < |s|
    ensures |r| == |s| - 1 && multiset(r) + multiset{s[i]} == multiset(s)
  {
    var n := |s| - 1;
    var t := Swap(s, i, n);
    assert t == t[..n] + [s[i]];
    if i == n then t[..n]
    else
      var d := SiftDown(less, t[..n], i);
      if d != t[..n] then d else SiftUp(less, t[..n], i)
  }

  lemma SiftedDown<T(!new)>(less: (T, T) -> bool, t: seq<T>, i: nat)
    requires Order(less) && i < |t| && NearHeap(less, t, i, 0) && SiftDown(less, t, i) != t
    ensures IsHeap(less, SiftDown(less, t, i))
  {
    SiftDownOk(less, t, i, 0);
    var r := SiftDown(less, t, i);
    forall k: nat | k < |r| ensures Ok(less, r, k) {
    }
  }

  lemma SiftedUp<T(!new)>(less: (T, T) -> bool, t: seq<T>, i: nat)
    requires Order(less) && i < |t| && NearHeap(less, t, i, 0) && SiftDown(less, t, i) == t
    ensures IsHeap(less, SiftUp(less, t, i))
  {
    SiftDownOk(less, t, i, 0);
    forall k: nat | k < |t| && k != i ensures Ok(less, t, k) {
    }
    SiftUpOk(less, t, i);
  }

  lemma RemoveOk<T(!new)>(less: (T, T) -> bool, s: seq<T>, i: nat)
    requires Order(less) && IsHeap(less, s) && i < |s|
    ensures IsHeap(less, Remove(less, s, i))
  {
    var n := |s| - 1;
    var t := Swap(s, i, n)[..n];
    if i == n {
      forall k: nat | k < n ensures Ok(less, t, k) { assert Ok(less, s, k); }
    } else {
      NearAfterFill(less, s, i);
      if SiftDown(less, t, i) == t { SiftedUp(less, t, i); } else { SiftedDown(less, t, i); }
    }
  }

  function InitFrom<T>(less: (T, T) -> bool, s: seq<T>, lo: nat): (r: seq<T>)
    requires lo <= |s|
    ensures |r| == |s| && multiset(r) == multiset(s)
    decreases lo
  {
    if lo == 0 then s else InitFrom(less, SiftDown(less, s, lo - 1), lo - 1)
  }

  function Init<T>(less: (T, T) -> bool, s: seq<T>): (r: seq<T>)
    ensures |r| == |s| && multiset(r) == multiset(s)
  {
    InitFrom(less, s, |s| / 2)
  }

  lemma {:induction false} InitFromOk<T(!new)>(less: (T, T) -> bool, s: seq<T>, lo: nat)
    requires Order(less) && lo <= |s|
    requires forall k: nat | 0 < k < |s| && Parent(k) >= lo :: Ok(less, s, k)
    ensures IsHeap(less, InitFrom(less, s, lo))
    decreases lo
  {
    if lo == 0 {
    } else {
      SiftDownOk(less, s, lo - 1, lo - 1);
      InitFromOk(less, SiftDown(less, s, lo - 1), lo - 1);
    }
  }

  lemma InitOk<T(!new)>(less: (T, T) -> bool, s: seq<T>)
    requires Order(less)
    ensures IsHeap(less, Init(less, s))
  {
    InitFromOk(less, s, |s| / 2);
  }

  /** The root is minimal. */
  lemma {:induction false} RootMin<T(!new)>(less: (T, T) -> bool, s: seq<T>, k: nat)
    requires Order(less) && IsHeap(less, s) && k < |s|
    ensures !less(s[k], s[0])
  {
    if k == 0 {
    } else {
      assert Ok(less, s, k);
      RootMin(less, s, Parent(k));
    }
  }
}
