module Common {
  datatype Option<+T> = None | Some(value: T)

  /** The next element in no particular order. */
  method Choose<T>(s: set<T>) returns (x: T)
    requires s != {}
    ensures x in s
  {
    x :| x in s;
  }

  /** The `n`-th parent of `x`. */
  ghost function Up<T>(par: T -> T, x: T, n: nat): T
    decreases n
  {
    if n == 0 then x else Up(par, par(x), n - 1)
  }
}
