/** A chain of timers, each tick scheduling at most one later tick, firing on time. */
module TickChain {
  import opened Options

  ghost predicate Advances(next: int -> Option<int>) {
    forall t :: next(t).Some? ==> t < next(t).value
  }

  /** The last tick at or before `t` of the chain started at `from`. */
  ghost function Last(next: int -> Option<int>, from: int, t: int): int
    requires Advances(next) && from <= t
    decreases t - from
  {
    if next(from).Some? && next(from).value <= t then Last(next, next(from).value, t) else from
  }

  lemma {:induction false} LastIsLast(next: int -> Option<int>, from: int, t: int)
    requires Advances(next) && from <= t
    ensures from <= Last(next, from, t) <= t
    ensures next(Last(next, from, t)).Some? ==> t < next(Last(next, from, t)).value
    decreases t - from
  {
    if next(from).Some? && next(from).value <= t {
      LastIsLast(next, next(from).value, t);
    }
  }
}
