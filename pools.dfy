/**
  sync.Pool, as the dispatcher uses it, seen sequentially: a free-list of
  instances of one type. Get hands out the most recently returned instance,
  or a new zero instance when there is none; Put returns an instance as it is.
 */
module Pools {
  import opened Values
  import Shape

  /** A pool of instances of `elem`, whose `New` builds a zero instance. */
  datatype Pool = Pool(elem: Shape.TypeDesc, free: seq<Value>)

  /** A pool with nothing in it: every Get builds a zero instance of `elem`. */
  function NewPool(elem: Shape.TypeDesc): (p: Pool)
    ensures p.elem == elem
    ensures Get(p) == (Zero, p)
    ensures AllZero(p.free)
  {
    Pool(elem, [])
  }

  /** Get: an instance and the pool without it. */
  function Get(p: Pool): (r: (Value, Pool))
    ensures r.1.elem == p.elem
    ensures p.free == [] ==> r == (Zero, p)
    ensures p.free != [] ==> r.1.free + [r.0] == p.free
  {
    if p.free == [] then (Zero, p)
    else (p.free[|p.free| - 1], p.(free := p.free[..|p.free| - 1]))
  }

  /** Put: the pool with `v` returned to it, unchanged. */
  function Put(p: Pool, v: Value): Pool
  {
    p.(free := p.free + [v])
  }

  predicate AllZero(items: seq<Value>)
  {
    forall i :: 0 <= i < |items| ==> items[i] == Zero
  }

  /** Get gives back what the last Put returned, and leaves the pool as it was before that Put. */
  lemma PutThenGet(p: Pool, v: Value)
    ensures Get(Put(p, v)) == (v, p)
  {
    assert (p.free + [v])[..|p.free|] == p.free;
  }

  /** A pool that only ever receives zero instances hands out zero instances and keeps holding only those. */
  lemma ZeroPoolStaysZero(p: Pool)
    requires AllZero(p.free)
    ensures Get(p).0 == Zero
    ensures AllZero(Get(p).1.free)
    ensures AllZero(Put(p, Zero).free)
  {
  }
}
