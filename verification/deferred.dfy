/**
 * The `deferred()` helper of telegram.js: a promise together with its
 * `resolve` and `reject` functions. A promise settles once; every later
 * `resolve` or `reject` is ignored. The pending-auth registry relies on this
 * when the sweep rejects a code cell that a request has already resolved,
 * and when a repeated code submission resolves it a second time.
 */
module Deferred {

  /** The state of one deferred promise. */
  datatype Cell<T> = Pending | Fulfilled(value: T) | Rejected(reason: string)

  predicate IsSettled<T>(c: Cell<T>)
  {
    !c.Pending?
  }

  /** `d.resolve(v)`. */
  function Resolve<T>(c: Cell<T>, v: T): (r: Cell<T>)
    ensures IsSettled(r)
    ensures c.Pending? ==> r == Fulfilled(v)
    ensures IsSettled(c) ==> r == c
  {
    if c.Pending? then Fulfilled(v) else c
  }

  /** `d.reject(new Error(reason))`. */
  function Reject<T>(c: Cell<T>, reason: string): (r: Cell<T>)
    ensures IsSettled(r)
    ensures c.Pending? ==> r == Rejected(reason)
    ensures IsSettled(c) ==> r == c
  {
    if c.Pending? then Rejected(reason) else c
  }

  /** One call of `resolve` or `reject`. */
  datatype Settle<T> = DoResolve(value: T) | DoReject(reason: string)

  function Apply<T>(c: Cell<T>, op: Settle<T>): Cell<T>
  {
    match op
    case DoResolve(v) => Resolve(c, v)
    case DoReject(e) => Reject(c, e)
  }

  /** The cell after a sequence of settle calls, in order. */
  function ApplyAll<T>(c: Cell<T>, ops: seq<Settle<T>>): Cell<T>
    decreases |ops|
  {
    if ops == [] then c else ApplyAll(Apply(c, ops[0]), ops[1..])
  }

  /** Once a cell is settled, no sequence of further settle calls changes it. */
  lemma {:induction false} SettledIsFinal<T>(c: Cell<T>, ops: seq<Settle<T>>)
    requires IsSettled(c)
    ensures ApplyAll(c, ops) == c
    decreases |ops|
  {
    if ops != [] {
      SettledIsFinal(Apply(c, ops[0]), ops[1..]);
    }
  }

  /** The first settle call wins: a pending cell ends holding exactly what the first call gave it. */
  lemma {:induction false} FirstSettleWins<T>(ops: seq<Settle<T>>)
    requires ops != []
    ensures ApplyAll(Pending, ops) == match ops[0]
      case DoResolve(v) => Fulfilled(v)
      case DoReject(e) => Rejected(e)
  {
    SettledIsFinal(Apply(Pending, ops[0]), ops[1..]);
  }
}
