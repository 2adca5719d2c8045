/**
 The bounded first-in first-out queue that both rings of
 `SafeCircleQueue.hpp` are meant to be.
 */
module BoundedFifo {
  import opened Values

  /** What a caller can observe of one atomic step. */
  datatype Event =
    | Silent
    | EmplaceOk(value: Value)
    | EmplaceFull
    | PopOk(value: Value)
    | PopTorn          // a pop that returned something no emplace finished writing
    | PopEmpty

  /** The queue `q` of capacity `cap` may answer `e` and become `q'`. */
  predicate FifoStep(cap: nat, q: seq<Value>, e: Event, q': seq<Value>) {
    match e
    case Silent => q' == q
    case EmplaceOk(v) => |q| < cap && q' == q + [v]
    case EmplaceFull => |q| == cap && q' == q
    case PopOk(v) => |q| > 0 && v == q[0] && q' == q[1..]
    case PopTorn => false
    case PopEmpty => q == [] && q' == q
  }
}
