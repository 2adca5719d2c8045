/**
 Message dispatch: the queue of `Message.hpp`, and the chain of handlers that
 `wait().handle<A>(..).handle<B>(..)` builds in `Dispatcher.hpp`.
 */
module Dispatcher {
  import opened Options

  /** What a chain does with one message. */
  datatype Verdict = Handled(link: nat) | Closed | Missed

  /**
   `dispatcher(msg)`: the last link of the chain tests its own message type and
   passes the message to the link before it; the base throws on `close`.
   `chain` lists the handled types in the order they were chained.
   */
  function Dispatch<K(==)>(chain: seq<K>, close: K, m: K): Verdict {
    if chain == [] then (if m == close then Closed else Missed)
    else if chain[|chain| - 1] == m then Handled(|chain| - 1)
    else Dispatch(chain[..|chain| - 1], close, m)
  }

  /** The handler that runs is the most recently chained one for the type. */
  lemma {:induction false} DispatchPicksLatest<K>(chain: seq<K>, close: K, m: K)
    ensures match Dispatch(chain, close, m)
      case Handled(i) => i < |chain| && chain[i] == m && m !in chain[i + 1..]
      case Closed => m !in chain && m == close
      case Missed => m !in chain && m != close
  {
    if chain != [] && chain[|chain| - 1] != m {
      DispatchPicksLatest(chain[..|chain| - 1], close, m);
    }
  }

  /** How a wait ends: one handler ran, `CloseQueue` was thrown, or it still waits. */
  datatype Outcome = Ran(link: nat) | Threw | Blocked

  /** The length of the shortest prefix whose last message is not missed. */
  function Consumed<K(==)>(chain: seq<K>, close: K, q: seq<K>): (n: nat)
    ensures n <= |q|
    decreases |q|
  {
    if q == [] then 0
    else if Dispatch(chain, close, q[0]).Missed? then 1 + Consumed(chain, close, q[1..])
    else 1
  }

  function OutcomeOf<K(==)>(chain: seq<K>, close: K, q: seq<K>): Outcome {
    var n := Consumed(chain, close, q);
    if n == 0 then Blocked
    else match Dispatch(chain, close, q[n - 1])
         case Handled(i) => Ran(i)
         case Closed => Threw
         case Missed => Blocked
  }

  lemma {:induction false} ConsumesShortestPrefix<K>(chain: seq<K>, close: K, q: seq<K>)
    ensures var n := Consumed(chain, close, q);
      && (forall j :: 0 <= j < n - 1 ==> q[j] !in chain && q[j] != close)
      && (match OutcomeOf(chain, close, q)
          case Ran(i) => n > 0 && i < |chain| && chain[i] == q[n - 1] && q[n - 1] !in chain[i + 1..]
          case Threw => n > 0 && q[n - 1] == close && close !in chain
          case Blocked => n == |q| && forall j :: 0 <= j < |q| ==> q[j] !in chain && q[j] != close)
    decreases |q|
  {
    if q != [] {
      DispatchPicksLatest(chain, close, q[0]);
      if Dispatch(chain, close, q[0]).Missed? {
        ConsumesShortestPrefix(chain, close, q[1..]);
        var n := Consumed(chain, close, q);
        assert forall j :: 1 <= j < |q| ==> q[j] == q[1..][j - 1];
      }
    }
  }

  /** `messaging::Queue`. */
  class Queue<K(==)> {
    var queue: seq<K>

    constructor ()
      ensures queue == []
    {
      queue := [];
    }

    method Push(m: K)
      modifies this
      ensures queue == old(queue) + [m]
    {
      queue := queue + [m];
    }

    /** Takes the first message; `None` means that the queue is empty and the caller blocks. */
    method WaitAndPop() returns (m: Option<K>)
      modifies this
      ensures match m
        case None => old(queue) == queue == []
        case Some(first) => old(queue) == [first] + queue
    {
      if queue == [] {
        return None;
      }
      m := Some(queue[0]);
      queue := queue[1..];
    }

    /**
     `waitAndDispatcher` of the last link, run until it stops or has to block:
     it takes exactly the shortest prefix that ends in a handled message or in
     `CloseQueue`, and runs exactly one handler or none.
     */
    method WaitAndDispatch(chain: seq<K>, close: K) returns (r: Outcome)
      modifies this
      ensures r == OutcomeOf(chain, close, old(queue))
      ensures queue == old(queue)[Consumed(chain, close, old(queue))..]
    {
      ghost var taken := 0;
      while queue != []
        invariant taken <= |old(queue)| && queue == old(queue)[taken..]
        invariant Consumed(chain, close, old(queue)) == taken + Consumed(chain, close, queue)
        invariant taken > 0 ==> Dispatch(chain, close, old(queue)[taken - 1]).Missed?
        decreases |queue|
      {
        var m := WaitAndPop();
        taken := taken + 1;
        match Dispatch(chain, close, m.value)
        case Handled(i) => return Ran(i);
        case Closed => return Threw;
        case Missed =>
      }
      return Blocked;
    }
  }

  // ---------------------------------------------------------- who does the wait

  /** How the chain is put together: `handle` adds a link, a move replaces the last one. */
  datatype Build = Handle | Move

  /** The `chained_` flags of the base dispatcher and every object built from it. */
  function Chained(steps: seq<Build>): (flags: seq<bool>)
    ensures |flags| == |steps| + 1
  {
    if steps == [] then [false]
    else var flags := Chained(steps[..|steps| - 1]);
      flags[|flags| - 1 := true] + [match steps[|steps| - 1] case Handle => false case Move => flags[|flags| - 1]]
  }

  /** A destructor waits unless its object is chained: only the last object's does. */
  lemma {:induction false} OnlyTheLastWaits(steps: seq<Build>)
    ensures forall i :: 0 <= i <= |steps| ==> (Chained(steps)[i] <==> i < |steps|)
  {
    if steps != [] {
      OnlyTheLastWaits(steps[..|steps| - 1]);
      var before, flags := Chained(steps[..|steps| - 1]), Chained(steps);
      assert flags[..|before|] == before[|before| - 1 := true];
      assert flags[|before|] == false;
    }
  }
}
