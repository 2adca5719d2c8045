/** What a call of `push`, `try_pop` or `wait_pop` does from its start to its return, and that it gets there. */
module TwoLockCalls {
  import opened Values
  import opened Options
  import opened TwoLockQueue

  // ------------------------------------------------------ the record of a call

  /** The call a thread is in, as its caller knows it, and what it has pushed or popped so far. */
  datatype Call = NoCall | Pushes(v: Value, out: seq<Value>) | Tries(got: seq<Value>) | Waits(got: seq<Value>)

  function Added(before: seq<Value>, after: seq<Value>): seq<Value> {
    if |before| <= |after| then after[|before|..] else []
  }

  function Grown(call: Call, s: State, s': State): Call {
    match call
    case NoCall => NoCall
    case Pushes(v, out) => Pushes(v, out + Added(s.log, s'.log))
    case Tries(got) => Tries(got + Added(s.popped, s'.popped))
    case Waits(got) => Waits(got + Added(s.popped, s'.popped))
  }

  /** The record of thread `t` after action `a`; a thread that is idle has returned. */
  function CallAfter(call: Call, s: State, a: Action, s': State, t: nat): Call
    requires t < |s'.pcs|
  {
    if a.t != t then call
    else if !call.NoCall? then (if s'.pcs[t].Idle? then NoCall else Grown(call, s, s'))
    else
      match a
      case CallPush(_, v) => Pushes(v, [])
      case CallTryPop(_) => Tries([])
      case CallWaitPop(_) => Waits([])
      case _ => NoCall
  }

  ghost predicate OthersStay(s: State, s': State, t: nat) {
    |s'.pcs| == |s.pcs| && forall i :: 0 <= i < |s.pcs| && i != t ==> s'.pcs[i] == s.pcs[i]
  }

  lemma StepsLeaveOthers(s: State, t: nat)
    requires t < |s.pcs|
    ensures OthersStay(s, PushStep(s, t), t) && OthersStay(s, PopStep(s, t), t)
  {
  }

  lemma ActionsLeaveOthers(s: State, a: Action)
    ensures OthersStay(s, Apply(s, a), a.t)
  {
    if a.Run? && a.t < |s.pcs| {
      StepsLeaveOthers(s, a.t);
    }
  }

  lemma {:induction false} ThreadsAreFixed(threads: nat, first: Address, acts: seq<Action>)
    ensures |Exec(threads, first, acts).pcs| == threads
  {
    if acts != [] {
      ThreadsAreFixed(threads, first, acts[..|acts| - 1]);
      ActionsLeaveOthers(Exec(threads, first, acts[..|acts| - 1]), acts[|acts| - 1]);
    }
  }

  /** The record of thread `t` after a schedule. */
  ghost function CallOf(threads: nat, first: Address, acts: seq<Action>, t: nat): Call
    requires t < threads
  {
    if acts == [] then NoCall
    else
      ThreadsAreFixed(threads, first, acts);
      var before := acts[..|acts| - 1];
      CallAfter(CallOf(threads, first, before, t), Exec(threads, first, before), acts[|acts| - 1],
                Exec(threads, first, acts), t)
  }

  predicate Pops(call: Call, got: seq<Value>) {
    call == Tries(got) || call == Waits(got)
  }

  /** Where a thread stands fits the call it is in; only `wait_pop` sleeps. */
  predicate Fits(call: Call, pc: Pc) {
    match pc
    case Idle => call.NoCall?
    case PushAlloc(v) => call == Pushes(v, [])
    case PushLock(v, _) => call == Pushes(v, [])
    case PushData(v, _) => call == Pushes(v, [])
    case PushNext(v, _) => call == Pushes(v, [])
    case PushTail(v, _) => call == Pushes(v, [])
    case PopLock(waits) => call == if waits then Waits([]) else Tries([])
    case PopTest(waits) => call == if waits then Waits([]) else Tries([])
    case PopAsleep => call == Waits([])
    case PopTake => Pops(call, [])
    case PopRead(_) => Pops(call, [])
    case PopAdvance(_, _) => Pops(call, [])
    case PopFree(_, x) => Pops(call, [x])
  }

  /** What the action does to the queue is what the acting thread's call asks for. */
  ghost predicate MovesItsOwn(s: State, s': State, call: Call) {
    && (s'.log == s.log || (call.Pushes? && call.out == [] && s'.log == s.log + [call.v]))
    && (s'.popped == s.popped || (Pops(call, []) && s.H() < s.T() && s'.popped == s.popped + [s.log[s.H()]]))
  }

  /** How a call may return: a push once done, a `try_pop` also from an empty queue, a `wait_pop` never. */
  ghost predicate ReturnsRightly(s: State, call: Call) {
    match call
    case NoCall => true
    case Pushes(v, out) => out == [v]
    case Tries(got) => |got| == 1 || (got == [] && s.H() == s.T())
    case Waits(got) => |got| == 1
  }

  /** An action of the call: it still fits, moves only what it should, and returns rightly. */
  ghost predicate Proper(s: State, a: Action, call: Call)
    requires a.t < |s.pcs|
  {
    var s' := Apply(s, a);
    && |s'.pcs| == |s.pcs| && Fits(CallAfter(call, s, a, s', a.t), s'.pcs[a.t]) && MovesItsOwn(s, s', call)
    && (!s.pcs[a.t].Idle? && s'.pcs[a.t].Idle? ==> ReturnsRightly(s, Grown(call, s, s')))
  }

  lemma PushIsProper(s: State, t: nat, call: Call)
    requires Inv(s) && t < |s.pcs| && Pushing(s.pcs[t]) && Fits(call, s.pcs[t])
    ensures Proper(s, Run(t), call)
  {
    assert ThreadInv(s, t);
  }

  lemma PopTestIsProper(s: State, t: nat, call: Call)
    requires Inv(s) && t < |s.pcs| && (s.pcs[t].PopLock? || s.pcs[t].PopTest?) && Fits(call, s.pcs[t])
    ensures Proper(s, Run(t), call)
  {
    assert ThreadInv(s, t);
  }

  lemma PopIsProper(s: State, t: nat, call: Call)
    requires Inv(s) && t < |s.pcs| && !Pushing(s.pcs[t]) && Fits(call, s.pcs[t])
    requires !s.pcs[t].PopLock? && !s.pcs[t].PopTest?
    ensures Proper(s, Run(t), call)
  {
    assert ThreadInv(s, t);
  }

  lemma OwnActionIsProper(s: State, a: Action, call: Call)
    requires Inv(s) && a.t < |s.pcs| && Fits(call, s.pcs[a.t])
    ensures Proper(s, a, call)
  {
    if a.Run? {
      if Pushing(s.pcs[a.t]) {
        PushIsProper(s, a.t, call);
      } else if s.pcs[a.t].PopLock? || s.pcs[a.t].PopTest? {
        PopTestIsProper(s, a.t, call);
      } else {
        PopIsProper(s, a.t, call);
      }
    }
  }

  /** On every schedule a thread's place fits its call; a `try_pop` in particular never sleeps. */
  lemma {:induction false} CallsKeepTheirKind(threads: nat, first: Address, acts: seq<Action>, t: nat)
    requires t < threads
    ensures |Exec(threads, first, acts).pcs| == threads
    ensures Fits(CallOf(threads, first, acts, t), Exec(threads, first, acts).pcs[t])
  {
    ThreadsAreFixed(threads, first, acts);
    if acts != [] {
      var before, a := acts[..|acts| - 1], acts[|acts| - 1];
      var s := Exec(threads, first, before);
      CallsKeepTheirKind(threads, first, before, t);
      ExecKeepsInv(threads, first, before);
      if a.t == t {
        OwnActionIsProper(s, a, CallOf(threads, first, before, t));
      } else {
        ActionsLeaveOthers(s, a);
      }
    }
  }

  /**
   On every schedule: a push enters its argument exactly once before it returns;
   a `try_pop` returns with the first element, or with nothing from an empty
   queue; a `wait_pop` returns only with the first element.
   */
  lemma {:induction false} CallsDoTheirWork(threads: nat, first: Address, acts: seq<Action>, a: Action)
    requires a.t < threads
    ensures |Exec(threads, first, acts).pcs| == threads
    ensures Proper(Exec(threads, first, acts), a, CallOf(threads, first, acts, a.t))
  {
    CallsKeepTheirKind(threads, first, acts, a.t);
    ExecKeepsInv(threads, first, acts);
    OwnActionIsProper(Exec(threads, first, acts), a, CallOf(threads, first, acts, a.t));
  }

  // ------------------------------------------------------- undisturbed calls

  /** Thread `t` takes `n` steps and nobody else moves. */
  function Ran(s: State, t: nat, n: nat): State
    decreases n
  {
    if n == 0 then s else Ran(Apply(s, Run(t)), t, n - 1)
  }

  lemma PushFromNext(s: State, t: nat)
    requires Inv(s) && t < |s.pcs| && s.pcs[t].PushNext?
    ensures var v, n, s' := s.pcs[t].v, s.pcs[t].node, Ran(s, t, 2);
      s' == s.(log := s.log + [v], tail := n, tailLock := None, pcs := s.pcs[t := Idle],
               heap := s'.heap, chain := s.chain + [n])
  {
    assert ThreadInv(s, t);
    var s1 := Apply(s, Run(t));
    assert Ran(s, t, 2) == Ran(s1, t, 1) == Apply(s1, Run(t));
  }

  /** A push that has its node and finds the tail mutex free completes in four steps. */
  lemma PushUndisturbed(s: State, t: nat)
    requires Inv(s) && t < |s.pcs| && s.pcs[t].PushLock? && s.tailLock == None
    ensures var v, n, s' := s.pcs[t].v, s.pcs[t].node, Ran(s, t, 4);
      s' == s.(log := s.log + [v], tail := n, pcs := s.pcs[t := Idle], heap := s'.heap, chain := s.chain + [n])
  {
    var v, n := s.pcs[t].v, s.pcs[t].node;
    var s1 := At(s, t, PushData(v, n)).(tailLock := Some(t));
    assert Apply(s, Run(t)) == s1;
    ApplyKeepsInv(s, Run(t));
    var s2 := Apply(s1, Run(t));
    ApplyKeepsInv(s1, Run(t));
    assert s2 == At(s1, t, PushNext(v, n)).(heap := s2.heap);
    PushFromNext(s2, t);
    assert Ran(s, t, 4) == Ran(s1, t, 3) == Ran(s2, t, 2);
  }

  /** What a pop leaves when it has taken the first element and freed its node. */
  ghost predicate TookFirst(s: State, s': State, t: nat) {
    && Chain(s) && s.H() < s.T() && t < |s.pcs|
    && s' == s.(popped := s.popped + [s.log[s.H()]], pcs := s.pcs[t := Idle], headLock := None,
                head := Some(s.chain[s.H() + 1]), heap := s.heap - {s.chain[s.H()]})
  }

  lemma PopFromAdvance(s: State, t: nat)
    requires Inv(s) && t < |s.pcs| && s.pcs[t].PopAdvance?
    ensures TookFirst(s, Ran(s, t, 2), t)
  {
    assert ThreadInv(s, t);
    var h := s.H();
    assert s.heap[s.chain[h]] == Node(Some(s.log[h]), Some(s.chain[h + 1]));
    var s1 := Apply(s, Run(t));
    var s2 := Apply(s1, Run(t));
    assert s2.heap == s.heap - {s.chain[h]};
    assert s2.pcs == s.pcs[t := Idle];
    assert Ran(s, t, 2) == Ran(s1, t, 1) == s2;
  }

  lemma PopFromTake(s: State, t: nat)
    requires Inv(s) && t < |s.pcs| && s.pcs[t].PopTake?
    ensures TookFirst(s, Ran(s, t, 4), t)
  {
    assert ThreadInv(s, t);
    var h := s.H();
    assert s.heap[s.chain[h]] == Node(Some(s.log[h]), Some(s.chain[h + 1]));
    var s1 := At(s, t, PopRead(s.chain[h])).(head := None);
    assert Apply(s, Run(t)) == s1;
    ApplyKeepsInv(s, Run(t));
    var s2 := At(s1, t, PopAdvance(s.chain[h], s.log[h]));
    assert Apply(s1, Run(t)) == s2;
    ApplyKeepsInv(s1, Run(t));
    PopFromAdvance(s2, t);
    assert Ran(s, t, 4) == Ran(s1, t, 3) == Ran(s2, t, 2);
  }

  lemma PopFromTest(s: State, t: nat)
    requires Inv(s) && t < |s.pcs| && s.pcs[t].PopTest?
    ensures s.H() < s.T() ==> TookFirst(s, Ran(s, t, 5), t)
    ensures s.H() == s.T() ==>
      Ran(s, t, 1) == s.(pcs := s.pcs[t := if s.pcs[t].waits then PopAsleep else Idle], headLock := None)
  {
    assert ThreadInv(s, t);
    var s1 := Apply(s, Run(t));
    if s.H() < s.T() {
      assert s.chain[s.H()] != s.chain[s.T()];
      assert s1 == At(s, t, PopTake);
      ApplyKeepsInv(s, Run(t));
      PopFromTake(s1, t);
      assert Ran(s, t, 5) == Ran(s1, t, 4);
    } else {
      assert Ran(s, t, 1) == s1;
    }
  }

  /**
   A pop that finds the head mutex free: from a queue with elements it takes the
   first in six steps; from an empty one `try_pop` returns and `wait_pop` sleeps
   in two, with the mutex free again.
   */
  lemma PopUndisturbed(s: State, t: nat)
    requires Inv(s) && t < |s.pcs| && s.pcs[t].PopLock? && s.headLock == None
    ensures s.H() < s.T() ==> TookFirst(s, Ran(s, t, 6), t)
    ensures s.H() == s.T() ==> Ran(s, t, 2) == s.(pcs := s.pcs[t := if s.pcs[t].waits then PopAsleep else Idle])
  {
    var s1 := At(s, t, PopTest(s.pcs[t].waits)).(headLock := Some(t));
    assert Apply(s, Run(t)) == s1;
    ApplyKeepsInv(s, Run(t));
    PopFromTest(s1, t);
    assert Ran(s, t, 6) == Ran(s1, t, 5) && Ran(s, t, 2) == Ran(s1, t, 1);
  }

  /** A whole `push`, from its call on, with a free address from the allocator and the tail mutex free. */
  lemma PushCallCompletes(s: State, t: nat, v: Value, n: Address)
    requires Inv(s) && t < |s.pcs| && s.pcs[t].Idle? && n !in s.heap && s.tailLock == None
    ensures var s' := Ran(Apply(Apply(s, CallPush(t, v)), Allocate(t, n)), t, 4);
      s' == s.(log := s.log + [v], tail := n, heap := s'.heap, chain := s.chain + [n])
  {
    var s1 := At(s, t, PushAlloc(v));
    assert Apply(s, CallPush(t, v)) == s1;
    ApplyKeepsInv(s, CallPush(t, v));
    var s2 := At(s1, t, PushLock(v, n)).(heap := s.heap[n := Blank]);
    assert Apply(s1, Allocate(t, n)) == s2;
    ApplyKeepsInv(s1, Allocate(t, n));
    PushUndisturbed(s2, t);
    assert s2.pcs[t := Idle] == s.pcs;
  }

  /** A sleeping `wait_pop` that is woken goes back for the head mutex, still to wait if it finds nothing. */
  lemma WokenPopTriesAgain(s: State, t: nat)
    requires t < |s.pcs| && s.pcs[t].PopAsleep?
    ensures Apply(s, Wake(t)) == s.(pcs := s.pcs[t := PopLock(true)])
  {
  }
}
