/**
 `SafeQueueEnhance` as a step machine over an explicit heap: every access to shared
 memory is a step, pushes and pops overlap, and freed addresses may be reused.
 */
module TwoLockQueue {
  import opened Values
  import opened Options

  type Address = nat

  datatype Node = Node(data: Option<Value>, next: Option<Address>)

  const Blank := Node(None, None)

  datatype Pc =
    | Idle
    | PushAlloc(v: Value)
    | PushLock(v: Value, node: Address)
    | PushData(v: Value, node: Address)
    | PushNext(v: Value, node: Address)
    | PushTail(v: Value, node: Address)
    | PopLock(waits: bool)
    | PopTest(waits: bool)
    | PopAsleep
    | PopTake
    | PopRead(node: Address)
    | PopAdvance(node: Address, x: Value)
    | PopFree(node: Address, x: Value)

  /**
   The object and the heap; `fault` records an access to a node that is not
   allocated or to a field that is empty. The rest is the past: the nodes in the
   order they were linked, the values in the order `tail_` moved past them, and
   the values popped in the order `head_` moved.
   */
  datatype State = State(
    heap: map<Address, Node>, head: Option<Address>, tail: Address,
    headLock: Option<nat>, tailLock: Option<nat>, pcs: seq<Pc>, fault: bool,
    chain: seq<Address>, log: seq<Value>, popped: seq<Value>)
  {
    function H(): nat { |popped| }
    function T(): nat { |log| }
  }

  datatype Action =
    | CallPush(t: nat, v: Value)
    | CallTryPop(t: nat)
    | CallWaitPop(t: nat)
    | Run(t: nat)
    | Allocate(t: nat, node: Address)  // `make_unique`, with the address the allocator picks
    | Wake(t: nat)                     // a spurious wakeup; nothing ever notifies `cv_lock_`

  function Init(threads: nat, first: Address): State {
    State(map[first := Blank], Some(first), first, None, None, seq(threads, _ => Idle), false,
          [first], [], [])
  }

  function At(s: State, t: nat, pc: Pc): State
    requires t < |s.pcs|
  {
    s.(pcs := s.pcs[t := pc])
  }

  function Fault(s: State): State {
    s.(fault := true)
  }

  function PushStep(s: State, t: nat): State
    requires t < |s.pcs|
  {
    match s.pcs[t]
    case PushLock(v, n) =>
      if s.tailLock == None then At(s, t, PushData(v, n)).(tailLock := Some(t)) else s
    case PushData(v, n) =>
      if s.tail !in s.heap then Fault(s)
      else At(s, t, PushNext(v, n)).(heap := s.heap[s.tail := s.heap[s.tail].(data := Some(v))])
    case PushNext(v, n) =>
      if s.tail !in s.heap then Fault(s)
      else At(s, t, PushTail(v, n)).(heap := s.heap[s.tail := s.heap[s.tail].(next := Some(n))])
    case PushTail(v, n) =>
      At(s, t, Idle).(tail := n, tailLock := None, chain := s.chain + [n], log := s.log + [v])
    case _ => s
  }

  function PopStep(s: State, t: nat): State
    requires t < |s.pcs|
  {
    match s.pcs[t]
    case PopLock(w) => if s.headLock == None then At(s, t, PopTest(w)).(headLock := Some(t)) else s
    case PopTest(w) =>
      if s.head != Some(s.tail) then At(s, t, PopTake)
      else At(s, t, if w then PopAsleep else Idle).(headLock := None)
    case PopTake =>
      if s.head == None then Fault(s) else At(s, t, PopRead(s.head.value)).(head := None)
    case PopRead(n) =>
      if n !in s.heap || s.heap[n].data == None then Fault(s)
      else At(s, t, PopAdvance(n, s.heap[n].data.value))
    case PopAdvance(n, x) =>
      if n !in s.heap then Fault(s)
      else At(s, t, PopFree(n, x)).(
        head := s.heap[n].next, heap := s.heap[n := s.heap[n].(next := None)], popped := s.popped + [x])
    case PopFree(n, x) =>
      if n !in s.heap then Fault(s)
      else At(s, t, Idle).(heap := s.heap - {n}, headLock := None)
    case _ => s
  }

  /** An action that is not possible in `s` leaves it unchanged. */
  function Apply(s: State, a: Action): State {
    if a.t >= |s.pcs| then s else
    match a
    case CallPush(t, v) => if s.pcs[t].Idle? then At(s, t, PushAlloc(v)) else s
    case CallTryPop(t) => if s.pcs[t].Idle? then At(s, t, PopLock(false)) else s
    case CallWaitPop(t) => if s.pcs[t].Idle? then At(s, t, PopLock(true)) else s
    case Allocate(t, n) =>
      if s.pcs[t].PushAlloc? && n !in s.heap
      then At(s, t, PushLock(s.pcs[t].v, n)).(heap := s.heap[n := Blank]) else s
    case Wake(t) => if s.pcs[t].PopAsleep? then At(s, t, PopLock(true)) else s
    case Run(t) => if Pushing(s.pcs[t]) then PushStep(s, t) else PopStep(s, t)
  }

  function Exec(threads: nat, first: Address, acts: seq<Action>): State {
    if acts == [] then Init(threads, first)
    else Apply(Exec(threads, first, acts[..|acts| - 1]), acts[|acts| - 1])
  }

  // ------------------------------------------------------------ the invariant

  predicate Pushing(pc: Pc) {
    pc.PushLock? || HoldsTail(pc)
  }

  predicate HoldsTail(pc: Pc) {
    pc.PushData? || pc.PushNext? || pc.PushTail?
  }

  predicate HoldsHead(pc: Pc) {
    pc.PopTest? || pc.PopTake? || pc.PopRead? || pc.PopAdvance? || pc.PopFree?
  }

  /** Threads that hold a node no one else can reach. */
  predicate Owns(pc: Pc) {
    Pushing(pc) || pc.PopFree?
  }

  ghost predicate Locks(s: State) {
    forall i :: 0 <= i < |s.pcs| ==>
      && (HoldsTail(s.pcs[i]) <==> s.tailLock == Some(i))
      && (HoldsHead(s.pcs[i]) <==> s.headLock == Some(i))
  }

  /** Not a node of the chain from `head_` to `tail_`. */
  ghost predicate Unlinked(s: State, n: Address)
    requires |s.chain| == s.T() + 1
  {
    forall k :: s.H() <= k <= s.T() ==> s.chain[k] != n
  }

  /**
   From `head_` the `next` pointers pass through distinct allocated nodes to
   `tail_`, and every node before `tail_` holds its value.
   */
  ghost predicate Chain(s: State) {
    && s.H() <= s.T() && |s.chain| == s.T() + 1 && s.tail == s.chain[s.T()]
    && (forall k :: s.H() <= k <= s.T() ==> s.chain[k] in s.heap)
    && (forall j, k :: s.H() <= j < k <= s.T() ==> s.chain[j] != s.chain[k])
    && (forall k :: s.H() <= k < s.T() ==>
          s.heap[s.chain[k]] == Node(Some(s.log[k]), Some(s.chain[k + 1])))
  }

  /** `head_` is null only between a pop's first and third statement. */
  ghost predicate Ends(s: State)
    requires Chain(s)
  {
    && (s.head == Some(s.chain[s.H()])
        || (s.head == None && s.headLock.Some? && s.headLock.value < |s.pcs|
            && (s.pcs[s.headLock.value].PopRead? || s.pcs[s.headLock.value].PopAdvance?)))
    && (s.heap[s.tail] == Blank
        || (s.tailLock.Some? && s.tailLock.value < |s.pcs|
            && (s.pcs[s.tailLock.value].PushNext? || s.pcs[s.tailLock.value].PushTail?)))
  }

  ghost predicate ThreadInv(s: State, i: nat)
    requires i < |s.pcs| && Chain(s)
  {
    && (Owns(s.pcs[i]) ==> s.pcs[i].node in s.heap && Unlinked(s, s.pcs[i].node))
    && (Pushing(s.pcs[i]) ==> s.heap[s.pcs[i].node] == Blank)
    && match s.pcs[i]
       case PushData(v, n) => s.heap[s.tail] == Blank
       case PushNext(v, n) => s.heap[s.tail] == Node(Some(v), None)
       case PushTail(v, n) => s.heap[s.tail] == Node(Some(v), Some(n))
       case PopTest(_) => s.head == Some(s.chain[s.H()])
       case PopTake => s.H() < s.T() && s.head == Some(s.chain[s.H()])
       case PopRead(n) => s.H() < s.T() && n == s.chain[s.H()]
       case PopAdvance(n, x) => s.H() < s.T() && n == s.chain[s.H()] && x == s.log[s.H()]
       case PopFree(n, x) =>
         s.head == Some(s.chain[s.H()]) && s.H() > 0 && s.popped[s.H() - 1] == x && s.heap[n].next == None
       case _ => true
  }

  ghost predicate Disjoint(s: State) {
    forall i, j :: 0 <= i < j < |s.pcs| && Owns(s.pcs[i]) && Owns(s.pcs[j]) ==>
      s.pcs[i].node != s.pcs[j].node
  }

  ghost predicate Inv(s: State) {
    && !s.fault && Locks(s) && Chain(s) && Ends(s) && Disjoint(s)
    && s.popped == s.log[..s.H()]
    && forall i :: 0 <= i < |s.pcs| ==> ThreadInv(s, i)
  }

  /**
   What a step of thread `t` leaves to thread `i`: its own node, the tail node
   if `i` holds the tail mutex, and the head end if it holds the head mutex.
   */
  ghost predicate Undisturbed(s: State, s': State, i: nat)
    requires Chain(s) && Chain(s') && i < |s.pcs| == |s'.pcs|
  {
    && s'.pcs[i] == s.pcs[i]
    && (Owns(s.pcs[i]) ==>
          && s.pcs[i].node in s.heap && s.pcs[i].node in s'.heap
          && s'.heap[s.pcs[i].node] == s.heap[s.pcs[i].node] && Unlinked(s', s.pcs[i].node))
    && (HoldsTail(s.pcs[i]) ==> s'.tail == s.tail && s'.heap[s.tail] == s.heap[s.tail])
    && (HoldsHead(s.pcs[i]) ==>
          s'.head == s.head && s'.popped == s.popped && s.chain <= s'.chain && s.log <= s'.log)
  }

  lemma OtherKept(s: State, s': State, i: nat)
    requires Chain(s) && Chain(s') && i < |s.pcs| == |s'.pcs|
    requires ThreadInv(s, i) && Undisturbed(s, s', i)
    ensures ThreadInv(s', i)
  {
  }

  /** The step moves thread `t` to `pc` without taking or giving up a node. */
  ghost predicate KeepsNode(pc: Pc, pc': Pc) {
    Owns(pc') ==> Owns(pc) && pc'.node == pc.node
  }

  /** Steps that change no node and no end of the chain, except `head_` by the head's holder. */
  lemma QuietKept(s: State, s': State, t: nat)
    requires Inv(s) && t < |s.pcs| == |s'.pcs|
    requires s' == s.(pcs := s.pcs[t := s'.pcs[t]], head := s'.head, headLock := s'.headLock, tailLock := s'.tailLock)
    requires KeepsNode(s.pcs[t], s'.pcs[t])
    requires s'.head == s.head || HoldsHead(s.pcs[t])
    requires Locks(s') && Ends(s') && ThreadInv(s', t)
    ensures Inv(s')
  {
    forall i | 0 <= i < |s.pcs| && i != t ensures ThreadInv(s', i) {
      assert ThreadInv(s, i);
      OtherKept(s, s', i);
    }
  }

  lemma AllocateKeepsInv(s: State, t: nat, n: Address)
    requires Inv(s) && t < |s.pcs| && s.pcs[t].PushAlloc? && n !in s.heap
    ensures Inv(Apply(s, Allocate(t, n)))
  {
    var s' := Apply(s, Allocate(t, n));
    NobodyOwns(s, t, n);
    forall i | 0 <= i < |s.pcs| && i != t ensures ThreadInv(s', i) {
      assert ThreadInv(s, i);
      OtherKept(s, s', i);
    }
  }

  /** Writing `tail_->data` and `tail_->next`. */
  lemma WriteTailKept(s: State, t: nat)
    requires Inv(s) && t < |s.pcs| && (s.pcs[t].PushData? || s.pcs[t].PushNext?)
    ensures Inv(PushStep(s, t))
  {
    var s' := PushStep(s, t);
    assert ThreadInv(s, t);
    assert Chain(s');
    forall i | 0 <= i < |s.pcs| && i != t ensures ThreadInv(s', i) {
      assert ThreadInv(s, i);
      OtherKept(s, s', i);
    }
  }

  lemma MovedTailIsChained(s: State, s': State, v: Value, n: Address)
    requires Chain(s) && n in s.heap && Unlinked(s, n) && s.heap[s.tail] == Node(Some(v), Some(n))
    requires s'.heap == s.heap && s'.tail == n && s'.popped == s.popped
    requires s'.chain == s.chain + [n] && s'.log == s.log + [v]
    ensures Chain(s')
    ensures forall m :: Unlinked(s', m) <==> Unlinked(s, m) && m != n
  {
    forall m ensures Unlinked(s', m) <==> Unlinked(s, m) && m != n {
      assert s'.chain[s'.T()] == n;
      if Unlinked(s', m) {
        assert forall k :: s.H() <= k <= s.T() ==> s.chain[k] == s'.chain[k];
      }
    }
  }

  /** Moving `tail_`: the new node joins the chain, the old tail holds its value. */
  lemma MoveTailKept(s: State, t: nat)
    requires Inv(s) && t < |s.pcs| && s.pcs[t].PushTail?
    ensures Inv(PushStep(s, t))
  {
    var s' := PushStep(s, t);
    assert ThreadInv(s, t);
    MovedTailIsChained(s, s', s.pcs[t].v, s.pcs[t].node);
    forall i | 0 <= i < |s.pcs| && i != t ensures ThreadInv(s', i) {
      assert ThreadInv(s, i);
      OtherKept(s, s', i);
    }
  }

  lemma PushKeepsInv(s: State, t: nat)
    requires Inv(s) && t < |s.pcs| && Pushing(s.pcs[t])
    ensures Inv(PushStep(s, t))
  {
    assert ThreadInv(s, t);
    match s.pcs[t]
    case PushLock(_, _) => QuietKept(s, PushStep(s, t), t);
    case PushTail(_, _) => MoveTailKept(s, t);
    case _ => WriteTailKept(s, t);
  }

  /** A node that is not allocated, or that is linked, belongs to no thread. */
  lemma NobodyOwns(s: State, t: nat, n: Address)
    requires Inv(s) && (n !in s.heap || !Unlinked(s, n))
    ensures forall i :: 0 <= i < |s.pcs| && i != t && Owns(s.pcs[i]) ==> s.pcs[i].node != n
  {
    forall i | 0 <= i < |s.pcs| && i != t && Owns(s.pcs[i]) ensures s.pcs[i].node != n {
      assert ThreadInv(s, i);
    }
  }

  /** Moving `head_` on: the old node leaves the chain with its value delivered. */
  lemma AdvanceKept(s: State, t: nat)
    requires Inv(s) && t < |s.pcs| && s.pcs[t].PopAdvance?
    ensures Inv(PopStep(s, t))
  {
    var s' := PopStep(s, t);
    assert ThreadInv(s, t);
    NobodyOwns(s, t, s.chain[s.H()]);
    assert Chain(s');
    forall i | 0 <= i < |s.pcs| && i != t ensures ThreadInv(s', i) {
      assert ThreadInv(s, i);
      OtherKept(s, s', i);
    }
  }

  lemma FreeKept(s: State, t: nat)
    requires Inv(s) && t < |s.pcs| && s.pcs[t].PopFree?
    ensures Inv(PopStep(s, t))
  {
    var s' := PopStep(s, t);
    assert ThreadInv(s, t);
    assert Chain(s');
    forall i | 0 <= i < |s.pcs| && i != t ensures ThreadInv(s', i) {
      assert ThreadInv(s, i);
      OtherKept(s, s', i);
    }
  }

  lemma LockKept(s: State, t: nat)
    requires Inv(s) && t < |s.pcs| && s.pcs[t].PopLock?
    ensures Inv(PopStep(s, t))
  {
    if s.headLock == None {
      QuietKept(s, PopStep(s, t), t);
    }
  }

  lemma TestKept(s: State, t: nat)
    requires Inv(s) && t < |s.pcs| && s.pcs[t].PopTest?
    ensures Inv(PopStep(s, t))
  {
    assert ThreadInv(s, t) && s.headLock == Some(t);
    QuietKept(s, PopStep(s, t), t);
  }

  lemma TakeKept(s: State, t: nat)
    requires Inv(s) && t < |s.pcs| && s.pcs[t].PopTake?
    ensures Inv(PopStep(s, t))
  {
    assert ThreadInv(s, t) && s.headLock == Some(t);
    QuietKept(s, PopStep(s, t), t);
  }

  lemma ReadKept(s: State, t: nat)
    requires Inv(s) && t < |s.pcs| && s.pcs[t].PopRead?
    ensures Inv(PopStep(s, t))
  {
    assert ThreadInv(s, t) && s.headLock == Some(t);
    var h := s.H();
    assert h < s.T();
    assert s.heap[s.chain[h]] == Node(Some(s.log[h]), Some(s.chain[h + 1]));
    QuietKept(s, PopStep(s, t), t);
  }

  lemma PopKeepsInv(s: State, t: nat)
    requires Inv(s) && t < |s.pcs|
    ensures Inv(PopStep(s, t))
  {
    match s.pcs[t]
    case PopLock(_) => LockKept(s, t);
    case PopTest(_) => TestKept(s, t);
    case PopTake => TakeKept(s, t);
    case PopRead(_) => ReadKept(s, t);
    case PopAdvance(_, _) => AdvanceKept(s, t);
    case PopFree(_, _) => FreeKept(s, t);
    case _ =>
  }

  lemma CallKeepsInv(s: State, a: Action)
    requires Inv(s) && !a.Run? && !a.Allocate?
    ensures Inv(Apply(s, a))
  {
    var s' := Apply(s, a);
    if s' != s {
      assert ThreadInv(s, a.t);
      QuietKept(s, s', a.t);
    }
  }

  lemma ApplyKeepsInv(s: State, a: Action)
    requires Inv(s)
    ensures Inv(Apply(s, a))
  {
    if a.t < |s.pcs| {
      match a
      case Run(t) =>
        if Pushing(s.pcs[t]) {
          PushKeepsInv(s, t);
        } else {
          PopKeepsInv(s, t);
        }
      case Allocate(t, n) =>
        if s.pcs[t].PushAlloc? && n !in s.heap {
          AllocateKeepsInv(s, t, n);
        }
      case _ => CallKeepsInv(s, a);
    }
  }

  // ----------------------------------------------------------------- theorems

  lemma {:induction false} ExecKeepsInv(threads: nat, first: Address, acts: seq<Action>)
    ensures Inv(Exec(threads, first, acts))
  {
    if acts != [] {
      ExecKeepsInv(threads, first, acts[..|acts| - 1]);
      ApplyKeepsInv(Exec(threads, first, acts[..|acts| - 1]), acts[|acts| - 1]);
    }
  }

  /** The pop holds the value it took last, and the node it frees is allocated and owns no other. */
  ghost predicate FreesItsOwn(s: State, i: nat)
    requires i < |s.pcs| && s.pcs[i].PopFree?
  {
    && s.H() > 0 && s.pcs[i].x == s.popped[s.H() - 1]
    && s.pcs[i].node in s.heap && s.heap[s.pcs[i].node].next == None
  }

  /**
   On every schedule no freed node, null pointer or empty data field is ever
   dereferenced, `head_` (null only inside a pop) is the first and `tail_` the
   last of a chain of distinct nodes that hold the unpopped values in order,
   what was popped is a prefix of what was pushed, and a pop about to return
   holds the value it took and frees its one node and no other.
   */
  lemma {:induction false} PopsAreAPrefixOfPushes(threads: nat, first: Address, acts: seq<Action>)
    ensures var s := Exec(threads, first, acts);
      && !s.fault && Chain(s) && Ends(s) && s.popped == s.log[..s.H()]
      && (s.headLock == None ==> s.head == Some(s.chain[s.H()]))
      && (s.tailLock == None ==> s.heap[s.tail] == Blank)
      && (forall i :: 0 <= i < |s.pcs| && s.pcs[i].PopFree? ==> FreesItsOwn(s, i))
  {
    ExecKeepsInv(threads, first, acts);
    var s := Exec(threads, first, acts);
    forall i | 0 <= i < |s.pcs| && s.pcs[i].PopFree? ensures FreesItsOwn(s, i) {
      assert ThreadInv(s, i);
    }
  }

  function Queue(s: State): seq<Value>
    requires s.H() <= s.T()
  {
    s.log[s.H()..]
  }

  datatype Event = Silent | Pushed(v: Value) | Popped(v: Value) | NotEmpty | Empty

  /** What thread `t` does to the abstract queue, or learns about it, in its next step. */
  function EventOf(s: State, t: nat): Event
    requires t < |s.pcs|
  {
    match s.pcs[t]
    case PushTail(v, _) => Pushed(v)
    case PopAdvance(_, x) => Popped(x)
    case PopTest(_) => if s.head != Some(s.tail) then NotEmpty else Empty
    case _ => Silent
  }

  predicate QueueStep(q: seq<Value>, e: Event, q': seq<Value>) {
    match e
    case Silent => q' == q
    case Pushed(v) => q' == q + [v]
    case Popped(v) => q != [] && v == q[0] && q' == q[1..]
    case NotEmpty => q != [] && q' == q
    case Empty => q == [] && q' == q
  }

  /** The next step of thread `t` is a step of the abstract queue. */
  ghost predicate Linear(s: State, t: nat)
    requires t < |s.pcs|
  {
    var s' := Apply(s, Run(t));
    s.H() <= s.T() && s'.H() <= s'.T() && QueueStep(Queue(s), EventOf(s, t), Queue(s'))
  }

  lemma StepIsLinear(s: State, t: nat)
    requires Inv(s) && t < |s.pcs|
    ensures Linear(s, t)
  {
    ApplyKeepsInv(s, Run(t));
    assert ThreadInv(s, t);
  }

  /**
   Overlapping pushes and pops linearise to a first-in first-out queue: a push
   takes effect when `tail_` moves, a pop when `head_` moves, and a pop finds
   the queue empty at its test exactly when it is.
   */
  lemma {:induction false} OperationsLinearise(threads: nat, first: Address, acts: seq<Action>, t: nat)
    requires t < |Exec(threads, first, acts).pcs|
    ensures Linear(Exec(threads, first, acts), t)
  {
    ExecKeepsInv(threads, first, acts);
    StepIsLinear(Exec(threads, first, acts), t);
  }
}
