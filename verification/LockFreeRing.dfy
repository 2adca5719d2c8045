/**
 `SafeCircleQueNOLock` as a step machine: every atomic load, compare-exchange
 and slot access of `emplace` and `pop` is one step of one thread, and the
 threads interleave in any order (sequential consistency).
 */
module LockFreeRing {
  import opened Values
  import opened RingIndex
  import opened BoundedFifo

  /** A slot of the raw allocation: never written, under construction, or holding a value. */
  datatype Slot = Raw | Torn | Full(value: Value)

  /** Where a thread stands; the arguments are the locals of `emplace` and `pop`. */
  datatype Pc =
    | Idle
    | EmplaceLoad(v: Value)
    | EmplaceCheck(v: Value, tail: nat)
    | EmplaceCas(v: Value, tail: nat)
    | Claimed(v: Value, tail: nat)
    | Constructing(v: Value, tail: nat)
    | Publish(v: Value, tail: nat)
    | PopLoad
    | PopCheckTail(head: nat)
    | PopCheckUp(head: nat)
    | PopCopy(head: nat)
    | PopReread(head: nat, x: Slot)
    | PopCas(head: nat, x: Slot, next: nat)

  /** The object's fields, and the threads inside its methods. */
  datatype Ring = Ring(n: nat, head: nat, tail: nat, tailUp: nat, slots: seq<Slot>, pcs: seq<Pc>)

  predicate IsClaimant(pc: Pc) {
    pc.Claimed? || pc.Constructing? || pc.Publish?
  }

  /** Inside `emplace`, with `tail` loaded. */
  predicate HasTail(pc: Pc) {
    pc.EmplaceCheck? || pc.EmplaceCas? || IsClaimant(pc)
  }

  /** Inside `pop`, with `head` loaded. */
  predicate HasHead(pc: Pc) {
    pc.PopCheckTail? || pc.PopCheckUp? || pc.PopCopy? || pc.PopReread? || pc.PopCas?
  }

  predicate InRange(n: nat, pc: Pc) {
    && (HasTail(pc) ==> pc.tail < n)
    && (HasHead(pc) ==> pc.head < n)
    && (pc.PopCas? ==> pc.next < n)
  }

  predicate Shaped(r: Ring) {
    && r.n > 0 && |r.slots| == r.n
    && r.head < r.n && r.tail < r.n && r.tailUp < r.n
    && forall i :: 0 <= i < |r.pcs| ==> InRange(r.n, r.pcs[i])
  }

  function Goto(r: Ring, t: nat, pc: Pc): (r': Ring)
    requires Shaped(r) && t < |r.pcs| && InRange(r.n, pc)
    ensures Shaped(r')
  {
    r.(pcs := r.pcs[t := pc])
  }

  /** One step of a thread inside `emplace`. */
  function EmplaceStep(r: Ring, t: nat): (r': Ring)
    requires Shaped(r) && t < |r.pcs| && (r.pcs[t].EmplaceLoad? || HasTail(r.pcs[t]))
    ensures Shaped(r')
  {
    match r.pcs[t]
    case EmplaceLoad(v) => Goto(r, t, EmplaceCheck(v, r.tail))
    case EmplaceCheck(v, tail) =>
      if Succ(r.n, tail) == r.head then Goto(r, t, Idle) else Goto(r, t, EmplaceCas(v, tail))
    case EmplaceCas(v, tail) =>
      if r.tail == tail then Goto(r, t, Claimed(v, tail)).(tail := Succ(r.n, tail))
      else Goto(r, t, EmplaceLoad(v))
    case Claimed(v, tail) => Goto(r, t, Constructing(v, tail)).(slots := r.slots[tail := Torn])
    case Constructing(v, tail) => Goto(r, t, Publish(v, tail)).(slots := r.slots[tail := Full(v)])
    case Publish(v, tail) =>
      if r.tailUp == tail then Goto(r, t, Idle).(tailUp := Succ(r.n, tail)) else r
  }

  /** One step of a thread inside `pop`. */
  function PopStep(r: Ring, t: nat): (r': Ring)
    requires Shaped(r) && t < |r.pcs| && (r.pcs[t].PopLoad? || HasHead(r.pcs[t]))
    ensures Shaped(r')
  {
    match r.pcs[t]
    case PopLoad => Goto(r, t, PopCheckTail(r.head))
    case PopCheckTail(head) =>
      if head == r.tail then Goto(r, t, Idle) else Goto(r, t, PopCheckUp(head))
    case PopCheckUp(head) =>
      if head == r.tailUp then Goto(r, t, Idle) else Goto(r, t, PopCopy(head))
    case PopCopy(head) => Goto(r, t, PopReread(head, r.slots[head]))
    case PopReread(head, x) => Goto(r, t, PopCas(head, x, Succ(r.n, r.head)))
    case PopCas(head, x, next) =>
      if r.head == head then Goto(r, t, Idle).(head := next) else Goto(r, t, PopLoad)
  }

  /** One step of thread `t`. Only the fields and the thread's own locals are read. */
  function RingStep(r: Ring, t: nat): (r': Ring)
    requires Shaped(r) && t < |r.pcs|
    ensures Shaped(r')
  {
    if r.pcs[t].EmplaceLoad? || HasTail(r.pcs[t]) then EmplaceStep(r, t)
    else if r.pcs[t].PopLoad? || HasHead(r.pcs[t]) then PopStep(r, t)
    else r
  }

  /** What the caller of thread `t` sees of its next step. */
  function EventOf(r: Ring, t: nat): Event
    requires Shaped(r) && t < |r.pcs|
  {
    match r.pcs[t]
    case EmplaceCheck(_, tail) => if Succ(r.n, tail) == r.head then EmplaceFull else Silent
    case Publish(v, tail) => if r.tailUp == tail then EmplaceOk(v) else Silent
    case PopCheckTail(head) => if head == r.tail then PopEmpty else Silent
    case PopCheckUp(head) => if head == r.tailUp then PopEmpty else Silent
    case PopCas(head, x, _) =>
      if r.head != head then Silent else if x.Full? then PopOk(x.value) else PopTorn
    case _ => Silent
  }

  /**
   What happened so far, unbounded: the values in the order their producers won
   `tail_` and the winners, how many were published, what the pops returned in
   the order they won `head_`, and for each thread the number of wins there had
   been when it last loaded its index. The code keeps none of this.
   */
  datatype History = History(
    log: seq<Value>, owner: seq<nat>, published: nat, popped: seq<Slot>, ticket: seq<nat>)

  function HistoryStep(r: Ring, h: History, t: nat): (h': History)
    requires t < |r.pcs| == |h.ticket|
    ensures |h'.ticket| == |h.ticket|
  {
    match r.pcs[t]
    case EmplaceLoad(_) => h.(ticket := h.ticket[t := |h.log|])
    case EmplaceCas(v, tail) =>
      if r.tail == tail then h.(log := h.log + [v], owner := h.owner + [t]) else h
    case Publish(_, tail) => if r.tailUp == tail then h.(published := h.published + 1) else h
    case PopLoad => h.(ticket := h.ticket[t := |h.popped|])
    case PopCas(head, x, _) => if r.head == head then h.(popped := h.popped + [x]) else h
    case _ => h
  }

  datatype State = State(r: Ring, h: History)
  {
    /** The tickets behind `head_`, `tail_up_` and `tail_`. */
    function H(): nat { |h.popped| }
    function U(): nat { h.published }
    function T(): nat { |h.log| }
  }

  predicate WellFormed(s: State) {
    Shaped(s.r) && |s.h.ticket| == |s.r.pcs| && |s.h.owner| == |s.h.log|
  }

  function Step(s: State, t: nat): (s': State)
    requires WellFormed(s) && t < |s.r.pcs|
    ensures WellFormed(s')
  {
    State(RingStep(s.r, t), HistoryStep(s.r, s.h, t))
  }

  // ---------------------------------------------------------------- schedules

  /** A capacity, a number of threads, and which of them may call `emplace` and `pop`. */
  datatype Config = Config(cap: nat, threads: nat, producers: set<nat>, consumers: set<nat>)

  predicate ValidConfig(c: Config) {
    && (forall p :: p in c.producers ==> p < c.threads)
    && (forall p :: p in c.consumers ==> p < c.threads)
  }

  datatype Action = CallEmplace(t: nat, v: Value) | CallPop(t: nat) | Run(t: nat)

  function Init(c: Config): (s: State)
    ensures WellFormed(s)
  {
    State(
      Ring(c.cap + 1, 0, 0, 0, seq(c.cap + 1, _ => Raw), seq(c.threads, _ => Idle)),
      History([], [], 0, [], seq(c.threads, _ => 0)))
  }

  /** An action that is not possible in `s` leaves it unchanged. */
  function Apply(c: Config, s: State, a: Action): (s': State)
    requires WellFormed(s)
    ensures WellFormed(s')
  {
    match a
    case CallEmplace(t, v) =>
      if t < |s.r.pcs| && t in c.producers && s.r.pcs[t].Idle?
      then s.(r := Goto(s.r, t, EmplaceLoad(v))) else s
    case CallPop(t) =>
      if t < |s.r.pcs| && t in c.consumers && s.r.pcs[t].Idle?
      then s.(r := Goto(s.r, t, PopLoad)) else s
    case Run(t) => if t < |s.r.pcs| then Step(s, t) else s
  }

  function Observed(s: State, a: Action): Event
    requires WellFormed(s)
  {
    if a.Run? && a.t < |s.r.pcs| then EventOf(s.r, a.t) else Silent
  }

  function ExecFrom(c: Config, s: State, acts: seq<Action>): (s': State)
    requires WellFormed(s)
    ensures WellFormed(s')
  {
    if acts == [] then s
    else Apply(c, ExecFrom(c, s, acts[..|acts| - 1]), acts[|acts| - 1])
  }

  /** The state after schedule `acts`; every reachable state is one of these. */
  function Exec(c: Config, acts: seq<Action>): (s: State)
    ensures WellFormed(s)
  {
    ExecFrom(c, Init(c), acts)
  }

  /**
   The step is not a compare-exchange on `tail_` or `head_` that succeeds with
   an index loaded a full lap (`Cap + 1` wins) ago.
   */
  predicate Fresh(s: State, a: Action)
    requires WellFormed(s)
  {
    a.Run? && a.t < |s.r.pcs| ==>
      match s.r.pcs[a.t]
      case EmplaceCas(_, tail) => tail == s.r.tail ==> s.T() < s.h.ticket[a.t] + s.r.n
      case PopCas(head, _, _) => head == s.r.head ==> s.H() < s.h.ticket[a.t] + s.r.n
      case _ => true
  }

  predicate FreshSchedule(c: Config, acts: seq<Action>) {
    forall i :: 0 <= i < |acts| ==> Fresh(Exec(c, acts[..i]), acts[i])
  }

  // -------------------------------------------------------------- correctness

  /** The three modular indices stand for tickets in order, at most `Cap` apart. */
  ghost predicate Ordered(s: State)
    requires WellFormed(s)
  {
    && s.H() <= s.U() <= s.T() < s.H() + s.r.n
    && s.r.head == At(s.r.n, s.H())
    && s.r.tailUp == At(s.r.n, s.U())
    && s.r.tail == At(s.r.n, s.T())
  }

  /** What was popped is exactly the beginning of what was claimed, each value once. */
  ghost predicate Fifo(s: State)
    requires WellFormed(s)
  {
    s.H() <= s.T() && forall i :: 0 <= i < s.H() ==> s.h.popped[i] == Full(s.h.log[i])
  }

  /**
   Two claimed slots differ, no claimed slot is published and unconsumed, and
   every published unconsumed slot holds its value whole.
   */
  ghost predicate Exclusive(s: State)
    requires WellFormed(s)
  {
    && (forall i, j :: 0 <= i < j < |s.r.pcs| && IsClaimant(s.r.pcs[i]) && IsClaimant(s.r.pcs[j])
          ==> s.r.pcs[i].tail != s.r.pcs[j].tail)
    && (forall i, k :: 0 <= i < |s.r.pcs| && IsClaimant(s.r.pcs[i]) && s.H() <= k < s.U()
          ==> s.r.pcs[i].tail != At(s.r.n, k))
    && (forall k :: s.H() <= k < s.U() ==>
          k < s.T() && s.r.slots[At(s.r.n, k)] == Full(s.h.log[k]))
  }

  ghost predicate Correct(s: State)
    requires WellFormed(s)
  {
    Ordered(s) && Fifo(s) && Exclusive(s)
  }

  lemma OnlyTheActorMoves(c: Config, s: State, a: Action)
    requires WellFormed(s)
    ensures var s' := Apply(c, s, a);
      && s'.r.n == s.r.n && |s'.r.pcs| == |s.r.pcs|
      && forall i :: 0 <= i < |s.r.pcs| && i != a.t ==>
           s'.r.pcs[i] == s.r.pcs[i] && s'.h.ticket[i] == s.h.ticket[i]
  {
  }

  // ------------------------------------------------------------ the invariant

  /** Thread `i` holds the unpublished ticket it won. */
  ghost predicate Claims(s: State, i: nat, v: Value, tail: nat)
    requires WellFormed(s) && i < |s.r.pcs|
  {
    var k := s.h.ticket[i];
    s.U() <= k < s.T() && tail == At(s.r.n, k) && s.h.log[k] == v && s.h.owner[k] == i
  }

  ghost predicate ThreadInv(s: State, i: nat)
    requires WellFormed(s) && i < |s.r.pcs|
  {
    var k := s.h.ticket[i];
    match s.r.pcs[i]
    case EmplaceCheck(_, tail) => k <= s.T() && tail == At(s.r.n, k)
    case EmplaceCas(_, tail) =>
      k <= s.T() && tail == At(s.r.n, k) && s.r.n > 1 && (k == s.T() ==> s.T() + 1 < s.H() + s.r.n)
    case Claimed(v, tail) => Claims(s, i, v, tail)
    case Constructing(v, tail) => Claims(s, i, v, tail)
    case Publish(v, tail) => Claims(s, i, v, tail) && s.r.slots[tail] == Full(v)
    case PopCheckTail(head) => k <= s.H() && head == At(s.r.n, k)
    case PopCheckUp(head) => k <= s.H() && head == At(s.r.n, k)
    case PopCopy(head) => k <= s.H() && head == At(s.r.n, k) && (k == s.H() ==> k < s.U())
    case PopReread(head, x) =>
      k <= s.H() && head == At(s.r.n, k)
      && (k == s.H() ==> k < s.U() <= s.T() && x == Full(s.h.log[k]))
    case PopCas(head, x, next) =>
      k <= s.H() && head == At(s.r.n, k)
      && (k == s.H() ==> k < s.U() <= s.T() && x == Full(s.h.log[k]) && next == Succ(s.r.n, head))
    case _ => true
  }

  ghost predicate SlotsInv(s: State)
    requires WellFormed(s)
  {
    forall k :: s.H() <= k < s.U() ==> k < s.T() && s.r.slots[At(s.r.n, k)] == Full(s.h.log[k])
  }

  /** Every won and unpublished ticket is in the hands of the thread that won it. */
  ghost predicate OwnersInv(s: State)
    requires WellFormed(s)
  {
    forall k :: s.U() <= k < s.T() ==>
      && s.h.owner[k] < |s.r.pcs|
      && IsClaimant(s.r.pcs[s.h.owner[k]])
      && s.h.ticket[s.h.owner[k]] == k
  }

  ghost predicate Inv(s: State)
    requires WellFormed(s)
  {
    && Ordered(s) && Fifo(s) && SlotsInv(s) && OwnersInv(s)
    && forall i :: 0 <= i < |s.r.pcs| ==> ThreadInv(s, i)
  }

  lemma InitInv(c: Config)
    ensures Inv(Init(c))
  {
  }

  /**
   What a step of another thread may do without disturbing thread `i`: move the
   tickets forward, extend the log, and write no slot that `i` is publishing.
   */
  ghost predicate Undisturbed(s: State, s': State, i: nat)
    requires WellFormed(s) && WellFormed(s') && i < |s.r.pcs|
  {
    && s'.r.n == s.r.n && |s'.r.pcs| == |s.r.pcs|
    && s'.r.pcs[i] == s.r.pcs[i] && s'.h.ticket[i] == s.h.ticket[i]
    && s.H() <= s'.H() && s.U() <= s'.U() && s.h.log <= s'.h.log && s.h.owner <= s'.h.owner
    && s'.U() <= s'.T()
    && (IsClaimant(s.r.pcs[i]) && s.U() <= s.h.ticket[i] ==> s'.U() <= s.h.ticket[i])
    && (s.r.pcs[i].Publish? ==> s'.r.slots[s.r.pcs[i].tail] == s.r.slots[s.r.pcs[i].tail])
  }

  lemma OtherThreadKept(s: State, s': State, i: nat)
    requires WellFormed(s) && WellFormed(s') && i < |s.r.pcs|
    requires ThreadInv(s, i) && Undisturbed(s, s', i)
    ensures ThreadInv(s', i)
  {
  }

  ghost predicate OthersInv(s: State, t: nat)
    requires WellFormed(s)
  {
    forall i :: 0 <= i < |s.r.pcs| && i != t ==> ThreadInv(s, i)
  }

  lemma OthersKept(s: State, s': State, t: nat)
    requires WellFormed(s) && WellFormed(s') && |s.r.pcs| == |s'.r.pcs|
    requires forall i :: 0 <= i < |s.r.pcs| ==> ThreadInv(s, i)
    requires forall i :: 0 <= i < |s.r.pcs| && i != t ==> Undisturbed(s, s', i)
    ensures OthersInv(s', t)
  {
    forall i | 0 <= i < |s.r.pcs| && i != t ensures ThreadInv(s', i) {
      OtherThreadKept(s, s', i);
    }
  }

  /** A step that moves only thread `t`, which holds no ticket before or after. */
  ghost predicate Quiet(s: State, s': State, t: nat)
    requires WellFormed(s) && t < |s.r.pcs|
  {
    && |s'.r.pcs| == |s.r.pcs| && |s'.h.ticket| == |s.h.ticket|
    && s'.r == s.r.(pcs := s.r.pcs[t := s'.r.pcs[t]])
    && s'.h == s.h.(ticket := s.h.ticket[t := s'.h.ticket[t]])
    && !IsClaimant(s.r.pcs[t]) && !IsClaimant(s'.r.pcs[t])
  }

  lemma QuietKept(s: State, s': State, t: nat)
    requires WellFormed(s) && WellFormed(s') && Inv(s) && t < |s.r.pcs|
    requires Quiet(s, s', t) && ThreadInv(s', t)
    ensures Inv(s')
  {
    assert OthersInv(s', t) by { OthersKept(s, s', t); }
  }

  /** The steps of `emplace` up to the compare-exchange on `tail_`. */
  lemma EmplaceReadKept(s: State, t: nat)
    requires WellFormed(s) && Inv(s) && t < |s.r.pcs|
    requires s.r.pcs[t].EmplaceLoad? || s.r.pcs[t].EmplaceCheck?
    ensures Inv(Step(s, t))
  {
    assert ThreadInv(s, t);
    AtSucc(s.r.n, s.T());
    QuietKept(s, Step(s, t), t);
  }

  /** The steps of `pop` up to the compare-exchange on `head_`. */
  lemma PopReadKept(s: State, t: nat)
    requires WellFormed(s) && Inv(s) && t < |s.r.pcs|
    requires s.r.pcs[t].PopLoad? || (HasHead(s.r.pcs[t]) && !s.r.pcs[t].PopCas?)
    ensures Inv(Step(s, t))
  {
    assert ThreadInv(s, t);
    QuietKept(s, Step(s, t), t);
  }

  /** Winning `tail_`: a fresh winner takes ticket T, and T stays within capacity. */
  lemma ClaimKept(s: State, t: nat)
    requires WellFormed(s) && Inv(s) && t < |s.r.pcs|
    requires s.r.pcs[t].EmplaceCas? && Fresh(s, Run(t))
    ensures Inv(Step(s, t))
  {
    var s' := Step(s, t);
    var k := s.h.ticket[t];
    assert ThreadInv(s, t);
    if s.r.tail == s.r.pcs[t].tail {
      AtInjective(s.r.n, k, s.T());
      AtSucc(s.r.n, s.T());
    }
    assert OthersInv(s', t) by { OthersKept(s, s', t); }
  }

  /** Live tickets are told apart by their positions. */
  lemma SameTicket(s: State, j: nat, k: nat)
    requires WellFormed(s) && Ordered(s)
    requires s.H() <= j <= s.T() && s.H() <= k <= s.T() && At(s.r.n, j) == At(s.r.n, k)
    ensures j == k
  {
    if j <= k {
      AtInjective(s.r.n, j, k);
    } else {
      AtInjective(s.r.n, k, j);
    }
  }

  /** Constructing: the written slot is nobody else's. */
  lemma ConstructKept(s: State, t: nat)
    requires WellFormed(s) && Inv(s) && t < |s.r.pcs|
    requires s.r.pcs[t].Claimed? || s.r.pcs[t].Constructing?
    ensures Inv(Step(s, t))
  {
    assert ThreadInv(s, t);
    WriteKept(s, Step(s, t), t);
  }

  lemma WriteKept(s: State, s': State, t: nat)
    requires WellFormed(s) && WellFormed(s') && Inv(s) && t < |s.r.pcs| == |s'.r.pcs|
    requires IsClaimant(s.r.pcs[t]) && IsClaimant(s'.r.pcs[t]) && s'.h == s.h
    requires s'.r == s.r.(pcs := s.r.pcs[t := s'.r.pcs[t]], slots := s'.r.slots)
    requires s'.r.slots == s.r.slots[s.r.pcs[t].tail := s'.r.slots[s.r.pcs[t].tail]]
    requires ThreadInv(s', t)
    ensures Inv(s')
  {
    assert ThreadInv(s, t);
    forall k | s.H() <= k < s.T() && At(s.r.n, k) == s.r.pcs[t].tail
      ensures k == s.h.ticket[t]
    {
      SameTicket(s, k, s.h.ticket[t]);
    }
    assert OthersInv(s', t) by {
      forall i | 0 <= i < |s.r.pcs| && i != t ensures Undisturbed(s, s', i) {
        assert ThreadInv(s, i);
      }
      OthersKept(s, s', t);
    }
  }

  /** Publishing: `tail_up_` lets through exactly the holder of ticket U. */
  lemma PublishKept(s: State, t: nat)
    requires WellFormed(s) && Inv(s) && t < |s.r.pcs|
    requires s.r.pcs[t].Publish?
    ensures Inv(Step(s, t))
  {
    assert ThreadInv(s, t);
    if s.r.tailUp == s.r.pcs[t].tail {
      SameTicket(s, s.U(), s.h.ticket[t]);
      AtSucc(s.r.n, s.U());
      TailUpKept(s, Step(s, t), t);
    }
  }

  lemma TailUpKept(s: State, s': State, t: nat)
    requires WellFormed(s) && WellFormed(s') && Inv(s) && t < |s.r.pcs|
    requires s.r.pcs[t].Publish? && s.h.ticket[t] == s.U()
    requires s'.r == s.r.(pcs := s.r.pcs[t := Idle], tailUp := At(s.r.n, s.U() + 1))
    requires s'.h == s.h.(published := s.U() + 1)
    ensures Inv(s')
  {
    assert ThreadInv(s, t);
    assert OthersInv(s', t) by {
      forall i | 0 <= i < |s.r.pcs| && i != t ensures Undisturbed(s, s', i) {
        assert ThreadInv(s, i);
      }
      OthersKept(s, s', t);
    }
  }

  /** Winning `head_`: a fresh winner returns the value of ticket H. */
  lemma PopKept(s: State, t: nat)
    requires WellFormed(s) && Inv(s) && t < |s.r.pcs|
    requires s.r.pcs[t].PopCas? && Fresh(s, Run(t))
    ensures Inv(Step(s, t))
  {
    var s' := Step(s, t);
    var k := s.h.ticket[t];
    assert ThreadInv(s, t);
    if s.r.head == s.r.pcs[t].head {
      AtInjective(s.r.n, k, s.H());
      AtSucc(s.r.n, s.H());
    }
    assert OthersInv(s', t) by { OthersKept(s, s', t); }
  }

  lemma CallKept(c: Config, s: State, a: Action)
    requires WellFormed(s) && Inv(s) && !a.Run?
    ensures Inv(Apply(c, s, a))
  {
    if Apply(c, s, a) != s {
      QuietKept(s, Apply(c, s, a), a.t);
    }
  }

  lemma ApplyKeepsInv(c: Config, s: State, a: Action)
    requires WellFormed(s) && Inv(s) && Fresh(s, a)
    ensures Inv(Apply(c, s, a))
  {
    if !a.Run? {
      CallKept(c, s, a);
    } else if a.t < |s.r.pcs| {
      match s.r.pcs[a.t]
      case Idle =>
      case EmplaceLoad(_) => EmplaceReadKept(s, a.t);
      case EmplaceCheck(_, _) => EmplaceReadKept(s, a.t);
      case EmplaceCas(_, _) => ClaimKept(s, a.t);
      case Claimed(_, _) => ConstructKept(s, a.t);
      case Constructing(_, _) => ConstructKept(s, a.t);
      case Publish(_, _) => PublishKept(s, a.t);
      case PopCas(_, _, _) => PopKept(s, a.t);
      case _ => PopReadKept(s, a.t);
    }
  }
}
