/**
 `CSPChannel` as a step machine with its mutex, its two condition variables and the
 `stop_` flag that `stop()` sets outside the mutex; waits may wake spuriously.
 */
module Channel {
  import opened Values
  import opened Options
  import opened Counting

  /** Where a thread stands. `woken` records that it holds the mutex after a wait. */
  datatype Pc =
    | Idle
    | SendEnter(x: Value)
    | SendTest(x: Value, woken: bool)
    | SendSleep(x: Value)
    | SendAsleep(x: Value)
    | SendWoken(x: Value)
    | SendCheck(x: Value, woken: bool)
    | SendPush(x: Value, woken: bool)
    | SendNotify
    | RecvEnter
    | RecvTest(woken: bool)
    | RecvSleep
    | RecvAsleep
    | RecvWoken
    | RecvCheck(woken: bool)
    | RecvPop(woken: bool)
    | RecvNotify
    | StopSet
    | StopProducers
    | StopConsumers

  /**
   The fields, the threads, and three records the code does not keep: what was
   sent and received successfully, and whether some `recv` has returned false.
   */
  datatype State = State(
    capacity: nat, queue: seq<Value>, stop: bool, holder: Option<nat>, pcs: seq<Pc>,
    sent: seq<Value>, received: seq<Value>, drained: bool)
  {
    /** How many messages may be queued; capacity zero still has room for one. */
    function Room(): nat { if capacity == 0 then 1 else capacity }
  }

  datatype Action =
    | CallSend(t: nat, x: Value)
    | CallRecv(t: nat)
    | CallStop(t: nat)
    | Run(t: nat)
    | NotifyOne(t: nat, w: nat)  // `t` executes its notify_one and the system picks `w`
    | Spurious(t: nat)

  predicate Holds(pc: Pc) {
    || pc.SendTest? || pc.SendSleep? || pc.SendCheck? || pc.SendPush? || pc.SendNotify?
    || pc.RecvTest? || pc.RecvSleep? || pc.RecvCheck? || pc.RecvPop? || pc.RecvNotify?
  }

  predicate SenderAsleep(pc: Pc) { pc.SendAsleep? }
  predicate ReceiverAsleep(pc: Pc) { pc.RecvAsleep? }

  function Init(capacity: nat, threads: nat): State {
    State(capacity, [], false, None, seq(threads, _ => Idle), [], [], false)
  }

  function At(s: State, t: nat, pc: Pc): State
    requires t < |s.pcs|
  {
    s.(pcs := s.pcs[t := pc])
  }

  function Locked(s: State, t: nat, pc: Pc): State
    requires t < |s.pcs|
  {
    if s.holder == None then At(s, t, pc).(holder := Some(t)) else s
  }

  function Unlocked(s: State, t: nat, pc: Pc): State
    requires t < |s.pcs|
  {
    At(s, t, pc).(holder := None)
  }

  /** The wait predicate of `send`, line 18. */
  predicate MaySend(s: State) {
    (s.capacity == 0 && s.queue == []) || |s.queue| < s.capacity || s.stop
  }

  /** One step of a thread inside `send`. */
  function SendStep(s: State, t: nat): State
    requires t < |s.pcs|
  {
    match s.pcs[t]
    case SendEnter(x) => Locked(s, t, SendTest(x, false))
    case SendWoken(x) => Locked(s, t, SendTest(x, true))
    case SendTest(x, w) => if MaySend(s) then At(s, t, SendCheck(x, w)) else At(s, t, SendSleep(x))
    case SendSleep(x) => Unlocked(s, t, SendAsleep(x))
    case SendCheck(x, w) => if s.stop then Unlocked(s, t, Idle) else At(s, t, SendPush(x, w))
    case SendPush(x, w) => At(s, t, SendNotify).(queue := s.queue + [x], sent := s.sent + [x])
    case _ => s
  }

  /** One step of a thread inside `recv`. Popping an empty deque is shown never to happen. */
  function RecvStep(s: State, t: nat): State
    requires t < |s.pcs|
  {
    match s.pcs[t]
    case RecvEnter => Locked(s, t, RecvTest(false))
    case RecvWoken => Locked(s, t, RecvTest(true))
    case RecvTest(w) => if s.queue != [] || s.stop then At(s, t, RecvCheck(w)) else At(s, t, RecvSleep)
    case RecvSleep => Unlocked(s, t, RecvAsleep)
    case RecvCheck(w) =>
      if s.stop && s.queue == [] then Unlocked(s, t, Idle).(drained := true)
      else At(s, t, RecvPop(w))
    case RecvPop(w) =>
      if s.queue == [] then s
      else At(s, t, RecvNotify).(queue := s.queue[1..], received := s.received + [s.queue[0]])
    case _ => s
  }

  function WakeSenders(pcs: seq<Pc>): seq<Pc> {
    seq(|pcs|, i requires 0 <= i < |pcs| => if pcs[i].SendAsleep? then SendWoken(pcs[i].x) else pcs[i])
  }

  function WakeReceivers(pcs: seq<Pc>): seq<Pc> {
    seq(|pcs|, i requires 0 <= i < |pcs| => if pcs[i].RecvAsleep? then RecvWoken else pcs[i])
  }

  /** One step of a thread inside `stop`, which never takes the mutex. */
  function StopStep(s: State, t: nat): State
    requires t < |s.pcs|
  {
    match s.pcs[t]
    case StopSet => At(s, t, StopProducers).(stop := true)
    case StopProducers => s.(pcs := WakeSenders(s.pcs)[t := StopConsumers])
    case StopConsumers => s.(pcs := WakeReceivers(s.pcs)[t := Idle])
    case _ => s
  }

  /** `notify_one` wakes some sleeper if there is one; the caller then returns. */
  function NotifyReceiver(s: State, t: nat, w: nat): State
    requires t < |s.pcs|
  {
    if w < |s.pcs| && s.pcs[w].RecvAsleep? then Unlocked(At(s, w, RecvWoken), t, Idle)
    else if Count(s.pcs, ReceiverAsleep) == 0 then Unlocked(s, t, Idle)
    else s
  }

  function NotifySender(s: State, t: nat, w: nat): State
    requires t < |s.pcs|
  {
    if w < |s.pcs| && s.pcs[w].SendAsleep? then Unlocked(At(s, w, SendWoken(s.pcs[w].x)), t, Idle)
    else if Count(s.pcs, SenderAsleep) == 0 then Unlocked(s, t, Idle)
    else s
  }

  function NotifyStep(s: State, t: nat, w: nat): State
    requires t < |s.pcs|
  {
    if s.pcs[t].SendNotify? then NotifyReceiver(s, t, w)
    else if s.pcs[t].RecvNotify? then NotifySender(s, t, w)
    else s
  }

  /** An action that is not possible in `s` leaves it unchanged. */
  function Apply(s: State, a: Action): State {
    if a.t >= |s.pcs| then s else
    match a
    case CallSend(t, x) => if s.pcs[t].Idle? then At(s, t, SendEnter(x)) else s
    case CallRecv(t) => if s.pcs[t].Idle? then At(s, t, RecvEnter) else s
    case CallStop(t) => if s.pcs[t].Idle? then At(s, t, StopSet) else s
    case Run(t) =>
      if s.pcs[t].StopSet? || s.pcs[t].StopProducers? || s.pcs[t].StopConsumers? then StopStep(s, t)
      else if s.pcs[t].SendEnter? || s.pcs[t].SendWoken? || s.pcs[t].SendTest? || s.pcs[t].SendSleep?
              || s.pcs[t].SendCheck? || s.pcs[t].SendPush? then SendStep(s, t)
      else RecvStep(s, t)
    case NotifyOne(t, w) => NotifyStep(s, t, w)
    case Spurious(t) =>
      if s.pcs[t].SendAsleep? then At(s, t, SendWoken(s.pcs[t].x))
      else if s.pcs[t].RecvAsleep? then At(s, t, RecvWoken) else s
  }

  function Exec(capacity: nat, threads: nat, acts: seq<Action>): State {
    if acts == [] then Init(capacity, threads)
    else Apply(Exec(capacity, threads, acts[..|acts| - 1]), acts[|acts| - 1])
  }

  // ------------------------------------------------------------------- safety

  ghost predicate LockInv(s: State) {
    forall i :: 0 <= i < |s.pcs| ==> (Holds(s.pcs[i]) <==> s.holder == Some(i))
  }

  ghost predicate ThreadInv(s: State, i: nat)
    requires i < |s.pcs|
  {
    match s.pcs[i]
    case SendCheck(_, _) => |s.queue| < s.Room() || s.stop
    case SendPush(_, _) => |s.queue| < s.Room() && !s.drained
    case RecvCheck(_) => s.queue != [] || s.stop
    case RecvPop(_) => s.queue != []
    case _ => true
  }

  ghost predicate Inv(s: State) {
    && LockInv(s)
    && s.sent == s.received + s.queue
    && |s.queue| <= s.Room()
    && (s.drained ==> s.stop && s.queue == [])
    && forall i :: 0 <= i < |s.pcs| ==> ThreadInv(s, i)
  }

  lemma SendKeepsInv(s: State, t: nat)
    requires Inv(s) && t < |s.pcs|
    ensures Inv(SendStep(s, t))
  {
    assert ThreadInv(s, t);
  }

  lemma RecvKeepsInv(s: State, t: nat)
    requires Inv(s) && t < |s.pcs|
    ensures Inv(RecvStep(s, t))
  {
    assert ThreadInv(s, t);
  }

  /** Moving threads to points that promise nothing about the queue disturbs nothing. */
  lemma MovesKeepInv(s: State, s': State)
    requires Inv(s) && |s'.pcs| == |s.pcs| && LockInv(s')
    requires s' == s.(pcs := s'.pcs, holder := s'.holder, stop := s.stop || s'.stop)
    requires forall i :: 0 <= i < |s.pcs| ==>
      s'.pcs[i] == s.pcs[i] || !(Holds(s'.pcs[i]) || s'.pcs[i].SendPush? || s'.pcs[i].RecvPop?)
    ensures Inv(s')
  {
    forall i | 0 <= i < |s.pcs| ensures ThreadInv(s', i) {
      assert ThreadInv(s, i);
    }
  }

  lemma StopKeepsInv(s: State, t: nat)
    requires Inv(s) && t < |s.pcs|
    ensures Inv(StopStep(s, t))
  {
    MovesKeepInv(s, StopStep(s, t));
  }

  lemma NotifyReceiverKeepsInv(s: State, t: nat, w: nat)
    requires Inv(s) && t < |s.pcs| && s.pcs[t].SendNotify?
    ensures Inv(NotifyReceiver(s, t, w))
  {
    MovesKeepInv(s, NotifyReceiver(s, t, w));
  }

  lemma NotifySenderKeepsInv(s: State, t: nat, w: nat)
    requires Inv(s) && t < |s.pcs| && s.pcs[t].RecvNotify?
    ensures Inv(NotifySender(s, t, w))
  {
    MovesKeepInv(s, NotifySender(s, t, w));
  }

  lemma NotifyKeepsInv(s: State, t: nat, w: nat)
    requires Inv(s) && t < |s.pcs|
    ensures Inv(NotifyStep(s, t, w))
  {
    if s.pcs[t].SendNotify? {
      NotifyReceiverKeepsInv(s, t, w);
    } else if s.pcs[t].RecvNotify? {
      NotifySenderKeepsInv(s, t, w);
    }
  }

  lemma CallKeepsInv(s: State, a: Action)
    requires Inv(s) && !a.Run? && !a.NotifyOne?
    ensures Inv(Apply(s, a))
  {
    MovesKeepInv(s, Apply(s, a));
  }

  lemma ApplyKeepsInv(s: State, a: Action)
    requires Inv(s)
    ensures Inv(Apply(s, a))
  {
    if a.t < |s.pcs| {
      match a
      case Run(t) =>
        SendKeepsInv(s, t);
        RecvKeepsInv(s, t);
        StopKeepsInv(s, t);
      case NotifyOne(t, w) => NotifyKeepsInv(s, t, w);
      case _ => CallKeepsInv(s, a);
    }
  }

  lemma {:induction false} ExecKeepsInv(capacity: nat, threads: nat, acts: seq<Action>)
    ensures Inv(Exec(capacity, threads, acts))
  {
    if acts != [] {
      ExecKeepsInv(capacity, threads, acts[..|acts| - 1]);
      ApplyKeepsInv(Exec(capacity, threads, acts[..|acts| - 1]), acts[|acts| - 1]);
    }
  }

  // ----------------------------------------------------------------- shutdown

  lemma DrainedStays(s: State, a: Action)
    requires Inv(s) && s.drained
    ensures var s' := Apply(s, a); s'.drained && s'.sent == s.sent && s'.received == s.received
  {
    if a.t < |s.pcs| {
      assert ThreadInv(s, a.t);
    }
  }

  lemma {:induction false} DrainedForGood(capacity: nat, threads: nat, acts: seq<Action>, more: seq<Action>)
    requires Exec(capacity, threads, acts).drained
    ensures var s, s' := Exec(capacity, threads, acts), Exec(capacity, threads, acts + more);
      s'.drained && s'.sent == s.sent && s'.received == s.received
  {
    if more == [] {
      assert acts + more == acts;
    } else {
      var before := more[..|more| - 1];
      assert (acts + more)[..|acts + more| - 1] == acts + before;
      DrainedForGood(capacity, threads, acts, before);
      ExecKeepsInv(capacity, threads, acts + before);
      DrainedStays(Exec(capacity, threads, acts + before), more[|more| - 1]);
    }
  }

  /**
   With `stop()` at any point of any schedule, what was sent is what was
   received followed by the queue, which never overflows. Once any `recv` has
   returned false, everything sent has been received and, whatever is scheduled
   next, no later `send` succeeds.
   */
  lemma {:induction false} ShutdownLosesNothing(capacity: nat, threads: nat, acts: seq<Action>, more: seq<Action>)
    ensures var s := Exec(capacity, threads, acts);
      && s.sent == s.received + s.queue && |s.queue| <= s.Room()
      && (s.drained ==> s.received == s.sent == Exec(capacity, threads, acts + more).sent)
  {
    ExecKeepsInv(capacity, threads, acts);
    if Exec(capacity, threads, acts).drained {
      DrainedForGood(capacity, threads, acts, more);
    }
  }

  // ------------------------------------------------------------------ wakeups

  predicate ReceiverAwake(pc: Pc) {
    pc.RecvWoken? || ((pc.RecvTest? || pc.RecvCheck? || pc.RecvPop?) && pc.woken)
  }

  predicate SenderAwake(pc: Pc) {
    pc.SendWoken? || ((pc.SendTest? || pc.SendCheck? || pc.SendPush?) && pc.woken)
  }

  predicate NotifyingReceivers(pc: Pc) { pc.SendNotify? }
  predicate NotifyingSenders(pc: Pc) { pc.RecvNotify? }

  /** Woken from a wait, or about to wake someone. */
  predicate OnTheWay(pc: Pc) {
    ReceiverAwake(pc) || SenderAwake(pc) || NotifyingReceivers(pc) || NotifyingSenders(pc)
  }

  predicate Stopping(pc: Pc) { pc.StopSet? || pc.StopProducers? || pc.StopConsumers? }

  predicate NoStop(acts: seq<Action>) {
    forall i :: 0 <= i < |acts| ==> !acts[i].CallStop?
  }

  /** A sleeping receiver is outnumbered: as many are on their way as there are messages. */
  ghost predicate ReceiversServed(s: State) {
    Count(s.pcs, ReceiverAsleep) > 0 ==>
      Count(s.pcs, ReceiverAwake) + Count(s.pcs, NotifyingReceivers) >= |s.queue|
  }

  /** Likewise for senders and free places. */
  ghost predicate SendersServed(s: State) {
    Count(s.pcs, SenderAsleep) > 0 ==>
      Count(s.pcs, SenderAwake) + Count(s.pcs, NotifyingSenders) + |s.queue| >= s.Room()
  }

  ghost predicate Unstopped(s: State) {
    && !s.stop
    && forall i :: 0 <= i < |s.pcs| ==>
         && !Stopping(s.pcs[i])
         && (s.pcs[i].SendSleep? ==> |s.queue| == s.Room())
         && (s.pcs[i].RecvSleep? ==> s.queue == [])
  }

  ghost predicate WakeInv(s: State) {
    Inv(s) && Unstopped(s) && ReceiversServed(s) && SendersServed(s)
  }

  lemma RecountReceivers(pcs: seq<Pc>, t: nat, pc: Pc)
    requires t < |pcs|
    ensures var qcs := pcs[t := pc];
      && Count(qcs, ReceiverAsleep) + One(pcs[t].RecvAsleep?) == Count(pcs, ReceiverAsleep) + One(pc.RecvAsleep?)
      && Count(qcs, ReceiverAwake) + One(ReceiverAwake(pcs[t])) == Count(pcs, ReceiverAwake) + One(ReceiverAwake(pc))
      && Count(qcs, NotifyingReceivers) + One(pcs[t].SendNotify?)
           == Count(pcs, NotifyingReceivers) + One(pc.SendNotify?)
  {
    CountUpdate(pcs, t, pc, ReceiverAsleep);
    CountUpdate(pcs, t, pc, ReceiverAwake);
    CountUpdate(pcs, t, pc, NotifyingReceivers);
  }

  lemma RecountSenders(pcs: seq<Pc>, t: nat, pc: Pc)
    requires t < |pcs|
    ensures var qcs := pcs[t := pc];
      && Count(qcs, SenderAsleep) + One(pcs[t].SendAsleep?) == Count(pcs, SenderAsleep) + One(pc.SendAsleep?)
      && Count(qcs, SenderAwake) + One(SenderAwake(pcs[t])) == Count(pcs, SenderAwake) + One(SenderAwake(pc))
      && Count(qcs, NotifyingSenders) + One(pcs[t].RecvNotify?) == Count(pcs, NotifyingSenders) + One(pc.RecvNotify?)
  {
    CountUpdate(pcs, t, pc, SenderAsleep);
    CountUpdate(pcs, t, pc, SenderAwake);
    CountUpdate(pcs, t, pc, NotifyingSenders);
  }

  /**
   What a move of thread `t` from `pc` to `pc'` owes the receivers when the
   queue goes from `q` to `q'` messages.
   */
  predicate PaysReceivers(pc: Pc, pc': Pc, q: nat, q': nat) {
    || q' == 0
    || (One(ReceiverAwake(pc)) + One(pc.SendNotify?) + q'
          <= One(ReceiverAwake(pc')) + One(pc'.SendNotify?) + q
        && (pc'.RecvAsleep? ==> pc.RecvAsleep?))
  }

  predicate PaysSenders(pc: Pc, pc': Pc, q: nat, q': nat, room: nat) {
    || q' >= room
    || (One(SenderAwake(pc)) + One(pc.RecvNotify?) + q
          <= One(SenderAwake(pc')) + One(pc'.RecvNotify?) + q'
        && (pc'.SendAsleep? ==> pc.SendAsleep?))
  }

  lemma MoveServes(s: State, s': State, t: nat)
    requires t < |s.pcs| == |s'.pcs| && s'.pcs == s.pcs[t := s'.pcs[t]] && s'.capacity == s.capacity
    requires ReceiversServed(s) && SendersServed(s)
    requires PaysReceivers(s.pcs[t], s'.pcs[t], |s.queue|, |s'.queue|)
    requires PaysSenders(s.pcs[t], s'.pcs[t], |s.queue|, |s'.queue|, s.Room())
    ensures ReceiversServed(s') && SendersServed(s')
  {
    RecountReceivers(s.pcs, t, s'.pcs[t]);
    RecountSenders(s.pcs, t, s'.pcs[t]);
  }

  lemma SendKeepsWakeups(s: State, t: nat)
    requires WakeInv(s) && t < |s.pcs|
    ensures WakeInv(SendStep(s, t))
  {
    SendKeepsInv(s, t);
    SendPays(s, t);
    MoveServes(s, SendStep(s, t), t);
  }

  lemma SendPays(s: State, t: nat)
    requires Inv(s) && Unstopped(s) && t < |s.pcs|
    ensures var s' := SendStep(s, t);
      && |s'.pcs| == |s.pcs| && s'.pcs == s.pcs[t := s'.pcs[t]] && s'.capacity == s.capacity
      && PaysReceivers(s.pcs[t], s'.pcs[t], |s.queue|, |s'.queue|)
      && PaysSenders(s.pcs[t], s'.pcs[t], |s.queue|, |s'.queue|, s.Room())
      && Unstopped(s')
  {
    assert ThreadInv(s, t);
  }

  lemma RecvKeepsWakeups(s: State, t: nat)
    requires WakeInv(s) && t < |s.pcs|
    ensures WakeInv(RecvStep(s, t))
  {
    RecvKeepsInv(s, t);
    RecvPays(s, t);
    MoveServes(s, RecvStep(s, t), t);
  }

  lemma RecvPays(s: State, t: nat)
    requires Inv(s) && Unstopped(s) && t < |s.pcs|
    ensures var s' := RecvStep(s, t);
      && |s'.pcs| == |s.pcs| && s'.pcs == s.pcs[t := s'.pcs[t]] && s'.capacity == s.capacity
      && PaysReceivers(s.pcs[t], s'.pcs[t], |s.queue|, |s'.queue|)
      && PaysSenders(s.pcs[t], s'.pcs[t], |s.queue|, |s'.queue|, s.Room())
      && Unstopped(s')
  {
    assert ThreadInv(s, t);
  }

  lemma NotifyKeepsWakeups(s: State, t: nat, w: nat)
    requires WakeInv(s) && t < |s.pcs|
    ensures WakeInv(NotifyStep(s, t, w))
  {
    NotifyKeepsInv(s, t, w);
    if s.pcs[t].SendNotify? {
      NotifyReceiverServes(s, t, w);
      NotifyReceiverKeepsUnstopped(s, t, w);
    } else if s.pcs[t].RecvNotify? {
      NotifySenderServes(s, t, w);
      NotifySenderKeepsUnstopped(s, t, w);
    }
  }

  lemma NotifyReceiverKeepsUnstopped(s: State, t: nat, w: nat)
    requires Unstopped(s) && t < |s.pcs|
    ensures Unstopped(NotifyReceiver(s, t, w))
  {
  }

  lemma NotifySenderKeepsUnstopped(s: State, t: nat, w: nat)
    requires Unstopped(s) && t < |s.pcs|
    ensures Unstopped(NotifySender(s, t, w))
  {
  }

  lemma NotifyReceiverServes(s: State, t: nat, w: nat)
    requires ReceiversServed(s) && SendersServed(s) && t < |s.pcs| && s.pcs[t].SendNotify?
    ensures ReceiversServed(NotifyReceiver(s, t, w)) && SendersServed(NotifyReceiver(s, t, w))
  {
    var wakes := w < |s.pcs| && s.pcs[w].RecvAsleep?;
    var mid := if wakes then s.pcs[w := RecvWoken] else s.pcs;
    if wakes {
      RecountReceivers(s.pcs, w, RecvWoken);
      RecountSenders(s.pcs, w, RecvWoken);
    }
    RecountReceivers(mid, t, Idle);
    RecountSenders(mid, t, Idle);
  }

  lemma NotifySenderServes(s: State, t: nat, w: nat)
    requires ReceiversServed(s) && SendersServed(s) && t < |s.pcs| && s.pcs[t].RecvNotify?
    ensures ReceiversServed(NotifySender(s, t, w)) && SendersServed(NotifySender(s, t, w))
  {
    var wakes := w < |s.pcs| && s.pcs[w].SendAsleep?;
    var mid := if wakes then s.pcs[w := SendWoken(s.pcs[w].x)] else s.pcs;
    if wakes {
      RecountReceivers(s.pcs, w, SendWoken(s.pcs[w].x));
      RecountSenders(s.pcs, w, SendWoken(s.pcs[w].x));
    }
    RecountReceivers(mid, t, Idle);
    RecountSenders(mid, t, Idle);
  }

  lemma CallKeepsWakeups(s: State, a: Action)
    requires WakeInv(s) && !a.Run? && !a.NotifyOne? && !a.CallStop?
    ensures WakeInv(Apply(s, a))
  {
    CallKeepsInv(s, a);
    if a.t < |s.pcs| {
      MoveServes(s, Apply(s, a), a.t);
    }
  }

  lemma {:induction false} ExecKeepsWakeups(capacity: nat, threads: nat, acts: seq<Action>)
    requires NoStop(acts)
    ensures WakeInv(Exec(capacity, threads, acts))
  {
    if acts == [] {
      var s := Init(capacity, threads);
      CountZero(s.pcs, ReceiverAsleep);
      CountZero(s.pcs, SenderAsleep);
    } else {
      var s, a := Exec(capacity, threads, acts[..|acts| - 1]), acts[|acts| - 1];
      ExecKeepsWakeups(capacity, threads, acts[..|acts| - 1]);
      if a.t < |s.pcs| {
        match a
        case Run(t) =>
          assert !Stopping(s.pcs[t]);
          SendKeepsWakeups(s, t);
          RecvKeepsWakeups(s, t);
        case NotifyOne(t, w) => NotifyKeepsWakeups(s, t, w);
        case _ => CallKeepsWakeups(s, a);
      }
    }
  }

  /**
   On every schedule without `stop()`, spurious wakeups and barging callers
   included: while a receiver sleeps, at least as many receivers are awake or
   about to be notified as there are messages; while a sender sleeps, at least
   as many senders as there are free places. Hence with the mutex free a
   sleeper always has company: if messages wait, a woken receiver; if there is
   room, a woken sender; and never do both sides sleep with nobody on the way.
   */
  lemma {:induction false} NoLostWakeups(capacity: nat, threads: nat, acts: seq<Action>)
    requires NoStop(acts)
    ensures var s := Exec(capacity, threads, acts);
      ReceiversServed(s) && SendersServed(s) && |s.queue| <= s.Room()
    ensures var s := Exec(capacity, threads, acts);
      s.holder == None && s.queue != [] && (exists i :: 0 <= i < |s.pcs| && s.pcs[i].RecvAsleep?) ==>
        exists i :: 0 <= i < |s.pcs| && s.pcs[i].RecvWoken?
    ensures var s := Exec(capacity, threads, acts);
      s.holder == None && |s.queue| < s.Room() && (exists i :: 0 <= i < |s.pcs| && s.pcs[i].SendAsleep?) ==>
        exists i :: 0 <= i < |s.pcs| && s.pcs[i].SendWoken?
    ensures var s := Exec(capacity, threads, acts);
      (exists i, j :: 0 <= i < |s.pcs| && 0 <= j < |s.pcs| && s.pcs[i].RecvAsleep? && s.pcs[j].SendAsleep?) ==>
        exists i :: 0 <= i < |s.pcs| && OnTheWay(s.pcs[i])
  {
    var s := Exec(capacity, threads, acts);
    ExecKeepsWakeups(capacity, threads, acts);
    CountZero(s.pcs, ReceiverAsleep);
    CountZero(s.pcs, ReceiverAwake);
    CountZero(s.pcs, NotifyingReceivers);
    CountZero(s.pcs, SenderAsleep);
    CountZero(s.pcs, SenderAwake);
    CountZero(s.pcs, NotifyingSenders);
  }
}
