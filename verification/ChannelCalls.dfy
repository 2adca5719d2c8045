/** What a call of `send`, `recv` or `stop` does from its start to its return, and that it gets there. */
module ChannelCalls {
  import opened Values
  import opened Options
  import opened Counting
  import opened Channel

  // ------------------------------------------------------ the record of a call

  /** The call a thread is in, as its caller knows it, and what it has sent or received so far. */
  datatype Call = NoCall | Sending(x: Value, out: seq<Value>) | Receiving(got: seq<Value>) | Stopping

  function Added(before: seq<Value>, after: seq<Value>): seq<Value> {
    if |before| <= |after| then after[|before|..] else []
  }

  /** What thread `t` has done once its own action has turned `s` into `s'`. */
  function Grown(call: Call, s: State, s': State): Call {
    match call
    case Sending(x, out) => Sending(x, out + Added(s.sent, s'.sent))
    case Receiving(got) => Receiving(got + Added(s.received, s'.received))
    case _ => call
  }

  /** The record after a step of the call; a thread that is idle has returned. */
  function Stepped(call: Call, s: State, s': State, t: nat): Call
    requires t < |s'.pcs|
  {
    if s'.pcs[t].Idle? then NoCall else Grown(call, s, s')
  }

  /** The record of thread `t` after action `a`. */
  function CallAfter(call: Call, s: State, a: Action, s': State, t: nat): Call
    requires t < |s'.pcs|
  {
    if a.t != t then call
    else if !call.NoCall? then Stepped(call, s, s', t)
    else
      match a
      case CallSend(_, x) => Sending(x, [])
      case CallRecv(_) => Receiving([])
      case CallStop(_) => Stopping
      case _ => NoCall
  }

  /** Another thread can wake a sleeper, and nothing else. */
  ghost predicate OthersStay(s: State, s': State, t: nat) {
    && |s'.pcs| == |s.pcs|
    && forall i :: 0 <= i < |s.pcs| && i != t ==>
         || s'.pcs[i] == s.pcs[i]
         || (s.pcs[i].SendAsleep? && s'.pcs[i] == SendWoken(s.pcs[i].x))
         || (s.pcs[i].RecvAsleep? && s'.pcs[i] == RecvWoken)
  }

  lemma SendLeavesOthers(s: State, t: nat)
    requires t < |s.pcs|
    ensures OthersStay(s, SendStep(s, t), t)
  {
  }

  lemma RecvAndStopLeaveOthers(s: State, t: nat)
    requires t < |s.pcs|
    ensures OthersStay(s, RecvStep(s, t), t) && OthersStay(s, StopStep(s, t), t)
  {
  }

  lemma NotifyLeavesOthers(s: State, t: nat, w: nat)
    requires t < |s.pcs|
    ensures OthersStay(s, NotifyReceiver(s, t, w), t) && OthersStay(s, NotifySender(s, t, w), t)
  {
  }

  lemma ActionsLeaveOthers(s: State, a: Action)
    ensures OthersStay(s, Apply(s, a), a.t)
  {
    if a.t < |s.pcs| {
      match a
      case Run(t) =>
        SendLeavesOthers(s, t);
        RecvAndStopLeaveOthers(s, t);
      case NotifyOne(t, w) => NotifyLeavesOthers(s, t, w);
      case _ =>
    }
  }

  lemma {:induction false} ThreadsAreFixed(capacity: nat, threads: nat, acts: seq<Action>)
    ensures |Exec(capacity, threads, acts).pcs| == threads
  {
    if acts != [] {
      ThreadsAreFixed(capacity, threads, acts[..|acts| - 1]);
      ActionsLeaveOthers(Exec(capacity, threads, acts[..|acts| - 1]), acts[|acts| - 1]);
    }
  }

  /** The record of thread `t` after a schedule. */
  ghost function CallOf(capacity: nat, threads: nat, acts: seq<Action>, t: nat): Call
    requires t < threads
  {
    if acts == [] then NoCall
    else
      ThreadsAreFixed(capacity, threads, acts);
      var before := acts[..|acts| - 1];
      CallAfter(CallOf(capacity, threads, before, t), Exec(capacity, threads, before), acts[|acts| - 1],
                Exec(capacity, threads, acts), t)
  }

  /** Where a thread stands fits the call it is in. */
  predicate Fits(call: Call, pc: Pc) {
    match pc
    case Idle => call.NoCall?
    case SendEnter(x) => call == Sending(x, [])
    case SendTest(x, _) => call == Sending(x, [])
    case SendSleep(x) => call == Sending(x, [])
    case SendAsleep(x) => call == Sending(x, [])
    case SendWoken(x) => call == Sending(x, [])
    case SendCheck(x, _) => call == Sending(x, [])
    case SendPush(x, _) => call == Sending(x, [])
    case SendNotify => call.Sending? && call.out == [call.x]
    case RecvNotify => call.Receiving? && |call.got| == 1
    case StopSet => call.Stopping?
    case StopProducers => call.Stopping?
    case StopConsumers => call.Stopping?
    case _ => call == Receiving([])
  }

  /** What the action does to the traffic is what the acting thread's call asks for. */
  ghost predicate MovesItsOwn(s: State, s': State, call: Call) {
    && (s'.sent == s.sent || (call.Sending? && call.out == [] && s'.sent == s.sent + [call.x]
                              && s'.queue == s.queue + [call.x]))
    && (s'.received == s.received || (call == Receiving([]) && s.queue != []
                                      && s'.received == s.received + [s.queue[0]] && s'.queue == s.queue[1..]))
  }

  /** How a call may return: having done its work once, or refused by a stopped channel. */
  ghost predicate ReturnsRightly(s: State, call: Call) {
    match call
    case Sending(x, out) => out == [x] || (out == [] && s.stop)
    case Receiving(got) => |got| == 1 || (got == [] && s.stop && s.queue == [])
    case _ => true
  }

  /** A step of the call: it still fits, moves only what it should, and returns rightly. */
  ghost predicate Proper(s: State, s': State, t: nat, call: Call)
    requires t < |s.pcs| == |s'.pcs|
  {
    && (!s.pcs[t].Idle? ==> Fits(Stepped(call, s, s', t), s'.pcs[t]))
    && MovesItsOwn(s, s', call)
    && (!s.pcs[t].Idle? && s'.pcs[t].Idle? ==> ReturnsRightly(s, Grown(call, s, s')))
  }

  lemma SendIsProper(s: State, t: nat, call: Call)
    requires t < |s.pcs| && Fits(call, s.pcs[t])
    ensures |SendStep(s, t).pcs| == |s.pcs| && Proper(s, SendStep(s, t), t, call)
  {
  }

  lemma TakingIsProper(s: State, t: nat, call: Call)
    requires t < |s.pcs| && Fits(call, s.pcs[t]) && s.pcs[t].RecvPop?
    ensures |RecvStep(s, t).pcs| == |s.pcs| && Proper(s, RecvStep(s, t), t, call)
  {
  }

  lemma RecvIsProper(s: State, t: nat, call: Call)
    requires t < |s.pcs| && Fits(call, s.pcs[t])
    ensures |RecvStep(s, t).pcs| == |s.pcs| && Proper(s, RecvStep(s, t), t, call)
  {
    if s.pcs[t].RecvPop? {
      TakingIsProper(s, t, call);
    }
  }

  /** Steps that move no message; a thread that returns by one has done its work. */
  lemma QuietIsProper(s: State, s': State, t: nat, call: Call)
    requires t < |s.pcs| == |s'.pcs| && Fits(call, s.pcs[t])
    requires s'.sent == s.sent && s'.received == s.received
    requires s'.pcs[t] == s.pcs[t] || Fits(call, s'.pcs[t])
             || (s'.pcs[t].Idle? && (s.pcs[t].SendNotify? || s.pcs[t].RecvNotify? || s.pcs[t].StopConsumers?))
    ensures Proper(s, s', t, call)
  {
  }

  lemma StopAndNotifyAreProper(s: State, t: nat, w: nat, call: Call)
    requires t < |s.pcs| && Fits(call, s.pcs[t])
    ensures |StopStep(s, t).pcs| == |s.pcs| && Proper(s, StopStep(s, t), t, call)
    ensures |NotifyStep(s, t, w).pcs| == |s.pcs| && Proper(s, NotifyStep(s, t, w), t, call)
  {
    QuietIsProper(s, StopStep(s, t), t, call);
    QuietIsProper(s, NotifyStep(s, t, w), t, call);
  }

  /** An action of the thread itself. */
  lemma OwnActionIsProper(s: State, a: Action, call: Call)
    requires a.t < |s.pcs| && Fits(call, s.pcs[a.t])
    ensures |Apply(s, a).pcs| == |s.pcs| && Proper(s, Apply(s, a), a.t, call)
    ensures Fits(CallAfter(call, s, a, Apply(s, a), a.t), Apply(s, a).pcs[a.t])
  {
    var t := a.t;
    match a
    case Run(_) =>
      SendIsProper(s, t, call);
      RecvIsProper(s, t, call);
      StopAndNotifyAreProper(s, t, 0, call);
    case NotifyOne(_, w) => StopAndNotifyAreProper(s, t, w, call);
    case _ =>
  }

  /**
   On every schedule a thread carries the argument of its call through waits,
   wakeups and notifications, and has sent that argument at most once.
   */
  lemma {:induction false} CallsCarryTheirArguments(capacity: nat, threads: nat, acts: seq<Action>, t: nat)
    requires t < threads
    ensures |Exec(capacity, threads, acts).pcs| == threads
    ensures Fits(CallOf(capacity, threads, acts, t), Exec(capacity, threads, acts).pcs[t])
  {
    ThreadsAreFixed(capacity, threads, acts);
    if acts != [] {
      var before, a := acts[..|acts| - 1], acts[|acts| - 1];
      var s, call := Exec(capacity, threads, before), CallOf(capacity, threads, before, t);
      CallsCarryTheirArguments(capacity, threads, before, t);
      if a.t == t {
        OwnActionIsProper(s, a, call);
      } else {
        ActionsLeaveOthers(s, a);
      }
    }
  }

  /**
   On every schedule: what enters the queue is the argument of the call that
   sends it; a `send` returns having sent it exactly once, or refused with the
   flag up; a `recv` returns having taken the first message exactly once, or
   refused with the flag up and the queue empty.
   */
  lemma {:induction false} CallsDoTheirWork(capacity: nat, threads: nat, acts: seq<Action>, a: Action)
    requires a.t < threads
    ensures var s, call := Exec(capacity, threads, acts), CallOf(capacity, threads, acts, a.t);
      |s.pcs| == |Apply(s, a).pcs| == threads && Proper(s, Apply(s, a), a.t, call)
  {
    CallsCarryTheirArguments(capacity, threads, acts, a.t);
    OwnActionIsProper(Exec(capacity, threads, acts), a, CallOf(capacity, threads, acts, a.t));
  }

  // ------------------------------------------------------- undisturbed calls

  /** Thread `t` takes `n` steps and nobody else moves. */
  function Ran(s: State, t: nat, n: nat): State
    decreases n
  {
    if n == 0 then s else Ran(Apply(s, Run(t)), t, n - 1)
  }

  /** From the test on, with the mutex held. */
  lemma SendFromTest(s: State, t: nat)
    requires t < |s.pcs| && s.pcs[t].SendTest? && s.holder == Some(t)
    ensures var x := s.pcs[t].x;
      && (!MaySend(s) ==> Ran(s, t, 2) == s.(pcs := s.pcs[t := SendAsleep(x)], holder := None))
      && (s.stop ==> Ran(s, t, 2) == s.(pcs := s.pcs[t := Idle], holder := None))
      && (MaySend(s) && !s.stop ==>
            Ran(s, t, 3) == s.(pcs := s.pcs[t := SendNotify], queue := s.queue + [x], sent := s.sent + [x]))
  {
    var x, w := s.pcs[t].x, s.pcs[t].woken;
    var s1 := At(s, t, if MaySend(s) then SendCheck(x, w) else SendSleep(x));
    assert Apply(s, Run(t)) == s1;
    var s2 := Apply(s1, Run(t));
    assert Ran(s, t, 2) == s2 by { assert Ran(s1, t, 1) == s2; }
    if MaySend(s) && !s.stop {
      assert s2 == At(s1, t, SendPush(x, w));
      assert Ran(s, t, 3) == Apply(s2, Run(t)) by {
        assert Ran(s1, t, 2) == Apply(s2, Run(t)) by { assert Ran(s2, t, 1) == Apply(s2, Run(t)); }
      }
    }
  }

  /**
   A `send` that finds the mutex free and is not disturbed: with the flag up it
   is refused; with room it queues its argument and is about to notify; otherwise
   it sleeps, with the mutex free again.
   */
  lemma SendUndisturbed(s: State, t: nat, x: Value)
    requires t < |s.pcs| && s.holder == None && (s.pcs[t] == SendEnter(x) || s.pcs[t] == SendWoken(x))
    ensures !MaySend(s) ==> Ran(s, t, 3) == s.(pcs := s.pcs[t := SendAsleep(x)])
    ensures s.stop ==> Ran(s, t, 3) == s.(pcs := s.pcs[t := Idle])
    ensures MaySend(s) && !s.stop ==>
      Ran(s, t, 4) ==
        s.(pcs := s.pcs[t := SendNotify], holder := Some(t), queue := s.queue + [x], sent := s.sent + [x])
  {
    var s1 := At(s, t, SendTest(x, s.pcs[t].SendWoken?)).(holder := Some(t));
    assert Apply(s, Run(t)) == s1;
    SendFromTest(s1, t);
  }

  lemma RecvFromCheck(s: State, t: nat)
    requires t < |s.pcs| && s.pcs[t].RecvCheck? && s.holder == Some(t) && s.queue != []
    ensures Ran(s, t, 2) ==
      s.(pcs := s.pcs[t := RecvNotify], queue := s.queue[1..], received := s.received + [s.queue[0]])
  {
    var s1 := At(s, t, RecvPop(s.pcs[t].woken));
    assert Apply(s, Run(t)) == s1;
    assert Ran(s, t, 2) == Ran(s1, t, 1) == Apply(s1, Run(t));
  }

  lemma RecvFromTest(s: State, t: nat)
    requires t < |s.pcs| && s.pcs[t].RecvTest? && s.holder == Some(t)
    ensures s.queue == [] && !s.stop ==> Ran(s, t, 2) == s.(pcs := s.pcs[t := RecvAsleep], holder := None)
    ensures s.queue == [] && s.stop ==> Ran(s, t, 2) == s.(pcs := s.pcs[t := Idle], holder := None, drained := true)
    ensures s.queue != [] ==>
      Ran(s, t, 3) ==
        s.(pcs := s.pcs[t := RecvNotify], queue := s.queue[1..], received := s.received + [s.queue[0]])
  {
    var s1 := At(s, t, if s.queue != [] || s.stop then RecvCheck(s.pcs[t].woken) else RecvSleep);
    assert Apply(s, Run(t)) == s1;
    if s.queue != [] {
      RecvFromCheck(s1, t);
      assert Ran(s, t, 3) == Ran(s1, t, 2);
    } else {
      assert Ran(s, t, 2) == Ran(s1, t, 1) == Apply(s1, Run(t));
    }
  }

  /**
   A `recv` that finds the mutex free and is not disturbed: it takes the first
   message, flag or not, and is about to notify; on an empty queue it is refused
   with the flag up, and otherwise sleeps.
   */
  lemma RecvUndisturbed(s: State, t: nat)
    requires t < |s.pcs| && s.holder == None && (s.pcs[t].RecvEnter? || s.pcs[t].RecvWoken?)
    ensures s.queue == [] && !s.stop ==> Ran(s, t, 3) == s.(pcs := s.pcs[t := RecvAsleep])
    ensures s.queue == [] && s.stop ==> Ran(s, t, 3) == s.(pcs := s.pcs[t := Idle], drained := true)
    ensures s.queue != [] ==>
      Ran(s, t, 4) ==
        s.(pcs := s.pcs[t := RecvNotify], holder := Some(t), queue := s.queue[1..],
           received := s.received + [s.queue[0]])
  {
    var s1 := At(s, t, RecvTest(s.pcs[t].RecvWoken?)).(holder := Some(t));
    assert Apply(s, Run(t)) == s1;
    RecvFromTest(s1, t);
  }

  /** The notification wakes one sleeper of the other side if there is any, and the call returns. */
  lemma NotifyUndisturbed(s: State, t: nat, w: nat)
    requires t < |s.pcs| && w < |s.pcs| && (s.pcs[t].SendNotify? || s.pcs[t].RecvNotify?)
    ensures var asleep := if s.pcs[t].SendNotify? then ReceiverAsleep else SenderAsleep;
      && (asleep(s.pcs[w]) ==>
            Apply(s, NotifyOne(t, w)) ==
              s.(holder := None, pcs := Apply(s, Spurious(w)).pcs[t := Idle]))
      && (Count(s.pcs, asleep) == 0 ==> Apply(s, NotifyOne(t, w)) == s.(holder := None, pcs := s.pcs[t := Idle]))
  {
    CountZero(s.pcs, ReceiverAsleep);
    CountZero(s.pcs, SenderAsleep);
  }

  /** `stop` sets its flag, wakes every sleeper of both sides and returns, mutex or not. */
  lemma StopUndisturbed(s: State, t: nat)
    requires t < |s.pcs| && s.pcs[t].StopSet?
    ensures var s' := Ran(s, t, 3);
      && s' == s.(stop := true, pcs := s'.pcs) && |s'.pcs| == |s.pcs| && s'.pcs[t].Idle?
      && forall i :: 0 <= i < |s.pcs| && i != t ==>
           s'.pcs[i] == if s.pcs[i].SendAsleep? then SendWoken(s.pcs[i].x)
                        else if s.pcs[i].RecvAsleep? then RecvWoken else s.pcs[i]
  {
    var s1 := At(s, t, StopProducers).(stop := true);
    assert Apply(s, Run(t)) == s1;
    var s2 := s1.(pcs := WakeSenders(s1.pcs)[t := StopConsumers]);
    assert Apply(s1, Run(t)) == s2;
    assert Ran(s, t, 3) == Ran(s1, t, 2) == Ran(s2, t, 1) == Apply(s2, Run(t));
  }
}
