/**
 What `stop()` does to the waiters of a channel. It sets its flag and notifies
 without the mutex, so it can come between a waiter's test and its sleep.
 */
module ChannelStop {
  import opened Options
  import opened Channel

  /** The two condition variables. */
  datatype Side = Senders | Receivers

  /** `stop()` is about to notify this side. */
  predicate Notifies(side: Side, pc: Pc) {
    if side.Senders? then pc.StopProducers? else pc.StopConsumers?
  }

  /** Past the test that sent it to sleep, and not asleep yet; it holds the mutex. */
  predicate FallingAsleep(side: Side, pc: Pc) {
    if side.Senders? then pc.SendSleep? else pc.RecvSleep?
  }

  predicate Asleep(side: Side, pc: Pc) {
    if side.Senders? then pc.SendAsleep? else pc.RecvAsleep?
  }

  ghost predicate SomeFallingAsleep(side: Side, s: State) {
    exists i :: 0 <= i < |s.pcs| && FallingAsleep(side, s.pcs[i])
  }

  ghost predicate SomeAsleep(side: Side, s: State) {
    exists i :: 0 <= i < |s.pcs| && Asleep(side, s.pcs[i])
  }

  /** The flag is up before anyone is notified, and stays up. */
  ghost predicate FlagFirst(s: State) {
    forall i :: 0 <= i < |s.pcs| && (s.pcs[i].StopProducers? || s.pcs[i].StopConsumers?) ==> s.stop
  }

  /**
   How a thread gets from its place in `s` to its place in `s'`: it falls asleep
   only with the flag down, sleeps only after falling asleep, and notifies only
   with the flag up.
   */
  ghost predicate Moves(s: State, s': State, pc: Pc, pc': Pc) {
    || pc' == pc
    || (&& (pc'.SendSleep? || pc'.RecvSleep? ==> !s.stop)
        && (pc'.SendAsleep? ==> pc.SendSleep?) && (pc'.RecvAsleep? ==> pc.RecvSleep?)
        && (pc'.StopProducers? || pc'.StopConsumers? ==> s'.stop))
  }

  ghost predicate AllMove(s: State, s': State) {
    && |s'.pcs| == |s.pcs| && (s.stop ==> s'.stop)
    && forall i :: 0 <= i < |s.pcs| ==> Moves(s, s', s.pcs[i], s'.pcs[i])
  }

  lemma SendMoves(s: State, t: nat)
    requires t < |s.pcs|
    ensures AllMove(s, SendStep(s, t))
  {
  }

  lemma RecvMoves(s: State, t: nat)
    requires t < |s.pcs|
    ensures AllMove(s, RecvStep(s, t))
  {
  }

  lemma StopMoves(s: State, t: nat)
    requires t < |s.pcs| && FlagFirst(s)
    ensures AllMove(s, StopStep(s, t))
  {
  }

  lemma NotifyReceiverMoves(s: State, t: nat, w: nat)
    requires t < |s.pcs|
    ensures AllMove(s, NotifyReceiver(s, t, w))
  {
  }

  lemma NotifySenderMoves(s: State, t: nat, w: nat)
    requires t < |s.pcs|
    ensures AllMove(s, NotifySender(s, t, w))
  {
  }

  lemma NotifyMoves(s: State, t: nat, w: nat)
    requires t < |s.pcs|
    ensures AllMove(s, NotifyStep(s, t, w))
  {
    if s.pcs[t].SendNotify? {
      NotifyReceiverMoves(s, t, w);
    } else if s.pcs[t].RecvNotify? {
      NotifySenderMoves(s, t, w);
    }
  }

  lemma ApplyMoves(s: State, a: Action)
    requires FlagFirst(s)
    ensures AllMove(s, Apply(s, a)) && FlagFirst(Apply(s, a))
  {
    if a.t < |s.pcs| {
      match a
      case Run(t) =>
        SendMoves(s, t);
        RecvMoves(s, t);
        StopMoves(s, t);
      case NotifyOne(t, w) => NotifyMoves(s, t, w);
      case _ =>
    }
  }

  lemma {:induction false} ExecKeepsFlagFirst(capacity: nat, threads: nat, acts: seq<Action>)
    ensures FlagFirst(Exec(capacity, threads, acts))
  {
    if acts != [] {
      ExecKeepsFlagFirst(capacity, threads, acts[..|acts| - 1]);
      ApplyMoves(Exec(capacity, threads, acts[..|acts| - 1]), acts[|acts| - 1]);
    }
  }

  /** On a stopped channel nobody of the side is falling asleep. */
  ghost predicate Settled(side: Side, s: State) {
    s.stop && FlagFirst(s) && !SomeFallingAsleep(side, s)
  }

  /** With the flag up every test passes, so nobody starts to fall asleep. */
  lemma ApplyKeepsSettled(side: Side, s: State, a: Action)
    requires Settled(side, s)
    ensures Settled(side, Apply(s, a))
    ensures !SomeAsleep(side, s) ==> !SomeAsleep(side, Apply(s, a))
  {
    ApplyMoves(s, a);
    SettledMoves(side, s, Apply(s, a));
  }

  lemma SettledMoves(side: Side, s: State, s': State)
    requires Settled(side, s) && AllMove(s, s')
    ensures !SomeFallingAsleep(side, s') && (!SomeAsleep(side, s) ==> !SomeAsleep(side, s'))
  {
    forall i | 0 <= i < |s'.pcs|
      ensures !FallingAsleep(side, s'.pcs[i]) && (Asleep(side, s'.pcs[i]) ==> Asleep(side, s.pcs[i]))
    {
      assert !FallingAsleep(side, s.pcs[i]) && Moves(s, s', s.pcs[i], s'.pcs[i]);
    }
  }

  lemma {:induction false} SettledForGood(side: Side, capacity: nat, threads: nat, acts: seq<Action>, more: seq<Action>)
    requires Settled(side, Exec(capacity, threads, acts))
    ensures Settled(side, Exec(capacity, threads, acts + more))
    ensures !SomeAsleep(side, Exec(capacity, threads, acts)) ==> !SomeAsleep(side, Exec(capacity, threads, acts + more))
  {
    if more == [] {
      assert acts + more == acts;
    } else {
      var before := more[..|more| - 1];
      assert (acts + more)[..|acts + more| - 1] == acts + before;
      SettledForGood(side, capacity, threads, acts, before);
      ApplyKeepsSettled(side, Exec(capacity, threads, acts + before), more[|more| - 1]);
    }
  }

  lemma ExecThen(capacity: nat, threads: nat, acts: seq<Action>, a: Action)
    ensures Exec(capacity, threads, acts + [a]) == Apply(Exec(capacity, threads, acts), a)
  {
    assert (acts + [a])[..|acts|] == acts;
  }

  /** The notification wakes every sleeper of its side and moves nobody else of it. */
  lemma NotificationWakesAll(side: Side, s: State, t: nat)
    requires t < |s.pcs| && Notifies(side, s.pcs[t])
    ensures var s' := Apply(s, Run(t));
      && !SomeAsleep(side, s') && s'.stop == s.stop && |s'.pcs| == |s.pcs|
      && forall i :: 0 <= i < |s.pcs| ==> (FallingAsleep(side, s'.pcs[i]) <==> FallingAsleep(side, s.pcs[i]))
  {
  }

  /** Some continuation after the notification by `t` finds a thread of the side asleep. */
  ghost predicate Misses(side: Side, capacity: nat, threads: nat, acts: seq<Action>, t: nat) {
    exists more :: SomeAsleep(side, Exec(capacity, threads, acts + [Run(t)] + more))
  }

  lemma SleepFollows(side: Side, s: State, i: nat)
    requires i < |s.pcs| && FallingAsleep(side, s.pcs[i])
    ensures SomeAsleep(side, Apply(s, Run(i)))
  {
    assert Asleep(side, Apply(s, Run(i)).pcs[i]);
  }

  /** Whoever is falling asleep at the notification goes on to sleep. */
  lemma FallsAsleep(side: Side, capacity: nat, threads: nat, acts: seq<Action>, t: nat, i: nat)
    requires var pcs := Exec(capacity, threads, acts).pcs;
      && t < |pcs| && Notifies(side, pcs[t])
      && i < |pcs| && FallingAsleep(side, pcs[i])
    ensures Misses(side, capacity, threads, acts, t)
  {
    NotificationWakesAll(side, Exec(capacity, threads, acts), t);
    ExecThen(capacity, threads, acts, Run(t));
    SleepFollows(side, Exec(capacity, threads, acts + [Run(t)]), i);
    ExecThen(capacity, threads, acts + [Run(t)], Run(i));
  }

  /**
   Exactly when `stop()` misses somebody: on every schedule and for either
   condition variable, a thread can still be found asleep after the notification
   if and only if at the notification some thread was between its test and its
   sleep.
   */
  lemma {:induction false} StopMissesIff(side: Side, capacity: nat, threads: nat, acts: seq<Action>, t: nat)
    requires t < |Exec(capacity, threads, acts).pcs| && Notifies(side, Exec(capacity, threads, acts).pcs[t])
    ensures Misses(side, capacity, threads, acts, t) <==> SomeFallingAsleep(side, Exec(capacity, threads, acts))
  {
    var s := Exec(capacity, threads, acts);
    if i :| 0 <= i < |s.pcs| && FallingAsleep(side, s.pcs[i]) {
      FallsAsleep(side, capacity, threads, acts, t, i);
    } else {
      ExecKeepsFlagFirst(capacity, threads, acts);
      ApplyMoves(s, Run(t));
      NotificationWakesAll(side, s, t);
      ExecThen(capacity, threads, acts, Run(t));
      forall more ensures !SomeAsleep(side, Exec(capacity, threads, acts + [Run(t)] + more)) {
        SettledForGood(side, capacity, threads, acts + [Run(t)], more);
      }
    }
  }

  /** With the mutex free at the notification nobody is ever missed. */
  lemma {:induction false} FreeMutexMissesNobody(side: Side, capacity: nat, threads: nat, acts: seq<Action>, t: nat)
    requires t < |Exec(capacity, threads, acts).pcs| && Notifies(side, Exec(capacity, threads, acts).pcs[t])
    requires Exec(capacity, threads, acts).holder == None
    ensures !Misses(side, capacity, threads, acts, t)
  {
    ExecKeepsInv(capacity, threads, acts);
    StopMissesIff(side, capacity, threads, acts, t);
  }

  /**
   Setting the flag while nobody holds the mutex is enough: whatever happens
   between the store and the notifications, neither of them misses anybody.
   */
  lemma {:induction false} FlagUnderMutexMissesNobody(
      side: Side, capacity: nat, threads: nat, acts: seq<Action>, t: nat, between: seq<Action>)
    requires t < |Exec(capacity, threads, acts).pcs| && Exec(capacity, threads, acts).pcs[t].StopSet?
    requires Exec(capacity, threads, acts).holder == None
    requires var s := Exec(capacity, threads, acts + [Run(t)] + between); t < |s.pcs| && Notifies(side, s.pcs[t])
    ensures !Misses(side, capacity, threads, acts + [Run(t)] + between, t)
  {
    ExecKeepsInv(capacity, threads, acts);
    ExecKeepsFlagFirst(capacity, threads, acts + [Run(t)]);
    ExecThen(capacity, threads, acts, Run(t));
    SettledForGood(side, capacity, threads, acts + [Run(t)], between);
    StopMissesIff(side, capacity, threads, acts + [Run(t)] + between, t);
  }

  /** Some schedule of two threads ends in `s`. */
  ghost predicate Reaches(capacity: nat, s: State) {
    exists acts :: Exec(capacity, 2, acts) == s
  }

  lemma Then(capacity: nat, s: State, a: Action, s': State)
    requires Reaches(capacity, s) && Apply(s, a) == s'
    ensures Reaches(capacity, s')
  {
    var acts :| Exec(capacity, 2, acts) == s;
    assert (acts + [a])[..|acts|] == acts;
    assert Exec(capacity, 2, acts + [a]) == s';
  }

  lemma ReceiverEnters(capacity: nat)
    ensures Reaches(capacity, Init(capacity, 2).(pcs := [RecvEnter, Idle]))
  {
    var idle := Init(capacity, 2);
    assert idle.pcs == [Idle, Idle];
    assert Exec(capacity, 2, []) == idle;
    Then(capacity, idle, CallRecv(0), idle.(pcs := [RecvEnter, Idle]));
  }

  /** A receiver that has found the queue empty holds the mutex and is about to sleep. */
  lemma ReceiverAboutToSleep(capacity: nat) returns (s: State)
    ensures s == Init(capacity, 2).(pcs := [RecvSleep, Idle], holder := Some(0)) && Reaches(capacity, s)
  {
    ReceiverEnters(capacity);
    var entering := Init(capacity, 2).(pcs := [RecvEnter, Idle]);
    var testing := entering.(pcs := [RecvTest(false), Idle], holder := Some(0));
    Then(capacity, entering, Run(0), testing);
    s := testing.(pcs := [RecvSleep, Idle]);
    Then(capacity, testing, Run(0), s);
  }

  lemma StopSets(capacity: nat, s: State)
    requires Reaches(capacity, s) && s.pcs == [RecvSleep, Idle]
    ensures Reaches(capacity, s.(stop := true, pcs := [RecvSleep, StopProducers]))
  {
    var s1 := s.(pcs := [RecvSleep, StopSet]);
    Then(capacity, s, CallStop(1), s1);
    Then(capacity, s1, Run(1), s.(stop := true, pcs := [RecvSleep, StopProducers]));
  }

  lemma StopNotifies(capacity: nat, s: State)
    requires Reaches(capacity, s) && s.pcs == [RecvSleep, StopProducers]
    ensures Reaches(capacity, s.(pcs := [RecvSleep, Idle]))
  {
    var s1 := s.(pcs := [RecvSleep, StopConsumers]);
    assert WakeSenders(s.pcs) == s.pcs;
    Then(capacity, s, Run(1), s1);
    assert WakeReceivers(s1.pcs) == s1.pcs;
    Then(capacity, s1, Run(1), s.(pcs := [RecvSleep, Idle]));
  }

  /**
   The failing case: run between a receiver's test and
   its sleep, `stop()` sets the flag outside the mutex and notifies nobody, and
   the receiver is left asleep on a stopped channel with every call returned.
   */
  lemma StopCanMissASleeper(capacity: nat) returns (acts: seq<Action>)
    ensures var s := Exec(capacity, 2, acts); s.stop && s.pcs == [RecvAsleep, Idle] && s.holder == None
  {
    var s := ReceiverAboutToSleep(capacity);
    StopSets(capacity, s);
    StopNotifies(capacity, s.(stop := true, pcs := [RecvSleep, StopProducers]));
    var asleep := s.(stop := true, pcs := [RecvAsleep, Idle], holder := None);
    Then(capacity, s.(stop := true), Run(0), asleep);
    acts :| Exec(capacity, 2, acts) == asleep;
  }
}
