/**
 What `stop` does to the sleeping workers of a pool. Like the channel's, it sets
 its flag and notifies without the mutex, and then joins every worker.
 */
module ThreadPoolStop {
  import opened Options
  import opened ThreadPool

  ghost predicate SomeFallingAsleep(s: State) {
    exists i :: 0 <= i < |s.pcs| && s.pcs[i].WorkerSleep?
  }

  ghost predicate SomeAsleep(s: State) {
    exists i :: 0 <= i < |s.pcs| && s.pcs[i].WorkerAsleep?
  }

  /** The flag is up before anyone is notified. */
  ghost predicate FlagFirst(s: State) {
    forall i :: 0 <= i < |s.pcs| && s.pcs[i].StopNotify? ==> s.stop
  }

  /** On a stopped pool no worker is falling asleep. */
  ghost predicate Settled(s: State) {
    s.stop && !SomeFallingAsleep(s)
  }

  lemma ApplyKeepsFlag(s: State, a: Action)
    requires FlagFirst(s)
    ensures FlagFirst(Apply(s, a)) && (s.stop ==> Apply(s, a).stop)
  {
  }

  lemma {:induction false} ExecKeepsFlag(clients: nat, workers: nat, acts: seq<Action>)
    ensures FlagFirst(Exec(clients, workers, acts))
  {
    if acts != [] {
      ExecKeepsFlag(clients, workers, acts[..|acts| - 1]);
      ApplyKeepsFlag(Exec(clients, workers, acts[..|acts| - 1]), acts[|acts| - 1]);
    }
  }

  ghost predicate NobodySleeps(s: State) {
    Settled(s) && !SomeAsleep(s)
  }

  lemma ApplyKeepsAwake(s: State, a: Action)
    requires NobodySleeps(s)
    ensures NobodySleeps(Apply(s, a))
  {
    var s' := Apply(s, a);
    forall i | 0 <= i < |s'.pcs| ensures !s'.pcs[i].WorkerSleep? && !s'.pcs[i].WorkerAsleep? {
      assert !s.pcs[i].WorkerSleep? && !s.pcs[i].WorkerAsleep?;
    }
  }

  lemma ExecThen(clients: nat, workers: nat, acts: seq<Action>, a: Action)
    ensures Exec(clients, workers, acts + [a]) == Apply(Exec(clients, workers, acts), a)
  {
    assert (acts + [a])[..|acts|] == acts;
  }

  lemma {:induction false} AwakeForGood(clients: nat, workers: nat, acts: seq<Action>, more: seq<Action>)
    requires NobodySleeps(Exec(clients, workers, acts))
    ensures NobodySleeps(Exec(clients, workers, acts + more))
  {
    if more == [] {
      assert acts + more == acts;
    } else {
      var before, a := more[..|more| - 1], more[|more| - 1];
      AwakeForGood(clients, workers, acts, before);
      ApplyKeepsAwake(Exec(clients, workers, acts + before), a);
      ExecThen(clients, workers, acts + before, a);
      assert acts + before + [a] == acts + more;
    }
  }

  /** After the notification by `t` some continuation finds a worker asleep, for `join` to wait on. */
  ghost predicate Misses(clients: nat, workers: nat, acts: seq<Action>, t: nat) {
    exists more :: SomeAsleep(Exec(clients, workers, acts + [Run(t)] + more))
  }

  /** The notification wakes every sleeper and moves no other worker. */
  lemma NotificationWakesAll(s: State, t: nat)
    requires t < |s.pcs| && s.pcs[t].StopNotify?
    ensures var s' := Apply(s, Run(t));
      && !SomeAsleep(s') && s'.stop == s.stop && |s'.pcs| == |s.pcs|
      && forall i :: 0 <= i < |s.pcs| ==> (s'.pcs[i].WorkerSleep? <==> s.pcs[i].WorkerSleep?)
  {
  }

  lemma SleepFollows(s: State, i: nat)
    requires i < |s.pcs| && s.pcs[i].WorkerSleep?
    ensures SomeAsleep(Apply(s, Run(i)))
  {
    assert Apply(s, Run(i)).pcs[i].WorkerAsleep?;
  }

  lemma FallsAsleep(clients: nat, workers: nat, acts: seq<Action>, t: nat, i: nat)
    requires var pcs := Exec(clients, workers, acts).pcs;
      t < |pcs| && pcs[t].StopNotify? && i < |pcs| && pcs[i].WorkerSleep?
    ensures Misses(clients, workers, acts, t)
  {
    NotificationWakesAll(Exec(clients, workers, acts), t);
    ExecThen(clients, workers, acts, Run(t));
    SleepFollows(Exec(clients, workers, acts + [Run(t)]), i);
    ExecThen(clients, workers, acts + [Run(t)], Run(i));
  }

  /**
   Exactly when `stop` misses a worker: one can still be found asleep after the
   notification if and only if one was between its test and its sleep at it.
   */
  lemma {:induction false} StopMissesIff(clients: nat, workers: nat, acts: seq<Action>, t: nat)
    requires var s := Exec(clients, workers, acts); t < |s.pcs| && s.pcs[t].StopNotify?
    ensures Misses(clients, workers, acts, t) <==> SomeFallingAsleep(Exec(clients, workers, acts))
  {
    var s := Exec(clients, workers, acts);
    if i :| 0 <= i < |s.pcs| && s.pcs[i].WorkerSleep? {
      FallsAsleep(clients, workers, acts, t, i);
    } else {
      ExecKeepsFlag(clients, workers, acts);
      NotificationWakesAll(s, t);
      ExecThen(clients, workers, acts, Run(t));
      forall more ensures !SomeAsleep(Exec(clients, workers, acts + [Run(t)] + more)) {
        AwakeForGood(clients, workers, acts + [Run(t)], more);
      }
    }
  }

  /** In particular nobody is missed when the mutex is free at the notification. */
  lemma {:induction false} FreeMutexMissesNobody(clients: nat, workers: nat, acts: seq<Action>, t: nat)
    requires var s := Exec(clients, workers, acts); t < |s.pcs| && s.pcs[t].StopNotify? && s.holder == None
    ensures !Misses(clients, workers, acts, t)
  {
    ExecKeepsInv(clients, workers, acts);
    StopMissesIff(clients, workers, acts, t);
  }

  /** Some schedule of one client and one worker ends in `s`. */
  ghost predicate Reaches(s: State) {
    exists acts :: Exec(1, 1, acts) == s
  }

  lemma Then(s: State, a: Action, s': State)
    requires Reaches(s) && Apply(s, a) == s'
    ensures Reaches(s')
  {
    var acts :| Exec(1, 1, acts) == s;
    ExecThen(1, 1, acts, a);
  }

  /** The worker has found no task, holds the mutex and is about to sleep. */
  lemma WorkerAboutToSleep() returns (s: State)
    ensures s == Init(1, 1).(pcs := [Client, WorkerSleep], holder := Some(1)) && Reaches(s)
  {
    var start := Init(1, 1);
    assert start.pcs == [Client, WorkerLoop];
    assert Exec(1, 1, []) == start;
    var locking := start.(pcs := [Client, WorkerLock]);
    Then(start, Run(1), locking);
    var testing := start.(pcs := [Client, WorkerTest(false)], holder := Some(1));
    Then(locking, Run(1), testing);
    s := testing.(pcs := [Client, WorkerSleep]);
    Then(testing, Run(1), s);
  }

  /**
   The failing case: `stop` sets its flag between the worker's test and its
   sleep, stands at its notification, and misses the worker.
   */
  lemma StopCanMissAWorker() returns (acts: seq<Action>)
    ensures var s := Exec(1, 1, acts); s.stop && s.pcs == [StopNotify, WorkerSleep] && Misses(1, 1, acts, 0)
  {
    var s := WorkerAboutToSleep();
    var calling := s.(pcs := [StopSet, WorkerSleep]);
    Then(s, CallStop(0), calling);
    var notifying := s.(stop := true, pcs := [StopNotify, WorkerSleep]);
    Then(calling, Run(0), notifying);
    acts :| Exec(1, 1, acts) == notifying;
    FallsAsleep(1, 1, acts, 0, 1);
  }
}
