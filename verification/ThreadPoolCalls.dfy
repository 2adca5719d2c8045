/** Which commits are accepted, what a worker does when it is not disturbed, and when workers end. */
module ThreadPoolCalls {
  import opened Options
  import opened Counting
  import opened ThreadPool

  // ----------------------------------------------------------------- commits

  /**
   The call a client is in: a commit knows the flag at its first step, once it
   has taken it, and how many tasks it has pushed.
   */
  datatype Call = NoCall | Committing(flag: Option<bool>, pushed: int) | Stopping

  function Grown(call: Call, s: State, a: Action, s': State): Call {
    match call
    case Committing(flag, pushed) =>
      Committing(if flag.None? && a.Run? then Some(s.stop) else flag, pushed + s'.accepted - s.accepted)
    case _ => call
  }

  /** The record of thread `t` after action `a`; a client outside the pool has returned. */
  function CallAfter(call: Call, s: State, a: Action, s': State, t: nat): Call
    requires t < |s.pcs| == |s'.pcs|
  {
    if a.t != t then call
    else if !call.NoCall? then (if s'.pcs[t].Client? then NoCall else Grown(call, s, a, s'))
    else if !s.pcs[t].Client? then NoCall
    else
      match a
      case CallCommit(_) => Committing(None, 0)
      case CallStop(_) => Stopping
      case _ => NoCall
  }

  lemma ActionsLeaveOthers(s: State, a: Action)
    ensures |Apply(s, a).pcs| == |s.pcs|
    ensures forall i :: 0 <= i < |s.pcs| && i != a.t ==>
      Apply(s, a).pcs[i] == s.pcs[i] || (s.pcs[i].WorkerAsleep? && Apply(s, a).pcs[i].WorkerWoken?)
  {
  }

  lemma {:induction false} ThreadsAreFixed(clients: nat, workers: nat, acts: seq<Action>)
    ensures |Exec(clients, workers, acts).pcs| == clients + workers
  {
    if acts != [] {
      ThreadsAreFixed(clients, workers, acts[..|acts| - 1]);
      ActionsLeaveOthers(Exec(clients, workers, acts[..|acts| - 1]), acts[|acts| - 1]);
    }
  }

  ghost function CallOf(clients: nat, workers: nat, acts: seq<Action>, t: nat): Call
    requires t < clients + workers
  {
    if acts == [] then NoCall
    else
      var before := acts[..|acts| - 1];
      ThreadsAreFixed(clients, workers, acts);
      ThreadsAreFixed(clients, workers, before);
      CallAfter(CallOf(clients, workers, before, t), Exec(clients, workers, before), acts[|acts| - 1],
                Exec(clients, workers, acts), t)
  }

  /** Where a thread stands fits the call it is in. */
  predicate Fits(call: Call, pc: Pc) {
    match pc
    case CommitCheck => call == Committing(None, 0)
    case CommitPush => call == Committing(Some(false), 0)
    case CommitNotify => call == Committing(Some(false), 1)
    case StopSet => call.Stopping?
    case StopNotify => call.Stopping?
    case _ => call.NoCall?
  }

  /** A commit returns with its task accepted if the flag was down at its check, and without if it was up. */
  predicate ReturnsRightly(call: Call) {
    call.Committing? ==> call == Committing(Some(false), 1) || call == Committing(Some(true), 0)
  }

  /** An action of the call: it still fits, pushes only its own task, and returns rightly. */
  ghost predicate Proper(s: State, a: Action, call: Call)
    requires a.t < |s.pcs|
  {
    var s' := Apply(s, a);
    && |s'.pcs| == |s.pcs| && Fits(CallAfter(call, s, a, s', a.t), s'.pcs[a.t])
    && (s'.accepted == s.accepted ||
        (call == Committing(Some(false), 0) && s'.accepted == s.accepted + 1 && s'.tasks == s.tasks + [s.accepted]))
    && (!s.pcs[a.t].Client? && s'.pcs[a.t].Client? ==> ReturnsRightly(Grown(call, s, a, s')))
  }

  lemma RunIsProper(s: State, t: nat, call: Call)
    requires t < |s.pcs| && Fits(call, s.pcs[t])
    ensures Proper(s, Run(t), call)
  {
  }

  lemma OwnActionIsProper(s: State, a: Action, call: Call)
    requires a.t < |s.pcs| && Fits(call, s.pcs[a.t])
    ensures Proper(s, a, call)
  {
    if a.Run? {
      RunIsProper(s, a.t, call);
    }
  }

  lemma {:induction false} CallsFit(clients: nat, workers: nat, acts: seq<Action>, t: nat)
    requires t < clients + workers
    ensures |Exec(clients, workers, acts).pcs| == clients + workers
    ensures Fits(CallOf(clients, workers, acts, t), Exec(clients, workers, acts).pcs[t])
  {
    ThreadsAreFixed(clients, workers, acts);
    if acts != [] {
      var before, a := acts[..|acts| - 1], acts[|acts| - 1];
      var s := Exec(clients, workers, before);
      CallsFit(clients, workers, before, t);
      if a.t == t {
        OwnActionIsProper(s, a, CallOf(clients, workers, before, t));
      } else {
        ActionsLeaveOthers(s, a);
      }
    }
  }

  /**
   On every schedule a commit whose check finds the flag down pushes exactly one
   task before it returns, and one whose check finds it up pushes none.
   */
  lemma {:induction false} CommitsAreAcceptedUnlessStopped(clients: nat, workers: nat, acts: seq<Action>, a: Action)
    requires a.t < clients + workers
    ensures |Exec(clients, workers, acts).pcs| == clients + workers
    ensures Proper(Exec(clients, workers, acts), a, CallOf(clients, workers, acts, a.t))
  {
    CallsFit(clients, workers, acts, a.t);
    OwnActionIsProper(Exec(clients, workers, acts), a, CallOf(clients, workers, acts, a.t));
  }

  predicate BeforePush(pc: Pc) { pc.CommitCheck? || pc.CommitPush? }

  /** How many commits a schedule starts. */
  function Commits(clients: nat, workers: nat, acts: seq<Action>): nat {
    if acts == [] then 0
    else
      var before := acts[..|acts| - 1];
      Commits(clients, workers, before) + One(StartsCommit(Exec(clients, workers, before), acts[|acts| - 1]))
  }

  predicate StartsCommit(s: State, a: Action) {
    a.CallCommit? && a.t < |s.pcs| && s.pcs[a.t].Client?
  }

  /** With the flag down, a commit leaves its place before the push only by pushing. */
  lemma OneCommitOneTask(s: State, a: Action)
    requires !s.stop && a.t < |s.pcs|
    ensures var s' := Apply(s, a);
      && |s'.pcs| == |s.pcs|
      && s'.accepted + One(BeforePush(s'.pcs[a.t]))
           == s.accepted + One(BeforePush(s.pcs[a.t])) + One(StartsCommit(s, a))
  {
  }

  lemma AcceptedKeepsCount(s: State, a: Action)
    requires !s.stop
    ensures var s' := Apply(s, a);
      s'.accepted + Count(s'.pcs, BeforePush) == s.accepted + Count(s.pcs, BeforePush) + One(StartsCommit(s, a))
  {
    if a.t < |s.pcs| {
      var s' := Apply(s, a);
      ActionsLeaveOthers(s, a);
      OneCommitOneTask(s, a);
      CountUpdate(s.pcs, a.t, s'.pcs[a.t], BeforePush);
      CountSame(s'.pcs, s.pcs[a.t := s'.pcs[a.t]], BeforePush);
    }
  }

  /**
   On every schedule without `stop`, the commits started are those accepted and
   those still before their push; so every commit that has returned was accepted.
   */
  lemma {:induction false} EveryCommitIsAccepted(clients: nat, workers: nat, acts: seq<Action>)
    requires NoStop(acts)
    ensures var s := Exec(clients, workers, acts);
      s.accepted + Count(s.pcs, BeforePush) == Commits(clients, workers, acts)
  {
    if acts == [] {
      CountZero(Init(clients, workers).pcs, BeforePush);
    } else {
      EveryCommitIsAccepted(clients, workers, acts[..|acts| - 1]);
      ExecServes(clients, workers, acts[..|acts| - 1]);
      AcceptedKeepsCount(Exec(clients, workers, acts[..|acts| - 1]), acts[|acts| - 1]);
    }
  }

  /** A commit that finds the mutex free is refused at its check or pushes its task in two steps. */
  lemma CommitUndisturbed(s: State, t: nat)
    requires t < |s.pcs| && s.pcs[t].CommitCheck? && s.holder == None
    ensures s.stop ==> Apply(s, Run(t)) == s.(pcs := s.pcs[t := Client])
    ensures !s.stop ==>
      Apply(Apply(s, Run(t)), Run(t)) ==
        s.(pcs := s.pcs[t := CommitNotify], tasks := s.tasks + [s.accepted], accepted := s.accepted + 1)
  {
    assert !s.stop ==> Apply(s, Run(t)) == At(s, t, CommitPush);
  }

  /** Its notification wakes one sleeper if there is any, and it returns. */
  lemma NotifyUndisturbed(s: State, t: nat, w: nat)
    requires t < |s.pcs| && w < |s.pcs| && s.pcs[t].CommitNotify?
    ensures s.pcs[w].WorkerAsleep? ==> Apply(s, NotifyOne(t, w)) == s.(pcs := s.pcs[w := WorkerWoken][t := Client])
    ensures Count(s.pcs, Asleep) == 0 ==> Apply(s, NotifyOne(t, w)) == s.(pcs := s.pcs[t := Client])
  {
    CountZero(s.pcs, Asleep);
  }

  /** A sleeper may wake at any time. */
  lemma WakesSpuriously(s: State, t: nat)
    requires t < |s.pcs| && s.pcs[t].WorkerAsleep?
    ensures Apply(s, Spurious(t)) == s.(pcs := s.pcs[t := WorkerWoken])
  {
  }

  /** `stop` sets its flag, wakes every sleeper and goes on to its joins. */
  lemma StopUndisturbed(s: State, t: nat)
    requires t < |s.pcs| && s.pcs[t].StopSet?
    ensures var s' := Apply(Apply(s, Run(t)), Run(t));
      && s' == s.(stop := true, pcs := s'.pcs) && |s'.pcs| == |s.pcs| && s'.pcs[t].Client?
      && forall i :: 0 <= i < |s.pcs| && i != t ==>
           s'.pcs[i] == if s.pcs[i].WorkerAsleep? then WorkerWoken else s.pcs[i]
  {
    assert Apply(s, Run(t)) == At(s, t, StopNotify).(stop := true);
  }

  // ----------------------------------------------------------------- workers

  /** Thread `t` takes `n` steps and nobody else moves. */
  function Ran(s: State, t: nat, n: nat): State
    decreases n
  {
    if n == 0 then s else Ran(Apply(s, Run(t)), t, n - 1)
  }

  lemma WorkerFromTest(s: State, t: nat)
    requires t < |s.pcs| && s.pcs[t].WorkerTest? && s.holder == Some(t)
    ensures s.tasks != [] ==>
      Ran(s, t, 2) == s.(pcs := s.pcs[t := WorkerDecrement(s.tasks[0])], holder := None, tasks := s.tasks[1..],
                         takers := s.takers + [t])
    ensures s.tasks == [] ==>
      Ran(s, t, 2) == s.(pcs := s.pcs[t := if s.stop then WorkerExit else WorkerAsleep], holder := None)
  {
    var s1 := At(s, t, if s.stop || s.tasks != [] then WorkerTake(s.pcs[t].woken) else WorkerSleep);
    assert Apply(s, Run(t)) == s1;
    assert Ran(s, t, 2) == Ran(s1, t, 1) == Apply(s1, Run(t));
  }

  /** A worker with a task runs it and is back at its loop in three steps. */
  lemma TaskRuns(s: State, t: nat, k: nat)
    requires t < |s.pcs| && s.pcs[t] == WorkerDecrement(k)
    ensures Ran(s, t, 3) == s.(pcs := s.pcs[t := WorkerLoop], finished := s.finished + {k})
  {
    var s1 := At(s, t, WorkerRun(k)).(threadNum := s.threadNum - 1);
    assert Apply(s, Run(t)) == s1;
    var s2 := At(s1, t, WorkerIncrement).(finished := s.finished + {k});
    assert Apply(s1, Run(t)) == s2;
    assert Ran(s, t, 3) == Ran(s1, t, 2) == Ran(s2, t, 1) == Apply(s2, Run(t));
  }

  /** `s` once worker `t` has taken and run its first task. */
  ghost predicate RanFirst(s: State, s': State, t: nat)
    requires t < |s.pcs| && s.tasks != []
  {
    s' == s.(pcs := s.pcs[t := WorkerLoop], tasks := s.tasks[1..], takers := s.takers + [t],
             finished := s.finished + {s.tasks[0]})
  }

  lemma {:induction false} RanAdds(s: State, t: nat, m: nat, n: nat)
    ensures Ran(s, t, m + n) == Ran(Ran(s, t, m), t, n)
    decreases m
  {
    if m > 0 {
      RanAdds(Apply(s, Run(t)), t, m - 1, n);
    }
  }

  /** A woken worker that finds the mutex free: it runs the first task, ends if stopped, or sleeps again. */
  lemma WokenUndisturbed(s: State, t: nat)
    requires t < |s.pcs| && s.holder == None && (s.pcs[t].WorkerWoken? || s.pcs[t].WorkerLock?)
    ensures s.tasks != [] ==> RanFirst(s, Ran(s, t, 6), t)
    ensures s.tasks == [] ==> Ran(s, t, 3) == s.(pcs := s.pcs[t := if s.stop then WorkerExit else WorkerAsleep])
  {
    var s1 := At(s, t, WorkerTest(s.pcs[t].WorkerWoken?)).(holder := Some(t));
    assert Apply(s, Run(t)) == s1;
    WorkerFromTest(s1, t);
    assert Ran(s, t, 3) == Ran(s1, t, 2);
    if s.tasks != [] {
      TaskRuns(Ran(s, t, 3), t, s.tasks[0]);
      RanAdds(s, t, 3, 3);
    }
  }

  /** A worker at its loop that finds the mutex free: it ends if stopped, and otherwise goes on as above. */
  lemma WorkerUndisturbed(s: State, t: nat)
    requires t < |s.pcs| && s.pcs[t].WorkerLoop? && s.holder == None
    ensures s.stop ==> Ran(s, t, 1) == s.(pcs := s.pcs[t := WorkerExit])
    ensures !s.stop && s.tasks != [] ==> RanFirst(s, Ran(s, t, 7), t)
    ensures !s.stop && s.tasks == [] ==> Ran(s, t, 4) == s.(pcs := s.pcs[t := WorkerAsleep])
  {
    assert Ran(s, t, 1) == Apply(s, Run(t));
    if !s.stop {
      var s1 := At(s, t, WorkerLock);
      assert Apply(s, Run(t)) == s1;
      WokenUndisturbed(s1, t);
      assert Ran(s, t, 7) == Ran(s1, t, 6) && Ran(s, t, 4) == Ran(s1, t, 3);
    }
  }

  // -------------------------------------------------------------- when they end

  ghost predicate ExitInv(s: State) {
    && LockInv(s)
    && forall i :: 0 <= i < |s.pcs| ==>
         && (s.pcs[i].WorkerTake? ==> s.tasks != [] || s.stop)
         && (s.pcs[i].WorkerExit? ==> s.stop)
  }

  lemma RunKeepsExitInv(s: State, t: nat)
    requires ExitInv(s) && t < |s.pcs| && LockInv(Apply(s, Run(t)))
    ensures ExitInv(Apply(s, Run(t)))
  {
  }

  lemma ApplyKeepsExitInv(s: State, a: Action)
    requires ExitInv(s) && LockInv(Apply(s, a))
    ensures ExitInv(Apply(s, a))
  {
    if a.t < |s.pcs| && a.Run? {
      RunKeepsExitInv(s, a.t);
    }
  }

  /** On every schedule a worker ends only once the pool is stopped. */
  lemma {:induction false} WorkersEndOnlyIfStopped(clients: nat, workers: nat, acts: seq<Action>)
    ensures ExitInv(Exec(clients, workers, acts))
  {
    ExecKeepsInv(clients, workers, acts);
    if acts != [] {
      WorkersEndOnlyIfStopped(clients, workers, acts[..|acts| - 1]);
      ApplyKeepsExitInv(Exec(clients, workers, acts[..|acts| - 1]), acts[|acts| - 1]);
    }
  }

  /** Past the test of its loop, and without a task yet. */
  predicate MayTake(pc: Pc) {
    || pc.WorkerLock? || pc.WorkerTest? || pc.WorkerSleep? || pc.WorkerAsleep? || pc.WorkerWoken? || pc.WorkerTake?
  }

  predicate Is(w: nat, taker: nat) { taker == w }

  /** How many tasks worker `w` has taken. */
  function TakenBy(s: State, w: nat): nat {
    Count(s.takers, taker => Is(w, taker))
  }

  /** With the flag up, a worker pays for a task with its last chance to take one. */
  lemma StoppedStepTakes(s: State, a: Action, w: nat)
    requires s.stop && w < |s.pcs|
    ensures var s' := Apply(s, a);
      && s'.stop && |s'.pcs| == |s.pcs|
      && TakenBy(s', w) + One(MayTake(s'.pcs[w])) <= TakenBy(s, w) + One(MayTake(s.pcs[w]))
  {
    ActionsLeaveOthers(s, a);
    CountAppend(s.takers, a.t, taker => Is(w, taker));
  }

  /** After `stop` has set its flag every worker takes at most one more task, whatever is scheduled. */
  lemma {:induction false} StoppedWorkersTakeOneMore(
      clients: nat, workers: nat, acts: seq<Action>, more: seq<Action>, w: nat)
    requires w < clients + workers && Exec(clients, workers, acts).stop
    ensures Exec(clients, workers, acts + more).stop
    ensures |Exec(clients, workers, acts).pcs| == |Exec(clients, workers, acts + more).pcs| == clients + workers
    ensures var s, s' := Exec(clients, workers, acts), Exec(clients, workers, acts + more);
      TakenBy(s', w) + One(MayTake(s'.pcs[w])) <= TakenBy(s, w) + One(MayTake(s.pcs[w]))
  {
    ThreadsAreFixed(clients, workers, acts);
    ThreadsAreFixed(clients, workers, acts + more);
    if more == [] {
      assert acts + more == acts;
    } else {
      var before := more[..|more| - 1];
      assert (acts + more)[..|acts + more| - 1] == acts + before;
      StoppedWorkersTakeOneMore(clients, workers, acts, before, w);
      StoppedStepTakes(Exec(clients, workers, acts + before), more[|more| - 1], w);
    }
  }

  // ---------------------------------------------------------------- the counter

  /** Between the decrement and the increment of `thread_num_`. */
  predicate Busy(pc: Pc) { pc.WorkerRun? || pc.WorkerIncrement? }

  ghost predicate Counts(s: State, s': State, t: nat) {
    && t < |s.pcs| == |s'.pcs|
    && s'.threadNum + One(Busy(s'.pcs[t])) == s.threadNum + One(Busy(s.pcs[t]))
  }

  lemma StepCounts(s: State, t: nat)
    requires t < |s.pcs|
    ensures Counts(s, WorkerStep(s, t), t) && Counts(s, CommitStep(s, t), t)
  {
  }

  lemma OwnActionCounts(s: State, a: Action)
    requires a.t < |s.pcs|
    ensures Counts(s, Apply(s, a), a.t)
  {
    if a.Run? {
      StepCounts(s, a.t);
    }
  }

  lemma ActionKeepsFree(s: State, a: Action)
    ensures var s' := Apply(s, a); s'.threadNum + Count(s'.pcs, Busy) == s.threadNum + Count(s.pcs, Busy)
  {
    if a.t < |s.pcs| {
      var s' := Apply(s, a);
      ActionsLeaveOthers(s, a);
      OwnActionCounts(s, a);
      CountUpdate(s.pcs, a.t, s'.pcs[a.t], Busy);
      CountSame(s'.pcs, s.pcs[a.t := s'.pcs[a.t]], Busy);
    }
  }

  /** On every schedule `thread_num_` is the number of workers that are not busy with a task. */
  lemma {:induction false} CounterCountsFreeWorkers(clients: nat, workers: nat, acts: seq<Action>)
    ensures var s := Exec(clients, workers, acts); s.threadNum == workers - Count(s.pcs, Busy)
  {
    if acts == [] {
      CountZero(Init(clients, workers).pcs, Busy);
    } else {
      CounterCountsFreeWorkers(clients, workers, acts[..|acts| - 1]);
      ActionKeepsFree(Exec(clients, workers, acts[..|acts| - 1]), acts[|acts| - 1]);
    }
  }
}
