/**
 `CSPChannel` and `ThreadPool` as objects: each call of a step method is one
 step of one thread, made on the fields in place.
 */
module ChannelObject {
  import opened Values
  import opened Options
  import opened Counting
  import opened Channel

  class CSPChannel {
    const capacity: nat
    var queue: seq<Value>
    var stopped: bool
    var holder: Option<nat>
    var pcs: seq<Pc>
    ghost var sent: seq<Value>
    ghost var received: seq<Value>
    ghost var drained: bool

    ghost function View(): State
      reads this
    {
      State(capacity, queue, stopped, holder, pcs, sent, received, drained)
    }

    constructor (capacity: nat, threads: nat)
      ensures View() == Init(capacity, threads)
    {
      this.capacity := capacity;
      queue, stopped, holder, pcs := [], false, None, seq(threads, _ => Idle);
      sent, received, drained := [], [], false;
    }

    /** Takes the mutex if it is free; otherwise the thread stays where it is. */
    method Lock(t: nat, pc: Pc)
      requires t < |pcs|
      modifies this`holder, this`pcs
      ensures View() == Locked(old(View()), t, pc)
    {
      if holder == None {
        holder, pcs := Some(t), pcs[t := pc];
      }
    }

    method SendStep(t: nat)
      requires t < |pcs|
      modifies this
      ensures View() == Channel.SendStep(old(View()), t)
    {
      match pcs[t]
      case SendEnter(x) => Lock(t, SendTest(x, false));
      case SendWoken(x) => Lock(t, SendTest(x, true));
      case SendTest(x, w) =>
        if (capacity == 0 && queue == []) || |queue| < capacity || stopped {
          pcs := pcs[t := SendCheck(x, w)];
        } else {
          pcs := pcs[t := SendSleep(x)];
        }
      case SendSleep(x) => holder, pcs := None, pcs[t := SendAsleep(x)];
      case SendCheck(x, w) =>
        if stopped {
          holder, pcs := None, pcs[t := Idle];
        } else {
          pcs := pcs[t := SendPush(x, w)];
        }
      case SendPush(x, w) =>
        queue := queue + [x];
        sent := sent + [x];
        pcs := pcs[t := SendNotify];
      case _ =>
    }

    method RecvStep(t: nat)
      requires t < |pcs|
      modifies this
      ensures View() == Channel.RecvStep(old(View()), t)
    {
      match pcs[t]
      case RecvEnter => Lock(t, RecvTest(false));
      case RecvWoken => Lock(t, RecvTest(true));
      case RecvTest(w) =>
        pcs := pcs[t := if queue != [] || stopped then RecvCheck(w) else RecvSleep];
      case RecvSleep => holder, pcs := None, pcs[t := RecvAsleep];
      case RecvCheck(w) =>
        if stopped && queue == [] {
          holder, pcs, drained := None, pcs[t := Idle], true;
        } else {
          pcs := pcs[t := RecvPop(w)];
        }
      case RecvPop(w) =>
        if queue != [] {
          received := received + [queue[0]];
          queue := queue[1..];
          pcs := pcs[t := RecvNotify];
        }
      case _ =>
    }

    /** `stop`, which never takes the mutex. */
    method StopStep(t: nat)
      requires t < |pcs|
      modifies this
      ensures View() == Channel.StopStep(old(View()), t)
    {
      match pcs[t]
      case StopSet => stopped, pcs := true, pcs[t := StopProducers];
      case StopProducers => pcs := WakeSenders(pcs)[t := StopConsumers];
      case StopConsumers => pcs := WakeReceivers(pcs)[t := Idle];
      case _ =>
    }

    /** `notify_one` and the return that follows it; `w` is the sleeper the system picks. */
    method NotifyStep(t: nat, w: nat)
      requires t < |pcs|
      modifies this`holder, this`pcs
      ensures View() == Channel.NotifyStep(old(View()), t, w)
    {
      var side := if pcs[t].SendNotify? then ReceiverAsleep else SenderAsleep;
      if pcs[t].SendNotify? || pcs[t].RecvNotify? {
        if w < |pcs| && side(pcs[w]) {
          pcs := pcs[w := if pcs[w].RecvAsleep? then RecvWoken else SendWoken(pcs[w].x)];
          holder, pcs := None, pcs[t := Idle];
        } else if Count(pcs, side) == 0 {
          holder, pcs := None, pcs[t := Idle];
        }
      }
    }

    method RunStep(t: nat)
      requires t < |pcs|
      modifies this
      ensures View() == Apply(old(View()), Run(t))
    {
      if pcs[t].StopSet? || pcs[t].StopProducers? || pcs[t].StopConsumers? {
        StopStep(t);
      } else if pcs[t].SendEnter? || pcs[t].SendWoken? || pcs[t].SendTest? || pcs[t].SendSleep?
                || pcs[t].SendCheck? || pcs[t].SendPush? {
        SendStep(t);
      } else {
        RecvStep(t);
      }
    }

    method Perform(a: Action)
      modifies this
      ensures View() == Apply(old(View()), a)
    {
      if a.t < |pcs| {
        match a
        case CallSend(t, x) => if pcs[t].Idle? { pcs := pcs[t := SendEnter(x)]; }
        case CallRecv(t) => if pcs[t].Idle? { pcs := pcs[t := RecvEnter]; }
        case CallStop(t) => if pcs[t].Idle? { pcs := pcs[t := StopSet]; }
        case Run(t) => RunStep(t);
        case NotifyOne(t, w) => NotifyStep(t, w);
        case Spurious(t) =>
          if pcs[t].SendAsleep? {
            pcs := pcs[t := SendWoken(pcs[t].x)];
          } else if pcs[t].RecvAsleep? {
            pcs := pcs[t := RecvWoken];
          }
      }
    }

    /** A fresh channel under any schedule is the machine, so nothing sent is lost in it. */
    method RunSchedule(ghost threads: nat, acts: seq<Action>)
      requires View() == Init(capacity, threads)
      modifies this
      ensures View() == Exec(capacity, threads, acts)
      ensures sent == received + queue && (drained ==> queue == [])
    {
      for i := 0 to |acts|
        invariant View() == Exec(capacity, threads, acts[..i])
      {
        Perform(acts[i]);
        assert acts[..i + 1][..i] == acts[..i];
      }
      assert acts[..|acts|] == acts;
      ExecKeepsInv(capacity, threads, acts);
    }
  }
}

module PoolObject {
  import opened Options
  import opened Counting
  import opened ThreadPool

  class Pool {
    var tasks: seq<nat>
    var stopped: bool
    var threadNum: int
    var holder: Option<nat>
    var pcs: seq<Pc>
    var accepted: nat
    ghost var takers: seq<nat>
    ghost var finished: set<nat>

    ghost function View(): State
      reads this
    {
      State(tasks, stopped, threadNum, holder, pcs, accepted, takers, finished)
    }

    constructor (clients: nat, workers: nat)
      ensures View() == Init(clients, workers)
    {
      tasks, stopped, threadNum, holder, accepted := [], false, workers, None, 0;
      pcs := seq(clients + workers, i => if i < clients then Client else WorkerLoop);
      takers, finished := [], {};
    }

    /** `commit`: the check of `stop_`, then the push under the mutex. */
    method CommitStep(t: nat)
      requires t < |pcs| && (pcs[t].CommitCheck? || pcs[t].CommitPush?)
      modifies this
      ensures View() == ThreadPool.CommitStep(old(View()), t)
    {
      if pcs[t].CommitCheck? {
        pcs := pcs[t := if stopped then Client else CommitPush];
      } else if holder == None {
        tasks, accepted := tasks + [accepted], accepted + 1;
        pcs := pcs[t := CommitNotify];
      }
    }

    /** The worker loop of `start`. */
    method WorkerStep(t: nat)
      requires t < |pcs|
      modifies this
      ensures View() == ThreadPool.WorkerStep(old(View()), t)
    {
      match pcs[t]
      case WorkerLoop => pcs := pcs[t := if stopped then WorkerExit else WorkerLock];
      case WorkerLock =>
        if holder == None {
          holder, pcs := Some(t), pcs[t := WorkerTest(false)];
        }
      case WorkerWoken =>
        if holder == None {
          holder, pcs := Some(t), pcs[t := WorkerTest(true)];
        }
      case WorkerTest(w) => pcs := pcs[t := if stopped || tasks != [] then WorkerTake(w) else WorkerSleep];
      case WorkerSleep => holder, pcs := None, pcs[t := WorkerAsleep];
      case WorkerTake(w) =>
        holder := None;
        if tasks == [] {
          pcs := pcs[t := WorkerExit];
        } else {
          pcs := pcs[t := WorkerDecrement(tasks[0])];
          tasks, takers := tasks[1..], takers + [t];
        }
      case WorkerDecrement(k) => threadNum, pcs := threadNum - 1, pcs[t := WorkerRun(k)];
      case WorkerRun(k) => pcs, finished := pcs[t := WorkerIncrement], finished + {k};
      case WorkerIncrement => threadNum, pcs := threadNum + 1, pcs[t := WorkerLoop];
      case _ =>
    }

    /** `stop`, up to the joins. */
    method StopStep(t: nat)
      requires t < |pcs| && (pcs[t].StopSet? || pcs[t].StopNotify?)
      modifies this
      ensures View() == ThreadPool.CommitStep(old(View()), t)
    {
      if pcs[t].StopSet? {
        stopped, pcs := true, pcs[t := StopNotify];
      } else {
        pcs := WakeAll(pcs)[t := Client];
      }
    }

    /** The `notify_one` of `commit`; `w` is the sleeper the system picks. */
    method NotifyStep(t: nat, w: nat)
      requires t < |pcs|
      modifies this`pcs
      ensures View() == ThreadPool.NotifyStep(old(View()), t, w)
    {
      if pcs[t].CommitNotify? {
        if w < |pcs| && pcs[w].WorkerAsleep? {
          pcs := pcs[w := WorkerWoken];
          pcs := pcs[t := Client];
        } else if Count(pcs, Asleep) == 0 {
          pcs := pcs[t := Client];
        }
      }
    }

    method RunStep(t: nat)
      requires t < |pcs|
      modifies this
      ensures View() == Apply(old(View()), Run(t))
    {
      if IsWorker(pcs[t]) {
        WorkerStep(t);
      } else if pcs[t].CommitCheck? || pcs[t].CommitPush? {
        CommitStep(t);
      } else if pcs[t].StopSet? || pcs[t].StopNotify? {
        StopStep(t);
      }
    }

    method Perform(a: Action)
      modifies this
      ensures View() == Apply(old(View()), a)
    {
      if a.t < |pcs| {
        match a
        case CallCommit(t) => if pcs[t].Client? { pcs := pcs[t := CommitCheck]; }
        case CallStop(t) => if pcs[t].Client? { pcs := pcs[t := StopSet]; }
        case Run(t) => RunStep(t);
        case NotifyOne(t, w) => NotifyStep(t, w);
        case Spurious(t) => if pcs[t].WorkerAsleep? { pcs := pcs[t := WorkerWoken]; }
      }
    }

    /** A fresh pool under any schedule is the machine, so every task is in exactly one place. */
    method RunSchedule(ghost clients: nat, ghost workers: nat, acts: seq<Action>)
      requires View() == Init(clients, workers)
      modifies this
      ensures View() == Exec(clients, workers, acts)
      ensures forall k: nat :: Conserved(View(), k)
    {
      for i := 0 to |acts|
        invariant View() == Exec(clients, workers, acts[..i])
      {
        Perform(acts[i]);
        assert acts[..i + 1][..i] == acts[..i];
      }
      assert acts[..|acts|] == acts;
      forall k: nat ensures Conserved(View(), k) {
        TasksAreConserved(clients, workers, acts, k);
      }
    }
  }
}
