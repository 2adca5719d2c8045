/**
 `ThreadPool` as a step machine: a commit notifies only after it has released the
 mutex. Tasks are numbered in the order they were pushed.
 */
module ThreadPool {
  import opened Options
  import opened Counting

  datatype Pc =
    | Client                     // outside the pool
    | CommitCheck
    | CommitPush
    | CommitNotify
    | WorkerLoop
    | WorkerLock
    | WorkerTest(woken: bool)
    | WorkerSleep
    | WorkerAsleep
    | WorkerWoken
    | WorkerTake(woken: bool)
    | WorkerDecrement(task: nat)
    | WorkerRun(task: nat)
    | WorkerIncrement
    | WorkerExit
    | StopSet
    | StopNotify

  /**
   The fields, the threads, and the past: how many tasks were accepted, which
   worker took each task taken, and which tasks have finished.
   */
  datatype State = State(
    tasks: seq<nat>, stop: bool, threadNum: int, holder: Option<nat>, pcs: seq<Pc>,
    accepted: nat, takers: seq<nat>, finished: set<nat>)

  datatype Action =
    | CallCommit(t: nat)
    | CallStop(t: nat)
    | Run(t: nat)
    | NotifyOne(t: nat, w: nat)  // `t` executes its notify_one and the system picks `w`
    | Spurious(t: nat)

  predicate Asleep(pc: Pc) { pc.WorkerAsleep? }
  predicate Notifying(pc: Pc) { pc.CommitNotify? }
  predicate Holds(pc: Pc) { pc.WorkerTest? || pc.WorkerSleep? || pc.WorkerTake? }
  predicate Has(pc: Pc) { pc.WorkerDecrement? || pc.WorkerRun? }

  function Init(clients: nat, workers: nat): State {
    State([], false, workers, None,
          seq(clients + workers, i => if i < clients then Client else WorkerLoop), 0, [], {})
  }

  function At(s: State, t: nat, pc: Pc): State
    requires t < |s.pcs|
  {
    s.(pcs := s.pcs[t := pc])
  }

  function Locked(s: State, t: nat, pc: Pc): State
    requires t < |s.pcs|
  {
    if s.holder == None then At(s, t, pc).(holder := Some(t)) else s
  }

  function Unlocked(s: State, t: nat, pc: Pc): State
    requires t < |s.pcs|
  {
    At(s, t, pc).(holder := None)
  }

  function CommitStep(s: State, t: nat): State
    requires t < |s.pcs|
  {
    match s.pcs[t]
    case CommitCheck => At(s, t, if s.stop then Client else CommitPush)
    case CommitPush =>
      if s.holder == None
      then At(s, t, CommitNotify).(tasks := s.tasks + [s.accepted], accepted := s.accepted + 1) else s
    case StopSet => At(s, t, StopNotify).(stop := true)
    case StopNotify => s.(pcs := WakeAll(s.pcs)[t := Client])
    case _ => s
  }

  function WakeAll(pcs: seq<Pc>): seq<Pc> {
    seq(|pcs|, i requires 0 <= i < |pcs| => if pcs[i].WorkerAsleep? then WorkerWoken else pcs[i])
  }

  function WorkerStep(s: State, t: nat): State
    requires t < |s.pcs|
  {
    match s.pcs[t]
    case WorkerLoop => At(s, t, if s.stop then WorkerExit else WorkerLock)
    case WorkerLock => Locked(s, t, WorkerTest(false))
    case WorkerWoken => Locked(s, t, WorkerTest(true))
    case WorkerTest(w) => At(s, t, if s.stop || s.tasks != [] then WorkerTake(w) else WorkerSleep)
    case WorkerSleep => Unlocked(s, t, WorkerAsleep)
    case WorkerTake(w) =>
      if s.tasks == [] then Unlocked(s, t, WorkerExit)
      else Unlocked(s, t, WorkerDecrement(s.tasks[0])).(tasks := s.tasks[1..], takers := s.takers + [t])
    case WorkerDecrement(k) => At(s, t, WorkerRun(k)).(threadNum := s.threadNum - 1)
    case WorkerRun(k) => At(s, t, WorkerIncrement).(finished := s.finished + {k})
    case WorkerIncrement => At(s, t, WorkerLoop).(threadNum := s.threadNum + 1)
    case _ => s
  }

  function NotifyStep(s: State, t: nat, w: nat): State
    requires t < |s.pcs|
  {
    if !s.pcs[t].CommitNotify? then s
    else if w < |s.pcs| && s.pcs[w].WorkerAsleep? then At(At(s, w, WorkerWoken), t, Client)
    else if Count(s.pcs, Asleep) == 0 then At(s, t, Client)
    else s
  }

  predicate IsWorker(pc: Pc) {
    || pc.WorkerLoop? || pc.WorkerLock? || pc.WorkerTest? || pc.WorkerSleep? || pc.WorkerAsleep?
    || pc.WorkerWoken? || pc.WorkerTake? || Has(pc) || pc.WorkerIncrement? || pc.WorkerExit?
  }

  /** An action that is not possible in `s` leaves it unchanged. */
  function Apply(s: State, a: Action): State {
    if a.t >= |s.pcs| then s else
    match a
    case CallCommit(t) => if s.pcs[t].Client? then At(s, t, CommitCheck) else s
    case CallStop(t) => if s.pcs[t].Client? then At(s, t, StopSet) else s
    case Run(t) => if IsWorker(s.pcs[t]) then WorkerStep(s, t) else CommitStep(s, t)
    case NotifyOne(t, w) => NotifyStep(s, t, w)
    case Spurious(t) => if s.pcs[t].WorkerAsleep? then At(s, t, WorkerWoken) else s
  }

  function Exec(clients: nat, workers: nat, acts: seq<Action>): State {
    if acts == [] then Init(clients, workers)
    else Apply(Exec(clients, workers, acts[..|acts| - 1]), acts[|acts| - 1])
  }

  // ------------------------------------------------------------- conservation

  ghost predicate LockInv(s: State) {
    forall i :: 0 <= i < |s.pcs| ==> (Holds(s.pcs[i]) <==> s.holder == Some(i))
  }

  /** The queue holds exactly the tasks not yet taken, in push order. */
  ghost predicate QueueInv(s: State) {
    && |s.takers| + |s.tasks| == s.accepted
    && forall j :: 0 <= j < |s.tasks| ==> s.tasks[j] == |s.takers| + j
  }

  /** Task `k` was taken and its taker still has it. */
  ghost predicate InHand(s: State, k: nat)
    requires k < |s.takers|
  {
    s.takers[k] < |s.pcs| && Has(s.pcs[s.takers[k]]) && s.pcs[s.takers[k]].task == k
  }

  /** A taken task is in its taker's hands or finished, never both. */
  ghost predicate TakenInv(s: State) {
    && (forall k :: 0 <= k < |s.takers| ==> (InHand(s, k) <==> k !in s.finished))
    && (forall k :: k in s.finished ==> k < |s.takers|)
    && (forall i :: 0 <= i < |s.pcs| && Has(s.pcs[i]) ==>
          s.pcs[i].task < |s.takers| && s.takers[s.pcs[i].task] == i)
  }

  ghost predicate Inv(s: State) {
    LockInv(s) && QueueInv(s) && TakenInv(s)
  }

  /** Steps that take and finish nothing. */
  lemma QuietKept(s: State, s': State)
    requires Inv(s) && |s'.pcs| == |s.pcs| && LockInv(s') && QueueInv(s')
    requires s'.takers == s.takers && s'.finished == s.finished
    requires forall i :: 0 <= i < |s.pcs| ==>
      Has(s'.pcs[i]) == Has(s.pcs[i]) && (Has(s.pcs[i]) ==> s'.pcs[i].task == s.pcs[i].task)
    ensures Inv(s')
  {
    forall k | 0 <= k < |s.takers| ensures InHand(s', k) <==> k !in s'.finished {
      assert InHand(s, k) <==> k !in s.finished;
    }
  }

  lemma TakeKept(s: State, t: nat)
    requires Inv(s) && t < |s.pcs| && s.pcs[t].WorkerTake? && s.tasks != []
    ensures Inv(WorkerStep(s, t))
  {
    var s' := WorkerStep(s, t);
    assert forall j :: 0 <= j < |s'.tasks| ==> s'.tasks[j] == s.tasks[j + 1];
    forall k | 0 <= k < |s'.takers| ensures InHand(s', k) <==> k !in s'.finished {
      if k < |s.takers| {
        assert InHand(s, k) <==> k !in s.finished;
        assert s'.takers[k] == s.takers[k];
      }
    }
  }

  lemma FinishKept(s: State, t: nat)
    requires Inv(s) && t < |s.pcs| && s.pcs[t].WorkerRun?
    ensures Inv(WorkerStep(s, t))
  {
    var s' := WorkerStep(s, t);
    forall k | 0 <= k < |s'.takers| ensures InHand(s', k) <==> k !in s'.finished {
      assert InHand(s, k) <==> k !in s.finished;
    }
  }

  lemma WorkerKeepsInv(s: State, t: nat)
    requires Inv(s) && t < |s.pcs|
    ensures Inv(WorkerStep(s, t))
  {
    if s.pcs[t].WorkerTake? && s.tasks != [] {
      TakeKept(s, t);
    } else if s.pcs[t].WorkerRun? {
      FinishKept(s, t);
    } else {
      WorkerKeepsQueue(s, t);
      QuietKept(s, WorkerStep(s, t));
    }
  }

  lemma WorkerKeepsQueue(s: State, t: nat)
    requires LockInv(s) && QueueInv(s) && t < |s.pcs| && !(s.pcs[t].WorkerTake? && s.tasks != [])
    ensures LockInv(WorkerStep(s, t)) && QueueInv(WorkerStep(s, t))
  {
  }

  lemma CommitKeepsInv(s: State, t: nat)
    requires Inv(s) && t < |s.pcs| && !IsWorker(s.pcs[t])
    ensures Inv(CommitStep(s, t))
  {
    QuietKept(s, CommitStep(s, t));
  }

  lemma NotifyKeepsInv(s: State, t: nat, w: nat)
    requires Inv(s) && t < |s.pcs|
    ensures Inv(NotifyStep(s, t, w))
  {
    QuietKept(s, NotifyStep(s, t, w));
  }

  lemma OthersKeepInv(s: State, a: Action)
    requires Inv(s) && !a.Run?
    ensures Inv(Apply(s, a))
  {
    if a.t < |s.pcs| {
      if a.NotifyOne? {
        NotifyKeepsInv(s, a.t, a.w);
      } else {
        QuietKept(s, Apply(s, a));
      }
    }
  }

  lemma {:induction false} ExecKeepsInv(clients: nat, workers: nat, acts: seq<Action>)
    ensures Inv(Exec(clients, workers, acts))
  {
    if acts != [] {
      var s, a := Exec(clients, workers, acts[..|acts| - 1]), acts[|acts| - 1];
      ExecKeepsInv(clients, workers, acts[..|acts| - 1]);
      if !a.Run? {
        OthersKeepInv(s, a);
      } else if a.t < |s.pcs| {
        if IsWorker(s.pcs[a.t]) {
          WorkerKeepsInv(s, a.t);
        } else {
          CommitKeepsInv(s, a.t);
        }
      }
    }
  }

  /**
   Task `k` is in exactly one of queued (at its place in push order), in the
   hands of the one worker that took it, and finished.
   */
  ghost predicate Conserved(s: State, k: nat) {
    && |s.takers| + |s.tasks| == s.accepted
    && (k in s.tasks <==> |s.takers| <= k < s.accepted)
    && (k in s.tasks ==> s.tasks[k - |s.takers|] == k)
    && (k < |s.takers| ==> (InHand(s, k) <==> k !in s.finished))
    && (k in s.finished ==> k < |s.takers|)
    && (forall i :: 0 <= i < |s.pcs| && Has(s.pcs[i]) && s.pcs[i].task == k ==>
          k < |s.takers| && s.takers[k] == i)
  }

  lemma InvConserves(s: State, k: nat)
    requires Inv(s)
    ensures Conserved(s, k)
  {
    if |s.takers| <= k < s.accepted {
      assert s.tasks[k - |s.takers|] == k;
    }
  }

  /**
   On every schedule, with `stop` at any point, tasks are dequeued once each in
   push order and every accepted task is in exactly one place.
   */
  lemma {:induction false} TasksAreConserved(clients: nat, workers: nat, acts: seq<Action>, k: nat)
    ensures Conserved(Exec(clients, workers, acts), k)
  {
    ExecKeepsInv(clients, workers, acts);
    InvConserves(Exec(clients, workers, acts), k);
  }

  // ------------------------------------------------------------------ wakeups

  predicate Awake(pc: Pc) {
    pc.WorkerWoken? || ((pc.WorkerTest? || pc.WorkerTake?) && pc.woken)
  }

  predicate NoStop(acts: seq<Action>) {
    forall i :: 0 <= i < |acts| ==> !acts[i].CallStop?
  }

  /** While a worker sleeps, as many are on their way or about to be notified as tasks wait. */
  ghost predicate Served(s: State) {
    Count(s.pcs, Asleep) > 0 ==> Count(s.pcs, Awake) + Count(s.pcs, Notifying) >= |s.tasks|
  }

  ghost predicate Unstopped(s: State) {
    && !s.stop
    && forall i :: 0 <= i < |s.pcs| ==>
         && !s.pcs[i].StopSet? && !s.pcs[i].StopNotify?
         && (s.pcs[i].WorkerSleep? ==> s.tasks == [])
         && (s.pcs[i].WorkerTake? ==> s.tasks != [])
  }

  lemma Recount(pcs: seq<Pc>, t: nat, pc: Pc)
    requires t < |pcs|
    ensures var qcs := pcs[t := pc];
      && Count(qcs, Asleep) + One(pcs[t].WorkerAsleep?) == Count(pcs, Asleep) + One(pc.WorkerAsleep?)
      && Count(qcs, Awake) + One(Awake(pcs[t])) == Count(pcs, Awake) + One(Awake(pc))
      && Count(qcs, Notifying) + One(pcs[t].CommitNotify?) == Count(pcs, Notifying) + One(pc.CommitNotify?)
  {
    CountUpdate(pcs, t, pc, Asleep);
    CountUpdate(pcs, t, pc, Awake);
    CountUpdate(pcs, t, pc, Notifying);
  }

  lemma WorkerKeepsUnstopped(s: State, t: nat)
    requires LockInv(s) && Unstopped(s) && t < |s.pcs|
    ensures Unstopped(WorkerStep(s, t))
  {
  }

  lemma WorkerServes(s: State, t: nat)
    requires Unstopped(s) && Served(s) && t < |s.pcs|
    ensures Served(WorkerStep(s, t))
  {
    var s' := WorkerStep(s, t);
    Recount(s.pcs, t, s'.pcs[t]);
    assert s'.pcs == s.pcs[t := s'.pcs[t]];
  }

  lemma CommitServes(s: State, t: nat)
    requires LockInv(s) && Unstopped(s) && Served(s) && t < |s.pcs|
    ensures Unstopped(CommitStep(s, t)) && Served(CommitStep(s, t))
  {
    var s' := CommitStep(s, t);
    Recount(s.pcs, t, s'.pcs[t]);
    assert s'.pcs == s.pcs[t := s'.pcs[t]];
  }

  lemma NotifyServes(s: State, t: nat, w: nat)
    requires Unstopped(s) && Served(s) && t < |s.pcs|
    ensures Unstopped(NotifyStep(s, t, w)) && Served(NotifyStep(s, t, w))
  {
    var wakes := w < |s.pcs| && s.pcs[w].WorkerAsleep?;
    var mid := if wakes then s.pcs[w := WorkerWoken] else s.pcs;
    if wakes {
      Recount(s.pcs, w, WorkerWoken);
    }
    Recount(mid, t, Client);
  }

  lemma CallServes(s: State, a: Action)
    requires Unstopped(s) && Served(s) && a.t < |s.pcs| && (a.CallCommit? || a.Spurious?)
    ensures Unstopped(Apply(s, a)) && Served(Apply(s, a))
  {
    var s' := Apply(s, a);
    Recount(s.pcs, a.t, s'.pcs[a.t]);
    assert s'.pcs == s.pcs[a.t := s'.pcs[a.t]];
  }

  lemma {:induction false} ExecServes(clients: nat, workers: nat, acts: seq<Action>)
    requires NoStop(acts)
    ensures Unstopped(Exec(clients, workers, acts)) && Served(Exec(clients, workers, acts))
  {
    if acts == [] {
      CountZero(Init(clients, workers).pcs, Asleep);
    } else {
      var s, a := Exec(clients, workers, acts[..|acts| - 1]), acts[|acts| - 1];
      ExecServes(clients, workers, acts[..|acts| - 1]);
      ExecKeepsInv(clients, workers, acts[..|acts| - 1]);
      if a.t < |s.pcs| {
        match a
        case Run(t) =>
          WorkerServes(s, t);
          WorkerKeepsUnstopped(s, t);
          CommitServes(s, t);
        case NotifyOne(t, w) => NotifyServes(s, t, w);
        case _ => CallServes(s, a);
      }
    }
  }

  /**
   On every schedule without `stop`, although `commit` notifies after it has
   unlocked: if a worker sleeps, awakened workers and commits between push and
   notify together are at least the queued tasks. Hence a sleeping worker, a
   queued task, a free mutex and no commit under way imply a woken worker.
   */
  lemma {:induction false} NoLostWakeups(clients: nat, workers: nat, acts: seq<Action>)
    requires NoStop(acts)
    ensures Served(Exec(clients, workers, acts))
    ensures var s := Exec(clients, workers, acts);
      s.holder == None && s.tasks != []
      && (exists i :: 0 <= i < |s.pcs| && s.pcs[i].WorkerAsleep?)
      && (forall i :: 0 <= i < |s.pcs| ==> !s.pcs[i].CommitNotify?) ==>
        exists i :: 0 <= i < |s.pcs| && s.pcs[i].WorkerWoken?
  {
    var s := Exec(clients, workers, acts);
    ExecServes(clients, workers, acts);
    ExecKeepsInv(clients, workers, acts);
    CountZero(s.pcs, Asleep);
    CountZero(s.pcs, Awake);
    CountZero(s.pcs, Notifying);
  }
}
