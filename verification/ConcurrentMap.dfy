/**
 `SafeMap` shared by threads: a reader-writer lock per bucket, single-bucket
 operations, and `getMap`, which takes every lock in order, copies, and lets go.
 */
module ConcurrentMap {
  import opened Values
  import opened HashTable

  datatype Op = ValueFor(key: Key, default: Value) | AddOrUpdateFor(key: Key, value: Value) | RemoveFor(key: Key)

  /** Locks are named by who holds them: the program points say which. */
  datatype Pc =
    | Idle
    | Wants(op: Op)                               // waits for its bucket's lock
    | Works(op: Op)                               // holds it
    | Acquiring(next: nat)                        // getMap holds every lock before `next`
    | Copying(next: nat, res: map<Key, Value>)    // holds all, has copied the buckets before `next`
    | Releasing(next: nat, res: map<Key, Value>)  // has released those before `next`

  /** `snapshots[t]` records the table when `t` last took the last lock. */
  datatype State = State(
    hash: Key -> nat, buckets: seq<Bucket>, pcs: seq<Pc>, snapshots: seq<seq<Bucket>>)

  datatype Action = Call(t: nat, op: Op) | CallGetMap(t: nat) | Run(t: nat)

  predicate WellFormed(s: State) {
    && |s.buckets| > 0 && |s.snapshots| == |s.pcs|
    && forall i :: 0 <= i < |s.pcs| ==>
         && (s.pcs[i].Acquiring? ==> s.pcs[i].next < |s.buckets|)
         && (s.pcs[i].Copying? ==> s.pcs[i].next < |s.buckets|)
         && (s.pcs[i].Releasing? ==> s.pcs[i].next < |s.buckets|)
  }

  function BucketOf(s: State, op: Op): (b: nat)
    requires WellFormed(s)
    ensures b < |s.buckets|
  {
    IndexOf(s.hash, |s.buckets|, op.key)
  }

  /** Thread `i` holds bucket `b` for itself alone. */
  predicate Exclusive(s: State, i: nat, b: nat)
    requires WellFormed(s) && i < |s.pcs|
  {
    match s.pcs[i]
    case Works(op) => !op.ValueFor? && BucketOf(s, op) == b
    case Acquiring(next) => b < next
    case Copying(_, _) => true
    case Releasing(next, _) => next <= b
    case _ => false
  }

  predicate Shared(s: State, i: nat, b: nat)
    requires WellFormed(s) && i < |s.pcs|
  {
    s.pcs[i].Works? && s.pcs[i].op.ValueFor? && BucketOf(s, s.pcs[i].op) == b
  }

  /** Nobody but possibly `t` holds bucket `b` in a way that excludes the request. */
  predicate Free(s: State, t: nat, b: nat, shared: bool)
    requires WellFormed(s)
  {
    forall i :: 0 <= i < |s.pcs| && i != t ==> !Exclusive(s, i, b) && (shared || !Shared(s, i, b))
  }

  function At(s: State, t: nat, pc: Pc): State
    requires t < |s.pcs|
  {
    s.(pcs := s.pcs[t := pc])
  }

  function Perform(s: State, op: Op): seq<Bucket>
    requires WellFormed(s)
  {
    match op
    case ValueFor(_, _) => s.buckets
    case AddOrUpdateFor(key, value) => TablePut(s.hash, s.buckets, key, value)
    case RemoveFor(key) => TableDelete(s.hash, s.buckets, key)
  }

  /** Whether thread `t` can take its next step, and does not wait for a lock. */
  predicate CanStep(s: State, t: nat)
    requires WellFormed(s) && t < |s.pcs|
  {
    match s.pcs[t]
    case Idle => false
    case Wants(op) => Free(s, t, BucketOf(s, op), op.ValueFor?)
    case Acquiring(next) => Free(s, t, next, false)
    case _ => true
  }

  function Step(s: State, t: nat): (s': State)
    requires WellFormed(s) && t < |s.pcs|
    ensures WellFormed(s')
  {
    if !CanStep(s, t) then s else
    match s.pcs[t]
    case Wants(op) => At(s, t, Works(op))
    case Works(op) => At(s, t, Idle).(buckets := Perform(s, op))
    case Acquiring(next) =>
      if next + 1 < |s.buckets| then At(s, t, Acquiring(next + 1))
      else At(s, t, Copying(0, map[])).(snapshots := s.snapshots[t := s.buckets])
    case Copying(next, res) =>
      var res' := InsertAll(res, s.buckets[next]);
      if next + 1 < |s.buckets| then At(s, t, Copying(next + 1, res')) else At(s, t, Releasing(0, res'))
    case Releasing(next, res) =>
      if next + 1 < |s.buckets| then At(s, t, Releasing(next + 1, res)) else At(s, t, Idle)
  }

  function Apply(s: State, a: Action): (s': State)
    requires WellFormed(s)
    ensures WellFormed(s')
  {
    if a.t >= |s.pcs| then s else
    match a
    case Call(t, op) => if s.pcs[t].Idle? then At(s, t, Wants(op)) else s
    case CallGetMap(t) => if s.pcs[t].Idle? then At(s, t, Acquiring(0)) else s
    case Run(t) => Step(s, t)
  }

  function Init(hash: Key -> nat, buckets: nat, threads: nat): (s: State)
    requires buckets > 0
    ensures WellFormed(s)
  {
    State(hash, seq(buckets, _ => []), seq(threads, _ => Idle), seq(threads, _ => []))
  }

  function Exec(hash: Key -> nat, buckets: nat, threads: nat, acts: seq<Action>): (s: State)
    requires buckets > 0
    ensures WellFormed(s)
  {
    if acts == [] then Init(hash, buckets, threads)
    else Apply(Exec(hash, buckets, threads, acts[..|acts| - 1]), acts[|acts| - 1])
  }

  // ------------------------------------------------------------ the invariant

  ghost predicate Excluded(s: State)
    requires WellFormed(s)
  {
    forall i, j, b :: 0 <= i < |s.pcs| && 0 <= j < |s.pcs| && i != j && 0 <= b < |s.buckets| ==>
      Exclusive(s, i, b) ==> !Exclusive(s, j, b) && !Shared(s, j, b)
  }

  ghost predicate SnapshotInv(s: State, i: nat)
    requires WellFormed(s) && i < |s.pcs|
  {
    match s.pcs[i]
    case Copying(next, res) => s.snapshots[i] == s.buckets && res == Collect(s.buckets[..next])
    case Releasing(_, res) => res == Collect(s.snapshots[i])
    case _ => true
  }

  ghost predicate Inv(s: State)
    requires WellFormed(s)
  {
    && Excluded(s) && Placed(s.hash, s.buckets)
    && forall i :: 0 <= i < |s.pcs| ==> SnapshotInv(s, i)
  }

  /** A thread that gains no hold, or only holds that were free, excludes as before. */
  lemma ExcludedKept(s: State, s': State, t: nat)
    requires WellFormed(s) && WellFormed(s') && Excluded(s) && t < |s.pcs| == |s'.pcs|
    requires s'.hash == s.hash && |s'.buckets| == |s.buckets| && s'.pcs == s.pcs[t := s'.pcs[t]]
    requires forall b :: 0 <= b < |s.buckets| && Exclusive(s', t, b) ==> Exclusive(s, t, b) || Free(s, t, b, false)
    requires forall b :: 0 <= b < |s.buckets| && Shared(s', t, b) ==> Shared(s, t, b) || Free(s, t, b, true)
    ensures Excluded(s')
  {
    forall i, j, b | 0 <= i < |s.pcs| && 0 <= j < |s.pcs| && i != j && 0 <= b < |s.buckets| && Exclusive(s', i, b)
      ensures !Exclusive(s', j, b) && !Shared(s', j, b)
    {
      assert i != t ==> Exclusive(s, i, b);
      assert j != t ==> Exclusive(s', j, b) == Exclusive(s, j, b) && Shared(s', j, b) == Shared(s, j, b);
    }
  }

  lemma WorkKeepsInv(s: State, t: nat)
    requires WellFormed(s) && Inv(s) && t < |s.pcs| && s.pcs[t].Works?
    ensures Inv(Step(s, t))
  {
    var s', op := Step(s, t), s.pcs[t].op;
    match op {
      case ValueFor(_, _) =>
      case AddOrUpdateFor(key, value) => PutKeepsPlaced(s.hash, s.buckets, key, value);
      case RemoveFor(key) => DeleteKeepsPlaced(s.hash, s.buckets, key);
    }
    ExcludedKept(s, s', t);
    assert Exclusive(s, t, BucketOf(s, op)) || Shared(s, t, BucketOf(s, op));
    forall i | 0 <= i < |s'.pcs| ensures SnapshotInv(s', i) {
      assert SnapshotInv(s, i);
      if s.pcs[i].Copying? {
        assert Exclusive(s, i, BucketOf(s, op));
      }
    }
  }

  lemma LockingKeepsInv(s: State, t: nat)
    requires WellFormed(s) && Inv(s) && t < |s.pcs| && (s.pcs[t].Wants? || s.pcs[t].Acquiring?)
    ensures Inv(Step(s, t))
  {
    var s' := Step(s, t);
    ExcludedKept(s, s', t);
    forall i | 0 <= i < |s'.pcs| ensures SnapshotInv(s', i) {
      assert SnapshotInv(s, i);
    }
  }

  lemma CopyingKeepsInv(s: State, t: nat)
    requires WellFormed(s) && Inv(s) && t < |s.pcs| && (s.pcs[t].Copying? || s.pcs[t].Releasing?)
    ensures Inv(Step(s, t))
  {
    var s' := Step(s, t);
    ExcludedKept(s, s', t);
    assert SnapshotInv(s, t);
    if s.pcs[t].Copying? {
      var k := s.pcs[t].next;
      assert s.buckets[..k + 1][..k] == s.buckets[..k];
      assert s.buckets[..|s.buckets|] == s.buckets;
    }
    forall i | 0 <= i < |s'.pcs| ensures SnapshotInv(s', i) {
      assert SnapshotInv(s, i);
    }
  }

  lemma ApplyKeepsInv(s: State, a: Action)
    requires WellFormed(s) && Inv(s)
    ensures Inv(Apply(s, a))
  {
    var s' := Apply(s, a);
    if a.t < |s.pcs| && a.Run? && !s.pcs[a.t].Idle? {
      match s.pcs[a.t]
      case Works(_) => WorkKeepsInv(s, a.t);
      case Wants(_) => LockingKeepsInv(s, a.t);
      case Acquiring(_) => LockingKeepsInv(s, a.t);
      case _ => CopyingKeepsInv(s, a.t);
    } else if s' != s {
      ExcludedKept(s, s', a.t);
      forall i | 0 <= i < |s'.pcs| ensures SnapshotInv(s', i) {
        assert SnapshotInv(s, i);
      }
    }
  }

  lemma InitInv(hash: Key -> nat, buckets: nat, threads: nat)
    requires buckets > 0
    ensures Inv(Init(hash, buckets, threads))
  {
    var s := Init(hash, buckets, threads);
    assert forall i :: 0 <= i < |s.buckets| ==> s.buckets[i] == [];
    assert forall i :: 0 <= i < |s.pcs| ==> s.pcs[i].Idle?;
    assert Excluded(s);
  }

  lemma {:induction false} ExecKeepsInv(hash: Key -> nat, buckets: nat, threads: nat, acts: seq<Action>)
    requires buckets > 0
    ensures Inv(Exec(hash, buckets, threads, acts))
  {
    if acts == [] {
      InitInv(hash, buckets, threads);
    } else {
      ExecKeepsInv(hash, buckets, threads, acts[..|acts| - 1]);
      ApplyKeepsInv(Exec(hash, buckets, threads, acts[..|acts| - 1]), acts[|acts| - 1]);
    }
  }

  // ----------------------------------------------------------------- theorems

  /** The plain map the table stands for. */
  function Contents(s: State): map<Key, Value> {
    Collect(s.buckets)
  }

  /** What the next step of thread `t` does to the plain map, or reads from it. */
  ghost predicate Atomic(s: State, t: nat)
    requires WellFormed(s) && t < |s.pcs|
  {
    var m, m' := Contents(s), Contents(Step(s, t));
    match s.pcs[t]
    case Works(AddOrUpdateFor(key, value)) => m' == m[key := value]
    case Works(RemoveFor(key)) => m' == m - {key}
    case Works(ValueFor(key, default)) =>
      m' == m && ValueIn(s.buckets[BucketOf(s, s.pcs[t].op)], key, default) == if key in m then m[key] else default
    case _ => m' == m
  }

  lemma InvIsAtomic(s: State, t: nat)
    requires WellFormed(s) && Inv(s) && t < |s.pcs|
    ensures Atomic(s, t)
  {
    match s.pcs[t]
    case Works(AddOrUpdateFor(key, value)) => PutIsMapUpdate(s.hash, s.buckets, key, value);
    case Works(RemoveFor(key)) => DeleteIsMapRemoval(s.hash, s.buckets, key);
    case Works(ValueFor(key, default)) => CollectLookup(s.hash, s.buckets, key, default);
    case _ =>
  }

  /** Each operation acts on the plain map at the one step it takes under its lock; no other step does. */
  lemma {:induction false} OperationsAreAtomic(hash: Key -> nat, buckets: nat, threads: nat, acts: seq<Action>, t: nat)
    requires buckets > 0 && t < |Exec(hash, buckets, threads, acts).pcs|
    ensures Atomic(Exec(hash, buckets, threads, acts), t)
  {
    ExecKeepsInv(hash, buckets, threads, acts);
    InvIsAtomic(Exec(hash, buckets, threads, acts), t);
  }

  /** Thread `t` is in `getMap` with all its locks taken, and took the last when the table was `table`. */
  ghost predicate TookAt(s: State, t: nat, table: seq<Bucket>)
    requires WellFormed(s)
  {
    t < |s.pcs| && (s.pcs[t].Copying? || s.pcs[t].Releasing?) && s.snapshots[t] == table
  }

  lemma TookAtStays(s: State, a: Action, t: nat, table: seq<Bucket>)
    requires WellFormed(s) && TookAt(s, t, table)
    ensures TookAt(Apply(s, a), t, table) || Apply(s, a).pcs[t].Idle?
  {
  }

  /** The last action of `acts` is the step in which `t` takes the last lock. */
  ghost predicate TakesLastLock(hash: Key -> nat, buckets: nat, threads: nat, acts: seq<Action>, t: nat)
    requires buckets > 0
  {
    && acts != [] && acts[|acts| - 1] == Run(t)
    && t < |Exec(hash, buckets, threads, acts[..|acts| - 1]).pcs|
    && Exec(hash, buckets, threads, acts[..|acts| - 1]).pcs[t].Acquiring?
    && Exec(hash, buckets, threads, acts).pcs[t].Copying?
  }

  /** The call of `t` under way after `pre` has not returned at any point of `post`. */
  ghost predicate StillInside(
      hash: Key -> nat, buckets: nat, threads: nat, pre: seq<Action>, post: seq<Action>, t: nat)
    requires buckets > 0
  {
    && (post != [] ==> StillInside(hash, buckets, threads, pre, post[..|post| - 1], t))
    && var s := Exec(hash, buckets, threads, pre + post); t < |s.pcs| && !s.pcs[t].Idle?
  }

  lemma {:induction false} TookAtThroughout(
      hash: Key -> nat, buckets: nat, threads: nat, pre: seq<Action>, post: seq<Action>, t: nat)
    requires buckets > 0 && TakesLastLock(hash, buckets, threads, pre, t)
    requires StillInside(hash, buckets, threads, pre, post, t)
    ensures TookAt(Exec(hash, buckets, threads, pre + post), t, Exec(hash, buckets, threads, pre).buckets)
  {
    if post == [] {
      assert pre + post == pre;
    } else {
      var before := post[..|post| - 1];
      assert (pre + post)[..|pre + post| - 1] == pre + before;
      TookAtThroughout(hash, buckets, threads, pre, before, t);
      TookAtStays(Exec(hash, buckets, threads, pre + before), post[|post| - 1], t,
                  Exec(hash, buckets, threads, pre).buckets);
    }
  }

  /**
   `getMap` is an atomic snapshot: take any schedule `pre` that ends as `t` takes
   the last lock, and any continuation `post` in which that call goes on. What
   `t` then carries to its return is the plain map after `pre`, whatever the
   other threads do meanwhile.
   */
  lemma {:induction false} GetMapIsASnapshot(
      hash: Key -> nat, buckets: nat, threads: nat, pre: seq<Action>, post: seq<Action>, t: nat)
    requires buckets > 0 && TakesLastLock(hash, buckets, threads, pre, t)
    requires StillInside(hash, buckets, threads, pre, post, t)
    requires Exec(hash, buckets, threads, pre + post).pcs[t].Releasing?
    ensures Exec(hash, buckets, threads, pre + post).pcs[t].res == Contents(Exec(hash, buckets, threads, pre))
  {
    TookAtThroughout(hash, buckets, threads, pre, post, t);
    ExecKeepsInv(hash, buckets, threads, pre + post);
    assert SnapshotInv(Exec(hash, buckets, threads, pre + post), t);
  }

  /** The bucket whose lock thread `t` waits for. */
  function Awaited(s: State, t: nat): nat
    requires WellFormed(s) && t < |s.pcs| && (s.pcs[t].Wants? || s.pcs[t].Acquiring?)
  {
    if s.pcs[t].Wants? then BucketOf(s, s.pcs[t].op) else s.pcs[t].next
  }

  /** A holder can step, unless it is a `getMap` that waits for a higher bucket. */
  lemma HoldersWaitHigher(s: State, i: nat, b: nat)
    requires WellFormed(s) && i < |s.pcs| && (Exclusive(s, i, b) || Shared(s, i, b))
    ensures CanStep(s, i) || (s.pcs[i].Acquiring? && b < s.pcs[i].next)
  {
  }

  /**
   Follow the wait to a holder: it can step, or it is a `getMap` waiting for a
   higher bucket. So the chain of waits ends.
   */
  lemma {:induction false} SomeoneCanStep(s: State, t: nat) returns (r: nat)
    requires WellFormed(s) && t < |s.pcs| && !s.pcs[t].Idle?
    ensures r < |s.pcs| && CanStep(s, r)
    decreases if s.pcs[t].Wants? || s.pcs[t].Acquiring? then |s.buckets| - Awaited(s, t) else 0
  {
    if CanStep(s, t) {
      r := t;
    } else {
      var b := Awaited(s, t);
      var i :| 0 <= i < |s.pcs| && i != t && (Exclusive(s, i, b) || Shared(s, i, b));
      HoldersWaitHigher(s, i, b);
      if CanStep(s, i) {
        r := i;
      } else {
        r := SomeoneCanStep(s, i);
      }
    }
  }

  /** There is no deadlock: while some thread is unfinished, some thread can step. */
  lemma {:induction false} NoDeadlock(hash: Key -> nat, buckets: nat, threads: nat, acts: seq<Action>)
    requires buckets > 0
    ensures var s := Exec(hash, buckets, threads, acts);
      (exists t :: 0 <= t < |s.pcs| && !s.pcs[t].Idle?) ==>
        exists r :: 0 <= r < |s.pcs| && CanStep(s, r)
  {
    var s := Exec(hash, buckets, threads, acts);
    if t :| 0 <= t < |s.pcs| && !s.pcs[t].Idle? {
      var r := SomeoneCanStep(s, t);
    }
  }

  // ----------------------------------------------------------------- completion

  /** How many steps a thread has left in its call. */
  function Remaining(s: State, t: nat): int
    requires WellFormed(s) && t < |s.pcs|
  {
    var n := |s.buckets|;
    match s.pcs[t]
    case Idle => 0
    case Wants(_) => 2
    case Works(_) => 1
    case Acquiring(next) => 3 * n - next
    case Copying(next, _) => 2 * n - next
    case Releasing(next, _) => n - next
  }

  /**
   Every step brings a call one closer to its return: an operation returns after
   two steps, `getMap` after three for each bucket.
   */
  lemma StepsGetCloser(s: State, t: nat)
    requires WellFormed(s) && t < |s.pcs| && CanStep(s, t)
    ensures Remaining(Step(s, t), t) == Remaining(s, t) - 1
    ensures Remaining(s, t) > 0 && (Step(s, t).pcs[t].Idle? <==> Remaining(s, t) == 1)
  {
  }

  /** What an operation does to the plain map. */
  function Done(m: map<Key, Value>, op: Op): map<Key, Value> {
    match op
    case ValueFor(_, _) => m
    case AddOrUpdateFor(key, value) => m[key := value]
    case RemoveFor(key) => m - {key}
  }

  /** An operation called while its bucket is free does its own work in two steps and returns. */
  lemma OperationCompletes(s: State, t: nat, op: Op)
    requires WellFormed(s) && Inv(s) && t < |s.pcs| && s.pcs[t].Idle?
    requires Free(s, t, BucketOf(s, op), op.ValueFor?)
    ensures var s' := Ran(Apply(s, Call(t, op)), t, 2);
      s'.pcs == s.pcs && Contents(s') == Done(Contents(s), op)
  {
    var s1 := At(s, t, Wants(op));
    assert Apply(s, Call(t, op)) == s1;
    ApplyKeepsInv(s, Call(t, op));
    assert forall i :: 0 <= i < |s.pcs| && i != t ==> s1.pcs[i] == s.pcs[i];
    assert forall i, b :: 0 <= i < |s.pcs| && i != t ==>
      Exclusive(s1, i, b) == Exclusive(s, i, b) && Shared(s1, i, b) == Shared(s, i, b);
    var s2 := Step(s1, t);
    assert s2 == At(s1, t, Works(op));
    LockingKeepsInv(s1, t);
    InvIsAtomic(s2, t);
    assert Ran(s1, t, 2) == Ran(s2, t, 1) == Step(s2, t);
    assert Step(s2, t).pcs == s.pcs;
  }

  /** Thread `t` takes `n` steps and nobody else moves. */
  function Ran(s: State, t: nat, n: nat): (s': State)
    requires WellFormed(s) && t < |s.pcs|
    ensures WellFormed(s')
    decreases n
  {
    if n == 0 then s else Ran(Step(s, t), t, n - 1)
  }

  /** Nobody but `t` holds any lock. */
  ghost predicate OthersHoldNothing(s: State, t: nat) {
    forall i :: 0 <= i < |s.pcs| && i != t ==> s.pcs[i].Idle? || s.pcs[i].Wants?
  }

  lemma {:induction false} Acquires(s: State, t: nat, k: nat)
    requires WellFormed(s) && t < |s.pcs| && OthersHoldNothing(s, t) && s.pcs[t] == Acquiring(k)
    ensures Ran(s, t, |s.buckets| - k) ==
      s.(pcs := s.pcs[t := Copying(0, map[])], snapshots := s.snapshots[t := s.buckets])
    decreases |s.buckets| - k
  {
    var s1 := Step(s, t);
    assert CanStep(s, t);
    if k + 1 < |s.buckets| {
      Acquires(s1, t, k + 1);
    }
    assert Ran(s, t, |s.buckets| - k) == Ran(s1, t, |s.buckets| - k - 1);
  }

  lemma {:induction false} Copies(s: State, t: nat, k: nat)
    requires WellFormed(s) && t < |s.pcs| && k < |s.buckets| && s.pcs[t] == Copying(k, Collect(s.buckets[..k]))
    ensures Ran(s, t, |s.buckets| - k) == s.(pcs := s.pcs[t := Releasing(0, Contents(s))])
    decreases |s.buckets| - k
  {
    var s1 := Step(s, t);
    assert s.buckets[..k + 1][..k] == s.buckets[..k];
    assert s.buckets[..|s.buckets|] == s.buckets;
    if k + 1 < |s.buckets| {
      Copies(s1, t, k + 1);
    }
    assert Ran(s, t, |s.buckets| - k) == Ran(s1, t, |s.buckets| - k - 1);
  }

  /** A `getMap` called while nobody holds a lock has copied the whole map after two steps for each bucket. */
  lemma GetMapCompletes(s: State, t: nat)
    requires WellFormed(s) && t < |s.pcs| && s.pcs[t].Idle? && OthersHoldNothing(s, t)
    ensures var n, called := |s.buckets|, Apply(s, CallGetMap(t));
      Ran(called, t, n + n) ==
        s.(pcs := s.pcs[t := Releasing(0, Contents(s))], snapshots := s.snapshots[t := s.buckets])
  {
    var n, s1 := |s.buckets|, At(s, t, Acquiring(0));
    assert Apply(s, CallGetMap(t)) == s1;
    Acquires(s1, t, 0);
    var s2 := s.(pcs := s.pcs[t := Copying(0, map[])], snapshots := s.snapshots[t := s.buckets]);
    assert s1.pcs[t := Copying(0, map[])] == s2.pcs;
    assert Ran(s1, t, n) == s2;
    assert s2.buckets[..0] == [];
    Copies(s2, t, 0);
    assert s2.pcs[t := Releasing(0, Contents(s))] == s.pcs[t := Releasing(0, Contents(s))];
    RanAdds(s1, t, n, n);
  }

  lemma {:induction false} RanAdds(s: State, t: nat, m: nat, n: nat)
    requires WellFormed(s) && t < |s.pcs|
    ensures |Ran(s, t, m).pcs| == |s.pcs| && Ran(s, t, m + n) == Ran(Ran(s, t, m), t, n)
    decreases m
  {
    if m > 0 {
      RanAdds(Step(s, t), t, m - 1, n);
    }
  }

  /** A bucket that `getMap` has released is free to others before it returns. */
  lemma ReleasedIsFree(s: State, t: nat, u: nat)
    requires WellFormed(s) && t < |s.pcs| && u < |s.pcs| && s.pcs[t].Releasing? && s.pcs[u].Wants?
    requires BucketOf(s, s.pcs[u].op) < s.pcs[t].next
    requires forall i :: 0 <= i < |s.pcs| && i != t && i != u ==> s.pcs[i].Idle? || s.pcs[i].Wants?
    ensures CanStep(s, u)
  {
  }

  /** Readers of a bucket do not keep each other out; a writer keeps everyone out and is kept out by all. */
  lemma ReadersShare(s: State, t: nat)
    requires WellFormed(s) && t < |s.pcs| && s.pcs[t].Wants?
    ensures var b := BucketOf(s, s.pcs[t].op);
      CanStep(s, t) <==>
        forall i :: 0 <= i < |s.pcs| && i != t ==>
          !Exclusive(s, i, b) && (Shared(s, i, b) ==> s.pcs[t].op.ValueFor?)
  {
  }
}
