/**
 The two classes of `SafeCircleQueue.hpp` over a real array, updated in place:
 the locked ring, whose methods are atomic, and the lock-free ring, whose atomic
 accesses are.
 */
module RingObjects {
  import opened Values
  import opened Options
  import opened RingIndex
  import opened BoundedFifo
  import opened LockFreeRing

  /** `SafeCircleQueue`: each method holds the mutex throughout. */
  class SafeCircleQueue {
    const maxSize: nat
    const data: array<Slot>
    var head: nat
    var tail: nat

    ghost var contents: seq<Value>

    ghost predicate Valid()
      reads this, data
    {
      && 0 < maxSize == data.Length && head < maxSize && tail < maxSize
      && |contents| == (if head <= tail then tail - head else tail + maxSize - head)
      && forall i :: 0 <= i < |contents| ==> data[Offset(i)] == Full(contents[i])
    }

    /** The position of the `i`-th stored element. */
    ghost function Offset(i: nat): (p: nat)
      requires i < maxSize && head < maxSize
      reads this
      ensures p < maxSize
    {
      if head + i < maxSize then head + i else head + i - maxSize
    }

    constructor (cap: nat)
      ensures Valid() && fresh(data) && maxSize == cap + 1 && contents == []
    {
      maxSize := cap + 1;
      data := new Slot[cap + 1](_ => Raw);
      head, tail, contents := 0, 0, [];
    }

    method Emplace(v: Value) returns (ok: bool)
      requires Valid()
      modifies this, data
      ensures Valid()
      ensures FifoStep(maxSize - 1, old(contents), if ok then EmplaceOk(v) else EmplaceFull, contents)
    {
      SuccIsMod(maxSize, tail);
      if (tail + 1) % maxSize == head {
        return false;
      }
      data[tail] := Full(v);
      tail := (tail + 1) % maxSize;
      contents := contents + [v];
      return true;
    }

    method Pop() returns (x: Option<Value>)
      requires Valid()
      modifies this
      ensures Valid()
      ensures FifoStep(maxSize - 1, old(contents),
                       if x.Some? then PopOk(x.value) else PopEmpty, contents)
    {
      if head == tail {
        return None;
      }
      assert data[Offset(0)] == Full(contents[0]);
      x := Some(data[head].value);
      SuccIsMod(maxSize, head);
      head := (head + 1) % maxSize;
      contents := contents[1..];
      forall i | 0 <= i < |contents| ensures data[Offset(i)] == Full(contents[i]) {
        assert old(data[Offset(i + 1)]) == Full(old(contents)[i + 1]);
      }
    }
  }

  /** `SafeCircleQueNOLock`: each call of a step method is one atomic access by one thread. */
  class SafeCircleQueNOLock {
    const maxSize: nat
    const data: array<Slot>
    var head: nat
    var tail: nat
    var tailUp: nat
    var pcs: seq<Pc>

    ghost function View(): Ring
      reads this, data
    {
      Ring(maxSize, head, tail, tailUp, data[..], pcs)
    }

    constructor (cap: nat, threads: nat)
      ensures fresh(data) && View() == Init(Config(cap, threads, {}, {})).r
    {
      maxSize := cap + 1;
      data := new Slot[cap + 1](_ => Raw);
      head, tail, tailUp := 0, 0, 0;
      pcs := seq(threads, _ => Idle);
    }

    method EmplaceStep(t: nat)
      requires Shaped(View()) && t < |pcs| && (pcs[t].EmplaceLoad? || HasTail(pcs[t]))
      modifies this, data
      ensures View() == LockFreeRing.EmplaceStep(old(View()), t)
    {
      match pcs[t]
      case EmplaceLoad(v) =>
        pcs := pcs[t := EmplaceCheck(v, tail)];
      case EmplaceCheck(v, mine) =>
        SuccIsMod(maxSize, mine);
        pcs := pcs[t := if (mine + 1) % maxSize == head then Idle else EmplaceCas(v, mine)];
      case EmplaceCas(v, mine) =>
        SuccIsMod(maxSize, mine);
        if tail == mine {
          tail := (mine + 1) % maxSize;
          pcs := pcs[t := Claimed(v, mine)];
        } else {
          pcs := pcs[t := EmplaceLoad(v)];
        }
      case Claimed(v, mine) =>
        data[mine] := Torn;
        pcs := pcs[t := Constructing(v, mine)];
      case Constructing(v, mine) =>
        data[mine] := Full(v);
        pcs := pcs[t := Publish(v, mine)];
      case Publish(v, mine) =>
        SuccIsMod(maxSize, mine);
        if tailUp == mine {
          tailUp := (mine + 1) % maxSize;
          pcs := pcs[t := Idle];
        }
    }

    method PopStep(t: nat)
      requires Shaped(View()) && t < |pcs| && (pcs[t].PopLoad? || HasHead(pcs[t]))
      modifies this
      ensures View() == LockFreeRing.PopStep(old(View()), t)
    {
      match pcs[t]
      case PopLoad =>
        pcs := pcs[t := PopCheckTail(head)];
      case PopCheckTail(mine) =>
        pcs := pcs[t := if mine == tail then Idle else PopCheckUp(mine)];
      case PopCheckUp(mine) =>
        pcs := pcs[t := if mine == tailUp then Idle else PopCopy(mine)];
      case PopCopy(mine) =>
        pcs := pcs[t := PopReread(mine, data[mine])];
      case PopReread(mine, x) =>
        SuccIsMod(maxSize, head);
        pcs := pcs[t := PopCas(mine, x, (head + 1) % maxSize)];
      case PopCas(mine, x, next) =>
        if head == mine {
          head := next;
          pcs := pcs[t := Idle];
        } else {
          pcs := pcs[t := PopLoad];
        }
    }

    method Perform(c: Config, a: Action)
      requires Shaped(View())
      modifies this, data
      ensures Shaped(View())
      ensures forall h :: WellFormed(State(old(View()), h)) ==> View() == Apply(c, State(old(View()), h), a).r
    {
      if a.t < |pcs| {
        match a
        case CallEmplace(t, v) => if t in c.producers && pcs[t].Idle? { pcs := pcs[t := EmplaceLoad(v)]; }
        case CallPop(t) => if t in c.consumers && pcs[t].Idle? { pcs := pcs[t := PopLoad]; }
        case Run(t) =>
          if pcs[t].EmplaceLoad? || HasTail(pcs[t]) {
            EmplaceStep(t);
          } else if pcs[t].PopLoad? || HasHead(pcs[t]) {
            PopStep(t);
          }
      }
    }

    /** A fresh ring under any schedule of a configuration is the machine. */
    method RunSchedule(c: Config, acts: seq<Action>)
      requires View() == Init(c).r
      modifies this, data
      ensures View() == Exec(c, acts).r
    {
      for i := 0 to |acts|
        invariant Shaped(View()) && View() == Exec(c, acts[..i]).r
      {
        assert Exec(c, acts[..i]) == State(View(), Exec(c, acts[..i]).h);
        Perform(c, acts[i]);
        assert acts[..i + 1][..i] == acts[..i];
      }
      assert acts[..|acts|] == acts;
    }
  }
}
