/**
 What the lock-free ring guarantees on every schedule in which no
 compare-exchange succeeds on an index that is a full lap old.
 */
module LockFreeRingSafety {
  import opened Values
  import opened RingIndex
  import opened BoundedFifo
  import opened LockFreeRing

  /** The queue a caller may think of: published and not yet popped. */
  function Queue(s: State): seq<Value>
    requires WellFormed(s) && s.H() <= s.U() <= s.T()
  {
    s.h.log[s.H()..s.U()]
  }

  lemma {:induction false} FreshSchedulesKeepInv(c: Config, acts: seq<Action>)
    requires FreshSchedule(c, acts)
    ensures Inv(Exec(c, acts))
  {
    if acts == [] {
      InitInv(c);
    } else {
      var before := acts[..|acts| - 1];
      assert FreshSchedule(c, before) by {
        forall i | 0 <= i < |before| ensures Fresh(Exec(c, before[..i]), before[i]) {
          assert before[..i] == acts[..i];
        }
      }
      FreshSchedulesKeepInv(c, before);
      ApplyKeepsInv(c, Exec(c, before), acts[|acts| - 1]);
    }
  }

  lemma InvIsExclusive(s: State)
    requires WellFormed(s) && Inv(s)
    ensures Exclusive(s)
  {
    forall i, j | 0 <= i < j < |s.r.pcs| && IsClaimant(s.r.pcs[i]) && IsClaimant(s.r.pcs[j])
      ensures s.r.pcs[i].tail != s.r.pcs[j].tail
    {
      assert ThreadInv(s, i) && ThreadInv(s, j);
      if s.r.pcs[i].tail == s.r.pcs[j].tail {
        SameTicket(s, s.h.ticket[i], s.h.ticket[j]);
      }
    }
    forall i, k | 0 <= i < |s.r.pcs| && IsClaimant(s.r.pcs[i]) && s.H() <= k < s.U()
      ensures s.r.pcs[i].tail != At(s.r.n, k)
    {
      assert ThreadInv(s, i);
      if s.r.pcs[i].tail == At(s.r.n, k) {
        SameTicket(s, s.h.ticket[i], k);
      }
    }
  }

  /**
   Ticket order within capacity, first-in first-out delivery of every claimed
   value exactly once, and exclusive slots, for any number of threads; the three
   indices are the tickets modulo `Cap + 1`.
   */
  lemma {:induction false} FreshSchedulesAreCorrect(c: Config, acts: seq<Action>)
    requires FreshSchedule(c, acts)
    ensures Correct(Exec(c, acts))
    ensures var s := Exec(c, acts);
      && s.H() <= s.U() <= s.T() <= s.H() + c.cap
      && s.r.head == s.H() % (c.cap + 1) && s.r.tailUp == s.U() % (c.cap + 1) && s.r.tail == s.T() % (c.cap + 1)
  {
    FreshSchedulesKeepInv(c, acts);
    var s := Exec(c, acts);
    InvIsExclusive(s);
    CapacityIsFixed(c, acts);
    AtIsMod(c.cap + 1, s.H());
    AtIsMod(c.cap + 1, s.U());
    AtIsMod(c.cap + 1, s.T());
  }

  /**
   From the copy to the compare-exchange that makes it count, the slot holds
   the copied value, constructed whole.
   */
  lemma {:induction false} CopyIsIntact(c: Config, acts: seq<Action>, i: nat)
    requires FreshSchedule(c, acts)
    requires i < |Exec(c, acts).r.pcs|
    requires var pc := Exec(c, acts).r.pcs[i]; pc.PopReread? || pc.PopCas?
    ensures var s := Exec(c, acts);
      s.h.ticket[i] == s.H() ==>
        && s.H() < s.U() <= s.T()
        && s.r.pcs[i].x == Full(s.h.log[s.H()])
        && s.r.slots[s.r.pcs[i].head] == s.r.pcs[i].x
  {
    FreshSchedulesKeepInv(c, acts);
    assert ThreadInv(Exec(c, acts), i);
  }

  /**
   `tail_up_` equals a publisher's index only on that publisher's turn, and
   when an unpublished claim exists the next one in order has a holder; once
   that holder has constructed, its compare-exchange succeeds.
   */
  lemma {:induction false} PublicationIsInOrder(c: Config, acts: seq<Action>, i: nat)
    requires FreshSchedule(c, acts)
    requires i < |Exec(c, acts).r.pcs|
    ensures var s := Exec(c, acts);
      s.r.pcs[i].Publish? ==> (s.r.tailUp == s.r.pcs[i].tail <==> s.h.ticket[i] == s.U())
    ensures var s := Exec(c, acts);
      s.U() < s.T() ==>
        var p := s.h.owner[s.U()];
        && p < |s.r.pcs| && IsClaimant(s.r.pcs[p]) && s.h.ticket[p] == s.U()
        && (s.r.pcs[p].Publish? ==> Step(s, p).U() == s.U() + 1 && Step(s, p).r.pcs[p].Idle?)
  {
    FreshSchedulesKeepInv(c, acts);
    var s := Exec(c, acts);
    assert ThreadInv(s, i);
    if s.r.pcs[i].Publish? && s.r.tailUp == s.r.pcs[i].tail {
      SameTicket(s, s.h.ticket[i], s.U());
    }
    if s.U() < s.T() {
      assert ThreadInv(s, s.h.owner[s.U()]);
    }
  }

  lemma EmplaceOkStep(s: State, t: nat)
    requires WellFormed(s) && Inv(s) && t < |s.r.pcs| && EventOf(s.r, t).EmplaceOk?
    ensures Step(s, t).H() <= Step(s, t).U() <= Step(s, t).T()
    ensures FifoStep(s.r.n - 1, Queue(s), EventOf(s.r, t), Queue(Step(s, t)))
  {
    assert ThreadInv(s, t);
    SameTicket(s, s.h.ticket[t], s.U());
    assert s.h.log[s.H()..s.U() + 1] == s.h.log[s.H()..s.U()] + [s.h.log[s.U()]];
  }

  lemma PopStepIsFifo(s: State, t: nat)
    requires WellFormed(s) && Inv(s) && t < |s.r.pcs| && Fresh(s, Run(t))
    requires EventOf(s.r, t).PopOk? || EventOf(s.r, t).PopTorn?
    ensures Step(s, t).H() <= Step(s, t).U() <= Step(s, t).T()
    ensures FifoStep(s.r.n - 1, Queue(s), EventOf(s.r, t), Queue(Step(s, t)))
  {
    assert ThreadInv(s, t);
    AtInjective(s.r.n, s.h.ticket[t], s.H());
    assert s.h.log[s.H() + 1..s.U()] == s.h.log[s.H()..s.U()][1..];
  }

  /** A step that neither publishes nor pops leaves the queue alone. */
  lemma OtherStepsKeepQueue(s: State, t: nat)
    requires WellFormed(s) && Ordered(s) && t < |s.r.pcs|
    requires !EventOf(s.r, t).EmplaceOk? && !EventOf(s.r, t).PopOk? && !EventOf(s.r, t).PopTorn?
    ensures Step(s, t).H() <= Step(s, t).U() <= Step(s, t).T()
    ensures Queue(Step(s, t)) == Queue(s)
  {
    var s' := Step(s, t);
    assert s'.h.popped == s.h.popped && s'.U() == s.U() && s.h.log <= s'.h.log;
    assert s'.h.log[s.H()..s.U()] == s.h.log[s.H()..s.U()];
  }

  /**
   A refusal by a thread whose index is current: "empty" is right, and "full" is
   right exactly when no claim is unpublished.
   */
  ghost predicate CurrentRefusalsAreRight(cap: nat, s: State, a: Action)
    requires WellFormed(s) && s.H() <= s.U() <= s.T()
  {
    && (Observed(s, a) == PopEmpty && s.h.ticket[a.t] == s.H() ==> Queue(s) == [])
    && (Observed(s, a) == EmplaceFull && s.h.ticket[a.t] == s.T() ==>
          s.T() == s.H() + cap && (|Queue(s)| == cap <==> s.U() == s.T()))
  }

  lemma CurrentRefusals(s: State, a: Action)
    requires WellFormed(s) && Inv(s)
    ensures CurrentRefusalsAreRight(s.r.n - 1, s, a)
  {
    if a.Run? && a.t < |s.r.pcs| && EventOf(s.r, a.t) in {EmplaceFull, PopEmpty} {
      assert ThreadInv(s, a.t);
      match s.r.pcs[a.t]
      case EmplaceCheck(_, tail) =>
        AtSucc(s.r.n, s.T());
        if s.h.ticket[a.t] == s.T() && s.T() + 1 < s.H() + s.r.n { AtInjective(s.r.n, s.H(), s.T() + 1); }
      case PopCheckTail(head) =>
        if s.h.ticket[a.t] == s.H() { SameTicket(s, s.H(), s.T()); }
      case PopCheckUp(head) =>
        if s.h.ticket[a.t] == s.H() { SameTicket(s, s.H(), s.U()); }
    }
  }

  /**
   Each successful operation of a fresh schedule is one step of the bounded
   queue, taken when `tail_up_` or `head_` moves; no pop returns a torn value. A
   refusal changes nothing, and with a current index it is right but for
   unpublished claims.
   */
  lemma {:induction false} FreshOperationsAreFifo(c: Config, acts: seq<Action>, a: Action)
    requires FreshSchedule(c, acts) && Fresh(Exec(c, acts), a)
    ensures var s, s' := Exec(c, acts), Apply(c, Exec(c, acts), a);
      && s.H() <= s.U() <= s.T() && s'.H() <= s'.U() <= s'.T() && s.r.n == c.cap + 1
      && (Observed(s, a) !in {EmplaceFull, PopEmpty} ==> FifoStep(c.cap, Queue(s), Observed(s, a), Queue(s')))
      && (Observed(s, a) in {EmplaceFull, PopEmpty} ==> Queue(s') == Queue(s))
      && CurrentRefusalsAreRight(c.cap, s, a)
  {
    var s := Exec(c, acts);
    FreshSchedulesKeepInv(c, acts);
    CapacityIsFixed(c, acts);
    CurrentRefusals(s, a);
    if a.Run? && a.t < |s.r.pcs| {
      var e := EventOf(s.r, a.t);
      if e.EmplaceOk? {
        EmplaceOkStep(s, a.t);
      } else if e.PopOk? || e.PopTorn? {
        PopStepIsFifo(s, a.t);
      } else {
        OtherStepsKeepQueue(s, a.t);
      }
    }
  }

  lemma {:induction false} CapacityIsFixed(c: Config, acts: seq<Action>)
    ensures Exec(c, acts).r.n == c.cap + 1 && |Exec(c, acts).r.pcs| == c.threads
  {
    if acts != [] {
      CapacityIsFixed(c, acts[..|acts| - 1]);
      OnlyTheActorMoves(c, Exec(c, acts[..|acts| - 1]), acts[|acts| - 1]);
    }
  }

  /**
   A thread leaves `emplace` or `pop` exactly at the steps that are observed,
   and an `emplace` carries its argument unchanged from call to return.
   */
  lemma ReturnsAreObserved(r: Ring, t: nat)
    requires Shaped(r) && t < |r.pcs| && !r.pcs[t].Idle?
    ensures RingStep(r, t).pcs[t].Idle? <==> !EventOf(r, t).Silent?
    ensures (r.pcs[t].EmplaceLoad? || HasTail(r.pcs[t])) && !RingStep(r, t).pcs[t].Idle? ==>
      var pc' := RingStep(r, t).pcs[t]; (pc'.EmplaceLoad? || HasTail(pc')) && pc'.v == r.pcs[t].v
    ensures EventOf(r, t).EmplaceOk? ==> EventOf(r, t).value == r.pcs[t].v
  {
  }

  /**
   Freshness is not the weakest condition on a single win of `tail_`: from a
   correct state a win, however old its index, keeps the tickets in order
   exactly when the ring is not full at the compare-exchange itself.
   */
  lemma WinIsSafeIffRoom(s: State, t: nat)
    requires WellFormed(s) && Inv(s) && t < |s.r.pcs| && s.r.pcs[t].EmplaceCas?
    requires s.r.pcs[t].tail == s.r.tail
    ensures Ordered(Step(s, t)) <==> s.T() - s.H() < s.r.n - 1
  {
    AtSucc(s.r.n, s.T());
  }

  /**
   The same for a win of `head_`: it keeps order and delivery exactly when
   something is published, the copy is the head ticket's value and the new index
   was computed from the current one.
   */
  lemma PopWinIsSafeIff(s: State, t: nat)
    requires WellFormed(s) && Inv(s) && t < |s.r.pcs| && s.r.pcs[t].PopCas?
    requires s.r.pcs[t].head == s.r.head
    ensures Ordered(Step(s, t)) && Fifo(Step(s, t)) <==>
      && s.H() < s.U() && s.r.pcs[t].next == Succ(s.r.n, s.r.head)
      && s.r.pcs[t].x == Full(s.h.log[s.H()])
  {
    AtSucc(s.r.n, s.H());
    assert Step(s, t).h.popped[s.H()] == s.r.pcs[t].x;
  }
}
