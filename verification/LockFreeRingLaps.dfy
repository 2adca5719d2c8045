/**
 The other half of the characterisation: any other roles, on a ring of any capacity
 above zero, have a schedule that laps a thread and breaks the ticket order.
 */
module LockFreeRingLaps {
  import opened Values
  import opened RingIndex
  import opened BoundedFifo
  import opened LockFreeRing
  import opened LockFreeRingSafety
  import opened LockFreeRingRoles
  import opened LockFreeRingRuns

  /**
   P1 loads `tail_` and passes the full check; P2 fills the ring, a consumer
   takes one, P2 adds one; P1's compare-exchange succeeds on a full ring.
   */
  lemma LappedProducer(c: Config, p1: nat, p2: nat, q: nat, v: Value) returns (s': State)
    requires ValidConfig(c) && c.cap > 0
    requires p1 in c.producers && p2 in c.producers && q in c.consumers && p1 != p2 && p1 != q
    ensures Leads(c, false, s') && WellFormed(s') && s'.T() == s'.H() + s'.r.n && OnlyFrom(s', 0, v)
    ensures s'.r.n == c.cap + 1 == s'.U() && s'.H() == 1 && s'.r.head == s'.r.tail == 1 && s'.r.tailUp == 0
    ensures s'.r.pcs == Init(c).r.pcs[p1 := Claimed(v, 0)]
  {
    var s1 := FullLap(c, p1, p2, q, v);
    s' := CasWins(c, false, s1, p1, v);
  }

  /** The ring is full, and P1 stands at its compare-exchange with an index a full lap old. */
  lemma FullLap(c: Config, p1: nat, p2: nat, q: nat, v: Value) returns (s': State)
    requires ValidConfig(c) && c.cap > 0
    requires p1 in c.producers && p2 in c.producers && q in c.consumers && p1 != p2 && p1 != q
    ensures Leads(c, false, s') && Calm(c, s') && OnlyFrom(s', 0, v)
    ensures s'.H() == s'.r.head == 1 && s'.T() == s'.r.n && s'.r.tail == s'.r.tailUp == 0
    ensures s'.r.pcs == Init(c).r.pcs[p1 := EmplaceCas(v, 0)]
  {
    var s0 := Starts(c, false);
    var s1 := EmplaceUpToCas(c, false, s0, p1, v);
    s' := ComesRound(c, false, s1, p2, q, v);
  }

  /** P1 publishes, and the ring of `Cap + 1` unpopped values looks empty. */
  lemma LapLooksEmpty(c: Config, p1: nat, p2: nat, q: nat, v: Value) returns (s': State)
    requires ValidConfig(c) && c.cap > 0
    requires p1 in c.producers && p2 in c.producers && q in c.consumers && p1 != p2 && p1 != q
    ensures Leads(c, false, s') && WellFormed(s') && s'.U() == s'.T() == s'.H() + s'.r.n && OnlyFrom(s', 0, v)
    ensures s'.r.n == c.cap + 1 && s'.H() == 1 && s'.r.head == s'.r.tail == s'.r.tailUp == 1
    ensures s'.r.pcs == Init(c).r.pcs
  {
    var s1 := LappedProducer(c, p1, p2, q, v);
    s' := PublishRuns(c, false, s1, p1, v);
    assert s'.r.pcs == Init(c).r.pcs;
  }

  /** A pop that starts then reports an empty ring, with `Cap + 1` values published and unpopped. */
  lemma LapHidesEverything(c: Config, p1: nat, p2: nat, q: nat, v: Value) returns (s': State)
    requires ValidConfig(c) && c.cap > 0
    requires p1 in c.producers && p2 in c.producers && q in c.consumers && p1 != p2 && p1 != q
    ensures Leads(c, false, s') && WellFormed(s')
    ensures Observed(s', Run(q)) == PopEmpty && s'.U() - s'.H() == c.cap + 1
  {
    var s1 := LapLooksEmpty(c, p1, p2, q, v);
    s' := PopLoads(c, false, s1, q);
  }

  /** P2 emplaces `w` over the oldest unpopped value. */
  lemma LapOverwrites(c: Config, p1: nat, p2: nat, q: nat, v: Value, w: Value) returns (s': State)
    requires ValidConfig(c) && c.cap > 0
    requires p1 in c.producers && p2 in c.producers && q in c.consumers && p1 != p2 && p1 != q
    ensures Leads(c, false, s') && WellFormed(s') && s'.r.pcs == Init(c).r.pcs
    ensures s'.r.head == 1 && s'.r.tail == s'.r.tailUp == Succ(s'.r.n, 1) != 1 && s'.r.slots[1] == Full(w)
    ensures s'.H() == 1 && s'.T() > 2 && s'.h.log[1] == v
  {
    var s1 := LapLooksEmpty(c, p1, p2, q, v);
    var s2 := EmplaceUpToCas(c, false, s1, p2, w);
    var s3 := CasWins(c, false, s2, p2, w);
    s' := PublishRuns(c, false, s3, p2, w);
    assert s'.r.pcs == Init(c).r.pcs;
  }

  /** The next pop returns it in that value's place. */
  lemma LapLosesAValue(c: Config, p1: nat, p2: nat, q: nat, v: Value, w: Value) returns (s': State)
    requires ValidConfig(c) && c.cap > 0
    requires p1 in c.producers && p2 in c.producers && q in c.consumers && p1 != p2 && p1 != q
    ensures Leads(c, false, s') && WellFormed(s')
    ensures 2 == s'.H() < s'.T() && s'.h.log[1] == v && s'.h.popped[1] == Full(w)
  {
    var s1 := LapOverwrites(c, p1, p2, q, v, w);
    s' := PopTakes(c, false, s1, q);
  }

  /** C1 copies the first value; C2 takes it and then everything the producer adds for one lap. */
  lemma FullPopLap(c: Config, q1: nat, q2: nat, p: nat, v: Value, w: Value) returns (s': State)
    requires ValidConfig(c) && c.cap > 0
    requires q1 in c.consumers && q2 in c.consumers && p in c.producers && q1 != q2 && q1 != p
    ensures Leads(c, false, s') && Calm(c, s') && s'.H() == s'.T() == s'.r.n && s'.r.head == 0
    ensures s'.r.pcs[q1] == PopCas(0, Full(v), Succ(s'.r.n, 0))
    ensures s'.h.log[0] == v && OnlyFrom(s', 1, w) && s'.h.popped[0] == Full(v)
  {
    var s0 := Starts(c, false);
    var s1 := EmplaceRuns(c, false, s0, p, v);
    ChecksSeeRoom(s1);
    var s2 := PopUpToCas(c, false, s1, q1);
    var s3 := PopRuns(c, false, s2, q2);
    s' := Cycles(c, false, s3, p, q2, w, s3.r.n);
    assert At(s'.r.n, s'.r.n) == 0;
  }

  /**
   C1's compare-exchange then succeeds on an empty ring, and `v`, which was
   emplaced once, is delivered a second time.
   */
  lemma LappedConsumer(c: Config, q1: nat, q2: nat, p: nat, v: Value, w: Value) returns (s': State)
    requires ValidConfig(c) && c.cap > 0
    requires q1 in c.consumers && q2 in c.consumers && p in c.producers && q1 != q2 && q1 != p
    ensures Leads(c, false, s') && WellFormed(s') && s'.H() == s'.T() + 1
    ensures s'.T() > 0 && s'.h.log[0] == v && OnlyFrom(s', 1, w)
    ensures s'.h.popped[0] == s'.h.popped[s'.T()] == Full(v)
  {
    var s1 := FullPopLap(c, q1, q2, p, v, w);
    s' := Step(s1, q1);
    StepTo(c, false, s1, q1, s');
  }

  /** The producer adds one value and C1 gets as far as its copy. */
  lemma FirstCopy(c: Config, q1: nat, p: nat, v: Value) returns (s': State)
    requires ValidConfig(c) && c.cap > 0 && q1 in c.consumers && p in c.producers && q1 != p
    ensures Leads(c, false, s') && Calm(c, s') && s'.H() == s'.r.head == 0 && s'.h.log == [v]
    ensures s'.r.slots[0] == Full(v) && s'.r.pcs == Init(c).r.pcs[q1 := PopCopy(0)]
  {
    var s0 := Starts(c, false);
    var s1 := EmplaceRuns(c, false, s0, p, v);
    ChecksSeeRoom(s1);
    var s2 := PopLoads(c, false, s1, q1);
    s' := ChecksPass(c, false, s2, q1);
    assert s'.r.pcs == Init(c).r.pcs[q1 := PopCopy(0)];
  }

  /** C1 copies the first value and stops before it reads `head_` again; C2 takes that value. */
  lemma CopiedAndOvertaken(c: Config, q1: nat, q2: nat, p: nat, v: Value) returns (s': State)
    requires ValidConfig(c) && c.cap > 0
    requires q1 in c.consumers && q2 in c.consumers && p in c.producers && q1 != q2 && q1 != p
    ensures Leads(c, false, s') && Calm(c, s') && s'.H() == s'.T() == s'.r.head == 1 && OnlyFrom(s', 0, v)
    ensures s'.r.pcs == Init(c).r.pcs[q1 := PopReread(0, Full(v))]
  {
    var s1 := FirstCopy(c, q1, p, v);
    var s2 := With(s1, q1, PopReread(0, Full(v)));
    StepTo(c, false, s1, q1, s2);
    assert s2.r.pcs == Init(c).r.pcs[q1 := PopReread(0, Full(v))];
    s' := PopRuns(c, false, s2, q2);
  }

  /**
   What the second read of `head_`, in the argument of the compare-exchange, adds:
   the index C1 installs is the successor of what it read there, so its win on an
   index a lap old moves `head_` away from the tickets.
   */
  lemma RereadMisplacesHead(c: Config, q1: nat, q2: nat, p: nat, v: Value) returns (s': State)
    requires ValidConfig(c) && c.cap > 0
    requires q1 in c.consumers && q2 in c.consumers && p in c.producers && q1 != q2 && q1 != p
    ensures Leads(c, false, s') && WellFormed(s') && s'.r.head != At(s'.r.n, s'.H()) == 1
  {
    var s1 := CopiedAndOvertaken(c, q1, q2, p, v);
    var s2 := With(s1, q1, PopCas(0, Full(v), Succ(s1.r.n, 1)));
    StepTo(c, false, s1, q1, s2);
    var s3 := Cycles(c, false, s2, p, q2, v, s2.r.n);
    assert At(s3.r.n, s3.r.n) == 0;
    s' := Step(s3, q1);
    StepTo(c, false, s3, q1, s');
    AtSucc(s3.r.n, s3.r.n);
  }

  /**
   Every schedule of a configuration keeps ticket order, first-in first-out
   delivery and exclusive slots if and only if its roles are safe: capacity
   zero, no producer, no consumer, or one of each.
   */
  lemma CorrectIffSafeRoles(c: Config, v: Value)
    requires ValidConfig(c)
    ensures (forall acts :: Correct(Exec(c, acts))) <==> SafeRoles(c)
  {
    if SafeRoles(c) {
      forall acts ensures Correct(Exec(c, acts)) {
        SafeRolesAreAlwaysFresh(c, acts);
        FreshSchedulesAreCorrect(c, acts);
      }
    } else {
      var bad := UnsafeRolesGoWrong(c, v, v);
    }
  }

  /**
   The same for delivery alone: every schedule pops exactly the beginning of
   what was emplaced, each value once and in order, if and only if the roles are
   safe. It takes two different values to tell.
   */
  lemma DeliversIffSafeRoles(c: Config, v: Value, w: Value)
    requires ValidConfig(c) && v != w
    ensures (forall acts :: Fifo(Exec(c, acts))) <==> SafeRoles(c)
  {
    if SafeRoles(c) {
      forall acts ensures Fifo(Exec(c, acts)) {
        SafeRolesAreAlwaysFresh(c, acts);
        FreshSchedulesAreCorrect(c, acts);
      }
    } else {
      var bad := UnsafeRolesGoWrong(c, v, w);
    }
  }

  /** Unsafe roles hold two producers and a consumer, or two consumers and a producer. */
  lemma UnsafeTrio(c: Config) returns (producers: bool, x: nat, y: nat, z: nat)
    requires ValidConfig(c) && !SafeRoles(c)
    ensures x != y && x != z && c.cap > 0
    ensures producers ==> x in c.producers && y in c.producers && z in c.consumers
    ensures !producers ==> x in c.consumers && y in c.consumers && z in c.producers
  {
    producers := !AtMostOne(c.producers);
    if producers {
      x, y :| x in c.producers && y in c.producers && x != y;
      z :| z in c.consumers;
    } else {
      x, y :| x in c.consumers && y in c.consumers && x != y;
      z :| z in c.producers;
    }
    if x == z {
      x, y := y, x;
    }
  }

  lemma UnsafeRolesGoWrong(c: Config, v: Value, w: Value) returns (acts: seq<Action>)
    requires ValidConfig(c) && !SafeRoles(c)
    ensures !Correct(Exec(c, acts)) && (v != w ==> !Fifo(Exec(c, acts)))
  {
    var producers, x, y, z := UnsafeTrio(c);
    var s: State;
    if !producers {
      s := LappedConsumer(c, x, y, z, v, w);
    } else if v == w {
      s := LappedProducer(c, x, y, z, v);
    } else {
      s := LapLosesAValue(c, x, y, z, v, w);
    }
    acts :| Exec(c, acts) == s;
  }
}
