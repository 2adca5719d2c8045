/**
 When "full" and "empty" can be believed: even if nobody is lapped, a refusal rests
 on an index that may be stale or on a claim that is not published yet.
 */
module LockFreeRingRefusals {
  import opened Values
  import opened RingIndex
  import opened BoundedFifo
  import opened LockFreeRing
  import opened LockFreeRingSafety
  import opened LockFreeRingRoles
  import opened LockFreeRingRuns

  /** The step after `acts`, successful or refused, is a step of the bounded queue. */
  ghost predicate Refines(c: Config, acts: seq<Action>, a: Action) {
    var s, s' := Exec(c, acts), Apply(c, Exec(c, acts), a);
    && s.H() <= s.U() <= s.T() && s'.H() <= s'.U() <= s'.T()
    && FifoStep(c.cap, Queue(s), Observed(s, a), Queue(s'))
  }

  /** The configurations whose every answer is that of a bounded queue. */
  ghost predicate FifoRoles(c: Config) {
    c.cap == 0 || c.producers == {} || (AtMostOne(c.producers) && AtMostOne(c.consumers))
  }

  /** Nothing can be claimed without a producer or a place, and every refusal is right. */
  lemma {:induction false} NothingToRefuse(c: Config, acts: seq<Action>, a: Action)
    requires c.cap == 0 || c.producers == {}
    ensures Refines(c, acts, a)
  {
    var s := Exec(c, acts);
    SafeRolesAreAlwaysFresh(c, acts);
    SafeRolesKeepInv(c, acts);
    SafeRolesAreFresh(c, s, a);
    FreshOperationsAreFifo(c, acts, a);
    if Observed(s, a).EmplaceFull? {
      assert ThreadRole(c, s, a.t);
    }
  }

  // The schedules that follow lap nobody, so they can be asked for with `unlapped`.

  lemma AllButOne(c: Config, unlapped: bool, p: nat, v: Value) returns (s': State)
    requires ValidConfig(c) && c.cap > 0 && p in c.producers
    ensures Leads(c, unlapped, s') && Calm(c, s') && s'.r.pcs == Init(c).r.pcs
    ensures s'.r.head == s'.H() == 0 && s'.r.tail == s'.T() == c.cap - 1
  {
    var s0 := Starts(c, unlapped);
    s' := Fills(c, unlapped, s0, p, v, c.cap - 1);
  }

  /** P1 claims the last place and has not published. */
  lemma LastPlaceClaimed(c: Config, unlapped: bool, p1: nat, p2: nat, v: Value) returns (s': State)
    requires ValidConfig(c) && c.cap > 0 && p1 in c.producers && p2 in c.producers && p1 != p2
    ensures Leads(c, unlapped, s') && WellFormed(s') && s'.r.n == c.cap + 1
    ensures s'.r.head == s'.H() == 0 && s'.U() == c.cap - 1 && s'.r.tail == s'.T() == c.cap
    ensures s'.r.pcs == Init(c).r.pcs[p1 := Claimed(v, c.cap - 1)]
  {
    var s1 := AllButOne(c, unlapped, p2, v);
    ChecksSeeRoom(s1);
    var s2 := EmplaceUpToCas(c, unlapped, s1, p1, v);
    s' := CasWins(c, unlapped, s2, p1, v);
  }

  /** P2 is then told "full" of a queue that holds one element less than its capacity. */
  lemma FullBeforePublished(c: Config, unlapped: bool, p1: nat, p2: nat, v: Value) returns (s': State)
    requires ValidConfig(c) && c.cap > 0 && p1 in c.producers && p2 in c.producers && p1 != p2
    ensures Leads(c, unlapped, s') && WellFormed(s') && Observed(s', Run(p2)) == EmplaceFull
    ensures s'.H() == 0 && s'.U() == c.cap - 1 < s'.T()
  {
    var s1 := LastPlaceClaimed(c, unlapped, p1, p2, v);
    s' := EmplaceLoads(c, unlapped, s1, p2, v);
  }

  /**
   P1 loads `tail_`; P2 emplaces one and a consumer takes it. P1's check then
   finds `head_` one place after its stale index, and reports an empty ring full.
   */
  lemma FullOnAnEmptyRing(c: Config, unlapped: bool, p1: nat, p2: nat, q: nat, v: Value) returns (s': State)
    requires ValidConfig(c) && c.cap > 0
    requires p1 in c.producers && p2 in c.producers && q in c.consumers && p1 != p2 && p1 != q
    ensures Leads(c, unlapped, s') && WellFormed(s') && Observed(s', Run(p1)) == EmplaceFull
    ensures s'.H() == s'.U() == s'.T()
  {
    var s0 := Starts(c, unlapped);
    var s1 := EmplaceLoads(c, unlapped, s0, p1, v);
    var s2 := EmplaceRuns(c, unlapped, s1, p2, v);
    s' := PopRuns(c, unlapped, s2, q);
  }

  /** C1 loads `head_` of a fresh ring. */
  lemma FirstPopLoads(c: Config, unlapped: bool, q1: nat) returns (s': State)
    requires ValidConfig(c) && q1 in c.consumers
    ensures Leads(c, unlapped, s') && Calm(c, s') && s'.T() == 0
    ensures s'.r.pcs == Init(c).r.pcs[q1 := PopCheckTail(0)]
  {
    var s0 := Starts(c, unlapped);
    s' := PopLoads(c, unlapped, s0, q1);
  }

  /**
   C1 loads `head_`; the producer fills the ring, C2 takes one and the producer
   adds one. `tail_` has come round to C1's stale index, and C1 reports a full
   ring empty.
   */
  lemma EmptyOnAFullRing(c: Config, unlapped: bool, q1: nat, q2: nat, p: nat, v: Value) returns (s': State)
    requires ValidConfig(c) && c.cap > 0
    requires q1 in c.consumers && q2 in c.consumers && p in c.producers && q1 != q2 && q1 != p
    ensures Leads(c, unlapped, s') && WellFormed(s') && Observed(s', Run(q1)) == PopEmpty
    ensures s'.U() == s'.T() == s'.H() + c.cap
  {
    var s1 := FirstPopLoads(c, unlapped, q1);
    s' := ComesRound(c, unlapped, s1, p, q2, v);
  }

  /** A refusal that does not fit the number of published elements is no step of the bounded queue. */
  lemma WrongRefusal(c: Config, s: State, t: nat) returns (acts: seq<Action>)
    requires WellFormed(s) && Leads(c, true, s)
    requires || (Observed(s, Run(t)) == EmplaceFull && s.U() - s.H() < c.cap)
             || (Observed(s, Run(t)) == PopEmpty && s.U() - s.H() > 0)
    ensures FreshSchedule(c, acts) && Fresh(Exec(c, acts), Run(t)) && !Refines(c, acts, Run(t))
  {
    acts :| Exec(c, acts) == s && FreshSchedule(c, acts);
  }

  /** Any other configuration refuses wrongly on some schedule in which nobody is lapped. */
  lemma OtherRolesRefuseWrongly(c: Config, v: Value) returns (acts: seq<Action>, a: Action)
    requires ValidConfig(c) && !FifoRoles(c)
    ensures FreshSchedule(c, acts) && Fresh(Exec(c, acts), a) && !Refines(c, acts, a)
  {
    var s: State;
    if x, y :| x in c.producers && y in c.producers && x != y {
      s := FullBeforePublished(c, true, x, y, v);
      a := Run(y);
    } else {
      var x, y :| x in c.consumers && y in c.consumers && x != y;
      var p :| p in c.producers;
      if x == p {
        x, y := y, x;
      }
      s := EmptyOnAFullRing(c, true, x, y, p, v);
      a := Run(x);
    }
    acts := WrongRefusal(c, s, a.t);
  }

  /**
   Every step of every schedule, refusals included, is a step of the bounded
   queue if and only if the capacity is zero, or there is no producer, or there
   is at most one producer and one consumer. Excluding laps does not help.
   */
  lemma RefinesFifoIff(c: Config, v: Value)
    requires ValidConfig(c)
    ensures (forall acts, a :: Refines(c, acts, a)) <==> FifoRoles(c)
    ensures (forall acts, a :: FreshSchedule(c, acts) && Fresh(Exec(c, acts), a) ==> Refines(c, acts, a))
      <==> FifoRoles(c)
  {
    if FifoRoles(c) {
      forall acts, a ensures Refines(c, acts, a) {
        if c.cap == 0 || c.producers == {} {
          NothingToRefuse(c, acts, a);
        } else {
          SoleRolesRefineFifo(c, acts, a);
        }
      }
    } else {
      var acts, a := OtherRolesRefuseWrongly(c, v);
    }
  }
}
