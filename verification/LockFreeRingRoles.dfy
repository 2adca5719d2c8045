/**
 Which threads may share a lock-free ring: the schedules of a configuration are
 all correct exactly when nobody can be lapped.
 */
module LockFreeRingRoles {
  import opened RingIndex
  import opened BoundedFifo
  import opened LockFreeRing
  import opened LockFreeRingSafety

  ghost predicate AtMostOne(xs: set<nat>) {
    forall x, y :: x in xs && y in xs ==> x == y
  }

  /** The configurations in which no thread can fall a full lap behind. */
  ghost predicate SafeRoles(c: Config) {
    || c.cap == 0 || c.producers == {} || c.consumers == {}
    || (AtMostOne(c.producers) && AtMostOne(c.consumers))
  }

  predicate Emplacing(pc: Pc) {
    pc.EmplaceLoad? || HasTail(pc)
  }

  predicate Popping(pc: Pc) {
    pc.PopLoad? || HasHead(pc)
  }

  ghost predicate ThreadRole(c: Config, s: State, i: nat)
    requires WellFormed(s) && i < |s.r.pcs|
  {
    && (Emplacing(s.r.pcs[i]) ==> i in c.producers)
    && (Popping(s.r.pcs[i]) ==> i in c.consumers)
    && (AtMostOne(c.producers) ==>
          s.r.pcs[i].EmplaceCheck? || s.r.pcs[i].EmplaceCas? ==> s.h.ticket[i] == s.T())
    && (AtMostOne(c.consumers) ==> HasHead(s.r.pcs[i]) ==> s.h.ticket[i] == s.H())
  }

  ghost predicate RoleInv(c: Config, s: State)
    requires WellFormed(s)
  {
    && s.r.n == c.cap + 1
    && (c.consumers == {} ==> s.H() == 0)
    && (c.producers == {} || c.cap == 0 ==> s.T() == 0)
    && forall i :: 0 <= i < |s.r.pcs| ==> ThreadRole(c, s, i)
  }

  /** With safe roles, whoever wins a compare-exchange has not been lapped. */
  lemma SafeRolesAreFresh(c: Config, s: State, a: Action)
    requires WellFormed(s) && Inv(s) && RoleInv(c, s) && SafeRoles(c)
    ensures Fresh(s, a)
  {
    if a.Run? && a.t < |s.r.pcs| {
      assert ThreadInv(s, a.t) && ThreadRole(c, s, a.t);
    }
  }

  /** Only a producer moves T and only a consumer moves H, so a sole one stays current. */
  lemma OtherRoleKept(c: Config, s: State, s': State, t: nat, i: nat)
    requires WellFormed(s) && WellFormed(s') && i != t
    requires i < |s.r.pcs| == |s'.r.pcs| && ThreadRole(c, s, i)
    requires s'.r.pcs[i] == s.r.pcs[i] && s'.h.ticket[i] == s.h.ticket[i]
    requires s'.T() == s.T() || t in c.producers
    requires s'.H() == s.H() || t in c.consumers
    ensures ThreadRole(c, s', i)
  {
  }

  lemma ActorRoleKept(c: Config, s: State, t: nat)
    requires WellFormed(s) && t < |s.r.pcs| && ThreadInv(s, t) && ThreadRole(c, s, t)
    ensures ThreadRole(c, Step(s, t), t)
    ensures Step(s, t).T() == s.T() || (t in c.producers && s.r.n > 1)
    ensures Step(s, t).H() == s.H() || t in c.consumers
  {
  }

  lemma CallRoleKept(c: Config, s: State, a: Action)
    requires WellFormed(s) && !a.Run? && a.t < |s.r.pcs| && ThreadRole(c, s, a.t)
    ensures ThreadRole(c, Apply(c, s, a), a.t)
    ensures Apply(c, s, a).h == s.h
  {
  }

  lemma RoleInvKept(c: Config, s: State, a: Action)
    requires WellFormed(s) && Inv(s) && RoleInv(c, s)
    ensures RoleInv(c, Apply(c, s, a))
  {
    if a.t < |s.r.pcs| {
      assert ThreadInv(s, a.t) && ThreadRole(c, s, a.t);
      if a.Run? {
        ActorRoleKept(c, s, a.t);
      } else {
        CallRoleKept(c, s, a);
      }
      OnlyTheActorMoves(c, s, a);
      RolesFollow(c, s, Apply(c, s, a), a.t);
    }
  }

  lemma RolesFollow(c: Config, s: State, s': State, t: nat)
    requires WellFormed(s) && WellFormed(s') && RoleInv(c, s)
    requires t < |s.r.pcs| == |s'.r.pcs| && s'.r.n == s.r.n && ThreadRole(c, s', t)
    requires forall i :: 0 <= i < |s.r.pcs| && i != t ==>
      s'.r.pcs[i] == s.r.pcs[i] && s'.h.ticket[i] == s.h.ticket[i]
    requires s'.T() == s.T() || (t in c.producers && s.r.n > 1)
    requires s'.H() == s.H() || t in c.consumers
    ensures RoleInv(c, s')
  {
    forall i | 0 <= i < |s'.r.pcs| && i != t ensures ThreadRole(c, s', i) {
      OtherRoleKept(c, s, s', t, i);
    }
  }

  lemma {:induction false} SafeRolesKeepInv(c: Config, acts: seq<Action>)
    requires SafeRoles(c)
    ensures Inv(Exec(c, acts)) && RoleInv(c, Exec(c, acts))
  {
    if acts == [] {
      InitInv(c);
    } else {
      var s, a := Exec(c, acts[..|acts| - 1]), acts[|acts| - 1];
      SafeRolesKeepInv(c, acts[..|acts| - 1]);
      SafeRolesAreFresh(c, s, a);
      ApplyKeepsInv(c, s, a);
      RoleInvKept(c, s, a);
    }
  }

  /** No hypothesis on the schedule is left: nobody is ever lapped. */
  lemma {:induction false} SafeRolesAreAlwaysFresh(c: Config, acts: seq<Action>)
    requires SafeRoles(c)
    ensures FreshSchedule(c, acts)
  {
    forall i | 0 <= i < |acts| ensures Fresh(Exec(c, acts[..i]), acts[i]) {
      SafeRolesKeepInv(c, acts[..i]);
      SafeRolesAreFresh(c, Exec(c, acts[..i]), acts[i]);
    }
  }

  /** The producer at its check has no claim outstanding: everything is published. */
  lemma SoleProducerHasPublished(c: Config, s: State, t: nat)
    requires WellFormed(s) && Inv(s) && RoleInv(c, s) && AtMostOne(c.producers)
    requires t < |s.r.pcs| && s.r.pcs[t].EmplaceCheck?
    ensures s.U() == s.T() == s.h.ticket[t]
  {
    assert ThreadRole(c, s, t);
    var next := if s.U() < s.T() then s.h.owner[s.U()] else t;
    forall i | 0 <= i < |s.r.pcs| && IsClaimant(s.r.pcs[i]) ensures i == t {
      assert ThreadRole(c, s, i);
    }
  }

  lemma FailuresAreHonest(c: Config, s: State, t: nat)
    requires WellFormed(s) && Inv(s) && RoleInv(c, s)
    requires AtMostOne(c.producers) && AtMostOne(c.consumers) && t < |s.r.pcs|
    requires EventOf(s.r, t).EmplaceFull? || EventOf(s.r, t).PopEmpty?
    ensures FifoStep(c.cap, Queue(s), EventOf(s.r, t), Queue(s))
  {
    assert ThreadRole(c, s, t);
    CurrentRefusals(s, Run(t));
    if s.r.pcs[t].EmplaceCheck? {
      SoleProducerHasPublished(c, s, t);
    }
  }

  /**
   With one producer and one consumer every step of every schedule, successful
   or not, is a step of the bounded queue that the locked ring implements.
   */
  lemma {:induction false} SoleRolesRefineFifo(c: Config, acts: seq<Action>, a: Action)
    requires AtMostOne(c.producers) && AtMostOne(c.consumers)
    ensures var s, s' := Exec(c, acts), Apply(c, Exec(c, acts), a);
      && s.H() <= s.U() <= s.T() && s'.H() <= s'.U() <= s'.T()
      && FifoStep(c.cap, Queue(s), Observed(s, a), Queue(s'))
  {
    var s := Exec(c, acts);
    SafeRolesAreAlwaysFresh(c, acts);
    SafeRolesKeepInv(c, acts);
    SafeRolesAreFresh(c, s, a);
    if Observed(s, a) in {EmplaceFull, PopEmpty} {
      FailuresAreHonest(c, s, a.t);
      OtherStepsKeepQueue(s, a.t);
    } else {
      FreshOperationsAreFifo(c, acts, a);
    }
  }
}
