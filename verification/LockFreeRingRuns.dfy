/**
 Operations that run undisturbed, as pieces of schedules: a producer's `emplace`
 and a consumer's `pop` cut at their loads, checks and compare-exchanges, and
 whole operations repeated to fill a ring or to move it round. Every piece says
 that the state it ends in is reached by some schedule, and if asked, by one in
 which nobody wins a compare-exchange with an index a full lap old; so the pieces
 can be put together into schedules that are fresh, or into any.
 */
module LockFreeRingRuns {
  import opened Values
  import opened RingIndex
  import opened LockFreeRing

  /** Some schedule ends in `s`; if `unlapped`, one in which nobody wins with an index a full lap old. */
  ghost predicate Leads(c: Config, unlapped: bool, s: State) {
    exists acts :: Exec(c, acts) == s && (unlapped ==> FreshSchedule(c, acts))
  }

  lemma FreshThen(c: Config, acts: seq<Action>, a: Action)
    requires FreshSchedule(c, acts) && Fresh(Exec(c, acts), a)
    ensures FreshSchedule(c, acts + [a])
  {
    forall i | 0 <= i < |acts + [a]| ensures Fresh(Exec(c, (acts + [a])[..i]), (acts + [a])[i]) {
      assert (acts + [a])[..i] == acts[..i];
      assert acts[..|acts|] == acts;
    }
  }

  lemma LeadsStep(c: Config, unlapped: bool, s: State, a: Action)
    requires WellFormed(s) && Leads(c, unlapped, s) && (unlapped ==> Fresh(s, a))
    ensures Leads(c, unlapped, Apply(c, s, a))
  {
    var acts :| Exec(c, acts) == s && (unlapped ==> FreshSchedule(c, acts));
    assert (acts + [a])[..|acts|] == acts;
    assert Exec(c, acts + [a]) == Apply(c, s, a);
    if unlapped {
      FreshThen(c, acts, a);
    }
  }

  /** Everything claimed is published. */
  ghost predicate Calm(c: Config, s: State) {
    WellFormed(s) && Ordered(s) && s.r.n == c.cap + 1 && |s.r.pcs| == c.threads && s.U() == s.T()
  }

  /** One scheduled step of thread `t`, with its outcome spelled out. */
  lemma StepTo(c: Config, unlapped: bool, s: State, t: nat, s': State)
    requires WellFormed(s) && Leads(c, unlapped, s) && t < |s.r.pcs| && Step(s, t) == s'
    requires unlapped ==> Fresh(s, Run(t))
    ensures Leads(c, unlapped, s')
  {
    LeadsStep(c, unlapped, s, Run(t));
  }

  function With(s: State, t: nat, pc: Pc): State
    requires WellFormed(s) && t < |s.r.pcs|
  {
    s.(r := s.r.(pcs := s.r.pcs[t := pc]))
  }

  function Ticketed(s: State, t: nat, k: nat): State
    requires WellFormed(s) && t < |s.r.pcs|
  {
    s.(h := s.h.(ticket := s.h.ticket[t := k]))
  }

  /** In a ring whose tickets are in order the full check and the emptiness checks tell the truth. */
  lemma ChecksSeeRoom(s: State)
    requires WellFormed(s) && Ordered(s)
    ensures s.T() + 1 < s.H() + s.r.n ==> Succ(s.r.n, s.r.tail) != s.r.head
    ensures s.H() < s.U() ==> s.r.head != s.r.tail && s.r.head != s.r.tailUp
  {
    AtSucc(s.r.n, s.T());
    if s.T() + 1 < s.H() + s.r.n && Succ(s.r.n, s.r.tail) == s.r.head {
      AtInjective(s.r.n, s.H(), s.T() + 1);
    }
    if s.H() < s.U() && s.r.head == s.r.tail {
      SameTicket(s, s.H(), s.T());
    }
    if s.H() < s.U() && s.r.head == s.r.tailUp {
      SameTicket(s, s.H(), s.U());
    }
  }

  /** An idle producer calls `emplace` and loads `tail_`. */
  lemma EmplaceLoads(c: Config, unlapped: bool, s: State, p: nat, v: Value) returns (s': State)
    requires WellFormed(s) && Leads(c, unlapped, s)
    requires p in c.producers && p < |s.r.pcs| && s.r.pcs[p].Idle?
    ensures Leads(c, unlapped, s') && s' == With(Ticketed(s, p, s.T()), p, EmplaceCheck(v, s.r.tail))
  {
    LeadsStep(c, unlapped, s, CallEmplace(p, v));
    s' := With(Ticketed(s, p, s.T()), p, EmplaceCheck(v, s.r.tail));
    StepTo(c, unlapped, With(s, p, EmplaceLoad(v)), p, s');
  }

  /** An idle producer that does not find the ring full gets as far as its compare-exchange. */
  lemma EmplaceUpToCas(c: Config, unlapped: bool, s: State, p: nat, v: Value) returns (s': State)
    requires WellFormed(s) && Leads(c, unlapped, s)
    requires p in c.producers && p < |s.r.pcs| && s.r.pcs[p].Idle? && Succ(s.r.n, s.r.tail) != s.r.head
    ensures Leads(c, unlapped, s')
    ensures s' == With(Ticketed(s, p, s.T()), p, EmplaceCas(v, s.r.tail))
  {
    var s1 := EmplaceLoads(c, unlapped, s, p, v);
    s' := With(Ticketed(s, p, s.T()), p, EmplaceCas(v, s.r.tail));
    StepTo(c, unlapped, s1, p, s');
  }

  /** From a compare-exchange that will succeed, a claim. */
  lemma CasWins(c: Config, unlapped: bool, s: State, p: nat, v: Value) returns (s': State)
    requires WellFormed(s) && Leads(c, unlapped, s)
    requires p < |s.r.pcs| && s.r.pcs[p] == EmplaceCas(v, s.r.tail)
    requires unlapped ==> s.T() < s.h.ticket[p] + s.r.n
    ensures Leads(c, unlapped, s') && WellFormed(s') && s'.r.n == s.r.n
    ensures s'.r == s.r.(tail := Succ(s.r.n, s.r.tail), pcs := s.r.pcs[p := Claimed(v, s.r.tail)])
    ensures s'.h == s.h.(log := s.h.log + [v], owner := s.h.owner + [p])
  {
    s' := Step(s, p);
    StepTo(c, unlapped, s, p, s');
  }

  lemma Constructs(c: Config, unlapped: bool, s: State, p: nat, v: Value, tail: nat) returns (s': State)
    requires WellFormed(s) && Leads(c, unlapped, s)
    requires p < |s.r.pcs| && s.r.pcs[p] == Claimed(v, tail)
    ensures Leads(c, unlapped, s')
    ensures s' == With(s.(r := s.r.(slots := s.r.slots[tail := Full(v)])), p, Publish(v, tail))
  {
    var s1 := With(s.(r := s.r.(slots := s.r.slots[tail := Torn])), p, Constructing(v, tail));
    StepTo(c, unlapped, s, p, s1);
    assert s.r.slots[tail := Torn][tail := Full(v)] == s.r.slots[tail := Full(v)];
    s' := With(s.(r := s.r.(slots := s.r.slots[tail := Full(v)])), p, Publish(v, tail));
    StepTo(c, unlapped, s1, p, s');
  }

  /** A claim on its turn is constructed and published. */
  lemma PublishRuns(c: Config, unlapped: bool, s: State, p: nat, v: Value) returns (s': State)
    requires WellFormed(s) && Leads(c, unlapped, s)
    requires p < |s.r.pcs| && s.r.pcs[p] == Claimed(v, s.r.tailUp)
    ensures Leads(c, unlapped, s') && WellFormed(s')
    ensures s'.r == s.r.(tailUp := Succ(s.r.n, s.r.tailUp), pcs := s.r.pcs[p := Idle],
                         slots := s.r.slots[s.r.tailUp := Full(v)])
    ensures s'.h == s.h.(published := s.h.published + 1)
  {
    var s1 := Constructs(c, unlapped, s, p, v, s.r.tailUp);
    s' := Step(s1, p);
    StepTo(c, unlapped, s1, p, s');
  }

  /** A whole `emplace` by an idle producer of a calm ring that is not full. */
  lemma EmplaceRuns(c: Config, unlapped: bool, s: State, p: nat, v: Value) returns (s': State)
    requires Calm(c, s) && Leads(c, unlapped, s)
    requires p in c.producers && p < |s.r.pcs| && s.r.pcs[p].Idle? && s.T() < s.H() + c.cap
    ensures Leads(c, unlapped, s') && Calm(c, s')
    ensures s'.h.popped == s.h.popped && s'.h.log == s.h.log + [v] && s'.r.pcs == s.r.pcs
    ensures s'.r.slots == s.r.slots[At(s.r.n, s.T()) := Full(v)]
  {
    ChecksSeeRoom(s);
    var s1 := EmplaceUpToCas(c, unlapped, s, p, v);
    var s2 := CasWins(c, unlapped, s1, p, v);
    s' := PublishRuns(c, unlapped, s2, p, v);
    assert s'.r.pcs == s.r.pcs;
    OneMoreTicket(c, s, s', v);
  }

  /** With one more ticket claimed and published the ring is calm again. */
  lemma OneMoreTicket(c: Config, s: State, s': State, v: Value)
    requires Calm(c, s) && WellFormed(s') && s.T() < s.H() + c.cap
    requires s'.r.n == s.r.n && s'.r.pcs == s.r.pcs && s'.r.head == s.r.head
    requires s'.r.tail == Succ(s.r.n, s.r.tail) && s'.r.tailUp == Succ(s.r.n, s.r.tailUp)
    requires s'.h.log == s.h.log + [v] && s'.h.popped == s.h.popped && s'.U() == s.U() + 1
    ensures Calm(c, s')
  {
    AtSucc(s.r.n, s.T());
  }

  /** An idle consumer calls `pop` and loads `head_`. */
  lemma PopLoads(c: Config, unlapped: bool, s: State, q: nat) returns (s': State)
    requires WellFormed(s) && Leads(c, unlapped, s)
    requires q in c.consumers && q < |s.r.pcs| && s.r.pcs[q].Idle?
    ensures Leads(c, unlapped, s') && s' == With(Ticketed(s, q, s.H()), q, PopCheckTail(s.r.head))
  {
    LeadsStep(c, unlapped, s, CallPop(q));
    s' := With(Ticketed(s, q, s.H()), q, PopCheckTail(s.r.head));
    StepTo(c, unlapped, With(s, q, PopLoad), q, s');
  }

  /** A consumer that does not find the ring empty passes both checks. */
  lemma ChecksPass(c: Config, unlapped: bool, s: State, q: nat) returns (s': State)
    requires WellFormed(s) && Leads(c, unlapped, s) && s.r.head != s.r.tail && s.r.head != s.r.tailUp
    requires q < |s.r.pcs| && s.r.pcs[q] == PopCheckTail(s.r.head)
    ensures Leads(c, unlapped, s') && s' == With(s, q, PopCopy(s.r.head))
  {
    var s1 := With(s, q, PopCheckUp(s.r.head));
    StepTo(c, unlapped, s, q, s1);
    s' := With(s, q, PopCopy(s.r.head));
    StepTo(c, unlapped, s1, q, s');
  }

  lemma PopCopies(c: Config, unlapped: bool, s: State, q: nat) returns (s': State)
    requires WellFormed(s) && Leads(c, unlapped, s)
    requires q < |s.r.pcs| && s.r.pcs[q] == PopCopy(s.r.head)
    ensures Leads(c, unlapped, s')
    ensures s' == With(s, q, PopCas(s.r.head, s.r.slots[s.r.head], Succ(s.r.n, s.r.head)))
  {
    var head, x := s.r.head, s.r.slots[s.r.head];
    var s1 := With(s, q, PopReread(head, x));
    StepTo(c, unlapped, s, q, s1);
    s' := With(s, q, PopCas(head, x, Succ(s.r.n, head)));
    StepTo(c, unlapped, s1, q, s');
  }

  lemma PopUpToCas(c: Config, unlapped: bool, s: State, q: nat) returns (s': State)
    requires WellFormed(s) && Leads(c, unlapped, s) && s.r.head != s.r.tail && s.r.head != s.r.tailUp
    requires q in c.consumers && q < |s.r.pcs| && s.r.pcs[q].Idle?
    ensures Leads(c, unlapped, s')
    ensures s' == With(Ticketed(s, q, s.H()), q,
                       PopCas(s.r.head, s.r.slots[s.r.head], Succ(s.r.n, s.r.head)))
  {
    var s1 := PopLoads(c, unlapped, s, q);
    var s2 := ChecksPass(c, unlapped, s1, q);
    s' := PopCopies(c, unlapped, s2, q);
    assert s'.r.pcs == s.r.pcs[q := s'.r.pcs[q]];
  }

  /** A whole `pop` by an idle consumer that does not find the ring empty. */
  lemma PopTakes(c: Config, unlapped: bool, s: State, q: nat) returns (s': State)
    requires WellFormed(s) && Leads(c, unlapped, s) && s.r.head != s.r.tail && s.r.head != s.r.tailUp
    requires q in c.consumers && q < |s.r.pcs| && s.r.pcs[q].Idle?
    ensures Leads(c, unlapped, s') && WellFormed(s') && s'.r == s.r.(head := Succ(s.r.n, s.r.head))
    ensures s'.h == s.h.(ticket := s'.h.ticket, popped := s.h.popped + [s.r.slots[s.r.head]])
  {
    var s1 := PopUpToCas(c, unlapped, s, q);
    s' := Step(s1, q);
    StepTo(c, unlapped, s1, q, s');
  }

  /** A whole `pop` by an idle consumer of a calm ring that is not empty. */
  lemma PopRuns(c: Config, unlapped: bool, s: State, q: nat) returns (s': State)
    requires Calm(c, s) && Leads(c, unlapped, s)
    requires q in c.consumers && q < |s.r.pcs| && s.r.pcs[q].Idle? && s.H() < s.T()
    ensures Leads(c, unlapped, s') && Calm(c, s') && s'.r.pcs == s.r.pcs
    ensures s'.h.log == s.h.log && s'.h.popped == s.h.popped + [s.r.slots[s.r.head]]
  {
    ChecksSeeRoom(s);
    s' := PopTakes(c, unlapped, s, q);
    AtSucc(s.r.n, s.H());
  }

  /** From ticket `from` on, everything emplaced is `v`. */
  ghost predicate OnlyFrom(s: State, from: nat, v: Value) {
    forall i :: from <= i < |s.h.log| ==> s.h.log[i] == v
  }

  /** Producer `p` alone fills the ring up to `t` tickets. */
  lemma {:induction false} Fills(c: Config, unlapped: bool, s: State, p: nat, v: Value, t: nat)
    returns (s': State)
    requires Calm(c, s) && Leads(c, unlapped, s)
    requires p in c.producers && p < |s.r.pcs| && s.r.pcs[p].Idle?
    requires s.T() <= t <= s.H() + c.cap && OnlyFrom(s, 0, v)
    ensures Leads(c, unlapped, s') && Calm(c, s') && OnlyFrom(s', 0, v)
    ensures s'.H() == s.H() && s'.T() == t && s'.r.pcs == s.r.pcs
    decreases t - s.T()
  {
    if s.T() == t {
      s' := s;
    } else {
      var s1 := EmplaceRuns(c, unlapped, s, p, v);
      s' := Fills(c, unlapped, s1, p, v, t);
    }
  }

  /** From the start, `p` fills the ring, `q` takes one and `p` adds one: `tail_` has come round to 0. */
  lemma ComesRound(c: Config, unlapped: bool, s: State, p: nat, q: nat, v: Value) returns (s': State)
    requires Calm(c, s) && Leads(c, unlapped, s) && c.cap > 0 && s.T() == 0
    requires p in c.producers && p < |s.r.pcs| && s.r.pcs[p].Idle?
    requires q in c.consumers && q < |s.r.pcs| && s.r.pcs[q].Idle?
    ensures Leads(c, unlapped, s') && Calm(c, s') && OnlyFrom(s', 0, v) && s'.r.pcs == s.r.pcs
    ensures s'.H() == s'.r.head == 1 && s'.T() == s'.r.n && s'.r.tail == s'.r.tailUp == 0
  {
    var s1 := Fills(c, unlapped, s, p, v, c.cap);
    var s2 := PopRuns(c, unlapped, s1, q);
    s' := EmplaceRuns(c, unlapped, s2, p, v);
    assert At(s'.r.n, s'.r.n) == 0;
  }

  /** Producer and consumer in turn move an empty ring on to ticket `t`. */
  lemma {:induction false} Cycles(c: Config, unlapped: bool, s: State, p: nat, q: nat, v: Value, t: nat)
    returns (s': State)
    requires Calm(c, s) && Leads(c, unlapped, s) && c.cap > 0
    requires p in c.producers && p < |s.r.pcs| && s.r.pcs[p].Idle?
    requires q in c.consumers && q < |s.r.pcs| && s.r.pcs[q].Idle?
    requires s.H() == s.T() <= t && OnlyFrom(s, 1, v)
    ensures Leads(c, unlapped, s') && Calm(c, s') && OnlyFrom(s', 1, v)
    ensures s'.H() == t == s'.T() && s'.r.pcs == s.r.pcs && s.h.log <= s'.h.log && s.h.popped <= s'.h.popped
    decreases t - s.T()
  {
    if s.T() == t {
      s' := s;
    } else {
      var s1 := EmplaceRuns(c, unlapped, s, p, v);
      var s2 := PopRuns(c, unlapped, s1, q);
      s' := Cycles(c, unlapped, s2, p, q, v, t);
    }
  }

  lemma Starts(c: Config, unlapped: bool) returns (s: State)
    ensures s == Init(c) && Calm(c, s) && Leads(c, unlapped, s)
  {
    s := Init(c);
    assert Exec(c, []) == s;
  }
}
