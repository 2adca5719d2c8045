/** What a thread does after it loses a compare-exchange: it loads again, and alone it answers truly. */
module LockFreeRingRetries {
  import opened Values
  import opened RingIndex
  import opened BoundedFifo
  import opened LockFreeRing
  import opened LockFreeRingSafety
  import opened LockFreeRingRuns

  /** Thread `t` takes `n` steps and nobody else moves. */
  function Alone(s: State, t: nat, n: nat): (s': State)
    requires WellFormed(s) && t < |s.r.pcs|
    ensures WellFormed(s') && |s'.r.pcs| == |s.r.pcs|
    decreases n
  {
    if n == 0 then s else Alone(Step(s, t), t, n - 1)
  }

  /** Such steps are the end of a schedule. */
  lemma {:induction false} AloneIsScheduled(c: Config, acts: seq<Action>, t: nat, n: nat)
    requires t < |Exec(c, acts).r.pcs|
    ensures Alone(Exec(c, acts), t, n) == Exec(c, acts + seq(n, _ => Run(t)))
    decreases n
  {
    if n == 0 {
      assert acts + seq(n, _ => Run(t)) == acts;
    } else {
      var next := acts + [Run(t)];
      assert next[..|acts|] == acts;
      assert Exec(c, next) == Step(Exec(c, acts), t);
      AloneIsScheduled(c, next, t, n - 1);
      assert next + seq(n - 1, _ => Run(t)) == acts + seq(n, _ => Run(t));
    }
  }

  /** `t` is about to load `head_`, or to lose its compare-exchange on it. */
  predicate PopStartsOver(s: State, t: nat)
    requires WellFormed(s) && t < |s.r.pcs|
  {
    s.r.pcs[t].PopLoad? || (s.r.pcs[t].PopCas? && s.r.pcs[t].head != s.r.head)
  }

  predicate EmplaceStartsOver(s: State, t: nat)
    requires WellFormed(s) && t < |s.r.pcs|
  {
    s.r.pcs[t].EmplaceLoad? || (s.r.pcs[t].EmplaceCas? && s.r.pcs[t].tail != s.r.tail)
  }

  /** After `n` steps alone `t` returns with answer `e`, leaving the queue `q`. */
  ghost predicate Answers(s: State, t: nat, n: nat, e: Event, q: seq<Value>)
    requires WellFormed(s) && t < |s.r.pcs|
  {
    var last, end := Alone(s, t, n), Alone(s, t, n + 1);
    && EventOf(last.r, t) == e && end.r.pcs[t].Idle?
    && end.H() <= end.U() <= end.T() && Queue(end) == q
  }

  lemma AloneFirst(s: State, t: nat, n: nat, e: Event, q: seq<Value>)
    requires WellFormed(s) && t < |s.r.pcs| && n > 0
    ensures Answers(s, t, n, e, q) == Answers(Step(s, t), t, n - 1, e, q)
  {
  }

  lemma CopyAnswers(s: State, t: nat)
    requires WellFormed(s) && Inv(s) && t < |s.r.pcs| && s.H() < s.U()
    requires s.r.pcs[t] == PopCopy(s.r.head) && s.h.ticket[t] == s.H()
    ensures Answers(s, t, 2, PopOk(Queue(s)[0]), Queue(s)[1..])
  {
    var s1 := With(s, t, PopReread(s.r.head, Full(s.h.log[s.H()])));
    assert Step(s, t) == s1;
    var s2 := With(s, t, PopCas(s.r.head, Full(s.h.log[s.H()]), Succ(s.r.n, s.r.head)));
    assert Step(s1, t) == s2;
    var s3 := Step(s2, t);
    assert s3.h.popped == s.h.popped + [Full(s.h.log[s.H()])];
    assert Queue(s3) == Queue(s)[1..];
    assert Alone(s, t, 2) == s2 by { assert Alone(s1, t, 1) == s2; }
    assert Alone(s, t, 3) == s3 by { assert Alone(s1, t, 2) == s3 by { assert Alone(s2, t, 1) == s3; } }
  }

  /** A thread that has just loaded `head_` answers in at most five steps. */
  lemma LoadedAnswers(s: State, t: nat)
    requires WellFormed(s) && Inv(s) && t < |s.r.pcs|
    requires s.r.pcs[t] == PopCheckTail(s.r.head) && s.h.ticket[t] == s.H()
    ensures Queue(s) != [] ==> Answers(s, t, 4, PopOk(Queue(s)[0]), Queue(s)[1..])
    ensures Queue(s) == [] ==> Answers(s, t, if s.H() == s.T() then 0 else 1, PopEmpty, [])
  {
    var s1 := With(s, t, PopCheckUp(s.r.head));
    if s.H() < s.U() {
      ChecksSeeRoom(s);
      var s2 := With(s, t, PopCopy(s.r.head));
      assert Step(s, t) == s1 && Step(s1, t) == s2;
      PopReadKept(s, t);
      PopReadKept(s1, t);
      CopyAnswers(s2, t);
      AloneFirst(s1, t, 3, PopOk(Queue(s)[0]), Queue(s)[1..]);
      AloneFirst(s, t, 4, PopOk(Queue(s)[0]), Queue(s)[1..]);
    } else if s.H() == s.T() {
      assert Alone(s, t, 1) == Step(s, t);
    } else {
      if s.r.head == s.r.tail { SameTicket(s, s.H(), s.T()); }
      assert Step(s, t) == s1;
      assert Alone(s1, t, 1) == Step(s1, t);
      AloneFirst(s, t, 1, PopEmpty, []);
    }
  }

  lemma PopLoadAnswers(s: State, t: nat)
    requires WellFormed(s) && Inv(s) && t < |s.r.pcs| && s.r.pcs[t].PopLoad?
    ensures Queue(s) != [] ==> Answers(s, t, 5, PopOk(Queue(s)[0]), Queue(s)[1..])
    ensures Queue(s) == [] ==> Answers(s, t, if s.H() == s.T() then 1 else 2, PopEmpty, [])
  {
    var s1 := With(Ticketed(s, t, s.H()), t, PopCheckTail(s.r.head));
    assert Step(s, t) == s1;
    PopReadKept(s, t);
    LoadedAnswers(s1, t);
    if Queue(s) != [] {
      AloneFirst(s, t, 5, PopOk(Queue(s)[0]), Queue(s)[1..]);
    } else {
      AloneFirst(s, t, if s.H() == s.T() then 1 else 2, PopEmpty, []);
    }
  }

  /**
   On every fresh schedule a pop that starts or is about to lose its
   compare-exchange answers, if it runs alone, in at most eight steps: with the
   first element if there is one, and "empty" only if there is none.
   */
  lemma {:induction false} LostPopAnswersTruly(c: Config, acts: seq<Action>, t: nat)
    requires FreshSchedule(c, acts) && t < |Exec(c, acts).r.pcs| && PopStartsOver(Exec(c, acts), t)
    ensures var s := Exec(c, acts);
      var loads := if s.r.pcs[t].PopLoad? then 1 else 2;
      && s.H() <= s.U() <= s.T()
      && (Queue(s) != [] ==> Answers(s, t, loads + 4, PopOk(Queue(s)[0]), Queue(s)[1..]))
      && (Queue(s) == [] ==> Answers(s, t, if s.H() == s.T() then loads else loads + 1, PopEmpty, []))
  {
    var s := Exec(c, acts);
    FreshSchedulesKeepInv(c, acts);
    if s.r.pcs[t].PopLoad? {
      PopLoadAnswers(s, t);
    } else {
      var s1 := With(s, t, PopLoad);
      assert Step(s, t) == s1;
      PopKept(s, t);
      PopLoadAnswers(s1, t);
      if Queue(s) != [] {
        AloneFirst(s, t, 6, PopOk(Queue(s)[0]), Queue(s)[1..]);
      } else {
        AloneFirst(s, t, if s.H() == s.T() then 2 else 3, PopEmpty, []);
      }
    }
  }

  /** After `n` steps alone `t` holds ticket T for its value. */
  ghost predicate ClaimsNext(s: State, t: nat, n: nat, v: Value)
    requires WellFormed(s) && t < |s.r.pcs|
  {
    var end := Alone(s, t, n);
    && end.h.log == s.h.log + [v] && end.h.owner == s.h.owner + [t] && end.h.ticket[t] == s.T()
    && end.r.pcs == s.r.pcs[t := Claimed(v, s.r.tail)]
  }

  lemma LoadedEmplace(s: State, t: nat, v: Value)
    requires WellFormed(s) && Inv(s) && t < |s.r.pcs|
    requires s.r.pcs[t] == EmplaceCheck(v, s.r.tail) && s.h.ticket[t] == s.T()
    ensures if s.T() == s.H() + s.r.n - 1 then Answers(s, t, 0, EmplaceFull, Queue(s)) else ClaimsNext(s, t, 2, v)
  {
    AtSucc(s.r.n, s.T());
    if s.T() == s.H() + s.r.n - 1 {
      assert At(s.r.n, s.H() + s.r.n) == At(s.r.n, s.H());
      assert Alone(s, t, 1) == Step(s, t);
    } else {
      ChecksSeeRoom(s);
      var s1 := With(s, t, EmplaceCas(v, s.r.tail));
      assert Step(s, t) == s1;
      assert Alone(s, t, 2) == Step(s1, t) by { assert Alone(s1, t, 1) == Step(s1, t); }
    }
  }

  lemma EmplaceLoadAnswers(s: State, t: nat, v: Value)
    requires WellFormed(s) && Inv(s) && t < |s.r.pcs| && s.r.pcs[t] == EmplaceLoad(v)
    ensures if s.T() == s.H() + s.r.n - 1 then Answers(s, t, 1, EmplaceFull, Queue(s)) else ClaimsNext(s, t, 3, v)
  {
    var s1 := With(Ticketed(s, t, s.T()), t, EmplaceCheck(v, s.r.tail));
    assert Step(s, t) == s1;
    EmplaceReadKept(s, t);
    LoadedEmplace(s1, t, v);
    AloneFirst(s, t, 1, EmplaceFull, Queue(s));
  }

  /**
   Likewise an emplace that starts or is about to lose its compare-exchange:
   alone, it answers "full" exactly when every place is claimed, and otherwise
   claims the next ticket for its own argument.
   */
  lemma {:induction false} LostEmplaceAnswersTruly(c: Config, acts: seq<Action>, t: nat)
    requires FreshSchedule(c, acts) && t < |Exec(c, acts).r.pcs| && EmplaceStartsOver(Exec(c, acts), t)
    ensures var s := Exec(c, acts);
      var loads, v := if s.r.pcs[t].EmplaceLoad? then 1 else 2, s.r.pcs[t].v;
      && s.H() <= s.U() <= s.T()
      && if s.T() == s.H() + c.cap then Answers(s, t, loads, EmplaceFull, Queue(s)) else ClaimsNext(s, t, loads + 2, v)
  {
    var s := Exec(c, acts);
    FreshSchedulesKeepInv(c, acts);
    CapacityIsFixed(c, acts);
    if s.r.pcs[t].EmplaceLoad? {
      EmplaceLoadAnswers(s, t, s.r.pcs[t].v);
    } else {
      var v := s.r.pcs[t].v;
      var s1 := With(s, t, EmplaceLoad(v));
      assert Step(s, t) == s1;
      ClaimKept(s, t);
      EmplaceLoadAnswers(s1, t, v);
      AloneFirst(s, t, 2, EmplaceFull, Queue(s));
    }
  }
}
