/**
 When the reply an ATM handles is the one it waits for: exactly when nothing
 else is outstanding, and always if no cancel is handled in `verifyingPin`.
 */
module AtmCurrent {
  import opened Options
  import opened Atm
  import opened AtmReplies

  // ------------------------------------------------- the latest request

  /** The request whose reply the ATM waits for in its state, if it waits for one. */
  function Awaited(a: Atm): Option<Request> {
    match a.mode
    case VerifyingPin => Some(VerifyPin(a.pin))
    case ProcessingWithdrawal => Some(Withdraw(a.amount))
    case ProcessBalance => Some(GetBalance)
    case _ => None
  }

  /** Every queued cancellation is of one of the first `n` requests. */
  ghost predicate CancelsBelow(q: seq<BankMsg>, n: int) {
    forall j :: 0 <= j < |q| && q[j].CancelWithdrawal? ==> q[j].id < n
  }

  /**
   The latest request is the one the ATM waits for, and a withdrawal it waits
   for is not cancelled.
   */
  ghost predicate Current(s: State) {
    var n := |s.journal|;
    && CancelsBelow(s.bankQ, n)
    && (Awaited(s.atm).Some? ==> n > 0 && s.journal[n - 1].req == Awaited(s.atm).value)
    && (s.atm.mode.ProcessingWithdrawal? ==> s.journal[n - 1].fate.Open? && CancelsBelow(s.bankQ, n - 1))
  }

  /** Entering a state that waits for the bank is sending the request it waits for, and nothing else is. */
  lemma AsksWhatItAwaits(a: Atm, m: AtmMsg, next: nat)
    ensures var r := AtmHandle(a, m, next);
      && (Awaited(r.atm).Some? && Awaited(r.atm) != Awaited(a) ==>
            r.bank == Some(Ask(next, a.account, Awaited(r.atm).value)))
      && (r.bank.Some? && r.bank.value.Ask? ==> Awaited(r.atm) == Some(r.bank.value.req) && Awaited(a) == None)
      && (r.bank.Some? && r.bank.value.CancelWithdrawal? ==>
            a.mode.ProcessingWithdrawal? && Awaited(r.atm) == None && (next > 0 ==> r.bank.value.id == next - 1))
      && (a.mode.ProcessingWithdrawal? && Awaited(r.atm).Some? ==> r == Reaction(a, None, []))
      && (r.atm.mode.ProcessingWithdrawal? && !a.mode.ProcessingWithdrawal? ==> r.bank.Some? && r.bank.value.Ask?)
  {
  }

  lemma AtmKeepsCurrent(s: State)
    requires Current(s) && s.atmQ != []
    ensures Current(AtmStep(s))
  {
    AsksWhatItAwaits(s.atm, s.atmQ[0], |s.journal|);
  }

  lemma BankKeepsCurrent(s: State)
    requires Inv(s) && Current(s) && s.bankQ != []
    ensures Current(BankStep(s))
  {
    var s' := BankStep(s);
    assert forall j :: 0 <= j < |s'.bankQ| ==> s'.bankQ[j] == s.bankQ[j + 1];
  }

  lemma EnterKeepsCurrent(s: State)
    requires Current(s)
    ensures Current(EnterStep(s))
  {
  }

  lemma ApplyKeepsCurrent(s: State, a: Action)
    requires Inv(s) && Current(s)
    ensures Current(Apply(s, a))
  {
    match a
    case Press(key) =>
    case AtmEnters => EnterKeepsCurrent(s);
    case AtmReceives => if s.atmQ != [] { AtmKeepsCurrent(s); }
    case BankReceives => if s.bankQ != [] { BankKeepsCurrent(s); }
  }

  lemma {:induction false} ExecKeepsCurrent(start: Word, amount: Word, acts: seq<Action>)
    ensures Inv(Exec(Init(start, amount), acts)) && Current(Exec(Init(start, amount), acts))
  {
    AtmReplies.ExecKeepsInv(start, amount, acts);
    if acts != [] {
      ExecKeepsCurrent(start, amount, acts[..|acts| - 1]);
      ApplyKeepsCurrent(Exec(Init(start, amount), acts[..|acts| - 1]), acts[|acts| - 1]);
    }
  }

  // ------------------------------------------------------- replies handled

  /** The reply at the head of the ATM's queue answers the oldest outstanding request. */
  lemma HeadAnswersOldest(s: State)
    requires Inv(s) && s.atmQ != [] && s.atmQ[0].FromBank?
    ensures 0 <= Taken(s) < |s.replies| <= |s.journal|
    ensures s.atmQ[0] == s.replies[Taken(s)] && s.atmQ[0].id == Taken(s)
    ensures s.journal[Taken(s)].answer == Some(s.atmQ[0].answer)
    ensures Answers(s.journal[Taken(s)].req, s.atmQ[0].answer)
  {
    assert Replies(s.atmQ)[0] == s.atmQ[0];
  }

  /** Requests whose reply the ATM has not taken yet. */
  function Outstanding(s: State): int {
    |s.journal| - Taken(s)
  }

  /** The waiting ATM is about to take a reply that its state handles rather than drops. */
  predicate HandlesReply(s: State) {
    && s.atm.waiting && s.atmQ != [] && s.atmQ[0].FromBank?
    && AtmHandle(s.atm, s.atmQ[0], |s.journal|).atm != s.atm
  }

  /**
   A reply that the ATM is about to handle answers its latest request: the
   current withdrawal, for the current amount and not cancelled; the PIN last
   typed; the balance last asked for.
   */
  ghost predicate HandlesOnlyCurrent(s: State) {
    HandlesReply(s) ==>
      var id := s.atmQ[0].id;
      && id == |s.journal| - 1
      && match s.atm.mode
         case ProcessingWithdrawal =>
           s.journal[id].req == Withdraw(s.atm.amount) && s.journal[id].fate.Open?
         case VerifyingPin => s.journal[id].req == VerifyPin(s.atm.pin)
         case ProcessBalance => s.journal[id].req.GetBalance?
         case _ => false
  }

  /**
   On every schedule, with cancels anywhere: the ATM handles only the current
   reply exactly when, if it is about to handle one, nothing else is outstanding.
   */
  lemma {:induction false} HandlesOnlyCurrentIff(start: Word, amount: Word, acts: seq<Action>)
    ensures var s := Exec(Init(start, amount), acts);
      HandlesOnlyCurrent(s) <==> (HandlesReply(s) ==> Outstanding(s) == 1)
  {
    ExecKeepsCurrent(start, amount, acts);
    var s := Exec(Init(start, amount), acts);
    if HandlesReply(s) {
      HeadAnswersOldest(s);
    }
  }

  // ------------------------------------------------ without a PIN cancel

  /** The step handles a cancel in `verifyingPin`. */
  predicate PinCancel(s: State, a: Action) {
    && a.AtmReceives? && s.atm.waiting && s.atm.mode.VerifyingPin?
    && s.atmQ != [] && s.atmQ[0] == FromUser(CancelPressed)
  }

  /** How many steps of the schedule do. */
  function PinCancels(init: State, acts: seq<Action>): nat {
    if acts == [] then 0
    else PinCancels(init, acts[..|acts| - 1])
         + (if PinCancel(Exec(init, acts[..|acts| - 1]), acts[|acts| - 1]) then 1 else 0)
  }

  predicate NoPinCancel(init: State, acts: seq<Action>) {
    PinCancels(init, acts) == 0
  }

  /** How many requests are outstanding in each state of the ATM, and that a PIN is not among the old ones. */
  ghost predicate Fresh(s: State) {
    var n, p := |s.journal|, Taken(s);
    0 <= p <= n &&
    match s.atm.mode
    case VerifyingPin => 1 <= n - p <= 2 && (n - p == 2 ==> !s.journal[p].req.VerifyPin?)
    case WaitForAction => p == n
    case ProcessingWithdrawal => p == n - 1
    case ProcessBalance => p == n - 1
    case Ended => n - p <= 2
    case _ => n - p <= 1 && (n - p == 1 ==> !s.journal[p].req.VerifyPin?)
  }

  /** The facts about one message taken that freshness depends on. */
  ghost predicate TakesOne(s: State, s': State) {
    && s.atmQ != [] && s.atm.waiting && !PinCancel(s, AtmReceives)
    && Taken(s') == Taken(s) + (if s.atmQ[0].FromBank? then 1 else 0)
    && (s.atmQ[0].FromBank? ==>
          0 <= Taken(s) < |s.journal| && Answers(s.journal[Taken(s)].req, s.atmQ[0].answer))
  }

  lemma CardAndPinKeepFresh(s: State, s': State)
    requires s.atmQ != [] && s' == AtmStep(s) && TakesOne(s, s') && Fresh(s)
    requires s.atm.mode.WaitForCard? || s.atm.mode.GettingPin?
    ensures Fresh(s')
  {
    assert s'.journal == s.journal || s'.journal == s.journal + [Entry(VerifyPin(s'.atm.pin), None, Open)];
  }

  lemma VerifyingKeepsFresh(s: State, s': State)
    requires s.atmQ != [] && s' == AtmStep(s) && TakesOne(s, s') && Current(s) && Fresh(s) && s.atm.mode.VerifyingPin?
    ensures Fresh(s')
  {
  }

  lemma OthersKeepFresh(s: State, s': State)
    requires s.atmQ != [] && s' == AtmStep(s) && TakesOne(s, s') && Current(s) && Fresh(s)
    requires !s.atm.mode.WaitForCard? && !s.atm.mode.GettingPin? && !s.atm.mode.VerifyingPin?
    ensures Fresh(s')
  {
  }

  lemma AtmKeepsFresh(s: State)
    requires Inv(s) && Current(s) && Fresh(s) && s.atm.waiting && s.atmQ != [] && !PinCancel(s, AtmReceives)
    ensures Fresh(AtmStep(s))
  {
    var s' := AtmStep(s);
    AtmKeepsInv(s);
    if s.atmQ[0].FromBank? {
      HeadAnswersOldest(s);
    }
    match s.atm.mode
    case WaitForCard => CardAndPinKeepFresh(s, s');
    case GettingPin => CardAndPinKeepFresh(s, s');
    case VerifyingPin => VerifyingKeepsFresh(s, s');
    case _ => OthersKeepFresh(s, s');
  }

  lemma FreshIsFramed(s: State, s': State)
    requires Fresh(s) && s'.atm == s.atm && Taken(s') == Taken(s) && |s'.journal| == |s.journal|
    requires forall i :: 0 <= i < |s.journal| ==> s'.journal[i].req == s.journal[i].req
    ensures Fresh(s')
  {
  }

  lemma BankKeepsFresh(s: State)
    requires Inv(s) && Fresh(s) && s.bankQ != []
    ensures Fresh(BankStep(s))
  {
    BankKeepsInv(s);
    FreshIsFramed(s, BankStep(s));
  }

  lemma EnterKeepsFresh(s: State)
    requires Fresh(s) && !s.atm.waiting
    ensures Fresh(EnterStep(s))
  {
  }

  lemma ApplyKeepsFresh(s: State, a: Action)
    requires Inv(s) && Current(s) && Fresh(s) && !PinCancel(s, a)
    ensures Fresh(Apply(s, a))
  {
    match a
    case Press(key) =>
      PressKeepsInv(s, key);
      FreshIsFramed(s, Apply(s, a));
    case AtmEnters => if !s.atm.waiting { EnterKeepsFresh(s); }
    case AtmReceives => if s.atm.waiting && s.atmQ != [] { AtmKeepsFresh(s); }
    case BankReceives => if s.bankQ != [] { BankKeepsFresh(s); }
  }

  lemma {:induction false} ExecKeepsFresh(start: Word, amount: Word, acts: seq<Action>)
    requires NoPinCancel(Init(start, amount), acts)
    ensures Fresh(Exec(Init(start, amount), acts))
  {
    if acts != [] {
      ExecKeepsFresh(start, amount, acts[..|acts| - 1]);
      ExecKeepsCurrent(start, amount, acts[..|acts| - 1]);
      ApplyKeepsFresh(Exec(Init(start, amount), acts[..|acts| - 1]), acts[|acts| - 1]);
    }
  }

  /**
   Without a cancel handled in `verifyingPin`, at most two requests are ever
   unanswered at the ATM, and every reply it handles is the one it waits for.
   */
  lemma {:induction false} HandledRepliesAreCurrent(start: Word, amount: Word, acts: seq<Action>)
    requires NoPinCancel(Init(start, amount), acts)
    ensures var s := Exec(Init(start, amount), acts);
      0 <= Outstanding(s) <= 2 && HandlesOnlyCurrent(s)
  {
    ExecKeepsFresh(start, amount, acts);
    ExecKeepsCurrent(start, amount, acts);
    HandlesOnlyCurrentIff(start, amount, acts);
    var s := Exec(Init(start, amount), acts);
    if HandlesReply(s) {
      HeadAnswersOldest(s);
    }
  }
}
