/** The waiting states of the ATM as chains of the dispatcher's handlers. */
module AtmDispatch {
  import opened Options
  import opened Atm
  import opened AtmCurrent
  import opened AtmSession
  import opened Dispatcher

  /** The message types of the ATM's queue. */
  datatype Kind =
    | CardK | DigitK | ClearK | WithdrawK | BalancePressedK | CancelK | CloseK
    | PinVerifiedK | PinIncorrectK | WithdrawOkK | WithdrawDeniedK | BalanceK

  function KindOf(m: AtmMsg): Kind {
    match m
    case FromUser(CardInserted(_)) => CardK
    case FromUser(DigitPressed(_)) => DigitK
    case FromUser(ClearLastPressed) => ClearK
    case FromUser(WithdrawPressed(_)) => WithdrawK
    case FromUser(BalancePressed) => BalancePressedK
    case FromUser(CancelPressed) => CancelK
    case FromUser(CloseQueue) => CloseK
    case FromBank(_, PinVerified) => PinVerifiedK
    case FromBank(_, PinIncorrect) => PinIncorrectK
    case FromBank(_, WithdrawOk) => WithdrawOkK
    case FromBank(_, WithdrawDenied) => WithdrawDeniedK
    case FromBank(_, Balance(_)) => BalanceK
  }

  /** The handlers each state chains, in order. */
  function Handlers(m: Mode): seq<Kind> {
    match m
    case WaitForCard => [CardK]
    case GettingPin => [DigitK, ClearK, CancelK]
    case VerifyingPin => [PinVerifiedK, PinIncorrectK, CancelK]
    case WaitForAction => [WithdrawK, BalancePressedK, CancelK]
    case ProcessingWithdrawal => [WithdrawOkK, WithdrawDeniedK, CancelK]
    case ProcessBalance => [BalanceK, CancelK]
    case _ => []
  }

  /** Where each handler leaves the ATM: the state diagram, one successor per handler. */
  function Successors(a: Atm): seq<Mode> {
    match a.mode
    case WaitForCard => [GettingPin]
    case GettingPin => [if |a.pin| == 3 then VerifyingPin else GettingPin, GettingPin, DoneProcessing]
    case VerifyingPin => [WaitForAction, GettingPin, DoneProcessing]
    case WaitForAction => [ProcessingWithdrawal, ProcessBalance, DoneProcessing]
    case ProcessingWithdrawal => [DoneProcessing, DoneProcessing, DoneProcessing]
    case ProcessBalance => [WaitForAction, DoneProcessing]
    case _ => []
  }

  /** A request goes to the bank exactly on the way into the state that waits for its reply. */
  predicate AsksOnTheWay(a: Atm, next: nat, r: Reaction) {
    if Awaited(r.atm).Some? then r.bank == Some(Ask(next, a.account, Awaited(r.atm).value))
    else r.bank.Some? ==> r.bank.value.CancelWithdrawal?
  }

  /** A cancellation goes out exactly when a withdrawal is cancelled, and is for its amount. */
  predicate CancelsItsOwn(a: Atm, k: Kind, r: Reaction) {
    && (a.mode.ProcessingWithdrawal? && k == CancelK <==> r.bank.Some? && r.bank.value.CancelWithdrawal?)
    && (r.bank.Some? && r.bank.value.CancelWithdrawal? ==>
          r.bank.value.account == a.account && r.bank.value.amount == a.amount)
  }

  /** The fields change only as the message says: a card, a PIN key, a rejection, an amount. */
  predicate FieldsFollow(a: Atm, m: AtmMsg, r: Reaction) {
    && r.atm.account == (if m.FromUser? && m.key.CardInserted? then m.key.account else a.account)
    && r.atm.amount == (if m.FromUser? && m.key.WithdrawPressed? then m.key.amount else a.amount)
    && r.atm.pin ==
       match KindOf(m)
       case CardK => ""
       case PinIncorrectK => ""
       case DigitK => Keyed(a.pin, m.key)
       case ClearK => Keyed(a.pin, m.key)
       case _ => a.pin
  }

  /** What a handled message makes the ATM do in its state. */
  predicate Does(a: Atm, m: AtmMsg, next: nat, r: Reaction) {
    AsksOnTheWay(a, next, r) && CancelsItsOwn(a, KindOf(m), r) && r.screen == Shows(a, m) && FieldsFollow(a, m, r)
  }

  lemma HandledFields(a: Atm, m: AtmMsg, next: nat)
    requires KindOf(m) in Handlers(a.mode)
    ensures FieldsFollow(a, m, AtmHandle(a, m, next))
  {
  }

  lemma HandledSends(a: Atm, m: AtmMsg, next: nat)
    requires KindOf(m) in Handlers(a.mode)
    ensures AsksOnTheWay(a, next, AtmHandle(a, m, next)) && CancelsItsOwn(a, KindOf(m), AtmHandle(a, m, next))
  {
  }

  lemma HandledDoes(a: Atm, m: AtmMsg, next: nat)
    requires KindOf(m) in Handlers(a.mode)
    ensures Does(a, m, next, AtmHandle(a, m, next))
  {
    HandledSends(a, m, next);
    HandledFields(a, m, next);
    MessageShows(a, m, next);
  }

  lemma HandledFollowsDiagram(a: Atm, m: AtmMsg, next: nat, i: nat)
    requires i < |Handlers(a.mode)| && Handlers(a.mode)[i] == KindOf(m)
    ensures i < |Successors(a)| && AtmHandle(a, m, next).atm.mode == Successors(a)[i]
  {
  }

  lemma MissedIsDropped(a: Atm, m: AtmMsg, next: nat)
    requires KindOf(m) !in Handlers(a.mode)
    ensures AtmHandle(a, m, next) == if KindOf(m) == CloseK then Leave(a, Ended) else Drop(a)
  {
  }

  /**
   A message the chain misses changes nothing, `CloseQueue` ends the ATM, and a
   handled one takes the ATM along the state diagram.
   */
  lemma DispatchDecides(a: Atm, m: AtmMsg, next: nat)
    ensures var r := AtmHandle(a, m, next);
      match Dispatch(Handlers(a.mode), CloseK, KindOf(m))
      case Missed => r == Reaction(a, None, [])
      case Closed => r == Reaction(Enter(a, Ended), None, [])
      case Handled(i) =>
        && i < |Successors(a)| == |Handlers(a.mode)| && Handlers(a.mode)[i] == KindOf(m)
        && r.atm.mode == Successors(a)[i] && Does(a, m, next, r)
  {
    var v := Dispatch(Handlers(a.mode), CloseK, KindOf(m));
    DispatchPicksLatest(Handlers(a.mode), CloseK, KindOf(m));
    if v.Handled? {
      HandledFollowsDiagram(a, m, next, v.link);
      HandledDoes(a, m, next);
    } else {
      MissedIsDropped(a, m, next);
    }
  }

  function Kinds(q: seq<AtmMsg>): seq<Kind> {
    seq(|q|, i requires 0 <= i < |q| => KindOf(q[i]))
  }

  /** `n` messages taken one after the other. */
  function Receives(n: nat): seq<Action> {
    seq(n, _ => AtmReceives)
  }

  /** What a wait of the ATM makes of its queue, if it is run until it returns or blocks. */
  function Waited(s: State): State {
    var q := s.atmQ;
    var n := Consumed(Handlers(s.atm.mode), CloseK, Kinds(q));
    if OutcomeOf(Handlers(s.atm.mode), CloseK, Kinds(q)).Blocked? then s.(atmQ := [])
    else AtmStep(s.(atmQ := q[n - 1..]))
  }

  lemma {:induction false} ReceivesFirst(s: State, n: nat)
    requires n > 0
    ensures Exec(s, Receives(n)) == Exec(Apply(s, AtmReceives), Receives(n - 1))
  {
    assert Receives(n)[..n - 1] == Receives(n - 1);
    if n > 1 {
      ReceivesFirst(s, n - 1);
      assert Receives(n - 1)[..n - 2] == Receives(n - 2);
    } else {
      assert Receives(1)[..0] == [];
    }
  }

  /** A missed message is taken and makes no difference to the rest of the wait. */
  lemma MissedMakesNoDifference(s: State)
    requires s.atm.waiting && s.atmQ != [] && Dispatch(Handlers(s.atm.mode), CloseK, KindOf(s.atmQ[0])).Missed?
    ensures var chain, rest := Handlers(s.atm.mode), s.(atmQ := s.atmQ[1..]);
      && Apply(s, AtmReceives) == rest && Waited(rest) == Waited(s)
      && Consumed(chain, CloseK, Kinds(s.atmQ)) == 1 + Consumed(chain, CloseK, Kinds(rest.atmQ))
  {
    var chain, q := Handlers(s.atm.mode), s.atmQ;
    DispatchDecides(s.atm, q[0], |s.journal|);
    assert s.bankQ + [] == s.bankQ && s.screen + [] == s.screen;
    assert Kinds(q)[1..] == Kinds(q[1..]);
    var n := Consumed(chain, CloseK, Kinds(q[1..]));
    assert n > 0 ==> Kinds(q)[n] == Kinds(q[1..])[n - 1] && q[n..] == q[1..][n - 1..];
  }

  /**
   A wait of the machine is a run of the dispatcher: taking the messages it
   consumes one by one drops all but the last, and that one alone is handled,
   or closes the ATM.
   */
  lemma {:induction false} WaitIsDispatch(s: State)
    requires s.atm.waiting
    ensures Exec(s, Receives(Consumed(Handlers(s.atm.mode), CloseK, Kinds(s.atmQ)))) == Waited(s)
    decreases |s.atmQ|
  {
    var chain, q := Handlers(s.atm.mode), s.atmQ;
    var n := Consumed(chain, CloseK, Kinds(q));
    if q != [] {
      ReceivesFirst(s, n);
      if Dispatch(chain, CloseK, KindOf(q[0])).Missed? {
        MissedMakesNoDifference(s);
        WaitIsDispatch(s.(atmQ := q[1..]));
      } else {
        assert Receives(0) == [] && q[0..] == q;
      }
    }
  }
}
