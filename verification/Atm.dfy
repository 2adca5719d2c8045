/**
 The ATM, the bank and the queues between them as a step machine. Each step is
 one message taken by one machine (or the code a state runs before it waits),
 or a key press; the three threads interleave in any order.
 */
module Atm {
  import opened Options

  /** A C++ `unsigned`. */
  type Word = x: nat | x < 0x1_0000_0000

  /** The bank messages that are answered. */
  datatype Request = VerifyPin(pin: string) | Withdraw(amount: Word) | GetBalance

  datatype Answer = PinVerified | PinIncorrect | WithdrawOk | WithdrawDenied | Balance(amount: Word)

  /**
   Messages carry the number of the request they belong to. No handler looks
   at it; it is there so that the theorems can say which reply answers which
   request.
   */
  datatype BankMsg =
    | Ask(id: nat, account: string, req: Request)
    | CancelWithdrawal(id: nat, account: string, amount: Word)

  datatype Key =
    | CardInserted(account: string)
    | DigitPressed(digit: char)
    | ClearLastPressed
    | WithdrawPressed(amount: Word)
    | BalancePressed
    | CancelPressed
    | CloseQueue

  datatype AtmMsg = FromUser(key: Key) | FromBank(id: nat, answer: Answer)

  /** What the ATM sends to the interface machine. */
  datatype Screen =
    | DisplayEnterCard
    | DisplayEnterPin
    | DisplayPinCorrect
    | DisplayPinIncorrect
    | DisplayWithdrawalOptions
    | DisplayInsufficientFunds
    | DisplayWithdrawalCancelled
    | DisplayBalance(amount: Word)
    | IssueMoney(amount: Word)
    | EjectCard

  datatype Mode =
    | WaitForCard
    | GettingPin
    | VerifyingPin
    | WaitForAction
    | ProcessingWithdrawal
    | ProcessBalance
    | DoneProcessing
    | Ended

  /** `waiting`: the state function has done its sends and is in `incoming_.wait()`. */
  datatype Atm = Atm(mode: Mode, waiting: bool, account: string, pin: string, amount: Word)

  function Enter(a: Atm, m: Mode): Atm {
    a.(mode := m, waiting := !(m.WaitForCard? || m.WaitForAction? || m.DoneProcessing? || m.Ended?))
  }

  /** What a machine does with one message: its new fields and what it sends. */
  datatype Reaction = Reaction(atm: Atm, bank: Option<BankMsg>, screen: seq<Screen>)

  // One function per state of the ATM, for a message taken while it waits there.
  // A message that the state does not handle is dropped. `next` is the number of
  // the ATM's next request, so `next - 1` is that of its latest.

  function Drop(a: Atm): Reaction {
    Reaction(a, None, [])
  }

  function Leave(a: Atm, m: Mode): Reaction {
    Reaction(Enter(a, m), None, [])
  }

  function InWaitForCard(a: Atm, m: AtmMsg): Reaction {
    match m
    case FromUser(CardInserted(account)) =>
      Reaction(Enter(a.(account := account, pin := ""), GettingPin), None, [DisplayEnterPin])
    case _ => Drop(a)
  }

  function InGettingPin(a: Atm, m: AtmMsg, next: nat): Reaction {
    match m
    case FromUser(DigitPressed(d)) =>
      if |a.pin + [d]| == 4 then
        Reaction(Enter(a.(pin := a.pin + [d]), VerifyingPin),
                 Some(Ask(next, a.account, VerifyPin(a.pin + [d]))), [])
      else Drop(a.(pin := a.pin + [d]))
    case FromUser(ClearLastPressed) => Drop(a.(pin := if a.pin == "" then "" else a.pin[..|a.pin| - 1]))
    case FromUser(CancelPressed) => Leave(a, DoneProcessing)
    case _ => Drop(a)
  }

  function InVerifyingPin(a: Atm, m: AtmMsg): Reaction {
    match m
    case FromBank(_, PinVerified) => Reaction(Enter(a, WaitForAction), None, [DisplayPinCorrect])
    case FromBank(_, PinIncorrect) => Reaction(Enter(a.(pin := ""), GettingPin), None, [DisplayPinIncorrect])
    case FromUser(CancelPressed) => Leave(a, DoneProcessing)
    case _ => Drop(a)
  }

  function InWaitForAction(a: Atm, m: AtmMsg, next: nat): Reaction {
    match m
    case FromUser(WithdrawPressed(n)) =>
      Reaction(Enter(a.(amount := n), ProcessingWithdrawal), Some(Ask(next, a.account, Withdraw(n))), [])
    case FromUser(BalancePressed) =>
      Reaction(Enter(a, ProcessBalance), Some(Ask(next, a.account, GetBalance)), [])
    case FromUser(CancelPressed) => Leave(a, DoneProcessing)
    case _ => Drop(a)
  }

  function InProcessingWithdrawal(a: Atm, m: AtmMsg, next: nat): Reaction {
    match m
    case FromBank(_, WithdrawOk) => Reaction(Enter(a, DoneProcessing), None, [IssueMoney(a.amount)])
    case FromBank(_, WithdrawDenied) =>
      Reaction(Enter(a, DoneProcessing), None, [DisplayInsufficientFunds])
    case FromUser(CancelPressed) =>
      Reaction(Enter(a, DoneProcessing),
               Some(CancelWithdrawal(if next == 0 then 0 else next - 1, a.account, a.amount)),
               [DisplayWithdrawalCancelled])
    case _ => Drop(a)
  }

  function InProcessBalance(a: Atm, m: AtmMsg): Reaction {
    match m
    case FromBank(_, Balance(n)) => Reaction(Enter(a, WaitForAction), None, [DisplayBalance(n)])
    case FromUser(CancelPressed) => Leave(a, DoneProcessing)
    case _ => Drop(a)
  }

  /** The ATM takes message `m`; `CloseQueue` ends it in any state that waits. */
  function AtmHandle(a: Atm, m: AtmMsg, next: nat): Reaction {
    if m == FromUser(CloseQueue) then Leave(a, Ended) else
    match a.mode
    case WaitForCard => InWaitForCard(a, m)
    case GettingPin => InGettingPin(a, m, next)
    case VerifyingPin => InVerifyingPin(a, m)
    case WaitForAction => InWaitForAction(a, m, next)
    case ProcessingWithdrawal => InProcessingWithdrawal(a, m, next)
    case ProcessBalance => InProcessBalance(a, m)
    case _ => Drop(a)
  }

  /** What a state function does before it waits. */
  function AtmEnter(a: Atm): Reaction {
    match a.mode
    case WaitForCard => Reaction(a.(waiting := true), None, [DisplayEnterCard])
    case WaitForAction => Reaction(a.(waiting := true), None, [DisplayWithdrawalOptions])
    case DoneProcessing => Reaction(Enter(a, WaitForCard), None, [EjectCard])
    case _ => Reaction(a, None, [])
  }

  /** The bank's answer to a request, and its balance afterwards. */
  function BankAnswer(balance: Word, req: Request): (r: (Word, Answer)) {
    match req
    case VerifyPin(pin) => (balance, if pin == "0000" then PinVerified else PinIncorrect)
    case Withdraw(n) => if balance >= n then (balance - n, WithdrawOk) else (balance, WithdrawDenied)
    case GetBalance => (balance, Balance(balance))
  }

  /** `balance_ += msg.amount` on an unsigned. */
  function BankCredit(balance: Word, amount: Word): Word {
    (balance + amount) % 0x1_0000_0000
  }

  // ---------------------------------------------------------------- the whole

  /** What became of a request on the ATM's side, and of its cancellation at the bank. */
  datatype Fate = Open | Issued | Cancelled | Credited

  datatype Entry = Entry(req: Request, answer: Option<Answer>, fate: Fate)

  /**
   The machines and queues, and a record of the past: every request in the
   order sent, every reply in the order the bank queued it, everything sent to
   the interface, and how often the balance wrapped.
   */
  datatype State = State(
    atm: Atm, balance: Word, atmQ: seq<AtmMsg>, bankQ: seq<BankMsg>,
    journal: seq<Entry>, replies: seq<AtmMsg>, screen: seq<Screen>, wraps: nat)

  datatype Action = Press(key: Key) | AtmEnters | AtmReceives | BankReceives

  function Init(start: Word, amount: Word): State {
    State(Atm(WaitForCard, false, "", "", amount), start, [], [], [], [], [], 0)
  }

  function Mark(journal: seq<Entry>, id: nat, fate: Fate): seq<Entry> {
    if id < |journal| then journal[id := journal[id].(fate := fate)] else journal
  }

  /** The journal after the ATM reacted to `m` by sending `sent`. */
  function Noted(journal: seq<Entry>, m: AtmMsg, r: Reaction): seq<Entry> {
    match r.bank
    case Some(Ask(_, _, req)) => journal + [Entry(req, None, Open)]
    case Some(CancelWithdrawal(id, _, _)) => Mark(journal, id, Cancelled)
    case None =>
      if m.FromBank? && |r.screen| == 1 && r.screen[0].IssueMoney? then Mark(journal, m.id, Issued)
      else journal
  }

  function AtmStep(s: State): State
    requires s.atmQ != []
  {
    var r := AtmHandle(s.atm, s.atmQ[0], |s.journal|);
    s.(atm := r.atm, atmQ := s.atmQ[1..], screen := s.screen + r.screen,
       bankQ := s.bankQ + (if r.bank.Some? then [r.bank.value] else []),
       journal := Noted(s.journal, s.atmQ[0], r))
  }

  function BankStep(s: State): State
    requires s.bankQ != []
  {
    match s.bankQ[0]
    case Ask(id, _, req) =>
      var (balance, answer) := BankAnswer(s.balance, req);
      var reply := FromBank(id, answer);
      s.(balance := balance, bankQ := s.bankQ[1..], atmQ := s.atmQ + [reply],
         replies := s.replies + [reply],
         journal := if id < |s.journal| then s.journal[id := s.journal[id].(answer := Some(answer))]
                    else s.journal)
    case CancelWithdrawal(id, _, amount) =>
      s.(balance := BankCredit(s.balance, amount), bankQ := s.bankQ[1..],
         journal := Mark(s.journal, id, Credited),
         wraps := s.wraps + (if s.balance + amount < 0x1_0000_0000 then 0 else 1))
  }

  function EnterStep(s: State): State {
    s.(atm := AtmEnter(s.atm).atm, screen := s.screen + AtmEnter(s.atm).screen)
  }

  /** An action that is not possible in `s` leaves it unchanged. */
  function Apply(s: State, a: Action): State {
    match a
    case Press(key) => s.(atmQ := s.atmQ + [FromUser(key)])
    case AtmEnters => if !s.atm.waiting then EnterStep(s) else s
    case AtmReceives => if s.atm.waiting && s.atmQ != [] then AtmStep(s) else s
    case BankReceives => if s.bankQ != [] then BankStep(s) else s
  }

  function Exec(init: State, acts: seq<Action>): State {
    if acts == [] then init else Apply(Exec(init, acts[..|acts| - 1]), acts[|acts| - 1])
  }
}
