/** The bank and the ATM as objects whose message handlers update their fields. */
module AtmObjects {
  import opened Options
  import opened Atm
  import opened AtmLedger

  class BankMachine {
    var balance: Word

    constructor ()
      ensures balance == 199
    {
      balance := 199;
    }

    /** The handlers of `verify_pin`, `withdraw` and `get_balance`. */
    method Handle(req: Request) returns (answer: Answer)
      modifies this
      ensures (balance, answer) == BankAnswer(old(balance), req)
    {
      match req
      case VerifyPin(pin) =>
        answer := if pin == "0000" then PinVerified else PinIncorrect;
      case Withdraw(amount) =>
        if balance >= amount {
          answer := WithdrawOk;
          balance := balance - amount;
        } else {
          answer := WithdrawDenied;
        }
      case GetBalance =>
        answer := Balance(balance);
    }

    /**
     The handler of `cancel_withdrawal`: the amount is added, less 2^32 when that
     overflows. If the balance is as a withdrawal of the amount left it, the one
     before is restored exactly when that withdrawal was granted.
     */
    method Cancel(amount: Word)
      modifies this
      ensures balance == old(balance) + amount - if old(balance) + amount < 0x1_0000_0000 then 0 else 0x1_0000_0000
      ensures forall before: Word :: BankAnswer(before, Withdraw(amount)).0 == old(balance) ==>
        (balance == before <==> BankAnswer(before, Withdraw(amount)).1.WithdrawOk?)
    {
      CreditWraps(balance, amount);
      forall before: Word | BankAnswer(before, Withdraw(amount)).0 == balance
        ensures BankCredit(balance, amount) == before <==> BankAnswer(before, Withdraw(amount)).1.WithdrawOk?
      {
        CancelRestoresIffGranted(before, amount);
      }
      balance := (balance + amount) % 0x1_0000_0000;
    }
  }

  class AtmMachine {
    var mode: Mode
    var waiting: bool
    var account: string
    var pin: string
    var amount: Word

    function View(): Atm
      reads this
    {
      Atm(mode, waiting, account, pin, amount)
    }

    constructor (amount: Word)
      ensures View() == Init(0, amount).atm
    {
      mode, waiting, account, pin, this.amount := WaitForCard, false, "", "", amount;
    }

    method Go(m: Mode)
      modifies this
      ensures View() == Enter(old(View()), m)
    {
      mode := m;
      waiting := !(m.WaitForCard? || m.WaitForAction? || m.DoneProcessing? || m.Ended?);
    }

    /** The part of a state function before `incoming_.wait()`. */
    method EnterState() returns (screen: seq<Screen>)
      modifies this
      ensures Reaction(View(), None, screen) == AtmEnter(old(View()))
    {
      screen := [];
      match mode
      case WaitForCard =>
        screen, waiting := [DisplayEnterCard], true;
      case WaitForAction =>
        screen, waiting := [DisplayWithdrawalOptions], true;
      case DoneProcessing =>
        screen := [EjectCard];
        Go(WaitForCard);
      case _ =>
    }

    /** One message taken from the queue in the current state. */
    method Receive(m: AtmMsg, next: nat) returns (bank: Option<BankMsg>, screen: seq<Screen>)
      modifies this
      ensures Reaction(View(), bank, screen) == AtmHandle(old(View()), m, next)
    {
      bank, screen := None, [];
      if m == FromUser(CloseQueue) {
        Go(Ended);
        return;
      }
      match (mode, m)
      case (WaitForCard, FromUser(CardInserted(acc))) =>
        account, pin := acc, "";
        screen := [DisplayEnterPin];
        Go(GettingPin);
      case (GettingPin, FromUser(DigitPressed(d))) =>
        pin := pin + [d];
        if |pin| == 4 {
          bank := Some(Ask(next, account, VerifyPin(pin)));
          Go(VerifyingPin);
        }
      case (GettingPin, FromUser(ClearLastPressed)) =>
        if pin != "" {
          pin := pin[..|pin| - 1];
        }
      case (GettingPin, FromUser(CancelPressed)) => Go(DoneProcessing);
      case (VerifyingPin, FromBank(_, PinVerified)) =>
        screen := [DisplayPinCorrect];
        Go(WaitForAction);
      case (VerifyingPin, FromBank(_, PinIncorrect)) =>
        screen, pin := [DisplayPinIncorrect], "";
        Go(GettingPin);
      case (VerifyingPin, FromUser(CancelPressed)) => Go(DoneProcessing);
      case (WaitForAction, FromUser(WithdrawPressed(n))) =>
        amount := n;
        bank := Some(Ask(next, account, Withdraw(n)));
        Go(ProcessingWithdrawal);
      case (WaitForAction, FromUser(BalancePressed)) =>
        bank := Some(Ask(next, account, GetBalance));
        Go(ProcessBalance);
      case (WaitForAction, FromUser(CancelPressed)) => Go(DoneProcessing);
      case (ProcessingWithdrawal, FromBank(_, WithdrawOk)) =>
        screen := [IssueMoney(amount)];
        Go(DoneProcessing);
      case (ProcessingWithdrawal, FromBank(_, WithdrawDenied)) =>
        screen := [DisplayInsufficientFunds];
        Go(DoneProcessing);
      case (ProcessingWithdrawal, FromUser(CancelPressed)) =>
        bank := Some(CancelWithdrawal(if next == 0 then 0 else next - 1, account, amount));
        screen := [DisplayWithdrawalCancelled];
        Go(DoneProcessing);
      case (ProcessBalance, FromBank(_, Balance(n))) =>
        screen := [DisplayBalance(n)];
        Go(WaitForAction);
      case (ProcessBalance, FromUser(CancelPressed)) => Go(DoneProcessing);
      case _ =>
    }
  }

  /** The three machines on their queues, with the record of the past. */
  class CashSystem {
    const atm: AtmMachine
    const bank: BankMachine
    var atmQ: seq<AtmMsg>
    var bankQ: seq<BankMsg>
    var screen: seq<Screen>
    var journal: seq<Entry>
    var replies: seq<AtmMsg>
    var wraps: nat

    function View(): State
      reads this, atm, bank
    {
      State(atm.View(), bank.balance, atmQ, bankQ, journal, replies, screen, wraps)
    }

    constructor (amount: Word)
      ensures fresh(atm) && fresh(bank) && View() == Init(199, amount)
    {
      atm := new AtmMachine(amount);
      bank := new BankMachine();
      atmQ, bankQ, screen, journal, replies, wraps := [], [], [], [], [], 0;
    }

    method AtmReceives()
      requires atm.waiting && atmQ != []
      modifies this, atm
      ensures View() == AtmStep(old(View()))
    {
      var m := atmQ[0];
      var sent, shown := atm.Receive(m, |journal|);
      atmQ, screen := atmQ[1..], screen + shown;
      journal := Noted(journal, m, Reaction(atm.View(), sent, shown));
      if sent.Some? {
        bankQ := bankQ + [sent.value];
      }
    }

    method BankReceives()
      requires bankQ != []
      modifies this, bank
      ensures View() == BankStep(old(View()))
    {
      var m := bankQ[0];
      bankQ := bankQ[1..];
      match m
      case Ask(id, _, req) =>
        var answer := bank.Handle(req);
        atmQ, replies := atmQ + [FromBank(id, answer)], replies + [FromBank(id, answer)];
        if id < |journal| {
          journal := journal[id := journal[id].(answer := Some(answer))];
        }
      case CancelWithdrawal(id, _, amount) =>
        CreditWraps(bank.balance, amount);
        if bank.balance + amount >= 0x1_0000_0000 {
          wraps := wraps + 1;
        }
        bank.Cancel(amount);
        journal := Mark(journal, id, Credited);
    }

    method Perform(a: Action)
      modifies this, atm, bank
      ensures View() == Apply(old(View()), a)
    {
      match a
      case Press(key) => atmQ := atmQ + [FromUser(key)];
      case AtmEnters =>
        if !atm.waiting {
          var shown := atm.EnterState();
          screen := screen + shown;
        }
      case AtmReceives =>
        if atm.waiting && atmQ != [] {
          AtmReceives();
        }
      case BankReceives =>
        if bankQ != [] {
          BankReceives();
        }
    }

    method RunSchedule(acts: seq<Action>)
      modifies this, atm, bank
      ensures View() == Exec(old(View()), acts)
    {
      for i := 0 to |acts|
        invariant View() == Exec(old(View()), acts[..i])
      {
        Perform(acts[i]);
        assert acts[..i + 1][..i] == acts[..i];
      }
      assert acts[..|acts|] == acts;
    }
  }

  /**
   The objects on any schedule without a stale grant: the bank's final balance
   and the cash issued stay within the initial 199 unless a denial was credited.
   */
  method Serve(amount: Word, acts: seq<Action>) returns (balance: Word, screen: seq<Screen>)
    requires NoStaleGrant(Init(199, amount), acts)
    ensures Total(Exec(Init(199, amount), acts).journal, DeniedCredit) == 0 ==>
      balance + IssuedOn(screen) <= 199
    ensures balance == Exec(Init(199, amount), acts).balance && screen == Exec(Init(199, amount), acts).screen
  {
    var system := new CashSystem(amount);
    system.RunSchedule(acts);
    MoneyIsAccountedFor(199, amount, acts);
    balance, screen := system.bank.balance, system.screen;
  }
}
