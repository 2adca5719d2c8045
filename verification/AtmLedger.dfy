/**
 Where the money is, on every schedule, and how the protocol creates money: a grant
 handled for another withdrawal, and the refund of a grant that was issued.
 */
module AtmLedger {
  import opened Options
  import opened Atm
  import opened AtmReplies
  import opened AtmCurrent

  // ------------------------------------------------------------------ the books

  /** The cash the interface was told to issue. */
  function IssuedOn(screen: seq<Screen>): nat {
    if screen == [] then 0
    else IssuedOn(screen[..|screen| - 1]) +
         (if screen[|screen| - 1].IssueMoney? then screen[|screen| - 1].amount else 0)
  }

  lemma {:induction false} IssuedAppend(screen: seq<Screen>, more: seq<Screen>)
    requires |more| <= 1
    ensures IssuedOn(screen + more)
              == IssuedOn(screen) + if |more| == 1 && more[0].IssueMoney? then more[0].amount else 0
  {
    if more == [] {
      assert screen + more == screen;
    } else {
      assert (screen + more)[..|screen|] == screen;
    }
  }

  function Amount(e: Entry): nat {
    if e.req.Withdraw? then e.req.amount else 0
  }

  /** Granted by the bank, and neither issued by the ATM nor refunded. */
  function OutstandingAmount(e: Entry): nat {
    if e.answer == Some(WithdrawOk) && (e.fate.Open? || e.fate.Cancelled?) then Amount(e) else 0
  }

  /** Denied by the bank, and credited all the same because it was cancelled. */
  function DeniedCredit(e: Entry): nat {
    if e.answer == Some(WithdrawDenied) && e.fate.Credited? then Amount(e) else 0
  }

  function Total(es: seq<Entry>, f: Entry -> nat): nat {
    if es == [] then 0 else Total(es[..|es| - 1], f) + f(es[|es| - 1])
  }

  lemma {:induction false} TotalUpdate(es: seq<Entry>, i: nat, e: Entry, f: Entry -> nat)
    requires i < |es|
    ensures Total(es[i := e], f) + f(es[i]) == Total(es, f) + f(e)
  {
    if i == |es| - 1 {
      assert es[i := e][..|es| - 1] == es[..|es| - 1];
    } else {
      TotalUpdate(es[..|es| - 1], i, e, f);
      assert es[i := e][..|es| - 1] == es[..|es| - 1][i := e];
    }
  }

  lemma TotalsAfter(journal: seq<Entry>, i: nat, e: Entry)
    requires i < |journal|
    ensures Total(journal[i := e], OutstandingAmount) + OutstandingAmount(journal[i])
              == Total(journal, OutstandingAmount) + OutstandingAmount(e)
    ensures Total(journal[i := e], DeniedCredit) + DeniedCredit(journal[i])
              == Total(journal, DeniedCredit) + DeniedCredit(e)
  {
    TotalUpdate(journal, i, e, OutstandingAmount);
    TotalUpdate(journal, i, e, DeniedCredit);
  }

  /** Balance, cash issued, and granted amounts neither issued nor refunded. */
  function Held(s: State): nat {
    s.balance + IssuedOn(s.screen) + Total(s.journal, OutstandingAmount)
  }

  /** The money in the system, with the 2^32 lost at each wrap and without the credited denials. */
  function Worth(s: State): int {
    Held(s) + 0x1_0000_0000 * s.wraps - Total(s.journal, DeniedCredit)
  }

  // -------------------------------------------------- what holds on every schedule

  /** Cancellations in the bank's queue: the right amount, once each, after their request. */
  ghost predicate Cancels(s: State) {
    && (forall j :: 0 <= j < |s.bankQ| && s.bankQ[j].CancelWithdrawal? ==>
          && s.bankQ[j].id < |s.journal|
          && s.journal[s.bankQ[j].id].req == Withdraw(s.bankQ[j].amount)
          && (s.journal[s.bankQ[j].id].fate.Cancelled? || s.journal[s.bankQ[j].id].fate.Issued?))
    && (forall j, k :: 0 <= j < k < |s.bankQ| && s.bankQ[j].CancelWithdrawal? && s.bankQ[k].Ask? ==>
          s.bankQ[j].id < s.bankQ[k].id)
    && (forall j, k :: 0 <= j < k < |s.bankQ| && s.bankQ[j].CancelWithdrawal? && s.bankQ[k].CancelWithdrawal? ==>
          s.bankQ[j].id != s.bankQ[k].id)
  }

  /** What the fates say about the answers. */
  ghost predicate Fates(s: State) {
    forall i :: 0 <= i < |s.journal| ==>
      && (s.journal[i].fate.Issued? ==> s.journal[i].answer == Some(WithdrawOk))
      && (s.journal[i].fate.Credited? ==> s.journal[i].answer.Some?)
  }

  ghost predicate Ledger(s: State) {
    Inv(s) && Current(s) && Cancels(s) && Fates(s)
  }

  /** How the ATM's reaction moves the journal, the bank's queue and the cash. */
  datatype Move = Nothing | Asked(m: BankMsg) | Withdrew(m: BankMsg) | Paid(amount: nat)

  ghost predicate Moves(s: State, s': State, mv: Move) {
    && s'.balance == s.balance && s'.wraps == s.wraps
    && IssuedOn(s'.screen) == IssuedOn(s.screen) + (if mv.Paid? then mv.amount else 0)
    && match mv
       case Nothing => s'.bankQ == s.bankQ && s'.journal == s.journal
       case Asked(m) =>
         && m.Ask? && m.id == |s.journal| && s'.bankQ == s.bankQ + [m]
         && s'.journal == s.journal + [Entry(m.req, None, Open)]
       case Withdrew(m) =>
         && m.CancelWithdrawal? && m.id < |s.journal| && s'.bankQ == s.bankQ + [m]
         && s.journal[m.id].req == Withdraw(m.amount) && s.journal[m.id].fate.Open?
         && s'.journal == Mark(s.journal, m.id, Cancelled)
       case Paid(_) =>
         var p := Taken(s);
         && s'.bankQ == s.bankQ && 0 <= p < |s.journal| && s.journal[p].answer == Some(WithdrawOk)
         && s.journal[p].req.Withdraw? && s'.journal == Mark(s.journal, p, Issued)
  }

  /** The waiting ATM is about to issue money. */
  predicate Pays(s: State, a: Action) {
    && a.AtmReceives? && s.atm.waiting && s.atm.mode.ProcessingWithdrawal?
    && s.atmQ != [] && s.atmQ[0].FromBank? && s.atmQ[0].answer.WithdrawOk?
  }

  /** Outside `processingWithdrawal` the ATM neither pays nor cancels. */
  lemma OnlyWithdrawalsMoveMoney(a: Atm, m: AtmMsg, next: nat)
    ensures var r := AtmHandle(a, m, next);
      && |r.screen| <= 1
      && (!a.mode.ProcessingWithdrawal? ==>
            && (r.bank.Some? ==> r.bank.value.Ask?)
            && (|r.screen| == 1 ==> !r.screen[0].IssueMoney?))
  {
  }

  ghost predicate Withdrawing(s: State) {
    Inv(s) && Current(s) && s.atm.waiting && s.atmQ != [] && s.atm.mode.ProcessingWithdrawal?
  }

  lemma CancelMoves(s: State)
    requires Withdrawing(s) && s.atmQ[0] == FromUser(CancelPressed)
    ensures Moves(s, AtmStep(s), Withdrew(CancelWithdrawal(|s.journal| - 1, s.atm.account, s.atm.amount)))
  {
    IssuedAppend(s.screen, [DisplayWithdrawalCancelled]);
  }

  lemma GrantMoves(s: State)
    requires Withdrawing(s) && Pays(s, AtmReceives)
    ensures Moves(s, AtmStep(s), Paid(s.atm.amount))
  {
    HeadAnswersOldest(s);
    IssuedAppend(s.screen, [IssueMoney(s.atm.amount)]);
    assert AtmStep(s).bankQ == s.bankQ;
  }

  lemma DropMoves(s: State)
    requires Withdrawing(s) && s.atmQ[0] != FromUser(CancelPressed) && !Pays(s, AtmReceives)
    ensures Moves(s, AtmStep(s), Nothing)
  {
    IssuedAppend(s.screen, AtmHandle(s.atm, s.atmQ[0], |s.journal|).screen);
    assert AtmStep(s).bankQ == s.bankQ;
  }

  lemma OtherMoves(s: State) returns (mv: Move)
    requires Inv(s) && s.atm.waiting && s.atmQ != [] && !s.atm.mode.ProcessingWithdrawal?
    ensures Moves(s, AtmStep(s), mv) && !mv.Paid?
  {
    var r := AtmHandle(s.atm, s.atmQ[0], |s.journal|);
    OnlyWithdrawalsMoveMoney(s.atm, s.atmQ[0], |s.journal|);
    AtmSendsNext(s.atm, s.atmQ[0], |s.journal|);
    IssuedAppend(s.screen, r.screen);
    if r.bank.Some? {
      mv := Asked(r.bank.value);
    } else {
      assert AtmStep(s).bankQ == s.bankQ;
      mv := Nothing;
    }
  }

  lemma AtmMoves(s: State) returns (mv: Move)
    requires Inv(s) && Current(s) && s.atm.waiting && s.atmQ != []
    ensures Moves(s, AtmStep(s), mv)
    ensures mv.Paid? <==> Pays(s, AtmReceives)
    ensures mv.Paid? ==> mv.amount == s.atm.amount
  {
    if !s.atm.mode.ProcessingWithdrawal? {
      mv := OtherMoves(s);
    } else if s.atmQ[0] == FromUser(CancelPressed) {
      CancelMoves(s);
      mv := Withdrew(CancelWithdrawal(|s.journal| - 1, s.atm.account, s.atm.amount));
    } else if Pays(s, AtmReceives) {
      GrantMoves(s);
      mv := Paid(s.atm.amount);
    } else {
      DropMoves(s);
      mv := Nothing;
    }
  }

  lemma MovesKeepCancels(s: State, s': State, mv: Move)
    requires Cancels(s) && Moves(s, s', mv)
    ensures Cancels(s')
  {
  }

  lemma MovesKeepFates(s: State, s': State, mv: Move)
    requires Fates(s) && Moves(s, s', mv)
    ensures Fates(s')
  {
  }

  /** A cancellation reaches the bank only after its withdrawal was decided. */
  lemma CancelledIsDecided(s: State)
    requires Inv(s) && Cancels(s) && s.bankQ != [] && s.bankQ[0].CancelWithdrawal?
    ensures s.bankQ[0].id < |s.replies|
  {
    var id := s.bankQ[0].id;
    if id >= |s.replies| {
      var k := AskInQueue(s.bankQ, id - |s.replies|);
    }
  }

  lemma {:induction false} AskInQueue(q: seq<BankMsg>, j: nat) returns (k: nat)
    requires j < |Asks(q)|
    ensures k < |q| && q[k].Ask? && q[k].id == Asks(q)[j].0
  {
    if q[0].Ask? && j == 0 {
      k := 0;
    } else {
      k := AskInQueue(q[1..], if q[0].Ask? then j - 1 else j);
      k := k + 1;
    }
  }

  lemma BankKeepsCancels(s: State)
    requires Inv(s) && Cancels(s) && s.bankQ != []
    ensures Cancels(BankStep(s))
  {
    var s' := BankStep(s);
    assert forall j :: 0 <= j < |s'.bankQ| ==> s'.bankQ[j] == s.bankQ[j + 1];
  }

  lemma BankKeepsFates(s: State)
    requires Inv(s) && Cancels(s) && Fates(s) && s.bankQ != []
    ensures Fates(BankStep(s))
  {
    if s.bankQ[0].Ask? {
      HeadIsFirstUnanswered(s);
    } else {
      CancelledIsDecided(s);
    }
  }

  lemma ApplyKeepsLedger(s: State, a: Action)
    requires Ledger(s)
    ensures Cancels(Apply(s, a)) && Fates(Apply(s, a))
  {
    match a
    case Press(key) =>
    case AtmEnters =>
    case AtmReceives =>
      if s.atm.waiting && s.atmQ != [] {
        var mv := AtmMoves(s);
        MovesKeepCancels(s, AtmStep(s), mv);
        MovesKeepFates(s, AtmStep(s), mv);
      }
    case BankReceives =>
      if s.bankQ != [] {
        BankKeepsCancels(s);
        BankKeepsFates(s);
      }
  }

  lemma {:induction false} ExecKeepsLedger(start: Word, amount: Word, acts: seq<Action>)
    ensures Ledger(Exec(Init(start, amount), acts))
  {
    ExecKeepsCurrent(start, amount, acts);
    if acts != [] {
      ExecKeepsLedger(start, amount, acts[..|acts| - 1]);
      ApplyKeepsLedger(Exec(Init(start, amount), acts[..|acts| - 1]), acts[|acts| - 1]);
    }
  }

  // ------------------------------------------------------------- money created

  /** The bank is about to credit a cancelled withdrawal whose cash has been issued. */
  predicate RefundsIssued(s: State, a: Action) {
    && a.BankReceives? && s.bankQ != [] && s.bankQ[0].CancelWithdrawal?
    && s.bankQ[0].id < |s.journal| && s.journal[s.bankQ[0].id].fate.Issued?
  }

  /**
   What a step creates: cash issued beyond what is outstanding of the grant it
   is issued for (negative if it is less), or the refund of cash issued.
   */
  function Created(s: State, a: Action): int {
    if Pays(s, a) && 0 <= Taken(s) < |s.journal| then s.atm.amount - OutstandingAmount(s.journal[Taken(s)])
    else if RefundsIssued(s, a) then s.bankQ[0].amount
    else 0
  }

  function CreatedBy(init: State, acts: seq<Action>): int {
    if acts == [] then 0
    else CreatedBy(init, acts[..|acts| - 1]) + Created(Exec(init, acts[..|acts| - 1]), acts[|acts| - 1])
  }

  lemma MovesKeepWorth(s: State, s': State, mv: Move)
    requires Moves(s, s', mv)
    ensures Worth(s') == Worth(s) + if mv.Paid? then mv.amount - OutstandingAmount(s.journal[Taken(s)]) else 0
  {
    match mv
    case Nothing =>
    case Asked(m) => assert s'.journal[..|s.journal|] == s.journal;
    case Withdrew(m) => TotalsAfter(s.journal, m.id, s.journal[m.id].(fate := Cancelled));
    case Paid(_) => TotalsAfter(s.journal, Taken(s), s.journal[Taken(s)].(fate := Issued));
  }

  lemma AnswerKeepsWorth(s: State)
    requires Inv(s) && Fates(s) && s.bankQ != [] && s.bankQ[0].Ask?
    ensures Worth(BankStep(s)) == Worth(s)
  {
    var m := s.bankQ[0];
    HeadIsFirstUnanswered(s);
    var e := s.journal[m.id].(answer := Some(BankAnswer(s.balance, m.req).1));
    TotalsAfter(s.journal, m.id, e);
    assert BankStep(s).journal == s.journal[m.id := e];
  }

  /** The credit is addition that wraps. */
  lemma CreditWraps(balance: Word, amount: Word)
    ensures BankCredit(balance, amount) ==
      if balance + amount < 0x1_0000_0000 then balance + amount else balance + amount - 0x1_0000_0000
  {
  }

  /** A cancellation restores the balance exactly when the bank had granted the withdrawal. */
  lemma CancelRestoresIffGranted(balance: Word, amount: Word)
    ensures var (after, answer) := BankAnswer(balance, Withdraw(amount));
      BankCredit(after, amount) == balance <==> answer.WithdrawOk?
  {
    CreditWraps(BankAnswer(balance, Withdraw(amount)).0, amount);
  }

  lemma CreditChangesWorth(s: State)
    requires Ledger(s) && s.bankQ != [] && s.bankQ[0].CancelWithdrawal?
    ensures Worth(BankStep(s)) == Worth(s) + Created(s, BankReceives)
  {
    var m := s.bankQ[0];
    CancelledIsDecided(s);
    assert Answers(s.journal[m.id].req, s.replies[m.id].answer);
    CreditWraps(s.balance, m.amount);
    TotalsAfter(s.journal, m.id, s.journal[m.id].(fate := Credited));
  }

  lemma EnterIssuesNothing(a: Atm)
    ensures |AtmEnter(a).screen| <= 1 && (|AtmEnter(a).screen| == 1 ==> !AtmEnter(a).screen[0].IssueMoney?)
  {
  }

  lemma EnterKeepsWorth(s: State)
    ensures Worth(EnterStep(s)) == Worth(s)
  {
    EnterIssuesNothing(s.atm);
    IssuedAppend(s.screen, AtmEnter(s.atm).screen);
    MovesKeepWorth(s, EnterStep(s), Nothing);
  }

  /** Every step changes the money in the system by exactly what it creates. */
  lemma ApplyChangesWorth(s: State, a: Action)
    requires Ledger(s)
    ensures Worth(Apply(s, a)) == Worth(s) + Created(s, a)
  {
    match a
    case Press(key) =>
    case AtmEnters => EnterKeepsWorth(s);
    case AtmReceives =>
      if s.atm.waiting && s.atmQ != [] {
        var mv := AtmMoves(s);
        MovesKeepWorth(s, AtmStep(s), mv);
      }
    case BankReceives =>
      if s.bankQ != [] {
        if s.bankQ[0].Ask? {
          AnswerKeepsWorth(s);
        } else {
          CreditChangesWorth(s);
        }
      }
  }

  /**
   The accounts of every schedule, PIN cancels and stale replies included:
   balance, cash issued, amounts granted and neither issued nor refunded, and
   2^32 per wrap are the initial balance, the credited denials and what the
   steps created.
   */
  lemma {:induction false} MoneyOnEverySchedule(start: Word, amount: Word, acts: seq<Action>)
    ensures var s := Exec(Init(start, amount), acts);
      Held(s) + 0x1_0000_0000 * s.wraps
        == start + Total(s.journal, DeniedCredit) + CreatedBy(Init(start, amount), acts)
  {
    if acts != [] {
      MoneyOnEverySchedule(start, amount, acts[..|acts| - 1]);
      ExecKeepsLedger(start, amount, acts[..|acts| - 1]);
      ApplyChangesWorth(Exec(Init(start, amount), acts[..|acts| - 1]), acts[|acts| - 1]);
    }
  }

  // ------------------------------------------------- when the accounts are exact

  /**
   Balance, cash issued and granted amounts neither issued nor refunded are the
   initial balance plus the credited denials, up to the 2^32 lost at each wrap.
   Without credited denials the sum is exact and stays within the initial balance.
   */
  ghost predicate Accounted(start: Word, s: State) {
    && Held(s) + 0x1_0000_0000 * s.wraps == start + Total(s.journal, DeniedCredit)
    && (Total(s.journal, DeniedCredit) == 0 ==>
          Held(s) == start && s.balance <= start && IssuedOn(s.screen) <= start && s.wraps == 0)
  }

  /** Accounted for at every moment of the schedule. */
  ghost predicate AlwaysAccounted(start: Word, amount: Word, acts: seq<Action>) {
    && (acts != [] ==> AlwaysAccounted(start, amount, acts[..|acts| - 1]))
    && Accounted(start, Exec(Init(start, amount), acts))
  }

  /** No step of the schedule creates money. */
  predicate CreatesNothing(init: State, acts: seq<Action>) {
    acts == [] ||
    (CreatesNothing(init, acts[..|acts| - 1]) && Created(Exec(init, acts[..|acts| - 1]), acts[|acts| - 1]) == 0)
  }

  lemma AccountedIff(start: Word, amount: Word, acts: seq<Action>)
    ensures Accounted(start, Exec(Init(start, amount), acts)) <==> CreatedBy(Init(start, amount), acts) == 0
  {
    MoneyOnEverySchedule(start, amount, acts);
  }

  /**
   The accounts hold throughout a schedule if and only if every `withdraw_ok`
   the ATM handles is worth what it issues and no issued grant is refunded.
   */
  lemma {:induction false} AlwaysAccountedIff(start: Word, amount: Word, acts: seq<Action>)
    ensures AlwaysAccounted(start, amount, acts) <==> CreatesNothing(Init(start, amount), acts)
  {
    AccountedIff(start, amount, acts);
    if acts != [] {
      AlwaysAccountedIff(start, amount, acts[..|acts| - 1]);
      AccountedIff(start, amount, acts[..|acts| - 1]);
    }
  }

  // --------------------------------------------------- without stale grants

  /** The step handles a `withdraw_ok` while another request is outstanding. */
  predicate StaleGrant(s: State, a: Action) {
    Pays(s, a) && Outstanding(s) != 1
  }

  predicate NoStaleGrant(init: State, acts: seq<Action>) {
    acts == [] ||
    (NoStaleGrant(init, acts[..|acts| - 1]) && !StaleGrant(Exec(init, acts[..|acts| - 1]), acts[|acts| - 1]))
  }

  /** Every queued cancellation is of a withdrawal that was not issued. */
  ghost predicate Unissued(s: State) {
    forall j :: 0 <= j < |s.bankQ| && s.bankQ[j].CancelWithdrawal? && s.bankQ[j].id < |s.journal| ==>
      !s.journal[s.bankQ[j].id].fate.Issued?
  }

  lemma MovesKeepUnissued(s: State, s': State, mv: Move)
    requires Cancels(s) && Unissued(s) && Moves(s, s', mv)
    requires mv.Paid? ==> CancelsBelow(s.bankQ, Taken(s))
    ensures Unissued(s')
  {
  }

  lemma BankKeepsUnissued(s: State)
    requires Unissued(s) && s.bankQ != []
    ensures Unissued(BankStep(s))
  {
    var s' := BankStep(s);
    assert forall j :: 0 <= j < |s'.bankQ| ==> s'.bankQ[j] == s.bankQ[j + 1];
  }

  lemma FreshGrantCreatesNothing(s: State, a: Action)
    requires Ledger(s) && Unissued(s) && !StaleGrant(s, a)
    ensures Created(s, a) == 0
  {
    if Pays(s, a) {
      HeadAnswersOldest(s);
    }
  }

  lemma ApplyKeepsUnissued(s: State, a: Action)
    requires Ledger(s) && Unissued(s) && !StaleGrant(s, a)
    ensures Unissued(Apply(s, a))
  {
    match a
    case Press(key) =>
    case AtmEnters =>
    case AtmReceives =>
      if s.atm.waiting && s.atmQ != [] {
        var mv := AtmMoves(s);
        MovesKeepUnissued(s, AtmStep(s), mv);
      }
    case BankReceives => if s.bankQ != [] { BankKeepsUnissued(s); }
  }

  lemma {:induction false} NoStaleGrantCreatesNothing(start: Word, amount: Word, acts: seq<Action>)
    requires NoStaleGrant(Init(start, amount), acts)
    ensures Unissued(Exec(Init(start, amount), acts)) && CreatedBy(Init(start, amount), acts) == 0
  {
    if acts != [] {
      var s := Exec(Init(start, amount), acts[..|acts| - 1]);
      NoStaleGrantCreatesNothing(start, amount, acts[..|acts| - 1]);
      ExecKeepsLedger(start, amount, acts[..|acts| - 1]);
      ApplyKeepsUnissued(s, acts[|acts| - 1]);
      FreshGrantCreatesNothing(s, acts[|acts| - 1]);
    }
  }

  /**
   If no `withdraw_ok` is handled while another request is outstanding, money is
   accounted for: neither the balance nor the cash issued ever exceeds the
   initial balance unless a denied withdrawal was cancelled and credited.
   */
  lemma {:induction false} MoneyIsAccountedFor(start: Word, amount: Word, acts: seq<Action>)
    requires NoStaleGrant(Init(start, amount), acts)
    ensures Accounted(start, Exec(Init(start, amount), acts))
  {
    NoStaleGrantCreatesNothing(start, amount, acts);
    AccountedIff(start, amount, acts);
  }

  /** In particular if no cancel is handled in `verifyingPin`. */
  lemma {:induction false} NoPinCancelNoStaleGrant(start: Word, amount: Word, acts: seq<Action>)
    requires NoPinCancel(Init(start, amount), acts)
    ensures NoStaleGrant(Init(start, amount), acts)
    ensures Accounted(start, Exec(Init(start, amount), acts))
  {
    if acts != [] {
      NoPinCancelNoStaleGrant(start, amount, acts[..|acts| - 1]);
      HandledRepliesAreCurrent(start, amount, acts[..|acts| - 1]);
      HandlesOnlyCurrentIff(start, amount, acts[..|acts| - 1]);
    }
    MoneyIsAccountedFor(start, amount, acts);
  }

  /** In the 32-bit arithmetic of the code: the two sides are congruent. */
  lemma AccountedModulo(start: Word, s: State)
    requires Accounted(start, s)
    ensures Held(s) % 0x1_0000_0000 == (start + Total(s.journal, DeniedCredit)) % 0x1_0000_0000
  {
  }

  /**
   If no denied amount was credited, the bank is about to grant a withdrawal
   exactly when what was issued and what is still outstanding leave room for it
   in the initial balance, and the balance it is about to report is what they
   leave.
   */
  ghost predicate AnswersTruly(start: Word, s: State) {
    s.bankQ != [] && s.bankQ[0].Ask? && Total(s.journal, DeniedCredit) == 0 ==>
      && s.bankQ[0].id < |s.journal|
      && var answer := BankStep(s).journal[s.bankQ[0].id].answer;
         var used := IssuedOn(s.screen) + Total(s.journal, OutstandingAmount);
         match s.bankQ[0].req
         case Withdraw(n) => answer == Some(if n + used <= start then WithdrawOk else WithdrawDenied)
         case GetBalance => used <= start && answer == Some(Balance(start - used))
         case VerifyPin(pin) => answer == Some(if pin == "0000" then PinVerified else PinIncorrect)
  }

  lemma AccountedAnswersTruly(start: Word, s: State)
    requires Inv(s) && Accounted(start, s)
    ensures AnswersTruly(start, s)
  {
    if s.bankQ != [] && s.bankQ[0].Ask? {
      HeadIsFirstUnanswered(s);
    }
  }

  /** Without stale grants, grants are covered and balances are true. */
  lemma {:induction false} GrantsAreCovered(start: Word, amount: Word, acts: seq<Action>)
    requires NoStaleGrant(Init(start, amount), acts)
    ensures AnswersTruly(start, Exec(Init(start, amount), acts))
  {
    MoneyIsAccountedFor(start, amount, acts);
    AtmReplies.ExecKeepsInv(start, amount, acts);
    AccountedAnswersTruly(start, Exec(Init(start, amount), acts));
  }
}
