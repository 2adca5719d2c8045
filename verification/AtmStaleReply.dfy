/**
 Why freshness and the accounts exclude a cancel in `verifyingPin`: such a
 cancel leaves its reply outstanding, the next session can take it for its own,
 and from then on every reply can be one request late, grants included. Last, why
 the accounts carry a term for credited denials.
 */
module AtmStaleReply {
  import opened Options
  import opened Atm
  import opened AtmReplies
  import opened AtmCurrent
  import opened AtmLedger

  /** Some schedule from `init` that handles `k` cancels in `verifyingPin` ends in `s`. */
  ghost predicate Reaches(init: State, k: nat, s: State) {
    exists acts :: Exec(init, acts) == s && PinCancels(init, acts) == k
  }

  lemma ExecThen(init: State, acts: seq<Action>, a: Action)
    ensures var s := Exec(init, acts);
      && Exec(init, acts + [a]) == Apply(s, a)
      && PinCancels(init, acts + [a]) == PinCancels(init, acts) + if PinCancel(s, a) then 1 else 0
  {
    assert (acts + [a])[..|acts|] == acts;
  }

  lemma Then(init: State, k: nat, s: State, a: Action)
    requires Reaches(init, k, s)
    ensures Reaches(init, k + (if PinCancel(s, a) then 1 else 0), Apply(s, a))
  {
    var acts :| Exec(init, acts) == s && PinCancels(init, acts) == k;
    ExecThen(init, acts, a);
  }

  ghost predicate NothingCredited(journal: seq<Entry>) {
    forall i :: 0 <= i < |journal| ==> !journal[i].fate.Credited?
  }

  lemma {:induction false} NoCreditedDenials(journal: seq<Entry>)
    requires NothingCredited(journal)
    ensures Total(journal, DeniedCredit) == 0
  {
    if journal != [] {
      NoCreditedDenials(journal[..|journal| - 1]);
    }
  }

  /** No money has moved from `s` to `s'`. */
  ghost predicate Still(s: State, s': State) {
    && s'.balance == s.balance && IssuedOn(s'.screen) == IssuedOn(s.screen)
    && (NothingCredited(s.journal) ==> NothingCredited(s'.journal))
  }

  /** With nothing queued, a key pressed is the message taken next. */
  lemma PressAndTake(init: State, k: nat, s: State, key: Key) returns (s': State)
    requires Reaches(init, k, s) && s.atm.waiting && s.atmQ == []
    ensures Reaches(init, k + (if s.atm.mode.VerifyingPin? && key == CancelPressed then 1 else 0), s')
    ensures s'.atmQ == [] && s'.replies == s.replies && Still(s, s')
    ensures var r := AtmHandle(s.atm, FromUser(key), |s.journal|);
      && s'.atm == r.atm
      && s'.bankQ == s.bankQ + (if r.bank.Some? then [r.bank.value] else [])
      && s'.journal == Noted(s.journal, FromUser(key), r)
  {
    var s1 := Apply(s, Press(key));
    Then(init, k, s, Press(key));
    assert s1.atmQ == [FromUser(key)];
    s' := Apply(s1, AtmReceives);
    Then(init, k, s1, AtmReceives);
    KeysIssueNothing(s.atm, key, |s.journal|);
    IssuedAppend(s.screen, AtmHandle(s.atm, FromUser(key), |s.journal|).screen);
  }

  lemma KeysIssueNothing(a: Atm, key: Key, next: nat)
    ensures var screen := AtmHandle(a, FromUser(key), next).screen;
      |screen| <= 1 && (|screen| == 1 ==> !screen[0].IssueMoney?)
  {
  }

  /** The ATM runs the part of a state before its wait. */
  lemma Enters(init: State, k: nat, s: State) returns (s': State)
    requires Reaches(init, k, s) && !s.atm.waiting
    ensures Reaches(init, k, s') && Still(s, s')
    ensures s' == s.(atm := AtmEnter(s.atm).atm, screen := s'.screen)
  {
    s' := Apply(s, AtmEnters);
    Then(init, k, s, AtmEnters);
    EnterIssuesNothing(s.atm);
    IssuedAppend(s.screen, AtmEnter(s.atm).screen);
  }

  lemma PressDigit(init: State, k: nat, s: State, d: char) returns (s': State)
    requires Reaches(init, k, s) && s.atm.waiting && s.atmQ == [] && s.atm.mode.GettingPin? && |s.atm.pin| < 3
    ensures Reaches(init, k, s') && s'.atmQ == [] && s'.replies == s.replies && Still(s, s')
    ensures s'.atm == s.atm.(pin := s.atm.pin + [d]) && s'.bankQ == s.bankQ && s'.journal == s.journal
  {
    s' := PressAndTake(init, k, s, DigitPressed(d));
    assert s'.bankQ == s.bankQ;
  }

  /** Typing four equal digits sends a PIN for verification. */
  lemma TypePin(init: State, k: nat, s: State, d: char) returns (s': State)
    requires Reaches(init, k, s) && s.atm.waiting && s.atmQ == []
    requires s.atm.mode.GettingPin? && s.atm.pin == ""
    ensures Reaches(init, k, s') && s'.atmQ == [] && s'.replies == s.replies && Still(s, s')
    ensures s'.atm == Enter(s.atm.(pin := [d, d, d, d]), VerifyingPin)
    ensures s'.bankQ == s.bankQ + [Ask(|s.journal|, s.atm.account, VerifyPin([d, d, d, d]))]
    ensures s'.journal == s.journal + [Entry(VerifyPin([d, d, d, d]), None, Open)]
  {
    var s1 := PressDigit(init, k, s, d);
    var s2 := PressDigit(init, k, s1, d);
    var s3 := PressDigit(init, k, s2, d);
    assert s3.atm.pin == [d, d, d];
    assert [d, d, d] + [d] == [d, d, d, d];
    s' := PressAndTake(init, k, s3, DigitPressed(d));
  }

  /** A card is inserted and a PIN typed. */
  lemma StartsSession(init: State, k: nat, s: State, account: string, d: char) returns (s': State)
    requires Reaches(init, k, s) && s.atm.mode.WaitForCard? && !s.atm.waiting && s.atmQ == []
    ensures Reaches(init, k, s') && s'.atmQ == [] && s'.replies == s.replies && Still(s, s')
    ensures s'.atm.mode.VerifyingPin? && s'.atm.waiting && s'.atm.account == account
    ensures s'.bankQ == s.bankQ + [Ask(|s.journal|, account, VerifyPin([d, d, d, d]))]
    ensures |s'.journal| == |s.journal| + 1
  {
    var s1 := Enters(init, k, s);
    var s2 := PressAndTake(init, k, s1, CardInserted(account));
    assert s2.bankQ == s.bankQ;
    s' := TypePin(init, k, s2, d);
  }

  /** Cancel is pressed while the PIN is being verified. */
  lemma CancelsPin(init: State, k: nat, s: State) returns (s': State)
    requires Reaches(init, k, s) && s.atm.mode.VerifyingPin? && s.atm.waiting && s.atmQ == []
    ensures Reaches(init, k + 1, s') && s'.atm.mode.WaitForCard? && !s'.atm.waiting && s'.atmQ == [] && Still(s, s')
    ensures s'.bankQ == s.bankQ && s'.journal == s.journal && s'.replies == s.replies
  {
    var s1 := PressAndTake(init, k, s, CancelPressed);
    assert s1.bankQ == s.bankQ;
    s' := Enters(init, k + 1, s1);
  }

  /** A session cancelled while its PIN is being verified. */
  lemma CancelledSession(init: State) returns (s': State)
    requires Reaches(init, 0, init) && init.atm.mode.WaitForCard? && !init.atm.waiting
    requires init.atmQ == [] && init.bankQ == [] && init.journal == [] && init.replies == []
    ensures Reaches(init, 1, s') && s'.atm.mode.WaitForCard? && !s'.atm.waiting && s'.atmQ == [] && Still(init, s')
    ensures s'.bankQ == [Ask(0, "first", VerifyPin("0000"))] && |s'.journal| == 1 && s'.replies == []
  {
    var s1 := StartsSession(init, 0, init, "first", '0');
    assert ['0', '0', '0', '0'] == "0000";
    s' := CancelsPin(init, 0, s1);
  }

  lemma FirstReplyArrives(s: State)
    requires s.atm.waiting && s.atm.mode.VerifyingPin? && s.atmQ == [] && |s.journal| == 2
    requires s.bankQ != [] && s.bankQ[0] == Ask(0, "first", VerifyPin("0000"))
    ensures var s' := BankStep(s); s'.atm.mode.VerifyingPin? && !HandlesOnlyCurrent(s')
  {
    assert BankStep(s).atmQ == [FromBank(0, PinVerified)];
  }

  /**
   A card is inserted, a PIN typed, cancel pressed before the bank has
   answered, and a second PIN typed: the ATM then handles the reply to the
   first PIN while it waits for the second.
   */
  lemma PinCancelLeavesAStaleReply(start: Word, amount: Word) returns (acts: seq<Action>)
    ensures PinCancels(Init(start, amount), acts) == 1
    ensures var s := Exec(Init(start, amount), acts); s.atm.mode.VerifyingPin? && !HandlesOnlyCurrent(s)
  {
    var init := Init(start, amount);
    Starts(init);
    var s1 := CancelledSession(init);
    var s2 := StartsSession(init, 1, s1, "second", '1');
    assert s2.bankQ[0] == s1.bankQ[0];
    FirstReplyArrives(s2);
    Then(init, 1, s2, BankReceives);
    acts :| Exec(init, acts) == BankStep(s2) && PinCancels(init, acts) == 1;
  }

  lemma Starts(init: State)
    ensures Reaches(init, 0, init)
  {
    assert Exec(init, []) == init && PinCancels(init, []) == 0;
  }

  // ------------------------------------------------------------ a stale grant

  lemma RepliesSendNothing(a: Atm, id: nat, answer: Answer, next: nat)
    ensures AtmHandle(a, FromBank(id, answer), next).bank == None
  {
  }

  /** The bank answers the request at the head of its queue. */
  lemma BankReplies(init: State, k: nat, s: State) returns (s': State)
    requires Reaches(init, k, s) && s.atmQ == [] && s.bankQ != [] && s.bankQ[0].Ask?
    ensures Reaches(init, k, s') && s'.atmQ == [FromBank(s.bankQ[0].id, BankAnswer(s.balance, s.bankQ[0].req).1)]
    ensures s'.balance == BankAnswer(s.balance, s.bankQ[0].req).0 && s'.bankQ == s.bankQ[1..]
    ensures s'.atm == s.atm && s'.screen == s.screen && |s'.journal| == |s.journal|
    ensures NothingCredited(s.journal) ==> NothingCredited(s'.journal)
  {
    s' := Apply(s, BankReceives);
    Then(init, k, s, BankReceives);
  }

  /** The ATM takes the one reply in its queue. */
  lemma TakesReply(init: State, k: nat, s: State, id: nat, answer: Answer) returns (s': State)
    requires Reaches(init, k, s) && s.atm.waiting && s.atmQ == [FromBank(id, answer)]
    ensures Reaches(init, k, s') && s'.atmQ == [] && s'.bankQ == s.bankQ && s'.balance == s.balance
    ensures var r := AtmHandle(s.atm, FromBank(id, answer), |s.journal|);
      s'.atm == r.atm && s'.screen == s.screen + r.screen
    ensures |s'.journal| == |s.journal| && (NothingCredited(s.journal) ==> NothingCredited(s'.journal))
  {
    RepliesSendNothing(s.atm, id, answer, |s.journal|);
    s' := Apply(s, AtmReceives);
    Then(init, k, s, AtmReceives);
  }

  /** A PIN reply in the bank's hands, whoever it was for, lets the session in. */
  lemma PinReplyArrives(init: State, k: nat, s: State, id: nat, account: string) returns (s': State)
    requires Reaches(init, k, s) && s.atm.mode.VerifyingPin? && s.atm.waiting && s.atmQ == []
    requires s.bankQ != [] && s.bankQ[0] == Ask(id, account, VerifyPin("0000"))
    ensures Reaches(init, k, s') && s'.atmQ == [] && Still(s, s')
    ensures s'.atm == Enter(s.atm, WaitForAction) && s'.bankQ == s.bankQ[1..] && |s'.journal| == |s.journal|
  {
    var s1 := BankReplies(init, k, s);
    s' := TakesReply(init, k, s1, id, PinVerified);
    IssuedAppend(s.screen, [DisplayPinCorrect]);
  }

  /** A session that is in asks for `n`. */
  lemma AsksFor(init: State, k: nat, s: State, n: Word) returns (s': State)
    requires Reaches(init, k, s) && s.atm.mode.WaitForAction? && !s.atm.waiting && s.atmQ == []
    ensures Reaches(init, k, s') && Still(s, s') && s'.atmQ == [] && |s'.journal| == |s.journal| + 1
    ensures s'.atm == Enter(s.atm.(amount := n), ProcessingWithdrawal)
    ensures s'.bankQ == s.bankQ + [Ask(|s.journal|, s.atm.account, Withdraw(n))]
  {
    var s1 := Enters(init, k, s);
    s' := PressAndTake(init, k, s1, WithdrawPressed(n));
  }

  /** A session let in by the reply to an earlier PIN asks for `n`. */
  lemma LateSession(init: State, k: nat, s: State, account: string, n: Word, id: nat, earlier: string)
    returns (s': State)
    requires Reaches(init, k, s) && s.atm.mode.WaitForCard? && !s.atm.waiting && s.atmQ == []
    requires s.bankQ != [] && s.bankQ[0] == Ask(id, earlier, VerifyPin("0000"))
    ensures Reaches(init, k, s') && s'.atmQ == [] && Still(s, s')
    ensures s'.atm.mode.ProcessingWithdrawal? && s'.atm.waiting && s'.atm.amount == n
    ensures |s'.journal| == |s.journal| + 2
    ensures s'.bankQ == s.bankQ[1..] + [Ask(|s.journal|, account, VerifyPin("0000")),
                                        Ask(|s.journal| + 1, account, Withdraw(n))]
  {
    var s1 := StartsSession(init, k, s, account, '0');
    assert ['0', '0', '0', '0'] == "0000";
    var s2 := PinReplyArrives(init, k, s1, id, earlier);
    s' := AsksFor(init, k, s2, n);
  }

  /** A grant in the ATM's queue pays the amount at hand. */
  lemma TakesGrant(init: State, k: nat, s: State, id: nat) returns (s': State)
    requires Reaches(init, k, s) && s.atm.mode.ProcessingWithdrawal? && s.atm.waiting
    requires s.atmQ == [FromBank(id, WithdrawOk)] && NothingCredited(s.journal)
    ensures Reaches(init, k, s') && s'.balance == s.balance && NothingCredited(s'.journal)
    ensures IssuedOn(s'.screen) == IssuedOn(s.screen) + s.atm.amount
  {
    s' := TakesReply(init, k, s, id, WithdrawOk);
    IssuedAppend(s.screen, [IssueMoney(s.atm.amount)]);
  }

  /** The grant of nothing, handled for the withdrawal at hand. */
  lemma GrantOfNothingPays(init: State, k: nat, s: State, id: nat, account: string) returns (s': State)
    requires Reaches(init, k, s) && s.atm.mode.ProcessingWithdrawal? && s.atm.waiting && s.atmQ == []
    requires s.bankQ != [] && s.bankQ[0] == Ask(id, account, Withdraw(0)) && NothingCredited(s.journal)
    ensures Reaches(init, k, s') && s'.balance == s.balance && NothingCredited(s'.journal)
    ensures IssuedOn(s'.screen) == IssuedOn(s.screen) + s.atm.amount
  {
    var s1 := BankReplies(init, k, s);
    s' := TakesGrant(init, k, s1, id);
  }

  lemma CancelsWithdrawal(init: State, k: nat, s: State) returns (s': State)
    requires Reaches(init, k, s) && s.atm.mode.ProcessingWithdrawal? && s.atm.waiting && s.atmQ == []
    ensures Reaches(init, k, s') && s'.atm.mode.WaitForCard? && !s'.atm.waiting && s'.atmQ == [] && Still(s, s')
    ensures |s'.bankQ| == |s.bankQ| + 1 && s.bankQ <= s'.bankQ
  {
    var s1 := PressAndTake(init, k, s, CancelPressed);
    s' := Enters(init, k, s1);
  }

  /** A session let in by the first session's reply cancels a withdrawal of nothing. */
  lemma SecondSessionCancels(init: State, k: nat, s: State) returns (s': State)
    requires Reaches(init, k, s) && s.atm.mode.WaitForCard? && !s.atm.waiting && s.atmQ == []
    requires s.bankQ == [Ask(0, "first", VerifyPin("0000"))] && |s.journal| == 1
    ensures Reaches(init, k, s') && s'.atm.mode.WaitForCard? && !s'.atm.waiting && s'.atmQ == [] && Still(s, s')
    ensures |s'.bankQ| == 3 && s'.bankQ[0] == Ask(1, "second", VerifyPin("0000"))
    ensures s'.bankQ[1] == Ask(2, "second", Withdraw(0))
  {
    var s1 := LateSession(init, k, s, "second", 0, 0, "first");
    s' := CancelsWithdrawal(init, k, s1);
    assert s'.bankQ[0] == s1.bankQ[0] && s'.bankQ[1] == s1.bankQ[1];
  }

  /**
   What one PIN cancel can cost: two later sessions are each let in by the reply
   to an earlier PIN, the first cancels a withdrawal of nothing, and its grant
   pays the second the largest amount there is. Nothing was credited, and the
   balance is untouched, whatever it was.
   */
  lemma PinCancelCreatesMoney(start: Word, amount: Word) returns (acts: seq<Action>)
    ensures PinCancels(Init(start, amount), acts) == 1
    ensures var s := Exec(Init(start, amount), acts);
      && IssuedOn(s.screen) == 0xFFFF_FFFF && s.balance == start && Total(s.journal, DeniedCredit) == 0
      && !Accounted(start, s)
  {
    var init := Init(start, amount);
    Starts(init);
    var s1 := CancelledSession(init);
    var s2 := SecondSessionCancels(init, 1, s1);
    var s3 := LateSession(init, 1, s2, "third", 0xFFFF_FFFF, 1, "second");
    assert s3.bankQ[0] == s2.bankQ[1];
    var s4 := GrantOfNothingPays(init, 1, s3, 2, "second");
    NoCreditedDenials(s4.journal);
    acts :| Exec(init, acts) == s4 && PinCancels(init, acts) == 1;
  }

  // --------------------------------------------------------- a credited denial

  /** The first session gets in. */
  lemma FirstGetsIn(init: State, s: State) returns (s': State)
    requires Reaches(init, 0, s) && s.atm.mode.WaitForCard? && !s.atm.waiting && s.atmQ == [] && s.bankQ == []
    requires s.journal == []
    ensures Reaches(init, 0, s') && Still(s, s') && s'.atmQ == [] && s'.bankQ == [] && |s'.journal| == 1
    ensures s'.atm.mode.WaitForAction? && !s'.atm.waiting && s'.atm.account == "only"
  {
    var s1 := StartsSession(init, 0, s, "only", '0');
    assert ['0', '0', '0', '0'] == "0000";
    s' := PinReplyArrives(init, 0, s1, 0, "only");
  }

  /** It cancels before the bank has answered. */
  lemma CancelsEarly(init: State, s: State, n: Word) returns (s': State)
    requires Reaches(init, 0, s) && s.atm.mode.WaitForCard? && !s.atm.waiting && s.atmQ == [] && s.bankQ == []
    requires s.journal == []
    ensures Reaches(init, 0, s') && Still(s, s') && |s'.bankQ| == 2
    ensures s'.bankQ[0] == Ask(1, "only", Withdraw(n)) && s'.bankQ[1] == CancelWithdrawal(1, "only", n)
  {
    var s1 := FirstGetsIn(init, s);
    var s2 := AsksFor(init, 0, s1, n);
    s' := PressAndTake(init, 0, s2, CancelPressed);
  }

  /** The bank denies the withdrawal and credits its cancellation. */
  lemma DenialIsCredited(init: State, s: State, n: Word) returns (s': State)
    requires Reaches(init, 0, s) && |s.bankQ| == 2 && s.balance < n
    requires s.bankQ[0] == Ask(1, "only", Withdraw(n)) && s.bankQ[1] == CancelWithdrawal(1, "only", n)
    ensures Reaches(init, 0, s') && s'.balance == BankCredit(s.balance, n) && s'.screen == s.screen
  {
    var s1 := Apply(s, BankReceives);
    Then(init, 0, s, BankReceives);
    assert s1.bankQ[0] == s.bankQ[1] && s1.balance == s.balance;
    s' := Apply(s1, BankReceives);
    Then(init, 0, s1, BankReceives);
  }

  /**
   What cancelling a withdrawal the bank denies is worth: with no cancel in
   `verifyingPin` and no cash issued, asking for more than the balance and
   cancelling adds that amount to the balance, up to the wrap.
   */
  lemma DeniedCancelRaisesBalance(start: Word, amount: Word, n: Word) returns (acts: seq<Action>)
    requires start < n
    ensures NoPinCancel(Init(start, amount), acts)
    ensures var s := Exec(Init(start, amount), acts);
      && IssuedOn(s.screen) == 0 && s.balance != start
      && (start + n < 0x1_0000_0000 ==> s.balance == start + n > start)
  {
    var init := Init(start, amount);
    Starts(init);
    var s1 := CancelsEarly(init, init, n);
    var s2 := DenialIsCredited(init, s1, n);
    CreditWraps(start, n);
    acts :| Exec(init, acts) == s2 && PinCancels(init, acts) == 0;
  }
}
