/** Which reply answers which request. */
module AtmReplies {
  import opened Options
  import opened Atm

  /** The bank's replies among the messages of an ATM queue. */
  function Replies(q: seq<AtmMsg>): (r: seq<AtmMsg>)
    ensures |r| <= |q|
  {
    if q == [] then []
    else (if q[0].FromBank? then [q[0]] else []) + Replies(q[1..])
  }

  /** The numbered requests among the messages of a bank queue. */
  function Asks(q: seq<BankMsg>): seq<(nat, Request)> {
    if q == [] then []
    else (if q[0].Ask? then [(q[0].id, q[0].req)] else []) + Asks(q[1..])
  }

  lemma {:induction false} RepliesAppend(q: seq<AtmMsg>, m: AtmMsg)
    ensures Replies(q + [m]) == Replies(q) + (if m.FromBank? then [m] else [])
  {
    if q == [] {
      assert q + [m] == [m];
      assert [m][1..] == [];
    } else {
      RepliesAppend(q[1..], m);
      assert (q + [m])[1..] == q[1..] + [m];
    }
  }

  lemma {:induction false} AsksAppend(q: seq<BankMsg>, m: BankMsg)
    ensures Asks(q + [m]) == Asks(q) + (if m.Ask? then [(m.id, m.req)] else [])
  {
    if q == [] {
      assert q + [m] == [m];
      assert [m][1..] == [];
    } else {
      AsksAppend(q[1..], m);
      assert (q + [m])[1..] == q[1..] + [m];
    }
  }

  /** What the bank may say to a request. */
  predicate Answers(req: Request, a: Answer) {
    match req
    case VerifyPin(pin) => a == if pin == "0000" then PinVerified else PinIncorrect
    case Withdraw(_) => a.WithdrawOk? || a.WithdrawDenied?
    case GetBalance => a.Balance?
  }

  /** How many replies the ATM has taken from its queue, handled or dropped. */
  function Taken(s: State): int {
    |s.replies| - |Replies(s.atmQ)|
  }

  /** The requests the bank has yet to see are the last ones sent, in order. */
  ghost predicate AsksInv(s: State) {
    var asks := Asks(s.bankQ);
    && |s.replies| + |asks| == |s.journal|
    && forall j :: 0 <= j < |asks| ==>
         asks[j].0 == |s.replies| + j && asks[j].1 == s.journal[|s.replies| + j].req
  }

  ghost predicate RepliesInv(s: State) {
    && |s.replies| <= |s.journal|
    && (forall i :: 0 <= i < |s.replies| ==>
          && s.replies[i].FromBank? && s.replies[i].id == i
          && s.journal[i].answer == Some(s.replies[i].answer)
          && Answers(s.journal[i].req, s.replies[i].answer))
    && (forall i :: |s.replies| <= i < |s.journal| ==> s.journal[i].answer == None)
  }

  /** The replies still queued are the last ones sent, in order. */
  ghost predicate QueueInv(s: State) {
    0 <= Taken(s) && Replies(s.atmQ) == s.replies[Taken(s)..]
  }

  ghost predicate Inv(s: State) {
    AsksInv(s) && RepliesInv(s) && QueueInv(s)
  }

  lemma PressKeepsInv(s: State, key: Key)
    requires Inv(s)
    ensures Inv(Apply(s, Press(key))) && Taken(Apply(s, Press(key))) == Taken(s)
  {
    RepliesAppend(s.atmQ, FromUser(key));
  }

  /** The only request the ATM can send is the next one. */
  lemma AtmSendsNext(a: Atm, m: AtmMsg, next: nat)
    ensures var r := AtmHandle(a, m, next); r.bank.Some? && r.bank.value.Ask? ==> r.bank.value.id == next
  {
  }

  lemma RequestIsNoted(s: State, s': State, m: BankMsg)
    requires AsksInv(s) && RepliesInv(s) && m.Ask? && m.id == |s.journal|
    requires s'.replies == s.replies && s'.bankQ == s.bankQ + [m]
    requires s'.journal == s.journal + [Entry(m.req, None, Open)]
    ensures AsksInv(s') && RepliesInv(s')
  {
    AsksAppend(s.bankQ, m);
  }

  /** Fates play no part in the matching. */
  ghost predicate SameButFates(j: seq<Entry>, j': seq<Entry>) {
    |j'| == |j| && forall i :: 0 <= i < |j| ==> j'[i].(fate := j[i].fate) == j[i]
  }

  lemma FatesAreFree(s: State, s': State)
    requires AsksInv(s) && RepliesInv(s)
    requires s'.replies == s.replies && Asks(s'.bankQ) == Asks(s.bankQ)
    requires SameButFates(s.journal, s'.journal)
    ensures AsksInv(s') && RepliesInv(s')
  {
  }

  lemma AtmKeepsInv(s: State)
    requires Inv(s) && s.atmQ != []
    ensures Inv(AtmStep(s))
    ensures Taken(AtmStep(s)) == Taken(s) + if s.atmQ[0].FromBank? then 1 else 0
  {
    var s' := AtmStep(s);
    var r := AtmHandle(s.atm, s.atmQ[0], |s.journal|);
    AtmSendsNext(s.atm, s.atmQ[0], |s.journal|);
    if r.bank.Some? && r.bank.value.Ask? {
      RequestIsNoted(s, s', r.bank.value);
    } else {
      if r.bank.Some? {
        AsksAppend(s.bankQ, r.bank.value);
      } else {
        assert s'.bankQ == s.bankQ;
      }
      FatesAreFree(s, s');
    }
  }

  lemma BankKeepsInv(s: State)
    requires Inv(s) && s.bankQ != []
    ensures Inv(BankStep(s)) && Taken(BankStep(s)) == Taken(s)
  {
    if s.bankQ[0].Ask? {
      RequestIsAnswered(s);
    } else {
      FatesAreFree(s, BankStep(s));
    }
  }

  /** The request at the head of the bank's queue is the first one unanswered. */
  lemma HeadIsFirstUnanswered(s: State)
    requires AsksInv(s) && s.bankQ != [] && s.bankQ[0].Ask?
    ensures s.bankQ[0].id == |s.replies| < |s.journal|
    ensures s.bankQ[0].req == s.journal[|s.replies|].req
    ensures Asks(s.bankQ[1..]) == Asks(s.bankQ)[1..]
  {
    assert Asks(s.bankQ)[0] == (s.bankQ[0].id, s.bankQ[0].req);
  }

  lemma RequestIsAnswered(s: State)
    requires Inv(s) && s.bankQ != [] && s.bankQ[0].Ask?
    ensures Inv(BankStep(s)) && Taken(BankStep(s)) == Taken(s)
  {
    var m := s.bankQ[0];
    HeadIsFirstUnanswered(s);
    AnswerKeepsMatching(s, BankStep(s), BankAnswer(s.balance, m.req).1);
    RepliesAppend(s.atmQ, FromBank(m.id, BankAnswer(s.balance, m.req).1));
  }

  lemma AnswerKeepsMatching(s: State, s': State, answer: Answer)
    requires AsksInv(s) && RepliesInv(s) && |s.replies| < |s.journal|
    requires Asks(s'.bankQ) == Asks(s.bankQ)[1..]
    requires Answers(s.journal[|s.replies|].req, answer)
    requires s'.replies == s.replies + [FromBank(|s.replies|, answer)]
    requires s'.journal == s.journal[|s.replies| := s.journal[|s.replies|].(answer := Some(answer))]
    ensures AsksInv(s') && RepliesInv(s')
  {
  }

  lemma {:induction false} ExecKeepsInv(start: Word, amount: Word, acts: seq<Action>)
    ensures Inv(Exec(Init(start, amount), acts))
  {
    if acts != [] {
      var s := Exec(Init(start, amount), acts[..|acts| - 1]);
      ExecKeepsInv(start, amount, acts[..|acts| - 1]);
      match acts[|acts| - 1]
      case Press(key) => PressKeepsInv(s, key);
      case AtmEnters =>
      case AtmReceives => if s.atmQ != [] { AtmKeepsInv(s); }
      case BankReceives => if s.bankQ != [] { BankKeepsInv(s); }
    }
  }

  /** On every schedule, the i-th reply the bank queues answers the i-th request. */
  lemma {:induction false} RepliesMatchRequests(start: Word, amount: Word, acts: seq<Action>)
    ensures var s := Exec(Init(start, amount), acts);
      && |s.replies| <= |s.journal|
      && forall i :: 0 <= i < |s.replies| ==>
           && s.replies[i].FromBank? && s.replies[i].id == i
           && Answers(s.journal[i].req, s.replies[i].answer)
  {
    ExecKeepsInv(start, amount, acts);
  }

  // ------------------------------------------------------- numbers are inert

  predicate SameButNumber(m: AtmMsg, m': AtmMsg) {
    m == m' || (m.FromBank? && m'.FromBank? && m.answer == m'.answer)
  }

  function Unnumbered(b: Option<BankMsg>): Option<BankMsg> {
    match b
    case None => None
    case Some(Ask(_, account, req)) => Some(Ask(0, account, req))
    case Some(CancelWithdrawal(_, account, amount)) => Some(CancelWithdrawal(0, account, amount))
  }

  /** The ATM behaves the same whatever numbers its messages and requests carry. */
  lemma NumbersAreInert(a: Atm, m: AtmMsg, next: nat, m': AtmMsg, next': nat)
    requires SameButNumber(m, m')
    ensures var r, r' := AtmHandle(a, m, next), AtmHandle(a, m', next');
      r.atm == r'.atm && r.screen == r'.screen && Unnumbered(r.bank) == Unnumbered(r'.bank)
  {
  }
}
