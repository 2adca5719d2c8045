/** What the ATM remembers of a session, what it tells the bank and what it shows, from the messages it took. */
module AtmSession {
  import opened Options
  import opened Atm
  import opened AtmReplies

  // ---------------------------------------------------------- what was entered

  /** The card, the PIN keys since the card or the last rejection, and the amount last chosen. */
  datatype Session = Session(card: string, keys: seq<Key>, amount: Word)

  function Keyed(typed: string, key: Key): string {
    if key.DigitPressed? then typed + [key.digit]
    else if key.ClearLastPressed? && typed != "" then typed[..|typed| - 1]
    else typed
  }

  /** The digits that a sequence of keys leaves typed. */
  function Typed(keys: seq<Key>): string {
    if keys == [] then "" else Keyed(Typed(keys[..|keys| - 1]), keys[|keys| - 1])
  }

  /** The session after message `m` was taken in a state. */
  function Heard(ses: Session, mode: Mode, m: AtmMsg): Session {
    match (mode, m)
    case (WaitForCard, FromUser(CardInserted(card))) => ses.(card := card, keys := [])
    case (GettingPin, FromUser(DigitPressed(d))) => ses.(keys := ses.keys + [DigitPressed(d)])
    case (GettingPin, FromUser(ClearLastPressed)) => ses.(keys := ses.keys + [ClearLastPressed])
    case (VerifyingPin, FromBank(_, PinIncorrect)) => ses.(keys := [])
    case (WaitForAction, FromUser(WithdrawPressed(n))) => ses.(amount := n)
    case _ => ses
  }

  /** The session after a schedule, from the messages taken alone. */
  function SessionOf(init: State, acts: seq<Action>): Session {
    if acts == [] then Session("", [], init.atm.amount)
    else
      var before, a := acts[..|acts| - 1], acts[|acts| - 1];
      var s := Exec(init, before);
      if a.AtmReceives? && s.atm.waiting && s.atmQ != [] then Heard(SessionOf(init, before), s.atm.mode, s.atmQ[0])
      else SessionOf(init, before)
  }

  lemma TypedAppend(keys: seq<Key>, key: Key)
    ensures Typed(keys + [key]) == Keyed(Typed(keys), key)
  {
    assert (keys + [key])[..|keys|] == keys;
  }

  /** The ATM's fields are the session; it types up to three digits and verifies four. */
  ghost predicate Remembers(a: Atm, ses: Session) {
    && a.account == ses.card && a.pin == Typed(ses.keys) && a.amount == ses.amount
    && (a.mode.GettingPin? ==> |a.pin| < 4)
    && (a.mode.VerifyingPin? ==> |a.pin| == 4)
  }

  /** A message to the bank speaks of the session: its card, the four digits typed, the amount chosen. */
  ghost predicate Carries(m: BankMsg, ses: Session) {
    && m.account == ses.card
    && match m
       case Ask(_, _, VerifyPin(pin)) => pin == Typed(ses.keys) && |pin| == 4
       case Ask(_, _, Withdraw(n)) => n == ses.amount
       case Ask(_, _, GetBalance) => true
       case CancelWithdrawal(_, _, n) => n == ses.amount
  }

  /** What the ATM shows for a message it handles. */
  function Shows(a: Atm, m: AtmMsg): seq<Screen> {
    match (a.mode, m)
    case (WaitForCard, FromUser(CardInserted(_))) => [DisplayEnterPin]
    case (VerifyingPin, FromBank(_, PinVerified)) => [DisplayPinCorrect]
    case (VerifyingPin, FromBank(_, PinIncorrect)) => [DisplayPinIncorrect]
    case (ProcessingWithdrawal, FromBank(_, WithdrawOk)) => [IssueMoney(a.amount)]
    case (ProcessingWithdrawal, FromBank(_, WithdrawDenied)) => [DisplayInsufficientFunds]
    case (ProcessingWithdrawal, FromUser(CancelPressed)) => [DisplayWithdrawalCancelled]
    case (ProcessBalance, FromBank(_, Balance(n))) => [DisplayBalance(n)]
    case _ => []
  }

  /** One message taken: the fields follow the session, and what is sent speaks of it. */
  ghost predicate Follows(a: Atm, m: AtmMsg, next: nat, ses: Session) {
    var r := AtmHandle(a, m, next);
    && Remembers(r.atm, Heard(ses, a.mode, m))
    && (r.bank.Some? ==> Carries(r.bank.value, Heard(ses, a.mode, m)))
  }

  lemma DigitFollows(a: Atm, d: char, next: nat, ses: Session)
    requires Remembers(a, ses) && a.mode.GettingPin?
    ensures Follows(a, FromUser(DigitPressed(d)), next, ses)
  {
    TypedAppend(ses.keys, DigitPressed(d));
    assert AtmHandle(a, FromUser(DigitPressed(d)), next).atm.pin == a.pin + [d];
  }

  lemma ClearFollows(a: Atm, next: nat, ses: Session)
    requires Remembers(a, ses) && a.mode.GettingPin?
    ensures Follows(a, FromUser(ClearLastPressed), next, ses)
  {
    TypedAppend(ses.keys, ClearLastPressed);
  }

  lemma PinKeyFollows(a: Atm, m: AtmMsg, next: nat, ses: Session)
    requires Remembers(a, ses) && a.mode.GettingPin?
    ensures Follows(a, m, next, ses)
  {
    match m
    case FromUser(DigitPressed(d)) => DigitFollows(a, d, next, ses);
    case FromUser(ClearLastPressed) => ClearFollows(a, next, ses);
    case _ =>
  }

  lemma CardAndReplyFollow(a: Atm, m: AtmMsg, next: nat, ses: Session)
    requires Remembers(a, ses) && (a.mode.WaitForCard? || a.mode.VerifyingPin?)
    ensures Follows(a, m, next, ses)
  {
  }

  lemma ChoiceFollows(a: Atm, m: AtmMsg, next: nat, ses: Session)
    requires Remembers(a, ses) && a.mode.WaitForAction?
    ensures Follows(a, m, next, ses)
  {
  }

  lemma WaitingFollows(a: Atm, m: AtmMsg, next: nat, ses: Session)
    requires Remembers(a, ses)
    requires !a.mode.GettingPin? && !a.mode.WaitForCard? && !a.mode.VerifyingPin? && !a.mode.WaitForAction?
    ensures Follows(a, m, next, ses)
  {
  }

  lemma MessageFollows(a: Atm, m: AtmMsg, next: nat, ses: Session)
    requires Remembers(a, ses)
    ensures Follows(a, m, next, ses)
  {
    match a.mode
    case GettingPin => PinKeyFollows(a, m, next, ses);
    case WaitForCard => CardAndReplyFollow(a, m, next, ses);
    case VerifyingPin => CardAndReplyFollow(a, m, next, ses);
    case WaitForAction => ChoiceFollows(a, m, next, ses);
    case _ => WaitingFollows(a, m, next, ses);
  }

  lemma MessageShows(a: Atm, m: AtmMsg, next: nat)
    ensures AtmHandle(a, m, next).screen == Shows(a, m)
  {
  }

  lemma EnterRemembers(a: Atm, ses: Session)
    requires Remembers(a, ses)
    ensures Remembers(AtmEnter(a).atm, ses)
  {
  }

  /**
   On every schedule the ATM remembers the card, exactly the digits typed since
   the card went in or the last PIN was rejected, and the amount last chosen; it
   is still typing with fewer than four digits and verifies four.
   */
  lemma {:induction false} SessionIsRemembered(start: Word, amount: Word, acts: seq<Action>)
    ensures Remembers(Exec(Init(start, amount), acts).atm, SessionOf(Init(start, amount), acts))
  {
    if acts != [] {
      var init, before := Init(start, amount), acts[..|acts| - 1];
      var s := Exec(init, before);
      SessionIsRemembered(start, amount, before);
      EnterRemembers(s.atm, SessionOf(init, before));
      if s.atmQ != [] {
        MessageFollows(s.atm, s.atmQ[0], |s.journal|, SessionOf(init, before));
      }
    }
  }

  /**
   On every schedule what the ATM sends to the bank speaks of its session: the
   inserted card, four digits that were typed, and the amount that was chosen.
   */
  lemma {:induction false} RequestsSpeakOfTheSession(start: Word, amount: Word, acts: seq<Action>)
    ensures var s := Exec(Init(start, amount), acts);
      s.atm.waiting && s.atmQ != [] ==>
        || AtmStep(s).bankQ == s.bankQ
        || (|AtmStep(s).bankQ| == |s.bankQ| + 1 && s.bankQ <= AtmStep(s).bankQ
            && Carries(AtmStep(s).bankQ[|s.bankQ|], SessionOf(Init(start, amount), acts + [AtmReceives])))
  {
    var init, s := Init(start, amount), Exec(Init(start, amount), acts);
    SessionIsRemembered(start, amount, acts);
    if s.atm.waiting && s.atmQ != [] {
      assert (acts + [AtmReceives])[..|acts|] == acts;
      MessageFollows(s.atm, s.atmQ[0], |s.journal|, SessionOf(init, acts));
    }
  }

  // ------------------------------------------------------------ the key order

  /** The keys among the messages of the ATM's queue. */
  function Keys(q: seq<AtmMsg>): seq<Key> {
    if q == [] then [] else (if q[0].FromUser? then [q[0].key] else []) + Keys(q[1..])
  }

  lemma {:induction false} KeysAppend(q: seq<AtmMsg>, m: AtmMsg)
    ensures Keys(q + [m]) == Keys(q) + (if m.FromUser? then [m.key] else [])
  {
    if q == [] {
      assert q + [m] == [m];
      assert [m][1..] == [];
    } else {
      KeysAppend(q[1..], m);
      assert (q + [m])[1..] == q[1..] + [m];
    }
  }

  function KeyPressed(a: Action): seq<Key> {
    if a.Press? then [a.key] else []
  }

  function KeyTaken(s: State, a: Action): seq<Key> {
    if a.AtmReceives? && s.atm.waiting && s.atmQ != [] && s.atmQ[0].FromUser? then [s.atmQ[0].key] else []
  }

  function Pressed(acts: seq<Action>): seq<Key> {
    if acts == [] then [] else Pressed(acts[..|acts| - 1]) + KeyPressed(acts[|acts| - 1])
  }

  /** The keys the ATM has taken from its queue, handled or dropped. */
  function TakenKeys(init: State, acts: seq<Action>): seq<Key> {
    if acts == [] then []
    else TakenKeys(init, acts[..|acts| - 1]) + KeyTaken(Exec(init, acts[..|acts| - 1]), acts[|acts| - 1])
  }

  lemma StepKeepsKeys(s: State, a: Action)
    ensures Keys(s.atmQ) + KeyPressed(a) == KeyTaken(s, a) + Keys(Apply(s, a).atmQ)
  {
    match a
    case Press(key) => KeysAppend(s.atmQ, FromUser(key));
    case BankReceives =>
      if s.bankQ != [] && s.bankQ[0].Ask? {
        KeysAppend(s.atmQ, FromBank(s.bankQ[0].id, BankAnswer(s.balance, s.bankQ[0].req).1));
      }
    case _ =>
  }

  /** On every schedule the keys pressed are the keys taken followed by the keys queued, in order. */
  lemma {:induction false} KeysAreTakenInOrder(start: Word, amount: Word, acts: seq<Action>)
    ensures Pressed(acts) == TakenKeys(Init(start, amount), acts) + Keys(Exec(Init(start, amount), acts).atmQ)
  {
    if acts != [] {
      var init, before, a := Init(start, amount), acts[..|acts| - 1], acts[|acts| - 1];
      var s := Exec(init, before);
      var taken, queued := TakenKeys(init, before), Keys(s.atmQ);
      KeysAreTakenInOrder(start, amount, before);
      StepKeepsKeys(s, a);
      Regroup(taken, queued, KeyPressed(a), KeyTaken(s, a), Keys(Apply(s, a).atmQ));
    }
  }

  lemma Regroup(taken: seq<Key>, queued: seq<Key>, pressed: seq<Key>, next: seq<Key>, rest: seq<Key>)
    requires queued + pressed == next + rest
    ensures taken + queued + pressed == taken + next + rest
  {
    assert taken + queued + pressed == taken + (queued + pressed);
    assert taken + next + rest == taken + (next + rest);
  }

  // ------------------------------------------------------------ what is shown

  /** What the customer sees last in each state. */
  predicate Prompts(a: Atm, last: Option<Screen>) {
    match a.mode
    case WaitForCard =>
      if a.waiting then last == Some(DisplayEnterCard) else last == None || last == Some(EjectCard)
    case GettingPin => last == Some(DisplayEnterPin) || last == Some(DisplayPinIncorrect)
    case VerifyingPin => last == Some(DisplayEnterPin) || last == Some(DisplayPinIncorrect)
    case WaitForAction =>
      if a.waiting then last == Some(DisplayWithdrawalOptions)
      else last == Some(DisplayPinCorrect) || (last.Some? && last.value.DisplayBalance?)
    case ProcessingWithdrawal => last == Some(DisplayWithdrawalOptions)
    case ProcessBalance => last == Some(DisplayWithdrawalOptions)
    case _ => true
  }

  function Last(screen: seq<Screen>): Option<Screen> {
    if screen == [] then None else Some(screen[|screen| - 1])
  }

  /** A card is in the machine. */
  predicate CardInside(a: Atm) {
    !a.mode.WaitForCard?
  }

  function Shown(screen: seq<Screen>, what: Screen): nat {
    multiset(screen)[what]
  }

  /** Cards taken in are cards ejected and the one inside. */
  ghost predicate CardsBalance(s: State) {
    !s.atm.mode.Ended? ==>
      Shown(s.screen, DisplayEnterPin) == Shown(s.screen, EjectCard) + if CardInside(s.atm) then 1 else 0
  }

  lemma MessagePrompts(a: Atm, m: AtmMsg, next: nat, last: Option<Screen>)
    requires a.waiting && Prompts(a, last)
    ensures |Shows(a, m)| <= 1
    ensures Prompts(AtmHandle(a, m, next).atm, if Shows(a, m) == [] then last else Some(Shows(a, m)[0]))
  {
  }

  /** A card goes in exactly when the PIN is asked for first, and does not come out by a message. */
  lemma MessageMovesCard(a: Atm, m: AtmMsg, next: nat)
    ensures var a' := AtmHandle(a, m, next).atm;
      && EjectCard !in Shows(a, m) && (CardInside(a) ==> CardInside(a'))
      && (!a'.mode.Ended? ==> (DisplayEnterPin in Shows(a, m) <==> CardInside(a') && !CardInside(a)))
  {
  }

  lemma MessageKeepsPrompt(s: State)
    requires s.atm.waiting && s.atmQ != [] && Prompts(s.atm, Last(s.screen)) && CardsBalance(s)
    ensures Prompts(AtmStep(s).atm, Last(AtmStep(s).screen)) && CardsBalance(AtmStep(s))
  {
    var m := s.atmQ[0];
    MessageShows(s.atm, m, |s.journal|);
    MessagePrompts(s.atm, m, |s.journal|, Last(s.screen));
    MessageMovesCard(s.atm, m, |s.journal|);
    EndedStays(s.atm, m, |s.journal|);
    assert Shows(s.atm, m) == [] || Shows(s.atm, m) == [Shows(s.atm, m)[0]];
    assert s.screen + [] == s.screen;
  }

  lemma EndedStays(a: Atm, m: AtmMsg, next: nat)
    ensures a.mode.Ended? ==> AtmHandle(a, m, next).atm.mode.Ended?
  {
  }

  lemma EnterKeepsPrompt(s: State)
    requires !s.atm.waiting && Prompts(s.atm, Last(s.screen)) && CardsBalance(s)
    ensures Prompts(EnterStep(s).atm, Last(EnterStep(s).screen)) && CardsBalance(EnterStep(s))
  {
  }

  /**
   On every schedule the last thing shown fits the state, and until the ATM is
   closed every card taken in is ejected exactly once, except the one inside.
   */
  lemma {:induction false} ScreenFitsState(start: Word, amount: Word, acts: seq<Action>)
    ensures var s := Exec(Init(start, amount), acts); Prompts(s.atm, Last(s.screen)) && CardsBalance(s)
  {
    if acts != [] {
      var s := Exec(Init(start, amount), acts[..|acts| - 1]);
      ScreenFitsState(start, amount, acts[..|acts| - 1]);
      if acts[|acts| - 1].AtmReceives? && s.atm.waiting && s.atmQ != [] {
        MessageKeepsPrompt(s);
      } else if acts[|acts| - 1].AtmEnters? && !s.atm.waiting {
        EnterKeepsPrompt(s);
      }
    }
  }
}
