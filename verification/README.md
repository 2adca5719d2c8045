# Verified models of the concurrent components

This project models the concurrent components of the repository in Dafny and
proves what they guarantee over whole runs: the lock-free and the locked ring of
`SafeCircleQueue.hpp`, the ATM and bank protocol with its dispatcher, the CSP
channel, the two-lock queue, the striped hash map, the id generator and the
thread pool.

Every concurrent component is a step machine over any number of threads: one
atomic access, one statement on shared memory or one lock operation per step,
interleaved in any order under sequential consistency. A schedule is any finite
sequence of actions (an action that is not possible changes nothing), so a
theorem about `Exec(…, acts)` for every `acts` is a theorem about every
reachable state. Unbounded tickets, logs and journals stand beside the fields
as a record of the past; no branch depends on them. The objects themselves, with
fields, arrays, loops and linked nodes updated in place, are classes whose
methods are proved equal to the machine's steps or to a plain abstract value; a
`RunSchedule` method shows that the lock-free ring, the channel, the thread pool
and the ATM with its bank, as objects under any schedule, are their machines, so
those theorems are about the objects too.

Main results:

- The lock-free ring keeps ticket order within capacity, delivers every claimed
  value exactly once in claim order and never lets two threads touch a slot, on
  every schedule in which no compare-exchange succeeds on an index a full lap
  old. A configuration has this on all its schedules **if and only if** the
  capacity is zero, or there is no producer, or no consumer, or one of each
  (`CorrectIffSafeRoles`); every other configuration of any capacity has a
  lapping schedule, and the same holds of delivery alone (`DeliversIffSafeRoles`):
  the lap ends in a value delivered twice, or in a ring of Cap+1 values that
  reports empty and then loses one. With one producer and one consumer every
  step, failures included, is a step of the bounded queue that the locked ring
  implements. Refusals are weaker than deliveries: all answers, "full" and
  "empty" included, are those of the bounded queue **if and only if** the
  capacity is zero, or there is no producer, or at most one of each
  (`RefinesFifoIff`), and excluding laps does not help; schedules report an empty
  ring full and a full ring empty. A thread that loses a compare-exchange loads
  again, and alone it answers truly.
- In the ATM protocol the i-th reply answers the i-th request on every schedule,
  and a reply is handled as the current one **exactly when** nothing else is
  outstanding (`HandlesOnlyCurrentIff`). On every schedule the money is the
  initial balance, the credits for denied withdrawals and what the steps created
  (`MoneyOnEverySchedule`), so the accounts hold throughout **if and only if**
  every grant handled is worth what it issues and no issued grant is refunded
  (`AlwaysAccountedIff`). Both hold if no cancel is handled while the PIN is
  verified; with one such cancel a schedule issues 2^32 - 1 from any balance. What
  the bank is asked is the card inserted, the digits typed and the amount chosen.
- The channel loses nothing at shutdown whenever `stop()` comes, and without
  `stop()` loses no wakeup; `stop()` misses a sleeper **if and only if** at its
  notification some thread is between its test and its sleep
  (`ChannelStop.StopMissesIff`), and likewise for the thread pool.
- In the channel, the two-lock queue and the thread pool every call does what its
  caller asked: its own argument once, or a refusal exactly when the code may
  refuse; calls that are not disturbed complete (`CallsDoTheirWork`,
  `CommitsAreAcceptedUnlessStopped` and the lemmas beside them).
- The two-lock queue linearises to a FIFO with pushes and pops interleaved
  statement by statement, nodes freed and addresses reused, and never touches a
  dead node.
- The hash map is a plain map for every hash function; `getMap` is an atomic
  snapshot and cannot deadlock.
- On every non-decreasing clock two ids are equal **if and only if** their fields
  agree and whole laps of 2^42 ms lie between them (`IdsCollideIff`); packing
  round trips exactly while the timestamp fits in 42 bits.

Files: `LockFreeRing*.dfy`, `RingObjects.dfy`, `RingIndex.dfy`, `BoundedFifo.dfy`
(rings); `Atm*.dfy`, `Dispatcher.dfy` (ATM); `Channel*.dfy`, `ThreadPool*.dfy`,
`MonitorObjects.dfy`, `Counting.dfy` (monitors); `TwoLock*.dfy`,
`LinkedQueueObject.dfy`; `HashTable.dfy`, `MapObject.dfy`, `ConcurrentMap.dfy`;
`IdGenerator.dfy`, `Bits.dfy`; `Values.dfy`.

Where code and intent differ, the model follows the code: `head_` is read again
inside the argument of its compare-exchange; `cancel_withdrawal` credits the
balance whether or not the withdrawal was granted; a PIN cancel leaves its reply
outstanding; `stop()` sets its flag outside the mutex; `SafeQueueEnhance::push`
notifies nobody, so `wait_pop` wakes only spuriously. Request numbers carried by
ATM and bank messages are an annotation that no handler looks at
(`NumbersAreInert`).

## Model

| member | source | states |
|---|---|---|
| LockFreeRing.EmplaceStep | include/data_struct/SafeCircleQueue.hpp:72-92 | one atomic access of `emplace`: load, full check, claim, construct in two halves, publish; indices stay inside the ring on every schedule |
| LockFreeRing.PopStep | include/data_struct/SafeCircleQueue.hpp:93-110 | one atomic access of `pop`: load, two emptiness checks, copy, re-read of `head_`, compare-exchange; indices stay inside the ring on every schedule |
| LockFreeRing.ApplyKeepsInv | include/data_struct/SafeCircleQueue.hpp:72-110 | every fresh step of every thread keeps ticket order, slot contents, claim ownership and each thread's snapshot relation |
| LockFreeRing.ClaimKept | include/data_struct/SafeCircleQueue.hpp:76-81 | a fresh win of `tail_` takes exactly the next ticket and stays within capacity |
| LockFreeRing.ConstructKept | include/data_struct/SafeCircleQueue.hpp:83-83 | construction, even half done, disturbs no published slot and no other claim |
| LockFreeRing.PublishKept | include/data_struct/SafeCircleQueue.hpp:86-90 | `tail_up_` lets through exactly the holder of the next unpublished ticket |
| LockFreeRing.PopKept | include/data_struct/SafeCircleQueue.hpp:97-107 | a fresh win of `head_`, with the re-read argument, returns the value of the head ticket |
| LockFreeRingSafety.FreshSchedulesAreCorrect | include/data_struct/SafeCircleQueue.hpp:72-110 | any threads, any capacity, any schedule without a full-lap-old win: H <= U <= T <= H+Cap with `head_`, `tail_up_`, `tail_` their remainders modulo Cap+1, pops are exactly the beginning of the claims, slots are exclusive |
| LockFreeRingSafety.FreshOperationsAreFifo | include/data_struct/SafeCircleQueue.hpp:72-110 | on such a schedule each successful emplace and pop is one step of the bounded FIFO and no pop returns a torn value; a refusal changes nothing, and with a current index "empty" is right and "full" is right iff no claim is unpublished |
| LockFreeRingSafety.CopyIsIntact | include/data_struct/SafeCircleQueue.hpp:102-107 | from the copy to the compare-exchange that makes it count the slot holds the copied value, constructed whole |
| LockFreeRingSafety.PublicationIsInOrder | include/data_struct/SafeCircleQueue.hpp:86-90 | a publisher's index equals `tail_up_` iff it is its ticket's turn; the next unpublished ticket always has a holder whose publishing step succeeds |
| LockFreeRingSafety.ReturnsAreObserved | include/data_struct/SafeCircleQueue.hpp:72-110 | a thread leaves an operation exactly at an observed outcome, and an emplace carries its argument unchanged to its return |
| LockFreeRingSafety.WinIsSafeIffRoom | include/data_struct/SafeCircleQueue.hpp:77-81 | a win of `tail_`, however stale, keeps the order iff the ring is not full at the compare-exchange |
| LockFreeRingSafety.PopWinIsSafeIff | include/data_struct/SafeCircleQueue.hpp:102-107 | a win of `head_`, however stale, keeps order and delivery iff something is published, the copy is the head value and the new index was computed from the current one |
| LockFreeRingRoles.SafeRolesAreAlwaysFresh | include/data_struct/SafeCircleQueue.hpp:72-110 | with safe roles, in particular one producer and one consumer, nobody is ever lapped: proved, not assumed |
| LockFreeRingRoles.SoleRolesRefineFifo | include/data_struct/SafeCircleQueue.hpp:72-110 | with one producer and one consumer every step is a step of the bounded FIFO: "full" only when it holds Cap elements, "empty" only when nothing is published |
| LockFreeRingLaps.CorrectIffSafeRoles | include/data_struct/SafeCircleQueue.hpp:57-110 | all schedules of a configuration are correct iff capacity is 0, or there is no producer, or no consumer, or at most one of each |
| LockFreeRingLaps.DeliversIffSafeRoles | include/data_struct/SafeCircleQueue.hpp:57-110 | all schedules pop exactly the beginning of what was emplaced, once each and in order, under the same if-and-only-if |
| LockFreeRingLaps.LappedProducer | include/data_struct/SafeCircleQueue.hpp:76-81 | for every capacity above zero, two producers and a consumer have a schedule that claims a slot of a full ring |
| LockFreeRingLaps.LapHidesEverything | include/data_struct/SafeCircleQueue.hpp:86-101 | that schedule goes on to a `pop` that reports empty with Cap+1 published values unpopped |
| LockFreeRingLaps.LapLosesAValue | include/data_struct/SafeCircleQueue.hpp:76-107 | and then to a `pop` that returns a newer value in place of the oldest, which is lost |
| LockFreeRingLaps.LappedConsumer | include/data_struct/SafeCircleQueue.hpp:97-107 | for every capacity above zero, two consumers and a producer have a schedule that pops from an empty ring and delivers a value emplaced once a second time |
| LockFreeRingLaps.RereadMisplacesHead | include/data_struct/SafeCircleQueue.hpp:102-107 | a schedule in which a lapped win of `head_` installs the successor of the value read again in its argument, which is not the place after the one it compared |
| LockFreeRingRuns.EmplaceRuns | include/data_struct/SafeCircleQueue.hpp:72-92 | an emplace that runs undisturbed on a ring with room completes and adds one ticket |
| LockFreeRingRuns.PopRuns | include/data_struct/SafeCircleQueue.hpp:93-110 | a pop that runs undisturbed on a non-empty ring completes and takes one ticket |
| LockFreeRingRefusals.RefinesFifoIff | include/data_struct/SafeCircleQueue.hpp:57-110 | every step of every schedule, refusals included, is a bounded FIFO step iff capacity is 0, or there is no producer, or at most one producer and one consumer; the same over schedules without a full-lap-old win |
| LockFreeRingRefusals.FullBeforePublished | include/data_struct/SafeCircleQueue.hpp:76-90 | two producers have a schedule without laps in which "full" is returned with Cap-1 elements published |
| LockFreeRingRefusals.FullOnAnEmptyRing | include/data_struct/SafeCircleQueue.hpp:76-80 | two producers and a consumer have a schedule without laps in which "full" is returned on an empty ring |
| LockFreeRingRefusals.EmptyOnAFullRing | include/data_struct/SafeCircleQueue.hpp:97-101 | two consumers and a producer have a schedule without laps in which "empty" is returned on a ring of Cap elements |
| LockFreeRingRetries.LostPopAnswersTruly | include/data_struct/SafeCircleQueue.hpp:93-110 | on every schedule without a full-lap-old win a pop that starts or loses its compare-exchange loads again: alone it returns in at most eight steps, with the first element if there is one and "empty" only if there is none |
| LockFreeRingRetries.LostEmplaceAnswersTruly | include/data_struct/SafeCircleQueue.hpp:72-81 | likewise an emplace: alone it answers "full" iff every place is claimed, and otherwise claims the next ticket for its own argument |
| RingObjects.SafeCircleQueue.constructor | include/data_struct/SafeCircleQueue.hpp:13-13 | an empty ring of Cap+1 raw slots |
| RingObjects.SafeCircleQueue.Emplace | include/data_struct/SafeCircleQueue.hpp:24-34 | the array ring with `%` appends to a bounded FIFO, and refuses iff it holds Cap elements |
| RingObjects.SafeCircleQueue.Pop | include/data_struct/SafeCircleQueue.hpp:35-45 | takes the first element of the bounded FIFO, and fails iff it is empty |
| RingObjects.SafeCircleQueNOLock.constructor | include/data_struct/SafeCircleQueue.hpp:60-60 | the initial state of the step machine |
| RingObjects.SafeCircleQueNOLock.EmplaceStep | include/data_struct/SafeCircleQueue.hpp:72-92 | in-place access with the code's `%` arithmetic is the machine's emplace step |
| RingObjects.SafeCircleQueNOLock.PopStep | include/data_struct/SafeCircleQueue.hpp:93-110 | in-place access with the code's `%` arithmetic is the machine's pop step |
| RingObjects.SafeCircleQueNOLock.RunSchedule | include/data_struct/SafeCircleQueue.hpp:57-110 | the object under any schedule of any configuration is in the machine's state |
| AtmReplies.RepliesMatchRequests | include/atm/BankMachine.hpp:14-29 | on every schedule the i-th reply queued by the bank answers the i-th request, with the right verdict on the PIN |
| AtmReplies.ExecKeepsInv | include/atm/Message.hpp:25-37 | on every schedule the requests queued at the bank and the replies queued at the ATM are the latest ones, in order, none lost or duplicated |
| AtmReplies.NumbersAreInert | include/atm/ATM.hpp:35-112 | the ATM's behaviour does not depend on the request numbers the model attaches to messages |
| AtmCurrent.ExecKeepsCurrent | include/atm/ATM.hpp:35-112 | on every schedule the latest request is the one the state waits for, and a withdrawal waited for is not cancelled |
| AtmCurrent.HandlesOnlyCurrentIff | include/atm/ATM.hpp:60-112 | on every schedule, PIN cancels included: the ATM handles only the current reply (right amount, not cancelled; typed PIN; latest balance query) iff, when it is about to handle one, nothing else is outstanding |
| AtmCurrent.AtmKeepsFresh | include/atm/ATM.hpp:35-116 | every message the ATM takes except a PIN cancel, handled or dropped, keeps the number of outstanding requests that each state expects |
| AtmCurrent.HandledRepliesAreCurrent | include/atm/ATM.hpp:60-112 | with no cancel handled in `verifyingPin`: at most two requests outstanding, and every handled reply is the current one |
| AtmSession.SessionIsRemembered | include/atm/ATM.hpp:35-112 | on every schedule the fields are the card inserted, exactly the digits typed since the card or the last rejection (digits append, clear drops the last) and the amount last chosen; fewer than four digits while typing, four while verifying |
| AtmSession.RequestsSpeakOfTheSession | include/atm/ATM.hpp:45-103 | on every schedule what is sent to the bank carries that card, those four digits and that amount |
| AtmSession.KeysAreTakenInOrder | include/atm/Message.hpp:25-37 | on every schedule the keys pressed are the keys taken followed by the keys queued, in order |
| AtmSession.ScreenFitsState | include/atm/ATM.hpp:35-116 | on every schedule the last thing shown fits the state, and until the ATM is closed every card taken in is ejected exactly once, except the one inside |
| AtmLedger.MoneyOnEverySchedule | include/atm/ATM.hpp:74-103 | on every schedule balance + cash issued + granted amounts neither issued nor refunded + 2^32 per wrap = initial balance + credited denials + what steps created (cash beyond the outstanding part of the grant handled, refunds of issued cash) |
| AtmLedger.AlwaysAccountedIff | include/atm/ATM.hpp:74-103 | the accounts without the created term hold throughout a schedule iff every `withdraw_ok` handled is worth what it issues and no issued grant is refunded |
| AtmLedger.MoneyIsAccountedFor | include/atm/ATM.hpp:74-103 | if no `withdraw_ok` is handled while another request is outstanding the accounts hold; without credited denials nothing wraps and neither balance nor cash exceeds the initial balance |
| AtmLedger.NoPinCancelNoStaleGrant | include/atm/ATM.hpp:70-72 | no cancel handled in `verifyingPin` is enough for that, and so for the accounts |
| AtmLedger.AccountedModulo | include/atm/BankMachine.hpp:20-36 | the same accounts as a congruence modulo 2^32 |
| AtmLedger.GrantsAreCovered | include/atm/BankMachine.hpp:20-29 | without stale grants a withdrawal is granted iff issued and outstanding money leave room for it in the initial balance, and a reported balance is what they leave |
| AtmLedger.CreditChangesWorth | include/atm/BankMachine.hpp:34-36 | the credit of a cancelled withdrawal, wrap-around and denied case included, changes the accounts exactly when its cash was issued |
| AtmLedger.CancelRestoresIffGranted | include/atm/BankMachine.hpp:20-36 | a withdrawal followed by its cancellation restores the balance iff the withdrawal was granted |
| AtmLedger.CancelledIsDecided | include/atm/ATM.hpp:98-102 | a cancellation reaches the bank only after its withdrawal was decided |
| AtmStaleReply.PinCancelLeavesAStaleReply | include/atm/ATM.hpp:70-72 | a schedule with exactly one cancel handled in `verifyingPin` in which a later session handles the earlier reply |
| AtmStaleReply.PinCancelCreatesMoney | include/atm/ATM.hpp:60-103 | for every initial balance a schedule with exactly one such cancel that issues 2^32 - 1 with the balance untouched and nothing credited |
| AtmStaleReply.DeniedCancelRaisesBalance | include/atm/BankMachine.hpp:20-36 | for every balance and larger amount a schedule without such a cancel in which a denied withdrawal is cancelled and the balance changes, to balance + amount unless it wraps, with no cash issued |
| AtmObjects.BankMachine.constructor | include/atm/BankMachine.hpp:10-10 | the initial balance is 199 |
| AtmObjects.BankMachine.Handle | include/atm/BankMachine.hpp:14-29 | the in-place handlers give the bank's answer and new balance |
| AtmObjects.BankMachine.Cancel | include/atm/BankMachine.hpp:34-36 | the amount is added with the wrap of a 32-bit unsigned, and restores the balance from before a withdrawal of that amount iff that withdrawal was granted |
| AtmObjects.AtmMachine.EnterState | include/atm/ATM.hpp:35-116 | what each state sends before it waits |
| AtmObjects.AtmMachine.Receive | include/atm/ATM.hpp:35-112 | the in-place handlers of all states give the machine's reaction, messages sent included |
| AtmObjects.CashSystem.RunSchedule | include/atm/ATM.hpp:14-22 | the ATM and bank objects on their queues under any schedule are in the machine's state |
| AtmObjects.Serve | include/atm/BankMachine.hpp:10-36 | the objects run on any schedule without a stale grant end with balance and cash within the initial 199 unless a denial was credited |
| AtmDispatch.DispatchDecides | include/atm/ATM.hpp:35-112 | each state's handler chain decides: a missed message changes nothing, `CloseQueue` ends the ATM, a handled one follows the state diagram, asks the bank exactly what the next state waits for, cancels only its own withdrawal, shows what the message calls for (the amount asked for, the balance reported) and changes card, PIN and amount only as the message says |
| AtmDispatch.WaitIsDispatch | include/atm/ATM.hpp:35-112 | taking messages one by one in a waiting state is one run of the dispatcher: all but the last consumed are dropped, and that one alone is handled |
| Dispatcher.DispatchPicksLatest | include/atm/Dispatcher.hpp:47-53 | for a chain of any length the handler that runs is the most recently chained one for the type; the base throws on `CloseQueue` only |
| Dispatcher.ConsumesShortestPrefix | include/atm/Dispatcher.hpp:39-53 | a wait consumes exactly the shortest prefix ending in a handled type or `CloseQueue`, drops the rest of it, and runs one handler or none |
| Dispatcher.Queue.Push | include/atm/Message.hpp:25-29 | appends to the queue |
| Dispatcher.Queue.WaitAndPop | include/atm/Message.hpp:31-37 | takes the first message, or blocks exactly on an empty queue |
| Dispatcher.Queue.WaitAndDispatch | include/atm/Dispatcher.hpp:39-45 | the loop over the queue has that outcome and leaves the rest of the queue |
| Dispatcher.OnlyTheLastWaits | include/atm/Dispatcher.hpp:13-28 | after any sequence of chainings and moves exactly the last object is unchained, so only its destructor waits |
| Channel.SendKeepsInv | include/CSPChannel.hpp:16-24 | a step of `send` keeps mutual exclusion, the capacity bound, conservation and the shutdown condition |
| Channel.RecvKeepsInv | include/CSPChannel.hpp:26-35 | likewise for `recv`; it never pops an empty queue |
| Channel.StopKeepsInv | include/CSPChannel.hpp:36-40 | likewise for `stop`, which never takes the mutex |
| Channel.ShutdownLosesNothing | include/CSPChannel.hpp:16-40 | with `stop()` anywhere: sent = received + queue; once a `recv` has returned false everything sent was received and no later `send` succeeds |
| Channel.NoLostWakeups | include/CSPChannel.hpp:16-35 | without `stop()`: a sleeping consumer has as many awake or about to be notified as there are messages, a sleeping producer as there are places; with the mutex free a sleeper with work has a woken colleague; never do both sides sleep with nobody on the way |
| ChannelCalls.CallsCarryTheirArguments | include/CSPChannel.hpp:16-40 | on every schedule a thread carries the argument of its call through waits, wakeups and notifications, and has sent it at most once |
| ChannelCalls.CallsDoTheirWork | include/CSPChannel.hpp:16-40 | on every schedule what enters the queue is the argument of the call that sends it; a `send` returns having sent it once, or refused with the flag up; a `recv` having taken the first message once, or refused with the flag up and the queue empty |
| ChannelCalls.SendUndisturbed | include/CSPChannel.hpp:16-24 | with the mutex free and no interference `send` is refused with the flag up, queues its argument with room, and otherwise sleeps with the mutex free again |
| ChannelCalls.RecvUndisturbed | include/CSPChannel.hpp:26-35 | likewise `recv`: it takes the first message, flag or not; from an empty queue it is refused with the flag up and otherwise sleeps |
| ChannelCalls.NotifyUndisturbed | include/CSPChannel.hpp:22-34 | the notification wakes one sleeper of the other side if there is any, and the call returns |
| ChannelCalls.StopUndisturbed | include/CSPChannel.hpp:36-40 | `stop` sets its flag, wakes every sleeper of both sides and returns |
| ChannelStop.StopMissesIff | include/CSPChannel.hpp:36-40 | on every schedule and for either condition variable: a thread can be found asleep after the notification iff some thread was between its test and its sleep at it |
| ChannelStop.FreeMutexMissesNobody | include/CSPChannel.hpp:36-40 | a notification made while the mutex is free misses nobody |
| ChannelStop.FlagUnderMutexMissesNobody | include/CSPChannel.hpp:36-40 | a flag set while the mutex is free is enough for both notifications, whatever happens in between |
| ChannelStop.StopCanMissASleeper | include/CSPChannel.hpp:36-40 | for every capacity a schedule in which `stop()` completes and leaves a receiver asleep |
| ChannelObject.CSPChannel.SendStep | include/CSPChannel.hpp:16-24 | the in-place step of `send` is the machine's |
| ChannelObject.CSPChannel.RecvStep | include/CSPChannel.hpp:26-35 | the in-place step of `recv` is the machine's |
| ChannelObject.CSPChannel.StopStep | include/CSPChannel.hpp:36-40 | the in-place step of `stop` is the machine's |
| ChannelObject.CSPChannel.NotifyStep | include/CSPChannel.hpp:22-34 | the in-place `notify_one` and return are the machine's |
| ChannelObject.CSPChannel.RunSchedule | include/CSPChannel.hpp:8-47 | the object under any schedule is in the machine's state, with sent = received + queue |
| TwoLockQueue.PushKeepsInv | include/data_struct/SafeQueue.hpp:59-66 | every statement of `push` keeps the chain, the private nodes and both locks' views |
| TwoLockQueue.PopKeepsInv | include/data_struct/SafeQueue.hpp:67-83 | every statement of `try_pop`, `wait_pop` and `pop` does, including the free |
| TwoLockQueue.PopsAreAPrefixOfPushes | include/data_struct/SafeQueue.hpp:54-83 | on every schedule no dead or empty node is dereferenced, `head_` (null only inside a pop) reaches `tail_` through distinct nodes holding the unpopped values, pops are a prefix of pushes in `tail_` order, and a pop returns what it took and frees a node that owns no other |
| TwoLockQueue.OperationsLinearise | include/data_struct/SafeQueue.hpp:59-83 | each step is a FIFO step at the move of `tail_` or `head_`; the emptiness test fails iff the queue is empty |
| TwoLockCalls.CallsKeepTheirKind | include/data_struct/SafeQueue.hpp:67-83 | on every schedule a thread's place fits its call; a `try_pop` never sleeps |
| TwoLockCalls.CallsDoTheirWork | include/data_struct/SafeQueue.hpp:59-83 | on every schedule a push enters its argument once before it returns, a `try_pop` returns with the first element or with nothing from an empty queue, a `wait_pop` only with the first element |
| TwoLockCalls.PushCallCompletes | include/data_struct/SafeQueue.hpp:59-66 | a whole push with the tail mutex free completes in its four steps |
| TwoLockCalls.PopUndisturbed | include/data_struct/SafeQueue.hpp:67-83 | a pop with the head mutex free takes the first element and frees its node in six steps; from an empty queue `try_pop` returns and `wait_pop` sleeps in two |
| TwoLockCalls.WokenPopTriesAgain | include/data_struct/SafeQueue.hpp:67-71 | a woken `wait_pop` goes back for the mutex, still to wait |
| LinkedQueueObject.SafeQueueEnhance.Push | include/data_struct/SafeQueue.hpp:59-66 | the linked-node body appends, changing only the old tail node |
| LinkedQueueObject.SafeQueueEnhance.TryPop | include/data_struct/SafeQueue.hpp:72-83 | takes the first element and its node, and returns nothing iff the queue is empty |
| HashTable.PutIsMapUpdate | include/data_struct/SafeMap.hpp:23-30 | for every hash function and bucket count `addOrUpdateFor` is update of the plain map |
| HashTable.DeleteIsMapRemoval | include/data_struct/SafeMap.hpp:31-36 | `removeFor` is removal from the plain map |
| HashTable.CollectLookup | include/data_struct/SafeMap.hpp:18-22 | a lookup in a key's own bucket agrees with the plain map that `getMap` builds |
| HashTable.PutKeepsPlaced | include/data_struct/SafeMap.hpp:23-30 | each key stays once and only in its hash bucket |
| HashTable.BucketIsRemainder | include/data_struct/SafeMap.hpp:83-87 | a key's bucket is the remainder of its hash by the number of buckets |
| MapObject.SafeMap.constructor | include/data_struct/SafeMap.hpp:53-56 | an empty map for any number of buckets, usable by key iff there is one |
| MapObject.SafeMap.FindEntryFor | include/data_struct/SafeMap.hpp:45-49 | the search loop finds the first pair with the key, or the end |
| MapObject.SafeMap.ValueFor | include/data_struct/SafeMap.hpp:60-62 | the plain map's value or the default |
| MapObject.SafeMap.AddOrUpdateFor | include/data_struct/SafeMap.hpp:63-65 | the plain map updated, in place in one bucket |
| MapObject.SafeMap.RemoveFor | include/data_struct/SafeMap.hpp:66-68 | the plain map without the key |
| MapObject.SafeMap.GetMap | include/data_struct/SafeMap.hpp:69-79 | the nested loops with non-overwriting insert return exactly the plain map |
| ConcurrentMap.OperationsAreAtomic | include/data_struct/SafeMap.hpp:18-36 | under any interleaving each operation acts on the plain map at one step under its bucket's lock, and no other step changes it |
| ConcurrentMap.GetMapIsASnapshot | include/data_struct/SafeMap.hpp:69-79 | between any two points of a schedule: what `getMap` carries to its return is the plain map at the point where it took the last lock, whatever others do in between |
| ConcurrentMap.NoDeadlock | include/data_struct/SafeMap.hpp:69-79 | while some thread is unfinished some thread can step, for any number of `getMap` calls and operations |
| ConcurrentMap.StepsGetCloser | include/data_struct/SafeMap.hpp:18-79 | every step brings a call one closer to its return: an operation returns after two, `getMap` after three for each bucket |
| ConcurrentMap.OperationCompletes | include/data_struct/SafeMap.hpp:18-36 | an operation called while its bucket is free does its own work on the plain map and returns |
| ConcurrentMap.GetMapCompletes | include/data_struct/SafeMap.hpp:69-79 | a `getMap` called while nobody holds a lock has copied exactly the plain map after two steps for each bucket |
| ConcurrentMap.ReadersShare | include/data_struct/SafeMap.hpp:18-36 | readers of a bucket do not keep each other out; writers keep out and are kept out by all |
| ConcurrentMap.ReleasedIsFree | include/data_struct/SafeMap.hpp:69-79 | a bucket that `getMap` has released is free to others before it returns |
| IdGenerator.PackingRoundTrips | include/chat/MyUtility.hpp:35-50 | data centre, machine and sequence always decode from the or-ed id; the timestamp does iff its offset is below 2^42 |
| IdGenerator.PackIsSum | include/chat/MyUtility.hpp:35-38 | the shifted and or-ed fields do not overlap |
| IdGenerator.CallAdvances | include/chat/MyUtility.hpp:19-38 | each call advances (timestamp, sequence) lexicographically through wrap and wait, and stamps its own arguments and a real reading |
| IdGenerator.SequenceCountsTheMillisecond | include/chat/MyUtility.hpp:19-38 | on a non-decreasing clock the sequence is the number of earlier ids of the same millisecond |
| IdGenerator.RefusesAndWaitsOnly | include/chat/MyUtility.hpp:15-30 | refused iff a field does not fit; waits only while the clock stands still with the sequence used up and reset |
| IdGenerator.WaitEnds | include/chat/MyUtility.hpp:26-29 | the wait loop ends with the first later reading |
| IdGenerator.SameIdIff | include/chat/MyUtility.hpp:35-38 | two ids are equal iff data centre, machine and sequence agree and the timestamps differ by a multiple of 2^42 |
| IdGenerator.IdsCollideIff | include/chat/MyUtility.hpp:14-41 | on every non-decreasing clock two ids of a call sequence are equal iff their fields agree and the clock ran one or more whole laps of 2^42 ms between them |
| IdGenerator.IdsCollideAfterALap | include/chat/MyUtility.hpp:14-41 | two calls with equal arguments exactly 2^42 ms apart give the same id |
| IdGenerator.IdsAreUnique | include/chat/MyUtility.hpp:14-41 | on a non-decreasing clock whose readings span less than 2^42 ms all ids of any call sequence differ; with both timestamps in the 2^42 ms after the epoch they increase for equal data centre and machine |
| IdGenerator.GeneratorsNeverCollide | include/chat/MyUtility.hpp:35-38 | different (data centre, machine) pairs never collide across any two runs, static states and clocks |
| IdGenerator.MyUtility.GenerateUniqueId | include/chat/MyUtility.hpp:14-41 | the method with its wait loop computes that outcome and the new static state |
| ThreadPool.TasksAreConserved | include/ThreadPool.hpp:25-73 | with `stop` anywhere: tasks are dequeued once each in push order; every accepted task is in exactly one of queued, in its one taker's hands, finished |
| ThreadPool.NoLostWakeups | include/ThreadPool.hpp:25-66 | without `stop`, with notify after unlock: awakened workers plus commits between push and notify are at least the queued tasks while a worker sleeps |
| ThreadPoolCalls.CommitsAreAcceptedUnlessStopped | include/ThreadPool.hpp:25-38 | on every schedule a commit whose check finds the flag down pushes exactly one task before it returns, and one whose check finds it up pushes none |
| ThreadPoolCalls.EveryCommitIsAccepted | include/ThreadPool.hpp:25-38 | without `stop` the commits started are those accepted and those still before their push |
| ThreadPoolCalls.CommitUndisturbed | include/ThreadPool.hpp:25-38 | with the mutex free a commit is refused at its check or pushes its task in two steps |
| ThreadPoolCalls.WorkerUndisturbed | include/ThreadPool.hpp:54-73 | with the mutex free a worker at its loop ends if stopped, runs the first task to its end and is back at its loop, or sleeps |
| ThreadPoolCalls.WokenUndisturbed | include/ThreadPool.hpp:59-70 | a woken worker runs the first task, stopped or not; without one it ends if stopped and otherwise sleeps again |
| ThreadPoolCalls.WorkersEndOnlyIfStopped | include/ThreadPool.hpp:54-73 | on every schedule a worker ends only once the pool is stopped |
| ThreadPoolCalls.StoppedWorkersTakeOneMore | include/ThreadPool.hpp:54-76 | once the flag is up every worker takes at most one more task, whatever is scheduled |
| ThreadPoolCalls.CounterCountsFreeWorkers | include/ThreadPool.hpp:67-69 | on every schedule `thread_num_` is the number of workers not busy with a task |
| ThreadPoolStop.StopMissesIff | include/ThreadPool.hpp:74-76 | a worker can be found asleep after the notification of `stop` iff some worker was between its test and its sleep at it |
| ThreadPoolStop.FreeMutexMissesNobody | include/ThreadPool.hpp:74-76 | a notification made while the mutex is free misses no worker |
| ThreadPoolStop.StopCanMissAWorker | include/ThreadPool.hpp:74-76 | a schedule in which `stop` comes between a worker's test and its sleep and misses it |
| PoolObject.Pool.CommitStep | include/ThreadPool.hpp:25-38 | the in-place step of `commit` is the machine's |
| PoolObject.Pool.WorkerStep | include/ThreadPool.hpp:54-73 | the in-place step of the worker loop is the machine's |
| PoolObject.Pool.StopStep | include/ThreadPool.hpp:74-76 | the in-place step of `stop` is the machine's |
| PoolObject.Pool.NotifyStep | include/ThreadPool.hpp:36-36 | the in-place `notify_one` is the machine's |
| PoolObject.Pool.RunSchedule | include/ThreadPool.hpp:25-76 | the object under any schedule is in the machine's state, every task in exactly one place |

## Left out

- Weak memory and C++ data races on non-atomic slots and on `tail_` of the two-lock queue: the models assume sequential consistency.
- Ring destructors: their loops never advance `head_`; destruction is not modelled, nor is the moved-from content of a popped slot.
- Liveness: fairness and lock starvation; wakeup claims are safety counts, and for the channel and the pool the counts exclude runs with `stop()`, for which it is proved exactly when a sleeper is missed.
- `SafeQueueEnhance::wait_pop`: only its safety, since nothing notifies it; a direct call of the public `pop` without the lock is not a schedule.
- LinkedQueueObject.SafeQueueEnhance.TryPop: one operation at a time on linked objects; overlap, frees and address reuse are in the step machine over an explicit heap.
- Thread pool futures and the join in `stop`.
- Bank and interface shutdown: `CloseQueue` is modelled for the ATM, where it is caught; `withdrawal_processed`, which nobody sends, is not.
- Key operations of a `SafeMap` with zero buckets, for which `getBucket` is undefined, and writer preference of the reader-writer locks.
- Id generator: the decimal rendering of the id, unsynchronised use by several threads, and uniqueness on clocks that run backwards.
- `SafeList`, `SafeQueue`, `SafeStack`, `AsioThreadPool`: not modelled; the list's code does not keep its intended ownership and the others would only add easy members.
- Interface machine: its incoming messages are kept as an output trace; console output is not modelled.
- Servers, file transfer, WebSocket, databases and generated gRPC code.
