# Mailbox module and pid allocator: a verified model

This project models two pieces of code and proves what they promise.

**The in-kernel mailbox protocol** (`Message_LKM`). Every process has one mailbox of at most 32 messages.
Senders and receivers, blocking or not, share one wait queue per mailbox; a mailbox can be stopped; a
reference count and a deletion thread free a mailbox after its process exits; a chained hash table maps pids
to mailboxes. The model has three layers that share their definitions:

- *Critical sections as functions on a value* (`MailboxSpec`, `WaitQueues`), and as relations that those
  functions are proved to meet (`Sections`): everything one task does between taking a lock and giving it up, to
  return or to sleep. A waker takes tasks off the front of the queue up to and including the first exclusive one;
  a woken task checks its condition again under the lock.
- *Objects changed in place* (`Mailbox`, `HashTable`, `MessageStore`, `RoundTrip`, `SystemCalls`): the records, buckets and
  loops of the C code, each method proved to have the effect of its specification.
- *A transition system* (`Protocol`): any number of tasks and mailboxes, one step per critical section, with
  every choice the code does not make itself (valid pid, allocation, user copy, signal) in the label of the
  step. `Reachable` is the set of states of all its runs.

**The shared-memory pid allocator** (`PidList`). One array of 100 nodes is threaded into a list of free nodes
and a list of active ones through `next`/`prev`/`head`/`tail`/`count`, all changed in place.

## Main results

- Safe reclamation, with the exact condition under which it fails: a step touches a freed mailbox if and only
  if it belongs to a deletion thread and another deletion thread of the same mailbox has already finished; and an
  exit hook makes that possible if and only if the mailbox it finds already had a deletion scheduled.
- Stop is absorbing and its single wake-up reaches everybody: a potential that strictly falls, a waiter that is
  always awake, and a run that empties the wait sections.
- Hand-off: every message linked or taken, every waiter that leaves and every stop releases the first sleeping sender
  or receiver, whose next step is then enabled; a receiver released by an add finds a message, a sender released by
  a remove finds room.
- Deletion terminates: a bound on all further steps on an unlinked mailbox, and an enabled step until it is freed.
- Every run of every mailbox is a run of a bounded stoppable FIFO, if and only if no removal in it met a stale
  count; and a removal meets a stale count if and only if the list was flushed while the count was not zero.
- Every message is in exactly one place in every reachable state; the leaked ones are exactly those whose add
  returned an error.
- FIFO across failed copies: a step keeps the order of a mailbox if and only if it does not put back a message
  other than the last one taken; receives that do not overlap never do.
- Each system call does exactly one thing to one FIFO (two for a receive that puts back), at a moment of its own
  between call and return, and returns the code of that moment.
- Every sequence of calls takes its spin locks in rank order and sleeps with none, so no schedule of any calls
  deadlocks on them.
- The hash table is a map, for any hash function; the pid allocator is a duplicate-free sequence of at most 100
  pids over two well-formed lists that partition the nodes.

## Where the code does less than it says

- `remove_mailbox_for_pid` does not prevent a second deletion of one mailbox (`Witnesses.TwoDeletions`);
  `Reclamation.TouchesFreed` says exactly what then goes wrong, `DoubleDeletion.HookExactly` exactly when it can.
- The flush does not reset `message_count`, so a claimant that was held up between claim and remove takes a
  message from an empty list (`Witnesses.PhantomMessage`; exact condition in `Refinement.CorruptExactly`).
- The comment at `Message_LKM/mailbox_manager.c:131` says that `stopped` never changes once EXITING is set. A
  stop through `__manage_mailbox` overwrites the word (`Witnesses.ExitingOverwritten`); `Witnesses.ExitingSurvives` says
  exactly when the bit survives. What is permanent is that the word is not zero.
- The put-back at the head is documented to preserve FIFO. With overlapping receives it does not
  (`Witnesses.OvertakingPutBack`; exact condition in `FifoRuns.StepOrder`).
- A failed send and a refused put-back never free their message (`Witnesses.LeakedSend`,
  `Witnesses.LeakedPutBack`; exactly which messages in `Leaks.LeakedOverRun`).
- Two reads are made without the lock that guards what they read: the stop word in a lookup
  (`Message_LKM/mailbox_manager.c:131`) and the count in a manage call (`Message_LKM/module.c:104`).
  `LockOrder.CallAccesses` lists them; every other access is under its lock.
- The comment above `find_node` describes `pidlist_add_pid`; the model follows the code.

## Model

| member | source | states |
|---|---|---|
| WaitQueues.WakeOnePrefix | Message_LKM/mailbox.c:135-147 | a wake-up releases a front of the queue whose members are all non-exclusive except the last, and stops at an exclusive one unless the queue runs out |
| WaitQueues.WakeOneCounts | Message_LKM/mailbox.c:170 | one wake-up releases exactly one sleeping sender or receiver if there is one; with none asleep it releases every deletion thread |
| Sections.WokenFirst | Message_LKM/mailbox.c:170 | a queue after n wake-ups has lost its first exclusive sleeper and n exclusive sleepers in all, or every one if there were fewer |
| Sections.AddEnterDoes | Message_LKM/mailbox.c:115-181 | an add from its entry, as a relation: STOPPED iff stopped, 0 iff open with room, FULL iff open, full and not blocking, ERROR iff open, full, blocking and signalled, asleep iff open, full, blocking and not signalled; the message linked at the end asked for exactly on 0; waiting one higher and last in the queue exactly if asleep; one wake-up for a link and one for a wait that ended; nothing else changes |
| Sections.AddWaitDoes | Message_LKM/mailbox.c:134-170 | the same for an add that runs again: waiting one lower unless it sleeps again, one wake-up for leaving the wait and one more for a link |
| Sections.RemoveEnterDoes | Message_LKM/mailbox.c:190-252 | a remove from its entry, as a relation: the head taken iff the count is not zero and the list not empty, STOPPED, EMPTY, ERROR and asleep each in exactly its case, a message that is not there iff the count is wrong; waiters and wake-ups as for an add |
| Sections.RemoveWaitDoes | Message_LKM/mailbox.c:209-241 | the same for a remove that runs again |
| Sections.CreatedDoes | Message_LKM/mailbox.c:56-71 | a new mailbox is open, empty, unclaimed, and nobody waits |
| Sections.HaltDoes | Message_LKM/mailbox.c:260-273 | a stop stores the whole word, gives one wake-up and changes nothing else |
| Sections.DestroyDoes | Message_LKM/mailbox.c:309-324 | the destroyer flushes exactly if nobody waits and leaves the count alone; otherwise it joins the queue, not exclusively |
| Sections.ClaimsDo | Message_LKM/mailbox_manager.c:199-224 | claim and unclaim move the count by one, with one wake-up exactly when it reaches zero, and change nothing else |
| Sections.AwaitDoes | Message_LKM/mailbox_manager.c:226-232 | the wait for claims is over exactly at zero; otherwise the task joins the queue, exclusively |
| HandOffs.StepQueue | Message_LKM/mailbox.c:135-170 | the queue of every mailbox after every step: a task that sleeps joins at the end, a signal takes exactly its task off, and all else is the wake-ups: one for a message linked or taken, one for a waiter that leaves, one for a stop |
| HandOffs.HandOff | Message_LKM/mailbox.c:170-241 | in every reachable state a step that wakes up a queue releases the first sender or receiver asleep there, one exclusive sleeper per wake-up, and the released task's next step is enabled |
| HandOffs.ReceiverGetsMessage | Message_LKM/mailbox.c:163-170 | if a message is linked while a receiver is first in the queue, that receiver's next step takes the head of the list |
| HandOffs.SenderGetsRoom | Message_LKM/mailbox.c:236-241 | if a message is taken from an open mailbox while a sender is first in the queue, that sender's next step links its message and ends its add with 0 |
| HandOffs.SignalReaches | Message_LKM/mailbox.c:135-140 | in every reachable state a signal reaches every sleeping sender and receiver, wherever it stands in the queue, takes exactly that task off, and its next step is enabled |
| HandOffs.SignalEnds | Message_LKM/mailbox.c:135-143 | a signalled sender or receiver that still cannot go on ends its wait with MAILBOX_ERROR (a put-back with MSG_ARG_ERROR), with `waiting` one lower, and passes one wake-up on |
| Lookups.StopWord | Message_LKM/mailbox.c:260-291 | in every reachable state the stop word is 0, STOPPED or EXITING with STOPPED, so the EXITING bit is set exactly in the last |
| Lookups.StepWord | Message_LKM/mailbox.c:260-304 | which steps write the stop word, and what: a user's stop STOPPED, an exit hook and the destroyer EXITING with STOPPED, nothing else |
| Lookups.LookupExactly | Message_LKM/mailbox_manager.c:112-145 | in every reachable state a lookup gives INVALID iff the pid is not valid or its mailbox is marked exiting, ERROR iff a mailbox was needed and there was no memory, and otherwise one more claim on the mailbox in the table or on a new, open, empty one; a failure changes nothing |
| Lookups.LivingPidIsServed | Message_LKM/mailbox_manager.c:129-139 | along every run without an exit of that pid, however often its mailbox was stopped, a lookup of the valid pid hands out a claim |
| Lookups.StoppedMailboxGives | Message_LKM/mailbox_manager.c:129-139 | a mailbox in the table that is stopped but not marked exiting still gives up its messages: a receive claims it and its first section takes the head |
| Lookups.CreateExactly | Message_LKM/message.c:36-59 | in a send a message of any length from 0 to 128 is made if there is memory and it can be read; each of the three errors occurs in exactly its case |
| BoxInvariant.AddEnterSound | Message_LKM/mailbox.c:115-181 | from entry to return or first sleep an add keeps count, capacity, waiter count and the chain of wake-ups, and joins the queue exactly if it sleeps |
| BoxInvariant.AddWaitSound | Message_LKM/mailbox.c:134-170 | the same for an add that runs again after a wake-up or a signal |
| BoxInvariant.RemoveEnterSound | Message_LKM/mailbox.c:190-252 | from entry to return or first sleep a remove keeps count, capacity, waiter count and the chain of wake-ups |
| BoxInvariant.RemoveWaitSound | Message_LKM/mailbox.c:209-241 | the same for a remove that runs again after a wake-up or a signal |
| BoxInvariant.HaltSound | Message_LKM/mailbox.c:260-273 | a stop wakes one sleeper, so fewer sleep than wait from then on |
| BoxInvariant.DestroySound | Message_LKM/mailbox.c:309-324 | the destroyer flushes only when nobody waits, else sleeps non-exclusively; either way the mailbox stays sound |
| InvariantSteps.StepInv | Message_LKM/mailbox_manager.c:112-232 | every step of every task keeps the invariant: exact claim and waiter counts, queues of real sleepers, table entries owned by their pid, and what each deletion thread relies on |
| InvariantSteps.RunInv | Message_LKM/mailbox_manager.c:112-232 | the invariant holds along every run |
| InvariantSteps.ReachableInv | Message_LKM/mailbox_manager.c:112-232 | the invariant holds in every reachable state |
| InvariantSteps.LookupInv | Message_LKM/mailbox_manager.c:112-145 | getting a mailbox, on all five paths, keeps the invariant; the exiting path leaves the claim count as it was |
| InvariantSteps.FreshBoxInv | Message_LKM/mailbox_manager.c:118-128 | creating a mailbox for a pid the table does not have keeps one owned entry per pid |
| InvariantSteps.GiveUpOk | Message_LKM/mailbox_manager.c:211-224 | giving up a claim keeps the count exact, and the last one leaves no lone deletion thread asleep |
| InvariantSteps.DeleteFlushInv | Message_LKM/mailbox.c:309-324 | flush or sleep of the destroyer keeps the invariant |
| InvariantSteps.DeleteAwaitInv | Message_LKM/mailbox_manager.c:226-232 | waiting for claims keeps the invariant, with the claim count zero when the wait is over |
| InvariantSteps.DeleteUnlinkInv | Message_LKM/mailbox_manager.c:164-166 | removing a pid from the table keeps the invariant for every mailbox |
| InvariantSteps.ExitHookInv | Message_LKM/mailbox_manager.c:174-197 | stopping a mailbox and starting its deletion thread keeps the invariant |
| StepFacts.StepFrame | Message_LKM/module.c:37-135 | a step changes one task and one mailbox, starts at most one task, and never undoes a stop, a flush or a free |
| StepFacts.StepTable | Message_LKM/mailbox_manager.c:112-166 | the table changes only by a fresh entry for an absent pid or by a deletion thread removing its pid |
| StepFacts.StepUnlinked | Message_LKM/mailbox_manager.c:112-166 | a mailbox that left the table never returns to it |
| Reclamation.ExactCounts | Message_LKM/mailbox_manager.c:199-224 | in every reachable state `dereferences` is the number of tasks between claim and unclaim and `waiting` the number of tasks inside the two wait sections |
| Reclamation.TouchesFreed | Message_LKM/mailbox_manager.c:153-191 | a step touches a freed mailbox if and only if its task is a deletion thread of it (not merely unlinking) and another deletion of it is finished |
| Reclamation.SafeReclamation | Message_LKM/mailbox.c:298-330 | with one deletion per mailbox no step of any run touches a freed mailbox |
| DoubleDeletion.SecondHookIsFatal | Message_LKM/mailbox_manager.c:174-191 | from every reachable state in which an exit hook finds a mailbox that already has a deletion thread, some run frees the mailbox and then touches it |
| DoubleDeletion.FirstHookIsSafe | Message_LKM/mailbox_manager.c:174-191 | after the first exit hook of a mailbox no run without another one touches it after it was freed |
| DoubleDeletion.HookExactly | Message_LKM/mailbox_manager.c:174-191 | an exit hook makes a use after free possible if and only if the mailbox it finds already has a deletion scheduled |
| DoubleDeletion.LinkedUnharmed | Message_LKM/mailbox_manager.c:164-167 | in every reachable state a mailbox in the table was not flushed and none of its claimants took a message that was not there |
| Reclamation.FreedOnlyWhenReleased | Message_LKM/mailbox.c:325-327 | at the free the mailbox is out of the table, unclaimed, without waiters, with an empty list, and not freed before |
| Reclamation.ClaimKeepsAlive | Message_LKM/mailbox_manager.c:199-232 | a task with a claim never sees its mailbox freed |
| Reclamation.StaysReleased | Message_LKM/mailbox_manager.c:112-166 | once out of the table with no claims, a mailbox is never claimed again in any run |
| Reclamation.RunRightMailbox | Message_LKM/mailbox_manager.c:153-166 | along every run with one deletion per mailbox, a deletion thread that has not unlinked finds its own mailbox under its pid |
| Reclamation.UnlinksItsOwn | Message_LKM/mailbox_manager.c:164-167 | the entry a deletion thread removes by pid is the very mailbox it goes on to destroy |
| Reclamation.DestroyerAwaitsWaiters | Message_LKM/mailbox.c:313 | a deletion thread asleep on `modify_queue` is owed a wake-up: `waiting` is positive and some waiter is awake to leave |
| Reclamation.DestroyerAwaitsClaims | Message_LKM/mailbox_manager.c:226-232 | a deletion thread asleep on `dereference_queue` is owed a wake-up: the count is positive and some task holds a claim |
| StopCascade.StoppedAdd | Message_LKM/mailbox.c:123-154 | on a stopped mailbox an add returns STOPPED, links nothing and does not sleep |
| StopCascade.StoppedRemove | Message_LKM/mailbox.c:198-227 | on a stopped mailbox a remove does not sleep, and one that was waiting leaves the wait |
| StopCascade.StoppedStep | Message_LKM/mailbox.c:123-154 | a step on a stopped mailbox leaves it stopped, puts no sender or receiver to sleep, and lowers 2*asleep + woken if a waiter took it |
| StopCascade.CascadeBound | Message_LKM/mailbox.c:260-273 | in every run after a stop nobody newly sleeps and the waiters take at most 2*asleep + woken steps between them |
| StopCascade.CascadeGoesOn | Message_LKM/mailbox.c:260-273 | while anyone waits on a stopped mailbox, some waiter is awake and its next step is enabled |
| StopCascade.CascadeEmpties | Message_LKM/mailbox.c:260-273 | from every stopped state a run of exactly `waiting` steps brings `waiting` to 0 |
| Termination.EffortStep | Message_LKM/mailbox.c:298-330 | every step on an unlinked, stopped mailbox lowers an upper bound on the work left, and no other step raises it |
| Termination.DeletionBound | Message_LKM/mailbox.c:298-330 | whatever the schedule, only boundedly many more steps are taken on such a mailbox |
| Termination.DeletionNotStuck | Message_LKM/mailbox.c:309-327 | until it is freed some step on it is enabled, unless a claimant took a message that was not there |
| Termination.DeletionCompletes | Message_LKM/mailbox.c:298-330 | a run that leaves no step on it has freed it, or left such a claimant |
| Refinement.AddEnterAtomic | Message_LKM/mailbox.c:115-181 | an add that does not wait is one legal FIFO step with the code of that instant; on a full open FIFO a blocking add has no legal end but by a signal |
| Refinement.AddWaitAtomic | Message_LKM/mailbox.c:134-175 | an add that returns from its wait is one legal FIFO step at that instant, with MAILBOX_ERROR only by a signal; one that sleeps again changes nothing |
| Refinement.RemoveEnterAtomic | Message_LKM/mailbox.c:190-252 | a remove that does not wait takes the first message, returns the code of an empty FIFO (a blocking one on an open FIFO only by a signal), or is corrupt on a stale count |
| Refinement.RemoveWaitAtomic | Message_LKM/mailbox.c:209-246 | the same for a remove that returns from its wait, with MAILBOX_ERROR only by a signal |
| Refinement.StepRefines | Message_LKM/mailbox.c:115-330 | every step of the system is, on every mailbox, the FIFO event it shows, with the same contents after it |
| Refinement.RunRefines | Message_LKM/mailbox.c:115-252 | the events of any run are a legal FIFO trace if and only if none is corrupt, and then the list is what that FIFO holds |
| Refinement.CorruptExactly | Message_LKM/mailbox.c:204-240 | a remove unlinks from an empty list if and only if the list was flushed while the count was not zero |
| Refinement.CapacityAndCount | Message_LKM/mailbox.c:57-83 | in every reachable state the count is in 0..32; until the flush it is the length of the list, after it the list is empty for good |
| Refinement.ReachableCredible | Message_LKM/mailbox.c:57-83 | every mailbox of every reachable state, flushed or not, meets what AddCallAtomic and RemoveCallAtomic ask of the states a sleeping call may find |
| Refinement.StoppedListShrinks | Message_LKM/mailbox.c:123-154 | after a stop no run adds a message at either end: the list is always a remainder of the list at the stop |
| Refinement.StoppedEvent | Message_LKM/mailbox.c:198-227 | between stop and flush only removes change the list; each takes the first message, or returns STOPPED if there is none |
| Refinement.DrainAfterStop | Message_LKM/mailbox.c:190-282 | of the removes that follow a stop, by whatever tasks, the first take exactly the messages queued at the stop, one each and in order; every later one returns STOPPED, blocking or not; nothing else changes the list before the flush |
| Conservation.AddMessages | Message_LKM/mailbox.c:163-170 | an add links its message, at the end asked for, exactly if it returns 0 |
| Conservation.RemoveMessages | Message_LKM/mailbox.c:236-241 | a remove unlinks the first message or leaves the list alone |
| Conservation.StepBooks | Message_LKM/module.c:47-92 | every step keeps every message in exactly one place |
| Conservation.MessagesConserved | Message_LKM/module.c:47-92 | in every reachable state each allocated message is in one list, in one task's hands, freed for one reason, or refused, and only there |
| Conservation.FreedOnce | Message_LKM/message.c:66-70 | a message that is freed was allocated, and is in no list and no task's hands afterwards |
| Conservation.LeakedExactly | Message_LKM/module.c:53-87 | in every reachable state a message is leaked (allocated, in no list, in nobody's hands) if and only if it is booked as refused |
| Conservation.RefusedExactly | Message_LKM/module.c:53-87 | a step books as refused exactly the message whose add it ends with an error code |
| Leaks.RunRefuses | Message_LKM/module.c:53-87 | a run books as refused exactly the messages that appear in it, on some mailbox, as an add with an error code |
| Leaks.LeakedOverRun | Message_LKM/module.c:53-87 | after every run since module load, the leaked messages are exactly those whose add, by a send or a put-back, returned an error somewhere in the run |
| Ordering.ReachableTracked | Message_LKM/module.c:74-92 | in every reachable state no message was taken twice or from two mailboxes, and a receiver's message is among those taken from its mailbox |
| Ordering.PutBackOrder | Message_LKM/module.c:83-87 | an accepted put-back keeps the order if and only if it puts back the last message taken |
| Ordering.RefusalOrder | Message_LKM/module.c:85-87 | a refused put-back drops its message from the order and leaves the rest in order |
| Ordering.AddOrder | Message_LKM/mailbox.c:163-170 | an accepted send extends the order at its end; a sleeping or refused one leaves it |
| Ordering.RemoveOrder | Message_LKM/mailbox.c:236-241 | a remove keeps the order: what it takes off the front follows everything taken before |
| Ordering.FlushOrder | Message_LKM/mailbox.c:317-320 | the flush keeps the order: what it drops follows everything taken |
| FifoRuns.StepOrder | Message_LKM/mailbox.c:163-170 | from an ordered mailbox a step leads to an ordered mailbox if and only if it is not an accepted put-back of a message other than the last one taken |
| FifoRuns.RunOrder | Message_LKM/mailbox.c:163-241 | without such put-backs a mailbox stays in order along every run, with any number of concurrent senders and receivers |
| FifoRuns.AloneInTurn | Message_LKM/module.c:74-92 | in a run whose receives on a mailbox do not overlap no put-back is out of turn |
| FifoRuns.FifoWhenAlone | Message_LKM/module.c:74-92 | then the accepted sends, in order and less refused put-backs, are delivered ++ message in hand ++ list ++ flushed |
| Witnesses.TwoDeletions | Message_LKM/mailbox_manager.c:174-191 | a reachable state and a step in which a second deletion thread works on a freed mailbox |
| Witnesses.PhantomMessage | Message_LKM/mailbox.c:317-320 | a reachable state in which a claimant takes a message from the flushed, empty list |
| Witnesses.OvertakingPutBack | Message_LKM/module.c:83-87 | a reachable state in which a put-back during another receive breaks the order |
| Witnesses.ExitingSurvives | Message_LKM/mailbox_manager.c:131 | EXITING survives a step if and only if the step is not a user's stop; the word stays nonzero in any case |
| Witnesses.ExitingOverwritten | Message_LKM/mailbox.c:265 | a reachable state in which a manage call's stop clears EXITING of a mailbox whose deletion is under way |
| Witnesses.LeakedSend | Message_LKM/module.c:53-57 | a reachable state in which a send is refused and its message leaked |
| Witnesses.LeakedPutBack | Message_LKM/module.c:85-87 | a reachable state in which a put-back is refused and its message leaked |
| MailboxObject.AddCallAtomic | Message_LKM/mailbox.c:115-181 | an add call that returns, with any interference while it sleeps, is one legal FIFO step in the state it found after its last nap, with that step's code; MAILBOX_ERROR only if a signal was pending there |
| MailboxObject.RemoveCallAtomic | Message_LKM/mailbox.c:190-252 | the same for a remove call, or it took a message from an empty list on the word of a nonzero count |
| MailboxObject.AddCallDoes | Message_LKM/mailbox.c:115-181 | an add call with any interference: it naps exactly while it finds the mailbox open and full and no signal, and its last section does what an add does to the state it then finds: verdict, list, count, `waiting` back to the value without it (or one higher and queued if it is asleep), wake-ups |
| MailboxObject.RemoveCallDoes | Message_LKM/mailbox.c:190-252 | the same for a remove call |
| MailboxObject.WakeUp | Message_LKM/mailbox.c:267 | the loop over the wait queue leaves exactly the sleepers a single wake-up leaves |
| MailboxObject.Mailbox.constructor | Message_LKM/mailbox.c:45-74 | a new mailbox is empty, open, unclaimed, with capacity 32 |
| MailboxObject.Mailbox.IsFull | Message_LKM/mailbox.c:81-83 | true exactly if the count has reached the capacity |
| MailboxObject.Mailbox.AddMessage | Message_LKM/mailbox.c:115-181 | the wait loop has the effect and the code of the add call that AddCallDoes describes, for any interference and signals |
| MailboxObject.Mailbox.RemoveMessage | Message_LKM/mailbox.c:190-252 | the wait loop has the effect and the code of the remove call that RemoveCallDoes describes, for any interference and signals |
| MailboxObject.Mailbox.Stop | Message_LKM/mailbox.c:260-291 | the whole stop word is overwritten and one wake-up is given |
| MailboxObject.Mailbox.FlushMessages | Message_LKM/mailbox.c:309-324 | sleeps while anyone waits; else unlinks every message and frees each exactly once |
| MailboxObject.Mailbox.Claim | Message_LKM/mailbox_manager.c:199-209 | one more reference, nothing else changes |
| MailboxObject.Mailbox.Unclaim | Message_LKM/mailbox_manager.c:211-224 | one reference less, and a wake-up when it was the last |
| MailboxObject.Mailbox.AwaitUnclaimed | Message_LKM/mailbox_manager.c:226-232 | returns exactly if there are no references, else sleeps exclusively |
| MessageStore.Store.Create | Message_LKM/message.c:36-59 | for every length and every user buffer: MSG_LENGTH_ERROR iff the length is below 0 or above 128, MAILBOX_ERROR iff it is not and there is no memory, MSG_ARG_ERROR iff there is and too little can be read; otherwise one message that was never used, with sender, length and bytes; a failure leaves the same messages allocated |
| MessageStore.Store.Destroy | Message_LKM/message.c:66-70 | exactly that message is freed |
| MessageStore.Message.CopyIn | Message_LKM/message.c:52-58 | the first len bytes arrive, the rest of the buffer is untouched; fails exactly if fewer can be read |
| MessageStore.Message.CopyOut | Message_LKM/module.c:80-82 | sender, length and exactly the first len bytes |
| RoundTrips.ReceiveOne | Message_LKM/module.c:74-92 | after any number of failed copies, each putting the message back, a receive gets the head as it went in and frees it, and the rest of the list is untouched |
| RoundTrips.ReceiveAll | Message_LKM/module.c:74-92 | receives until the mailbox is empty give every message, in order, with the sender, length and bytes it had |
| RoundTrips.SendOne | Message_LKM/module.c:47-59 | the new message is last in the list with sender, length and bytes iff its length is 0 to 128, there is memory, it can be read and there is room; each error code occurs in exactly its case and leaves the list unchanged |
| RoundTrips.RoundTrip | Message_LKM/module.c:47-92 | what was sent into a mailbox that may hold other messages comes out after them, with exactly the sender, length and bytes sent, across failed copies |
| HashTables.HashTable.constructor | Message_LKM/mailbox_manager.c:35-42 | the empty map |
| HashTables.HashTable.Hash | Message_LKM/mailbox_manager.c:47-49 | the bucket below 4096 that is congruent to the hash of the key, for any hash function |
| HashTables.HashTable.Get | Message_LKM/mailbox_manager.c:51-62 | the map's entry, or null |
| HashTables.HashTable.Remove | Message_LKM/mailbox_manager.c:64-69 | the map without that key, every other key untouched |
| HashTables.HashTable.Put | Message_LKM/mailbox_manager.c:71-74 | the map with that key bound to the mailbox, every other key untouched |
| Histories.HistoryIsRun | Message_LKM/module.c:37-135 | the history the system calls keep is a run of the protocol, and its moments are the states on the way |
| SystemCalls.Kernel.GetMailbox | Message_LKM/mailbox_manager.c:112-145 | the mailbox of that very pid, in the table or new, with one more claim; INVALID iff the pid is not valid or its mailbox is marked exiting, ERROR iff a mailbox was needed and there was no memory, and then no claim |
| SystemCalls.Kernel.StartAdd | Message_LKM/mailbox.c:115-147 | the first section of an add ends the call as one legal FIFO event or puts the task to sleep; a blocking add on an open, full mailbox with no signal joins the queue, with `waiting` one higher |
| SystemCalls.Kernel.GoOnAdding | Message_LKM/mailbox.c:134-175 | a woken add ends the call as one legal FIFO event, or sleeps again unnoticed |
| SystemCalls.Kernel.StartRemove | Message_LKM/mailbox.c:190-221 | the first section of a remove ends the call as one legal FIFO event or puts the task to sleep; a blocking remove on an open, empty mailbox with no signal joins the queue, with `waiting` one higher |
| SystemCalls.Kernel.GoOnRemoving | Message_LKM/mailbox.c:209-246 | a woken remove ends the call as one legal FIFO event, or sleeps again unnoticed |
| SystemCalls.Kernel.FinishAdd | Message_LKM/mailbox.c:115-181 | with other tasks running in between, an add returns having done one thing to any FIFO, at one of its own moments: the legal add on its claimed mailbox whose code it returns, MAILBOX_ERROR only by a signal; or it may block, is asleep on the queue, and did nothing; on an open, full mailbox without a signal a blocking add does sleep |
| SystemCalls.Kernel.FinishRemove | Message_LKM/mailbox.c:190-252 | with other tasks running in between, a remove returns having done one thing to any FIFO, at one of its own moments: the legal remove on its claimed mailbox, MAILBOX_ERROR only by a signal, or one on a stale count; or it may block, is asleep on the queue, and did nothing; on an open, empty mailbox without a signal a blocking remove does sleep |
| SystemCalls.Kernel.MakeMessage | Message_LKM/module.c:47-51 | each outcome of message_create in exactly its case, and where it leaves the send |
| SystemCalls.Kernel.SendMessage | Message_LKM/module.c:37-61 | the call starts with its only lookup, of dest; each early error (pid, memory, length, copy) in exactly its case, and then no FIFO notices; otherwise it allocated m and at one moment of its own added m at the tail of the mailbox it claimed, with the code it returns, MAILBOX_ERROR only by a signal, and did nothing else to any FIFO; every return is without a claim |
| SystemCalls.Kernel.Post | Message_LKM/module.c:47-60 | the part of a send after its claim |
| SystemCalls.Kernel.Deliver | Message_LKM/module.c:80-92 | success frees the message after the claim and touches no FIFO; a failed copy puts the message back at the head in one atomic step and returns MSG_ARG_ERROR in any case |
| SystemCalls.Kernel.ReceiveMessage | Message_LKM/module.c:64-93 | the call starts with its only lookup, each lookup error in exactly its case; 0: it took m from the head of the mailbox it claimed, at a moment of its own, and delivered and freed it; MSG_ARG_ERROR: it took m and put it back; any other code: that of its remove from the empty FIFO, MAILBOX_ERROR only by a signal; nothing else happened to any FIFO by its doing; every return is without a claim |
| SystemCalls.Kernel.Fetch | Message_LKM/module.c:74-92 | the part of a receive after its claim |
| SystemCalls.Kernel.ManageMailbox | Message_LKM/module.c:95-115 | the call starts with its only lookup; the count is the one it read in the mailbox it claimed, which is the length of the FIFO unless the mailbox was flushed (then it is stale); a stop is one atomic stop of that mailbox after the count was read, and for good; every return is without a claim |
| SystemCalls.Kernel.CountAndStop | Message_LKM/module.c:104-114 | the part of a manage call after its claim |
| SystemCalls.Kernel.Halt | Message_LKM/mailbox.c:280-282 | the stop of a manage call is one atomic stop of the FIFO it claimed, and nothing else |
| SystemCalls.Kernel.Exit | Message_LKM/module.c:117-135 | the mailbox of that pid is marked exiting and one deletion thread is started for it; without one nothing changes |
| LockOrder.OperationsDisciplined | Message_LKM/mailbox_manager.c:112-232 | every operation takes locks in rank order (table, then one mailbox lock), drops them in reverse, sleeps with none, and accesses what a lock guards only while holding it, for any number of naps |
| LockOrder.CallDisciplined | Message_LKM/module.c:37-135 | every whole call on every path (send, receive with or without a put-back, manage, exit hook, deletion, and their failures) is disciplined |
| LockOrder.CallsDisciplined | Message_LKM/module.c:37-135 | any calls one after the other are disciplined |
| LockOrder.CallAccesses | Message_LKM/module.c:37-135 | every whole call makes exactly the accesses it has to make, in order: the table and the claim count to get its mailbox, the mailbox once and after every nap, the claim count to leave; each under its lock but for two unlocked reads |
| LockOrder.ScheduleOrdered | Message_LKM/mailbox_manager.c:112-232 | discipline and mutual exclusion hold along every schedule |
| LockOrder.NoDeadlock | Message_LKM/module.c:37-135 | any number of tasks, each making any calls on any mailboxes one after the other, in any schedule: while a call is unfinished some task can run, nobody sleeps with a lock, no lock has two holders, no two tasks are about to access what one lock guards, and a finished task holds none |
| PidLists.Region.constructor | Project4AdditionalTests/aFoltan/project4/pidlist.c:463-470 | after set-up both lists are well formed, all 100 nodes are free in index order and none is active |
| PidLists.Region.InitialiseNode | Project4AdditionalTests/aFoltan/project4/pidlist.c:92-97 | the node is unlinked and blank, and both lists stay well formed |
| PidLists.Region.Partition | Project4AdditionalTests/aFoltan/project4/pidlist.c:463-470 | every node is in exactly one list, the counts sum to 100, the active pids are distinct |
| PidLists.Region.RemoveFromList | Project4AdditionalTests/aFoltan/project4/pidlist.c:157-185 | in all four cases exactly that node leaves its list and both lists stay well formed |
| PidLists.Region.Unhook | Project4AdditionalTests/aFoltan/project4/pidlist.c:159-175 | the neighbours, or the handle, skip the node and no other link changes |
| PidLists.Region.AddToTail | Project4AdditionalTests/aFoltan/project4/pidlist.c:198-212 | the node becomes the last of its list and both lists stay well formed |
| PidLists.Region.RemoveFromHead | Project4AdditionalTests/aFoltan/project4/pidlist.c:225-238 | the first node, unlinked; null exactly on an empty list |
| PidLists.Region.FindNode | Project4AdditionalTests/aFoltan/project4/pidlist.c:251-262 | an active node with that pid, or null if no active node has it |
| PidLists.Region.AddPid | Project4AdditionalTests/aFoltan/project4/pidlist.c:275-306 | idempotent; fails exactly when 100 other pids are active; else the pid joins at the end |
| PidLists.Region.RemovePid | Project4AdditionalTests/aFoltan/project4/pidlist.c:319-343 | exactly that pid leaves, the others keep their order; an absent pid changes nothing |
| PidLists.Region.GetCount | Project4AdditionalTests/aFoltan/project4/pidlist.c:355-357 | the number of active pids |
| PidLists.Region.GetRandom | Project4AdditionalTests/aFoltan/project4/pidlist.c:369-396 | the active pid at the index drawn, or -1 when there is none |
| PidLists.Region.GetFirst | Project4AdditionalTests/aFoltan/project4/pidlist.c:407-418 | the first active pid |
| PidLists.Region.FreeAll | Project4AdditionalTests/aFoltan/project4/pidlist_test.c:155-157 | removing the first until the count is 0 terminates with every node free |

## Left out

- System-call table discovery and patching, page protection, module load and unload: kernel plumbing.
- `is_process_valid`, signals, allocation, user copies and the random index: arbitrary outcomes, not computed. Since validity is checked before the table lock is taken, nothing is claimed about an exited pid never getting a new mailbox.
- The bit arithmetic of `hash_32` and the cache internals: only the range of the one and the set of live objects of the other matter. Mailbox and message ids are never reused, so a use after free is visible as such.
- A `kthread_run` that fails (Message_LKM/mailbox_manager.c:190): its result is ignored by the code, and the mailbox then stays stopped and in the table unless another exit hook finds it; in the model the deletion thread always starts.
- A signal to a deletion thread: it is a kernel thread, and its two waits ignore their results; the model assumes it is not signalled.
- Absence of lost wake-ups while a mailbox is not stopped: senders and receivers share one wake-one queue, and a woken task whose condition fails sleeps again without passing the wake-up on.
- What a task does after taking a message that was not there: it stops in the state `Undefined` and keeps its claim.
- Interleavings inside a section: a section is one step, and the lookup under the table lock (with its nested claim) is one section; the nesting of spin locks is treated by `LockOrder` alone, on the sequences of lock operations.
- MailboxObject.Mailbox.AddMessage: interference during a sleep is an arbitrary new state of the mailbox, not a run of other tasks; SystemCalls.Kernel.FinishAdd has the runs.
- SystemCalls.Kernel.SendMessage: works on the value of the transition system rather than on Mailbox objects; messages are ids there, their bytes are in MessageStore and RoundTrips.
- Reclamation.DestroyerAwaitsClaims: assumes one deletion per mailbox, because an unclaim wakes one of several deletion threads only.
- PidLists.Region.GetFirst: requires a nonempty list, because the code dereferences the head without a test.
- Shared-memory mapping and semaphores of the allocator: each of its operations is taken to be exclusive.
- User-space wrappers, logging, polling delays and test drivers: input, output and timing.
