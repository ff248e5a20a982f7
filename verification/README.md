# The IROB delivery engine of libcmm, modelled in Dafny

libcmm's multisocket sends *IROBs* - isolated, reliable, ordered bytestreams - over several
connections that lose, duplicate and reorder what they carry with respect to one another. This
project models the engine that makes the promises of `libcmm_irob.h` and `libcmm.h` good, and
proves them:

- what the application reads is, over every run, the full contents of distinct IROBs, one after
  another, each after everything it depends on, then a prefix of at most one more;
- once everything that was sent has arrived, in whatever order and however often, enough reads
  deliver it all, over every run of both ends;
- an acknowledgement that makes the sender give up an IROB is only ever sent for one that the
  receiver holds complete or has passed on, exactly as long as no data check meets a hole in the
  code's rule, described below; under the documented rule always;
- plain sends arrive as one ordered bytestream;
- data check, resend request and answer, among any other steps, complete an IROB whatever was lost
  before them;
- no bytes the sender still has to send are forgotten while its lock is free; nor is an End, given
  the data checks that follow failed writes, unless the application's own step came too late;
- left to itself the sender thread comes to rest, with everything written and ended sent;
- a GOODBYE comes after everything else, and when it is decided on nothing is owed to the other end.

## How it is laid out

What the code does to its data appears twice: as functions on values, about which the properties
are proved, and as classes whose fields and loops follow the C++ code and whose methods are
proved to compute those functions. Whole runs are sequences of such steps.

| module | what it models |
|---|---|
| `Lattice` | the lattice of pending IROBs: the deque with its moving offset, placeholders, back edges, dominators, drops |
| `Dominators` | what the sender's inferred dependencies amount to over whole histories |
| `Scheduling`, `IntSets` | the priority sets of scheduled work; sets of integers as bit vectors |
| `ReceiverIrob` | reassembly of one IROB, and the byte queue it becomes |
| `Receiver`, `ReceivingEnd` | Begin, Chunk and End handlers, release, reading: as functions, and as the code does it |
| `Delivery`, `Confluence` | whole runs of the receiver: safety, progress, independence of arrival order |
| `SenderIrob`, `RoundTrip` | cutting an IROB into pieces for many connections, and back again |
| `Protocol`, `Losses` | sender, messages in flight and receiver together; acknowledgements, data checks, resends; how the check as written loses data |
| `Ordering`, `Reliability` | end-to-end order and reliability over whole runs of both ends |
| `Application` | the same in terms of what the application began, named, wrote, ended and dropped |
| `Answers` | exactly when the receiver acknowledges, what it answers to a data check, how a lost acknowledgement is made good |
| `Repair`, `RepairRuns` | what a resend request covers; repair over whole runs |
| `SocketEnds` | the multisocket's operations on its fields, tied to steps of the protocol |
| `Shutdown`, `Closing` | closing from both ends, any number of sender threads; that nothing is owed at a GOODBYE |
| `SenderWork`, `SenderRuns`, `SenderThread` | the sender thread's work lists, with other threads' steps around every write; runs that end badly; the thread itself |
| `SenderFacts`, `SenderRest` | what the lists and marks mean over whole runs; that the thread comes to rest with everything sent |
| `TimeOps`, `QueuingDelays` | timeval arithmetic and the queuing delay of a message |

A function like `Receiver.HandleBegin` says what the code does; the rows below name the members
whose contracts say something about it.

## Assumptions

- Explicit dependencies name IROBs already begun on the same multisocket, ids are not used twice,
  and IROBs are not empty where a property says so.
- Messages come from the modelled sender. They stay available for ever once sent, so that any of
  them may arrive late, repeatedly, in any order, or never.
- What runs under the scheduling lock is one step; where the lock is let go around a write, there
  are two, with steps of other threads in between.

## Where the code and its documentation disagree

- **Data checks.** The comment on resend requests (`cmm_socket_control.h:114-117`) says the End is
  asked for because it was not received; the code (`cmm_socket_impl.cpp:2541`) asks for it when it
  *was*. Both rules are modelled, and runs are not restricted: order, integrity and reliability
  hold under either. Acknowledgements are sound under the documented rule on all runs, and under
  the rule as written exactly on those in which no data check reaches an IROB that is begun, has no
  gap and has not seen its End (`Protocol.CheckUnsoundIff`, `Protocol.AcksSoundIff`). Any
  foreground IROB of more than 5596 bytes can get there, and the rest of it is then lost for good
  (`Losses.LossyRunEnds`, `Losses.LossyRunLoses`).
- **Partly read IROBs.** A data check for an IROB of which whole chunks have been read, but not all,
  finds those chunks missing and asks for data instead of acknowledging, under either rule
  (`Answers.AcknowledgesIff`). A chunk or the End sent again is then acknowledged
  (`Answers.HandleAcksIff`, `Answers.EndRetires`).
- **`mark_not_received`.** Its guard (`pending_sender_irob.cpp:296`) lets one seqno too many
  through (`SenderIrob.MarkedIff`). `SenderIrob.PendingSenderIROB.MarkLost` excludes it, and `Protocol.MissingWasSent` and
  `SocketEnds.OutgoingSide.ResendRequestReceived` show that no run comes near it.
- **Late Ends.** `end_irob` queues the End only for an announced IROB. A data check can take the
  last byte of one that is not announced yet; if the application ends it while the check is being
  written, nobody queues the End. This happens after a failed Begin (`SenderRuns.LateEndIsLost`), but
  also with no failed write at all: closing at the other end's request has every IROB checked
  (`cmm_socket_impl.cpp:2598`), and with no address given each counts as sent
  (`pending_sender_irob.cpp:331`), whether its Begin was tried or not
  (`SenderRuns.EarlyCheckLosesEnd`). That run needs an `end_irob` that passed its test for closing,
  which takes no lock (`cmm_socket_impl.cpp:2083`), before the flag was set; later ones are refused.
  Under the documented rule the reply to the same data check would ask for the End and so have it
  sent (`RepairRuns.CheckAsksEnoughIff`). A failed write of a last chunk or of a Begin that carries
  everything leaves the End unqueued too, but only until the failing thread's exception handler
  schedules a data check, which brings it along (`csocket_sender.cpp:236-273`):
  `SenderWork.PassedOverIff` names all these steps, and by `SenderWork.EndsRecovered` only the late
  Ends remain.
- **The assertion at `csocket_sender.cpp:878`.** It says that a small IROB is wholly cut once all
  its bytes were asked for. It fails exactly when a piece is to be sent again while there are bytes
  not yet cut (`SenderWork.AssertionFailsIff`), and a run gets there (`SenderRuns.AssertionFails`).
- **GOODBYE.** `do_goodbye` looks at `shutting_down` before it takes the lock. An end that starts to
  close just then never records that the other end is done (`Shutdown.GoodbyeMissed`,
  `Shutdown.ToldUnlessRaced`).
- **In flight.** `libcmm.h:92-97` speaks of IROBs in flight; the code also orders IROBs after ones
  that are no longer in flight. The code is followed.

## Model

| member | source | states |
|---|---|---|
| `Lattice.PendingIROBLattice.IsEmpty` | pending_irob.cpp:481-486 | true exactly when the deque stands for no entry at all, which holds because the front is never null |
| `Lattice.PendingIROBLattice.Find` | pending_irob.cpp:375-384 | the deque with its moving offset answers as the map from id to entry, for ids below the offset and for holes as well |
| `Lattice.PendingIROBLattice.Reserve` | pending_irob.cpp:209-229 | making room at either end changes the offset and the length but not what the deque stands for |
| `Lattice.PendingIROBLattice.Insert` | pending_irob.cpp:200-279 | the whole new lattice is that of `Inserted`: refused for past and for real ids; otherwise the placeholder is taken over, deps corrected, every dep linked back, placeholders created |
| `Lattice.PendingIROBLattice.LinkDependencies` | pending_irob.cpp:250-273 | every unsatisfied dep, live or newly made a placeholder, ends up with the new id among its dependents, and nothing else changes |
| `Lattice.PendingIROBLattice.CorrectDependencies` | pending_irob.cpp:308-365 | the loops over the dependency and dominator sets compute `CorrectDeps` and the new dominators |
| `Lattice.PendingIROBLattice.RemoveDepsIn` | pending_irob.h:135-152 | removing satisfied deps while iterating leaves exactly the deps that are not past |
| `Lattice.PendingIROBLattice.EraseLocked` | pending_irob.cpp:402-446 | an erase in the middle or at the front: the id becomes past, trailing nulls at the front are trimmed, and at the receiver each live dependent loses the dep |
| `Lattice.PendingIROBLattice.NotifyDependents` | pending_irob.cpp:426-442 | after the loop exactly the live dependents have lost the dep |
| `Lattice.PendingIROBLattice.DropIrobAndDependents` | pending_irob.cpp:449-472 | the breadth-first search ends, removes exactly the closure of the id under live dependents edges, and records exactly that as dropped |
| `Lattice.InsertKeepsLinked` | pending_irob.cpp:200-279 | inserting keeps every remaining dep live, with the dependent among its dependents, through nested placeholder insertion |
| `Lattice.EraseKeepsLinked` | pending_irob.cpp:402-446 | so does erasing, at the sender and at the receiver |
| `Lattice.EraseExactly` | pending_irob.cpp:402-446 | erasing removes just that entry, makes its id past, and at the receiver takes it out of the deps of its live dependents and nothing else |
| `Lattice.InsertCounts` | pending_irob.cpp:211-216 | `count` goes up by one exactly as the number of real entries does |
| `Lattice.EraseCounts` | pending_irob.cpp:444 | `count` stays the number of real entries exactly when what is erased is not a placeholder |
| `Lattice.DropLeavesNoOrphan` | pending_irob.cpp:449-472 | no IROB left after a drop has a direct dep on anything dropped in that call |
| `Lattice.DropKeepsLinked` | pending_irob.cpp:449-472 | a drop keeps the dependency bookkeeping of what is left |
| `Dominators.AnonymousDependsOnAll` | pending_irob.cpp:326-337 | a new anonymous IROB depends, directly or through others, on every IROB inserted before it |
| `Dominators.NamedDependsOnLastAnonymous` | pending_irob.cpp:338-357 | a new named IROB depends on the last anonymous one, even when the dep is not added because one of its own deps implies it |
| `Dominators.BeginKeepsSound` | pending_irob.cpp:308-365 | every insert keeps the dominator invariant: live deps as announced, deps backward, dominators exactly the named IROBs nothing depends on, coverage, order |
| `Dominators.AnnouncedExactly` | pending_irob.cpp:308-365 | an IROB is announced with what it names and besides, if anonymous, the dominators or else the last anonymous one; if named, the last anonymous one unless it names a dominator |
| `Dominators.RetireKeepsSound` | pending_irob.cpp:402-416 | and so does an acknowledgement at the sender, which leaves the dominators alone |
| `Dominators.AbandonKeepsSound` | pending_irob.cpp:449-472 | and so does a drop |
| `Dominators.DominatorsCoverHistory` | pending_irob.h:226-229 | after any sends, acks and drops, depending on all dominators and the last anonymous IROB covers every IROB so far |
| `Dominators.DominatorsIrredundant` | pending_irob.h:226-229 | and no dominator is redundant: no other IROB reaches it |
| `Dominators.AnonymousTotalOrder` | libcmm.h:92-97 | of two IROBs of which at least one is anonymous, the later depends on the earlier, in flight or not |
| `Scheduling.AmbiguousIff` | irob_scheduling.cpp:48-63 | two tasks come before each other exactly when their completion times differ the other way round from their ids, at one priority |
| `Scheduling.SameTimeTotalOrder` | irob_scheduling.cpp:48-63 | among tasks of one completion time the comparison is a strict total order |
| `Scheduling.ForegroundFirst` | irob_scheduling.cpp:48-63 | foreground comes before background whatever the times and ids; among equals earlier before later and, at one time, lower ids first |
| `Scheduling.IROBPrioritySet.Pop` | irob_scheduling.cpp:78-87 | takes the first task of the order: foreground if any is, and of those labelled alike the lowest id; and only that |
| `Scheduling.IROBPrioritySet.Remove` | irob_scheduling.cpp:89-102 | a lookup without labels finds and removes exactly a task of that id that is not foreground |
| `ReceiverIrob.PendingReceiverIROB.AllChunksComplete` | pending_receiver_irob.cpp:160-169 | true exactly when no slot of the table is empty |
| `ReceiverIrob.PendingReceiverIROB.IsCompleteNow` | pending_receiver_irob.cpp:199-217 | complete exactly when the counters match what the End announced and no slot is empty; the asserts on the counters are its precondition |
| `ReceiverIrob.PendingReceiverIROB.Add` | pending_receiver_irob.cpp:98-152 | a chunk is stored once, duplicates are checked against what is there, chunks past the announced count are refused; all counters as in `AddChunk` |
| `ReceiverIrob.PendingReceiverIROB.FinishWith` | pending_receiver_irob.cpp:231-259 | the End is recorded the first time and refused afterwards |
| `ReceiverIrob.PendingReceiverIROB.GetMissingChunks` | pending_receiver_irob.cpp:171-191 | lists in order exactly the empty slots and the announced seqnos beyond the table |
| `ReceiverIrob.PendingReceiverIROB.ReadData` | pending_receiver_irob.cpp:261-297 | copies exactly the first unread bytes, partly read chunk first, and removes nothing |
| `ReceiverIrob.PendingReceiverIROB.Remove` | pending_receiver_irob.cpp:299-338 | drops exactly the first unread bytes, whatever chunk boundaries they cross |
| `ReceiverIrob.PendingReceiverIROB.TakeOver` | pending_receiver_irob.cpp:42-58 | adding all slots of a placeholder and then its counters is `Subsume` |
| `ReceiverIrob.MissingBelowIs` | pending_receiver_irob.cpp:171-191 | the list of missing chunks holds a seqno exactly when the table lacks it |
| `ReceiverIrob.ChunkTakenIff` | pending_receiver_irob.cpp:98-152 | a chunk is taken exactly when the IROB is incomplete, the seqno is not beyond the announced count, and what is there already agrees; and it changes table and counters exactly when its slot was empty |
| `ReceiverIrob.EndTakenIff` | pending_receiver_irob.cpp:231-259 | the End sets what to expect once and is refused afterwards, or when the table holds more already |
| `ReceiverIrob.RemoveBytesDrops` | pending_receiver_irob.cpp:299-338 | what is left to read is what was left before, less its first bytes, and the byte count goes down by as much |
| `ReceiverIrob.AddPiece` | pending_receiver_irob.cpp:98-152 | a piece of the sender is accepted in any order and any number of times, is then in the table, and disturbs no other |
| `ReceiverIrob.FinishPieces` | pending_receiver_irob.cpp:231-259 | the sender's totals are accepted before, between and after the pieces |
| `ReceiverIrob.AssemblingSane` | pending_receiver_irob.cpp:203-207 | what `is_complete` asserts about the counters cannot fail for messages of the sender |
| `ReceiverIrob.CompleteIff` | pending_receiver_irob.cpp:199-217 | complete means exactly that the End was seen and every piece is here, and then the unread bytes are the whole content |
| `ReceiverIrob.AssemblingExtends` | pending_receiver_irob.cpp:98-152 | what was received stays right while the sender goes on cutting pieces |
| `ReceiverIrob.SubsumeIsTakeover` | pending_receiver_irob.cpp:42-58 | an IROB that replaces a placeholder ends with exactly the placeholder's body |
| `ReceiverIrob.DrainStep` | pending_receiver_irob.cpp:299-338 | reading from a complete IROB leaves exactly the rest of its content, complete and readable, or nothing |
| `Receiver.HandleKeepsInv` | csocket_receiver.cpp:194-451 | every Begin, Chunk or End keeps the invariant: deps are the announced ones less the past, bodies agree with the sender's pieces, released exactly when real, complete and unblocked, no valid chunk rejected |
| `Receiver.ReadKeepsInv` | pending_receiver_irob.cpp:498-630 | and so does every read, of any length |
| `Receiver.ReleaseRestores` | pending_receiver_irob.h:157-197 | releasing what is newly deliverable restores "released exactly when deliverable" and changes nothing else |
| `Receiver.BeginKeepsInv` | csocket_receiver.cpp:194-248 | a Begin, early or late, keeps the invariant |
| `Receiver.ChunkKeepsInv` | csocket_receiver.cpp:367-451 | a chunk, for a known IROB or for one that needs a placeholder, keeps the invariant |
| `Receiver.EndKeepsInv` | csocket_receiver.cpp:266-365 | an End keeps the invariant |
| `Receiver.FatalIff` | csocket_receiver.cpp:367-451 | the receiver gives up exactly on a chunk that is not taken although its IROB is neither passed on nor complete |
| `Receiver.EraseKeepsInv` | pending_receiver_irob.cpp:585-606 | erasing a fully read IROB satisfies and releases its dependents at once |
| `Receiver.NextUpDrains` | pending_receiver_irob.cpp:392-475 | what is handed out for reading is live, complete, unblocked and readable |
| `Receiver.NextUpMeans` | pending_receiver_irob.cpp:392-475 | reading goes on with what is partly read; otherwise it turns to a foreground IROB if one is ready, and to the lowest id of those labelled alike |
| `Receiver.ReadEffect` | pending_receiver_irob.cpp:548-606 | a read takes bytes only from the IROB next up and removes it exactly when its last byte is taken |
| `ReceivingEnd.PendingReceiverIROBLattice.ReleaseIfReady` | pending_receiver_irob.h:157-170 | marks and lists the IROB exactly if it is complete, real, unblocked and not yet released |
| `ReceivingEnd.PendingReceiverIROBLattice.ReleaseDependents` | pending_receiver_irob.h:172-189 | the same for all dependents, those no longer there being skipped |
| `ReceivingEnd.PendingReceiverIROBLattice.DoBeginIrob` | csocket_receiver.cpp:194-248 | the handler on deque, bodies, ready set and acks is `HandleBegin` |
| `ReceivingEnd.PendingReceiverIROBLattice.DoIrobChunk` | csocket_receiver.cpp:367-451 | the handler is `HandleChunk`, late chunks of past IROBs included |
| `ReceivingEnd.PendingReceiverIROBLattice.DoEndIrob` | csocket_receiver.cpp:266-365 | the handler is `HandleEnd`; an End for a past IROB schedules its acknowledgement again |
| `ReceivingEnd.PendingReceiverIROBLattice.GetReadyIrob` | pending_receiver_irob.cpp:392-475 | returns what is being read, else a ready IROB: foreground if any ready one is, and of those labelled alike the lowest id; else none |
| `ReceivingEnd.PendingReceiverIROBLattice.ReadOne` | pending_receiver_irob.cpp:520-606 | one turn of the recv loop takes as many bytes as asked for and available from one IROB |
| `ReceivingEnd.PendingReceiverIROBLattice.Receive` | pending_receiver_irob.cpp:498-630 | recv fills the buffer from as many IROBs as it takes, and its effect is that of successive reads |
| `ReceivingEnd.RecvIsReads` | pending_receiver_irob.cpp:520-606 | a long recv equals a sequence of reads from one IROB each, so that what holds of every sequence of reads holds of recv; it comes back short only with nothing ready or, unless it waits for all, after the end of an IROB |
| `Delivery.DeliveryOverRuns` | libcmm_irob.h:6-19 | over every run of arrivals - lost, duplicated, reordered - and reads: the output is the full contents of distinct IROBs one after another, each after all its deps, then a prefix of at most one more whose deps are delivered; nothing valid is rejected |
| `Delivery.DeliveredForGood` | pending_irob.cpp:204-207 | what is delivered stays delivered, in place, and its id never comes back |
| `Delivery.RunRecords` | csocket_receiver.cpp:194-451 | once a message has been handled its effect stays until its IROB is delivered |
| `Delivery.ArrivedWhenRecorded` | pending_receiver_irob.cpp:199-217 | when every message of a finished IROB has been handled, it is complete |
| `Delivery.SomethingReady` | pending_receiver_irob.h:157-197 | no deadlock: with acyclic deps and all pending IROBs complete, something can be read while anything is pending |
| `Delivery.ReadsDrain` | pending_receiver_irob.cpp:498-630 | repeated reads of any nonzero size then empty the lattice |
| `Delivery.EverythingDelivered` | libcmm_irob.h:6-19 | for any acyclic history: once each message has arrived at least once, whatever the order, enough further reads deliver every IROB in full, each once, in dependency order |
| `Confluence.ExactDetermines` | csocket_receiver.cpp:194-451 | the set of messages handled determines the receiver's state |
| `Confluence.HandleExact` | csocket_receiver.cpp:194-451 | each message adds exactly what it says to that state, late Begins that replace a placeholder included |
| `Confluence.ArrivalOrderIrrelevant` | pending_irob.cpp:230-273 | two sequences of arrivals with the same messages, in any orders and multiplicities, end in the same state |
| `SenderIrob.FindChunkFinds` | pending_sender_irob.cpp:90-113 | the search by offset ends at the chunk that holds the offset, and at the end exactly for offsets past all bytes |
| `SenderIrob.AddAppKeeps` | pending_sender_irob.cpp:33-46 | adding an application chunk appends its bytes and leaves the pieces and cursors valid |
| `SenderIrob.GetBytesAgain` | pending_sender_irob.cpp:115-157 | where a piece was cut, exactly that piece is gathered again, whatever length is asked for |
| `SenderIrob.GetBytesNew` | pending_sender_irob.cpp:115-157 | past the last piece, as many bytes as asked for and available, and exactly those |
| `SenderIrob.ReadyResend` | pending_sender_irob.cpp:184-211 | an outstanding resend goes first, lowest seqno first, one whole piece, and is then no longer outstanding |
| `SenderIrob.ReadyBehind` | pending_sender_irob.cpp:212-229 | a connection behind the others gets the very piece they got |
| `SenderIrob.ReadyNew` | pending_sender_irob.cpp:212-229 | a connection at the front gets a new piece of the asked size, or the rest |
| `SenderIrob.GetReadyHandsOutPieces` | pending_sender_irob.cpp:159-229 | whatever is handed out is a whole piece of a partition of the bytes that only grows, and the cursors stay on its boundaries |
| `SenderIrob.SendOnAllKeeps` | pending_sender_irob.cpp:401-451 | turning on redundant sending in the middle moves no cursor off a boundary |
| `SenderIrob.MarksKeep` | pending_sender_irob.cpp:293-310 | marking pieces to be sent again leaves bytes, pieces and cursors alone and stays within what was cut |
| `SenderIrob.MarkedIff` | pending_sender_irob.cpp:293-302 | every seqno up to and including the number of pieces is marked, and the invariant breaks exactly for that last one, for which there is no piece |
| `SenderIrob.PiecesPartition` | pending_sender_irob.cpp:236-268 | the pieces concatenate to a prefix of the application's bytes, to all of them exactly when all bytes are chunked, and sit at their own offsets |
| `SenderIrob.PendingSenderIROB.AddChunk` | pending_sender_irob.cpp:33-46 | refused exactly when the IROB is complete |
| `SenderIrob.PendingSenderIROB.GetBytesInternal` | pending_sender_irob.cpp:115-157 | the gathering loop over application chunks computes `GetBytes`, and its asserts hold |
| `SenderIrob.PendingSenderIROB.GetReadyBytes` | pending_sender_irob.cpp:159-229 | with its side effects on cursors, pieces and resends it computes `GetReady` |
| `SenderIrob.PendingSenderIROB.RecordSent` | pending_sender_irob.cpp:236-268 | records a new piece or, on an old one, finds it has the same offset and length |
| `SenderIrob.PendingSenderIROB.MarkLost` | pending_sender_irob.cpp:293-302 | marks one piece; the one seqno the code's guard wrongly lets through is its precondition |
| `SenderIrob.PendingSenderIROB.MarkLostFrom` | pending_sender_irob.cpp:304-310 | marks every piece from a seqno on |
| `RoundTrip.OutputsArePieces` | pending_sender_irob.cpp:159-268 | over every history of writes, sizes, connections, losses and a switch to redundant sending: all that is handed out are the pieces of one partition of what was written, each at least once |
| `RoundTrip.AssembleHolds` | pending_receiver_irob.cpp:98-152 | fed any of it in any order with duplicates, the receiver's table holds just what arrived and its asserts hold |
| `RoundTrip.RoundTrip` | pending_receiver_irob.cpp:199-259 | once all of it and the totals have arrived, the receiver is complete and holds exactly what the application wrote |
| `RoundTrip.EachOnce` | pending_sender_irob.cpp:212-229 | without losses and redundancy every piece is handed out exactly once, in order, to whichever connection asks |
| `RoundTrip.EachOnceOnAll` | pending_sender_irob.cpp:401-451 | with redundancy from the start, every connection is given every piece from the first on, each once, in order |
| `Protocol.CheckUnsoundIff` | cmm_socket_impl.cpp:2506-2561 | the reply to a data check acknowledges what has not arrived exactly under the rule as written and when the IROB is begun, gapless so far and without its End |
| `Protocol.ActKeepsFair` | cmm_socket_impl.cpp:2422-2561 | every step of either end and every arrival from the bag keeps the invariant of sender, bag and receiver together, whatever the receiver acknowledges |
| `Protocol.RunFair` | cmm_socket_impl.cpp:2422-2561 | and so it holds over every run, under either rule, whatever is lost, duplicated or reordered |
| `Protocol.StepKeepsAcksIff` | cmm_socket_impl.cpp:2506-2561 | a step keeps "only what has fully arrived is acknowledged" exactly when it is not the arrival, under the rule as written, of a data check for an IROB that is begun, gapless so far and without its End |
| `Protocol.AcksSoundIff` | cmm_socket_impl.cpp:2506-2561 | over every run: acknowledgements are sound throughout exactly when no such data check arrives; under the documented rule always |
| `Protocol.MissingWasSent` | pending_receiver_irob.cpp:171-191 | every seqno the receiver lists as missing is below the number of pieces cut, so that no request hits the guard's off-by-one |
| `Protocol.AckSoundness` | cmm_socket_impl.cpp:2422-2445 | over every run, under the documented rule or as long as no such check arrives: once the sender has given up an IROB on an acknowledgement, the IROB was finished and the receiver has passed on all its bytes or holds exactly those it has not |
| `Protocol.TrappedCheckAcks` | cmm_socket_impl.cpp:2541-2544 | as written, a data check for such an IROB schedules an acknowledgement for data that has not arrived |
| `Protocol.AckErases` | cmm_socket_impl.cpp:2422-2445 | and that acknowledgement makes the sender remove the IROB |
| `Answers.HandleAcksIff` | csocket_receiver.cpp:194-451 | whatever arrives, an IROB is acknowledged anew exactly when the message is its own, is not refused, and it has then wholly arrived - or it was passed on already and this is its End again |
| `Answers.PastEnd` | csocket_receiver.cpp:282-297 | the End of an IROB passed on already is answered with its acknowledgement, and changes nothing else |
| `Answers.CheckAnswered` | cmm_socket_impl.cpp:2506-2561 | the answer to a data check in every state: an acknowledgement and no request for what was passed on, or begun, with nothing listed as missing and the End seen or not as the rule says; otherwise no acknowledgement but, unless one is waiting, a request for just the Begin, data and End that are missing, or for everything if the IROB is unknown |
| `Answers.AcknowledgesIff` | cmm_socket_impl.cpp:2506-2561 | in terms of what has arrived: as documented, exactly when everything has, unless whole chunks of it were read already and the rest not; as written, when it was passed on or is trapped |
| `Answers.AckAnswered` | cmm_socket_impl.cpp:2422-2445 | an acknowledgement removes exactly the IROB it is for, if it is finished and still held, and otherwise changes nothing |
| `Answers.CheckRetires` | cmm_socket_impl.cpp:2512-2522 | a lost acknowledgement is made good: from any state, under either rule, check, reply and acknowledgement make the sender done with an IROB passed on already; under the documented rule also with one that has wholly arrived and is not being read |
| `Answers.EndRetires` | csocket_receiver.cpp:282-297 | and so does the End sent once more, under either rule, for whatever has wholly arrived |
| `Protocol.GivenUpForever` | cmm_socket_impl.cpp:2422-2445 | an IROB that the sender has given up before it was wholly cut never arrives, whatever follows |
| `Losses.LossyRunEnds` | csocket_sender.cpp:1501-1637 | for every foreground IROB longer than 5596 bytes: its Begin and first chunk, a data check with its second chunk, all arriving, make the rule as written give up the IROB, of which the receiver has just those two chunks |
| `Losses.LossyRunLoses` | cmm_socket_impl.cpp:2541-2544 | and it is lost for good: after any further steps of either end and the network it has not fully arrived and is not being sent |
| `Ordering.EndToEnd` | libcmm_irob.h:6-19 | over every run of both ends, under either rule, with the sender still at work: the output is what was written into finished IROBs, each once and whole, one after another, then at most a first part of one more |
| `Ordering.DependentsInOrder` | libcmm_irob.h:13-19 | over every run: nothing is delivered, even in part, before all it depends on, directly or through others |
| `Ordering.AnonymousInOrder` | libcmm.h:92-97 | over every run: of two IROBs of which at least one is anonymous, the one sent later is delivered only after the whole of the other |
| `Ordering.OneStream` | libcmm.h:95-97 | over every run of anonymous sends only: what the other application has is one prefix of all that was written, in the order sent |
| `Application.HoldsWhatWasWritten` | cmm_socket_impl.cpp:2175-2240 | over every run the sender holds for each IROB all the bytes the application wrote to it, in order, and it is complete exactly if the application ended it |
| `Application.OrderIsAsBegun` | cmm_socket_impl.cpp:2028-2079 | over every run the IROBs are those begun, in that order |
| `Application.BeginStep` | cmm_socket_impl.cpp:2028-2079 | a begun IROB is announced with all dependencies named, comes last in order, and is anonymous exactly if none could be named |
| `Application.CanBeginIff` | pending_irob.cpp:505-514 | an IROB can be begun exactly if its id is new, all it names were begun, and none of them has been dropped |
| `Application.CanHappen` | csocket_sender.cpp:291-378 | exactly when a read, a drop, a message of either end, and an arrival can happen |
| `Application.GoesRedundant` | pending_sender_irob.cpp:401-451 | turning on redundant sending does just that |
| `Application.NamedInOrder` | libcmm_irob.h:13-19 | over every run: an IROB begun with a dependency named is delivered, even in part, only after the whole of that one |
| `Application.DropDrops` | pending_irob.cpp:449-472 | over every run, dropping an IROB removes it, of the others just those that depend on it, and leaves none that depends directly on anything removed |
| `Application.GetsWhatWasWritten` | libcmm_irob.h:6-19 | end to end in terms of what the one application wrote and ended: the other has what was written to IROBs that were ended, each once and whole, one after another, then at most a first part of one more |
| `Reliability.RankedByPlace` | pending_irob.cpp:308-365 | in every state whose IROBs are all wholly cut the sender's own history is acyclic: what an IROB was announced to depend on was begun before it |
| `Reliability.LandedRecorded` | csocket_receiver.cpp:194-451 | over any run from any state: what a message brought is still there at the end, or its IROB has been delivered |
| `Reliability.Reliable` | libcmm_irob.h:6-19 | reliability over every run of both ends, drops, data checks and duplicates included: when every IROB is wholly cut and each of its messages was received at least once, enough further reads of any nonzero size give the application the whole of every IROB, each once, after all it depends on |
| `Reliability.ReliableStream` | libcmm.h:92-97 | and where only anonymous IROBs were sent, exactly all that was written, in the order sent |
| `Repair.CoversIff` | csocket_sender.cpp:1410-1457 | a request, even one made for an older state, covers every sent piece that is lacking exactly when it asks for data or the table has no hole, and asks for the End or lists what the End announced or nothing was cut beyond the table |
| `Repair.CheckCoversIff` | cmm_socket_impl.cpp:2506-2561 | the documented check always covers it; the check as written does exactly when the IROB is unknown, its End was seen, or nothing was cut beyond the table |
| `Repair.RequestsSay` | csocket_sender.cpp:1410-1457 | the headers that go out ask for just what is wanted: the Begin exactly if it is wanted, each missing chunk exactly if data are, and exactly if the End is wanted the End with all that follows the table |
| `Repair.ServeAllMarks` | cmm_socket_impl.cpp:2483-2502 | serving requests in any order and number marks exactly what they name |
| `Repair.RepairMarks` | cmm_socket_impl.cpp:2447-2504 | after the documented check every sent piece the receiver lacks is marked to be sent again |
| `Repair.DrainEmits` | pending_sender_irob.cpp:184-211 | as many calls as there are marks then hand out exactly the marked pieces, each once, whole, lowest first, on whatever connections and for whatever sizes |
| `Repair.RepairSends` | pending_sender_irob.cpp:184-211 | so every sent piece the receiver lacks comes out again, whole and just as it was cut, bytes and pieces being left alone by the requests |
| `RepairRuns.RequestCompletes` | csocket_sender.cpp:1410-1457 | from any state, under either rule: a request that asks for all that is lacking completes the IROB, once its messages have arrived, the Begin, End and pieces that arriving messages ask for have been sent, and what was sent has arrived - whatever was lost before and whatever other steps come in between |
| `RepairRuns.CanBeAnswered` | cmm_socket_impl.cpp:2447-2504 | every request for an IROB still held can be answered so, in finitely many steps |
| `RepairRuns.CheckAsksEnoughIff` | cmm_socket_impl.cpp:2506-2561 | a data check makes the receiver ask for all that is lacking exactly under the documented rule, or when nothing of the IROB is known, or when its End has been seen |
| `RepairRuns.CheckRound` | cmm_socket_control.h:105-118 | from any good state, under the documented rule: data check, request and answer among any other steps complete the IROB |
| `RepairRuns.UnmarkedIsSent` | pending_sender_irob.cpp:184-211 | a mark goes away only in the step that sends exactly its piece |
| `SocketEnds.OutgoingSide.BeginIrob` | cmm_socket_impl.cpp:2028-2079 | fails when shutting down or exactly if a dependency named was dropped; otherwise exactly the protocol's step, and the IROB is listed for its Begin |
| `SocketEnds.OutgoingSide.SendDefaultIrob` | cmm_socket_impl.cpp:2393-2409 | inserts a whole anonymous IROB; exactly the protocol's step, and the IROB is listed |
| `SocketEnds.OutgoingSide.IrobChunk` | cmm_socket_impl.cpp:2175-2240 | each refusal as in the code - shutting down, dropped, unknown, complete - and otherwise the protocol's step; an announced IROB is listed for its chunks |
| `SocketEnds.OutgoingSide.EndIrob` | cmm_socket_impl.cpp:2080-2168 | refused exactly when shutting down, unknown or already complete; the End is listed exactly when the IROB is announced, its End not, and everything is cut |
| `SocketEnds.OutgoingSide.AckReceived` | cmm_socket_impl.cpp:2422-2445 | erases a finished IROB, flags one that is not; duplicates are ignored; the exception for unknown IROBs is never thrown in a run |
| `SocketEnds.OutgoingSide.ResendRequestReceived` | cmm_socket_impl.cpp:2447-2504 | marks what is asked for and lists it; neither the exception nor the guard's off-by-one is ever reached in a run |
| `SocketEnds.OutgoingSide.DropIrob` | pending_irob.cpp:449-472 | gives up an IROB and its dependents; exactly the protocol's step |
| `SocketEnds.OutgoingSide.Goodbye` | cmm_socket_impl.cpp:2578-2600 | a second call changes nothing; a remote start has every outgoing IROB checked and records that the other end is done; without a connection that is all |
| `SocketEnds.OutgoingSide.DataCheckAll` | cmm_socket_impl.cpp:1868-1891 | the loop over the deque lists exactly the live IROBs |
| `SocketEnds.OutgoingSide.SendDataCheck` | csocket_sender.cpp:1501-1637 | one data check leaves the list and goes out |
| `SocketEnds.OutgoingSide.DecideGoodbye` | csocket_sender.cpp:49-107 | a thread decides on the GOODBYE exactly when shutting down, with nothing outgoing, no acknowledgement, request or data check to send, and none sent or being sent |
| `SocketEnds.OutgoingSide.GoodbyeWritten` | csocket_sender.cpp:1391-1407 | a failed write lets another thread try; a good one ends it |
| `SocketEnds.OutgoingSide.DoGoodbye` | csocket_receiver.cpp:584-605 | a GOODBYE that answers ours ends the shutdown, one that comes first starts it, with data checks, or gives up without a connection |
| `SocketEnds.IncomingSide.DataCheckRequested` | cmm_socket_impl.cpp:2506-2561 | in every state of the system the handler as written is the protocol's step with that rule, and it keeps acknowledgements sound exactly when it is not the case that the IROB is begun, gapless so far and without its End |
| `SocketEnds.IncomingSide.ResendRequest` | csocket_sender.cpp:1410-1457 | the header loop produces exactly the requests the protocol says: one per missing chunk, Begin and End on the first |
| `SocketEnds.IncomingSide.SendAck` | csocket_sender.cpp:297-300 | a waiting acknowledgement leaves the list and goes out |
| `Shutdown.StepKeepsOk` | csocket_sender.cpp:102-135 | traffic, closing, data checks, deciding, writing well or badly, hearing and giving up keep the invariant of both ends |
| `Shutdown.AtMostOneGoodbye` | csocket_sender.cpp:1376-1408 | over every session, with any number of sender threads: at most one GOODBYE is written per end, and at most one thread is ever writing one |
| `Closing.DecisionIff` | csocket_sender.cpp:49-107 | a thread can decide on the GOODBYE exactly when its end is closing, has sent none and is sending none, nothing is outgoing, and no acknowledgement, request or data check is waiting |
| `Closing.SentBeforeGoodbye` | csocket_sender.cpp:49-107 | over every session, at the decision: every acknowledgement scheduled at any time before has been sent, and so has every data check of an IROB |
| `Closing.AskedBeforeGoodbye` | csocket_sender.cpp:49-107 | and for everything that was wanted at any time before, the request has been sent |
| `Closing.HearingCloses` | cmm_socket_impl.cpp:2578-2600 | an end that hears a GOODBYE before it has begun to close begins, knows that the other is done, and has every IROB it still holds checked |
| `Closing.HeldWereChecked` | cmm_socket_impl.cpp:2590-2600 | over every session: by the time such an end decides on its own GOODBYE it has sent a data check for each of them |
| `Closing.FailedWriteFrees` | csocket_sender.cpp:1391-1407 | after a failed write of the GOODBYE any thread can decide again, exactly when nothing is owed; after a good one none can |
| `Closing.OwnSteps` | cmm_socket_impl.cpp:2578-2620 | checks are listed as asked and leave the list as they go out; closing of its own accord and giving up set just their flags |
| `Closing.CheckGoesOut` | csocket_sender.cpp:1501-1637 | a data check goes out exactly if it is listed, and is then in flight and not listed any more |
| `Closing.TrafficGoes` | csocket_sender.cpp:102-135 | what an end sends and what becomes of it is a step of the protocol for that side, and of nothing else |
| `Closing.WrittenIs` | csocket_sender.cpp:1391-1407 | over every session the count of GOODBYEs is that of good writes |
| `Shutdown.NothingLeftBehind` | csocket_sender.cpp:49-60 | when the decision is made every IROB accepted so far has been acknowledged or dropped |
| `Shutdown.GoodbyeAfterEverything` | csocket_receiver.cpp:584-605 | over every session under the documented rule, or in which no data check catches an IROB as above: an end that has the other's GOODBYE has passed on or holds complete every IROB accepted before the decision to send it, unless dropped; and it believes the other is done only for that reason or having given up |
| `Closing.GoodbyeMeans` | csocket_receiver.cpp:584-605 | over every session, in terms of its turns: once an end has acted on the GOODBYE, the other wrote it exactly once, and whatever the other's application had sent when it was decided on was passed on or is held in full, unless dropped |
| `Closing.FarewellSteps` | csocket_receiver.cpp:588-596 | a GOODBYE is noticed only after it was written; what counts is whether the end was closing then, and whether it began to close before acting on it |
| `Shutdown.ToldUnlessRaced` | csocket_receiver.cpp:588-596 | an end that acted on the GOODBYE knows the other is done exactly when it did not start to close between reading the flag and acting |
| `Shutdown.GoodbyeMissed` | csocket_receiver.cpp:588-596 | that race is real: a run after which the end never learns it |
| `SenderWork.StepKeeps` | csocket_sender.cpp:291-398 | every lock-held stretch of the sender thread, data checks included, and every step of other threads in between keeps the work-list invariant |
| `SenderWork.NothingForgotten` | csocket_sender.cpp:909-947 | over every run, failed writes included: unsent or re-requested bytes of an announced IROB always have a task or a chunk write under way, an unannounced one a Begin waiting or under way, and a due End is sent, waiting, under way or to come, unless passed over |
| `SenderWork.IdleMeansSent` | csocket_sender.cpp:291-398 | when the thread is idle and the lists are empty, every live IROB is announced and wholly sent, and every End sent unless passed over |
| `SenderWork.PassedOverIff` | cmm_socket_impl.cpp:2155-2161 | exactly three kinds of step leave a due End unqueued: ending an IROB that is wholly cut but not announced, and the failed write of the last chunk or of an all-in-one Begin |
| `SenderFacts.RequestAnswered` | cmm_socket_impl.cpp:2483-2502 | a resend request marks just the pieces it names and lists the Begin exactly if it asks for it, chunks if it asks for any, and the End if it asks for it and it is due |
| `SenderFacts.AskedBeginStays` | cmm_socket_impl.cpp:2483-2486 | a Begin that was asked for stays listed until the thread takes it up, whatever else happens |
| `SenderFacts.GoesWholeIff` | csocket_sender.cpp:820-880 | a Begin takes chunk and End along exactly for an ended foreground IROB of less than 1500 bytes, not announced before, with something left to send |
| `SenderFacts.WhatGoes` | csocket_sender.cpp:952-1223 | a chunk is written exactly if there is one, an End for any IROB still here, and a data check takes the End along exactly if it is due |
| `SenderFacts.FailedIsListed` | csocket_sender.cpp:909-925 | a write that failed is listed again, whatever it was; what is acknowledged or dropped is gone, and only that |
| `SenderFacts.CanHappen` | csocket_sender.cpp:291-378 | exactly when each step can be taken: by other threads at any time, by the thread for whatever is listed |
| `SenderFacts.MarksAreTrue` | csocket_sender.cpp:909-947 | over every run the marks tell the truth: an IROB counts as announced exactly if its Begin was written, its End as sent exactly if it was written by itself, with the Begin or with a data check |
| `SenderFacts.HoldsWhatWasWritten` | cmm_socket_impl.cpp:2175-2240 | over every run the sender thread works on exactly the bytes the application wrote |
| `SenderRest.OwnStepShrinks` | csocket_sender.cpp:291-398 | every step the thread takes by itself leaves it with less to do |
| `SenderRest.ComesToRest` | csocket_sender.cpp:291-398 | left to itself from any point of any run, with writes that succeed, the thread comes to rest after no more steps than it has to do; and then every IROB still here has its Begin and all pieces written and, if ended, its End, unless that came late or a check is owed |
| `SenderWork.EndsRecovered` | csocket_sender.cpp:236-273 | over every run with any failed writes: a due End is sent, queued, being written, to follow the write under way or to go with a waiting data check, unless the check that follows a failed write of its IROB is still to be scheduled, or the application ended the IROB when it was wholly cut and not announced, or sent it without bytes |
| `SenderWork.RecoveredMeansSent` | csocket_sender.cpp:236-273 | so once the thread is idle with empty lists, every live IROB is announced and wholly sent, with its End, if each of its failed writes was followed by the check and its End did not come late |
| `SenderWork.NoEndForgotten` | csocket_sender.cpp:1191-1221 | over every run without failed writes, and without a data check or resend request for an IROB whose Begin was not tried: no End of an IROB with bytes is left unqueued, and no assertion fails |
| `SenderWork.AssertionFailsIff` | csocket_sender.cpp:876-878 | the assertion in the Begin of a small IROB fails exactly when a piece is to be sent again while there are bytes not yet cut |
| `SenderRuns.LateEndIsLost` | cmm_socket_impl.cpp:2155-2161 | a run in which a failed Begin, a data check that takes the last byte and a late end leave every list empty and the End never sent |
| `SenderRuns.EarlyCheckLosesEnd` | cmm_socket_impl.cpp:2590-2600 | the same without any failed write: closing has every IROB checked, begun or not, while an end that had passed its test for closing is still under way |
| `SenderRuns.AssertionFails` | csocket_sender.cpp:876-878 | a run that reaches the failing assertion |
| `SenderThread.TakeReady` | pending_sender_irob.cpp:159-229 | computes `GetReady` for a single connection |
| `SenderThread.CSocketSender.BeginIrob` | csocket_sender.cpp:728-949 | the branches before and after the write are the machine's two steps, with other threads' steps between them |
| `SenderThread.CSocketSender.IrobChunk` | csocket_sender.cpp:1003-1223 | the same for one chunk; no write when there is nothing to send |
| `SenderThread.CSocketSender.EndIrob` | csocket_sender.cpp:952-1000 | the same for an End; none for an IROB that is gone |
| `SenderThread.CSocketSender.SendDataCheck` | csocket_sender.cpp:1501-1637 | the same for a data check with the piece, the Begin and the End it takes along |
| `SenderThread.CSocketSender.Recover` | csocket_sender.cpp:236-273 | after a failed write, with other threads' steps in between, every IROB sent on the connection has a data check waiting, which will bring its End if that is due |
| `SenderThread.CSocketSender.ScheduleWork` | csocket_sender.cpp:291-378 | one pass - all data checks, a new IROB, an IROB with chunks, an End - takes only steps of the machine, leaves nothing forgotten, and reports that it did nothing only when all lists were empty |
| `QueuingDelays.DelayIsGreatestBacklog` | net_stats.cpp:957-964 | for any clock, the recurrence is the greatest backlog from any earlier group on, and 0 |
| `QueuingDelays.DelayClosedForm` | net_stats.cpp:957-964 | with a clock that does not go back: the greatest, over earlier groups, of the send time since minus the time elapsed since |
| `QueuingDelays.GroupAllForward` | net_stats.cpp:995-1001 | merged and ignored messages keep the groups in clock order, so that the closed form applies |
| `QueuingDelays.GroupsAreRuns` | net_stats.cpp:981-995 | the groups are the longest runs of messages for one IROB, those without an estimate left out, each with its first message's time, its last one's estimate and all their bytes |
| `QueuingDelays.GroupsConserve` | net_stats.cpp:981-995 | no bytes of a message with an estimate are lost or counted twice |
| `QueuingDelays.DelayOverMessages` | net_stats.cpp:957-964 | over the messages themselves: the delay is the greatest, over earlier runs, of the time it takes to send all messages since minus the time elapsed since |
| `QueuingDelays.JumpBack` | net_stats.cpp:1003-1006 | if the clock has jumped back, a new group waits for all that was queued |
| `QueuingDelays.TimeToSendIs` | net_stats.cpp:96-102 | the send time is the whole microseconds that so many bytes take at so many bytes a second |
| `QueuingDelays.WaitsForDrain` | net_stats.h:25-29 | a later message waits exactly until the queue before it has drained |
| `QueuingDelays.QueuingDelay.AddMessage` | net_stats.cpp:965-1025 | over all messages added so far: returns the recurrence's delay for one that starts a group, none for others, exactly in microseconds |
| `QueuingDelays.QueuingDelay.GetQueuableTime` | net_stats.cpp:941-955 | the time at which the queue drains, for the last IROB, and zero for any other |
| `TimeOps.TimerAdd` | timeops.h:66-74 | on normalized times exactly addition of microseconds, normalized again with one carry |
| `TimeOps.TimerSub` | timeops.h:75-83 | exactly subtraction, with one borrow |
| `TimeOps.TimeDiff` | timeops.h:35-47 | exactly the difference; what the macro asserts is that it is not negative |
| `TimeOps.EarlierIs` | timeops.h:62-65 | the comparison is that of the microseconds |
| `TimeOps.ConvertToTimeval` | timeops.cpp:55-61 | inverse of taking microseconds: the only normalized time with as many |
| `IntSets.IntSet.Insert` | intset.cpp:9-30 | two bit vectors and a count stand for a set of integers; insert adds one, growing a vector if need be |
| `IntSets.IntSet.Contains` | intset.cpp:32-49 | membership, for numbers beyond the vectors as well |
| `IntSets.IntSet.Erase` | intset.cpp:63-74 | removes one number, and the count stays the number of members |
| `IntSets.IntSet.Size` | intset.cpp:76-80 | the number of distinct members |
| `IntSets.IntSet.IsEmpty` | intset.cpp:82-86 | empty exactly when there is no member |
| `IntSets.IntSet.Clear` | intset.cpp:88-94 | removes everything |

## Left out

- Sockets, threads, select and poll, bootstrapping, interface changes, IPC, shared memory, the scout, JNI, debug and timing output: input and output, or foreign code. A write is a message that enters the bag, or is lost.
- Byte order and layout of control messages: messages are datatype values.
- Network choice, label matching, redundancy decisions, energy and bandwidth estimation: floating point, or external libraries.
- Thunks and the delegation of work between connections by label (`csocket_sender.cpp:442-655`): any connection may take any step.
- MSG_PEEK, blocking and timeouts of recv, non-blocking error codes: a read that finds nothing returns nothing.
- IROBs without bytes at the receiver: they collide with the sentinel that marks "no data ready" (`pending_receiver_irob.cpp:548`).
- Order and measurement data of waiting acknowledgements: they are a set; their completion times make the comparison no order at all (`Scheduling.AmbiguousIff`).
- Sharing of IROB objects: entries of the lattice and bodies are values, kept in two maps with the same ids; the dropping of a replaced placeholder object is not modelled.
- Sender-side placeholders, which the assumption on dependencies excludes.
- Erasing an unfinished IROB whose status is negative (`cmm_socket_impl.cpp:2127-2149`).
- The data check's copy of the last chunk sent, when there is no next one, and the labels that exempt IROBs from being checked (`cmm_socket_impl.cpp:1856-1865`).
- Integer widths: ids, counts and offsets do not wrap.
- Liveness after drops: a drop leaves dropped ids among the dominators, so later IROBs may wait for ever for what nobody sends any more; reliability is stated for runs in which all messages arrive.
- Message loss within one GOODBYE write that fails half-way; a failed write counts as not written.
- Scheduling.IROBPrioritySet.Pop: for tasks of one completion time; among others the comparison is no order (`Scheduling.AmbiguousIff`), and what the set then does is undefined.
- Scheduling.IROBPrioritySet.Remove: for tasks without a completion time, for the same reason.
- SenderIrob.PendingSenderIROB.MarkLost: excludes the one seqno that the code's guard wrongly lets through; runs never get there (`Protocol.MissingWasSent`).
- SenderIrob.PendingSenderIROB.GetReadyBytes: returns the bytes gathered rather than a vector of pointers into the application's chunks.
- ReceivingEnd.PendingReceiverIROBLattice.GetReadyIrob: does not wait, time out or return the sentinel for "no data"; it returns none.
- ReceivingEnd.PendingReceiverIROBLattice.ReadOne: only for histories in which every finished IROB has bytes; one without is never ready in the model's sense and is the sentinel's case above.
- ReceivingEnd.PendingReceiverIROBLattice.Receive: the same.
- Delivery.EverythingDelivered: takes acyclic dependencies as given; `Reliability.Reliable` derives them.
- SocketEnds.OutgoingSide.BeginIrob: dependencies name IROBs already begun.
- SocketEnds.OutgoingSide.EndIrob: the IROB has bytes.
- SocketEnds.OutgoingSide.DataCheckAll: does not look at labels and interfaces, and is the call without addresses.
- SocketEnds.OutgoingSide.DecideGoodbye: does not test whether changes of interfaces are still to be announced, and keeps one set where the code has one per connection and one for all.
- SocketEnds.IncomingSide.ResendRequest: does not pass the request to another connection, nor put it back after a failed write.
- SenderThread.CSocketSender.BeginIrob: does not pass the IROB to another connection or hold back background data.
- SenderThread.CSocketSender.IrobChunk: neither does this; no acknowledgements ride along, and no work is spread over connections.
- SenderThread.CSocketSender.SendDataCheck: nor does this pass the check on; it takes no second copy of the last chunk along.
- SenderThread.CSocketSender.Recover: without the change of connections and the choice by labels of what is checked; an IROB whose labels exempt it is not among those sent here, and without any connection left the multisocket closes instead.
- SenderThread.CSocketSender.ScheduleWork: without interface changes, acknowledgements and resend requests, which have no part in what is forgotten; task labels are not kept in the work lists, and a lookup without labels finds the tasks of IROBs that are not foreground.
- QueuingDelays.TimeToSend: computes the quotient exactly, without the rounding and the width of the double and the microsecond type used.
- QueuingDelays.QueuingDelay.AddMessage: not for a first message without a bandwidth estimate, which leads to a division by zero later.
- QueuingDelays.QueuingDelay.GetQueuableTime: not for the id -1 before any message.
- Shutdown.AtMostOneGoodbye: counts complete writes, as the code does.
