# Evel, verified in Dafny

Evel is an epoll event loop with TCP, TLS, UDP and DNS on top. This project models the stateful algorithms under
its system calls and proves what each of them is for, over all inputs and over whole runs.

Check everything with `dafny verify dfyconfig.toml`.

## How the project is organised

| files | what they hold |
|---|---|
| `Prelude` | what several modules share |
| `Radix`, `TimingWheel`, `DueCalendar`, `WheelTheorems` | the timing wheel on values, the plain calendar that it refines, and what follows for timers |
| `ExpIndexedList` | the same wheel on the heap, with its intrusive doubly linked buckets; its `Shift` is the wheel's |
| `DrainRemoval`, `DrainHeap` | a drain whose callbacks remove items that still wait in the drained slot: on sequences, and in the code's own pointers |
| `CiList`, `WaitOut`, `WaitOutProtocol` | the self-terminated queue on the heap, one pass of the wait-out timer over it, and the locking protocol in every interleaving |
| `TlsSpec`, `TlsTheorems`, `TlsResults`, `TlsProgress`, `TlsDuties`, `TlsConnection` | the TLS connection over an OpenSSL that may answer anything: step functions, what it never does (invariant and results over all runs), what it does not leave undone (likewise), and the class |
| `TcpConnection` | the scatter write of a queue of messages |
| `DnsName`, `DnsMessage`, `DnsDecode`, `DnsTable`, `DnsCalls`, `Dns` | names, messages and the request table of the DNS client, runs of it, what callbacks and server get, and the class |
| `EvLoopSpec`, `EvLoopTheorems`, `EvLoopGrowth`, `EvLoopEffects`, `EvLoopRuns` | the phases of the event loop, its invariant, what callbacks and epoll do to it, and results over all runs |
| `EvLoopDangling`, `EvLoopTwice`, `EvLoopHistory`, `EvLoopStops`, `EvLoopExamples`, `EvLoop` | exactly when a run follows or leaves a pointer to a deleted event, comes to delete one twice, aborts, or stops on request; short bad runs; and the class |

Each class changes its own fields, and every method that changes state says outright that the new state is a
specification function of the old one; the theorems are about those functions and about whole runs of them.

What the kernel, OpenSSL, the random numbers and the user's callbacks do is a script, and every theorem holds
for all scripts. A script of callbacks names operations; a script of answers that is used up means that
nothing more happens.

## What was found

* **Timers fire early.** The class comment promises that `shift` returns the items at index 0. An item put
  directly on level k fires before its due tick by 0, 1 or 2 steps of that level, depending on how far the lower
  cursors had moved; `Early` gives the number in closed form and `ExactWhen` says when it is 0. It is never late.
* **A callback that re-adds its item at index `sa - 1` loses it**: that is the slot being drained, and it is
  cleared afterwards (`SelfAddSurvives`, an equivalence). The item's `lst` stays set, so that later adds of it are ignored.
* **A callback can remove an item of its own slot and still see it fire.** Whatever the callbacks remove, an item is
  spared exactly when a linked item of the slot still stands before it as it is removed (`FiresWhen`, `Drain`): so the
  direct successor is not, and neither is the one behind it once that has been removed (`TwoRemoved`).
* **A pass of the wait-out timer can delete an event that is still named in the answer of epoll being handled**, or
  that has work registered, and the loop follows the pointer (`BatchExample`). Over all runs, `DanglesWhen` says exactly
  when a deleted event is followed or left on a list.
* **A peer that hangs up on a connection waiting for its output gets it deleted under the wait-out list**, which the
  next pass then walks onto (`HangUpExample`). `TwiceWhen`: that, and every double deletion, comes exactly from a `del`
  that puts an event on the other list than the one it is on.
* **An event deleted with a descriptor of at most 2 keeps its count and its place in epoll**: the loop never stops by
  itself again, and epoll may name the deleted event (`LeakNeverIdle`, `LeakExample`).
* **`stop` from `work` takes effect only behind the next answer of epoll** (`TurnCnt`, `RunStoppedWhen`), and an event given
  a timeout between `del` and its installation is not deleted (`EarlyDeletion`).
* **An event given a timeout before it is installed is never installed**, and aborts the program when it is deleted
  (`AbortExample`). `AbortedWhen`: a run aborts exactly by that, or by the deletion of an event that epoll refused.
* **A thread can lose its event between `push_back` and `check_wait_out`**, and then reads the loop from a deleted event
  (`LateRead`). At the push this can be said exactly: there is a timer that is not about to go, or another thread can go on to
  look for one (`LosesEventWhen`).
* **The wait-out timer can outlive its use**, also when that read came in time: a look at the timer makes a useless one
  exactly when there is none and all that ever arrived is deleted (`UselessWhen`), and then it stays (`StaleTimer`).
* **TLS `send` can drop a message without an error**, exactly when an SSL_write fails without an error code
  (`NothingDropped`, `DroppedExample`). Order is kept for everything else (`OrderKept`).
* **A TLS message sent by the parser can be stuck until the peer sends something**: SSL_write wants output, the read loop
  goes on, SSL_read wants input, and from then on on_out returns at once (`StalledExample`; `OutCalls` has all cases).
* **The scatter write reads past its iovec array** exactly when a call, after a short write of the same
  `on_out`, takes all that is left (`OverrunWhen`). The stream is conserved up to there.
* **DNS names of some addresses never find their request**: a trailing dot, a doubled dot, an '@' or a zero byte
  in the address (`NormalWhen`, `ReplyDecodes`), or a label of more than 255 bytes (`NameRoundTrip`).
* **A message can make the DNS client follow a null entry**, exactly when none of its questions is for all records of
  class IN and its first address record is of another class (`UndefinedWhen`).
* **A DNS answer with an address for another name leaves its request pending and a cache entry behind**, from which
  later queries are answered (`ClosesWhen` and `EntryFrom`, equivalences on the bytes of the message).
* **Without a server, the first query's callback is called and stays pending**, to be called again
  at the timeout (`CalledOnceWhen`).

## Model

| member | source | states |
|---|---|---|
| TimingWheel.LevelFrom | src/Evel/ExpIndexedList.h:75-79 | the level an index goes to is the one whose range of indices contains it |
| TimingWheel.Wheel.Cascade | src/Evel/ExpIndexedList.h:81-89 | the recursive re-dispatch over all levels whose wrap is pending keeps every item and the tick at which each will leave, and leaves no wrap pending below |
| TimingWheel.LagWrap | src/Evel/ExpIndexedList.h:83-84 | resetting a pending cursor changes no waiting time of the levels above |
| TimingWheel.LagDrain | src/Evel/ExpIndexedList.h:81-99 | a drain moves only the waiting time of its own level, which becomes one full step |
| TimingWheel.RelinkTick | src/Evel/ExpIndexedList.h:85-87 | an item moved down from level k leaves at the tick that its old slot promised |
| TimingWheel.Wheel.FiredIsDue | src/Evel/ExpIndexedList.h:91-98 | the items fired by a shift are exactly those whose leaving tick is the current one |
| TimingWheel.Wheel.TakenKeeps | src/Evel/ExpIndexedList.h:81-99 | the items a shift does not fire keep their leaving ticks |
| DueCalendar.PlaceLeaves | src/Evel/ExpIndexedList.h:75-78 | an added item leaves at its due tick less the closed form `Early`, whatever the cursors, and has at most nb moves ahead |
| DueCalendar.PoliteMisses | src/Evel/ExpIndexedList.h:91-98 | while a slot is drained, an add reaches that slot exactly when its index is sa - 1 |
| DueCalendar.DoKeeps | src/Evel/ExpIndexedList.h:226-244 | add and rem do to the wheel what they do to a map of items to ticks: a member is not added twice, and no other item is touched |
| DueCalendar.StepRefines | src/Evel/ExpIndexedList.h:226-248 | every add, rem or shift of the wheel is the one of the calendar, and is possible in the one exactly when in the other |
| DueCalendar.RunRefines | src/Evel/ExpIndexedList.h:180-257 | trace equivalence: over every run the wheel and the calendar fire the same items at the same ticks |
| DueCalendar.CountdownNext | src/Evel/ExpIndexedList.h:81-99 | the wait of a level as a closed form in the number of shifts since construction |
| WheelTheorems.NeverLate | src/Evel/ExpIndexedList.h:54-166 | over every run, an item still in the list is not overdue, and it was re-linked at most nb times |
| WheelTheorems.InWindow | src/Evel/ExpIndexedList.h:145-166 | every item leaves between now and its due tick |
| WheelTheorems.EarlyIsFewSteps | src/Evel/ExpIndexedList.h:75-116 | the firing is early by 0, 1 or 2 steps of the first level, hence by a multiple of sa; never from the overflow bucket |
| WheelTheorems.ExactWhen | src/Evel/ExpIndexedList.h:75-116 | when the firing is exact, as an equivalence on the index and the number of shifts |
| WheelTheorems.ExactCases | test/test_ExpIndexedList.cpp:21-48 | exact before the first shift, on level 0 and in the overflow bucket |
| WheelTheorems.EarlyExample | src/Evel/ExpIndexedList.h:109-111 | with four slots per level, index 7 after one shift fires at tick 4 and not 8; an example early by two steps |
| WheelTheorems.PlainMap | src/Evel/ExpIndexedList.h:180-187 | on runs whose adds are exact, the calendar is the plain map from items to due ticks |
| WheelTheorems.WheelIsPlainMap | src/Evel/ExpIndexedList.h:180-187 | on those runs the wheel fires exactly the items whose due tick is the current one |
| WheelTheorems.RemovedNeverFires | src/Evel/ExpIndexedList.h:233-244 | a removed item fires in no later shift until something adds it again |
| WheelTheorems.PeriodicTimer | src/Evel/TimeoutsTimer.cpp:9-15 | an item that re-adds itself at index i below sa - 1 fires on every (i+1)-th shift and on no other, over any run of adds, rems and shifts that does not remove it |
| WheelTheorems.SelfAddSurvives | src/Evel/ExpIndexedList.h:91-98 | an item of a shift, with any others in the slot, re-adds itself from its callback; the other callbacks are silent about it, remove no item that still waits behind them and do not add at sa - 1: then it is in the list afterwards exactly when its index is not sa - 1 |
| DrainRemoval.FiresWhen | src/Evel/ExpIndexedList.h:91-98 | whatever the callbacks remove, the items that fire are those of the slot, in order, without those removed while a linked item stands before them |
| DrainRemoval.RemovedFiresWhen | src/Evel/ExpIndexedList.h:91-98 | for one removal: the item is spared exactly when it is behind the direct successor; all the others fire |
| DrainRemoval.TwoRemoved | src/Evel/ExpIndexedList.h:91-98 | a callback that removes the two items behind its own, the nearer one first, sees both fire |
| DrainHeap.RemTrail | src/Evel/ExpIndexedList.h:233-244 | the writes of rem to next, prev and lst, on an item of a half-drained slot: the way of the loop changes as the sequences say |
| DrainHeap.FirstUnlinked | src/Evel/ExpIndexedList.h:236-242 | unlinking the first linked item leaves the captured chain as it is |
| DrainHeap.LaterUnlinked | src/Evel/ExpIndexedList.h:236-242 | unlinking a later one steps over it |
| DrainHeap.Drain | src/Evel/ExpIndexedList.h:91-98 | the loop over the code's own pointers, with callbacks that remove any items of the slot, fires exactly the items of FiresWhen and leaves none linked |
| ExpIndexedList.Bucket.PushFront | src/Evel/ExpIndexedList.h:111-115 | a new head of an intrusive doubly linked list; all its links agree |
| ExpIndexedList.Bucket.Unlink | src/Evel/ExpIndexedList.h:14-28 | taking an item out of its list, at whatever place |
| ExpIndexedList.ExpIndexedList.Add | src/Evel/ExpIndexedList.h:226-231 | the heap operation is the wheel's; a member stays where it is |
| ExpIndexedList.ExpIndexedList.Rem | src/Evel/ExpIndexedList.h:233-244 | the heap operation is the wheel's; a stranger is left alone |
| ExpIndexedList.ExpIndexedList.ShiftLevel | src/Evel/ExpIndexedList.h:81-99 | the recursive shift of a level, on the heap, is the cascade |
| ExpIndexedList.ExpIndexedList.ShiftLast | src/Evel/ExpIndexedList.h:145-166 | the overflow bucket gives out exactly the items due within the next turn of the level below and keeps the others linked |
| ExpIndexedList.ExpIndexedList.Shift | src/Evel/ExpIndexedList.h:246-248 | with callbacks that add and remove, the heap operation is a shift of the wheel, and the heap stays well linked |
| ExpIndexedList.ExpIndexedList.Size | src/Evel/ExpIndexedList.h:101-107 | the walk over all buckets counts every item once |
| CiList.CiList.PushBack | src/Evel/CiList.h:19-26 | appends an item that is in no list; a member stays where it is |
| CiList.CiList.PopFront | src/Evel/CiList.h:29-42 | takes the first item, null when there is none |
| CiList.CiList.Prepend | src/Evel/CiList.h:50-63 | a followed by b; the list a must not be used afterwards |
| CiList.CiList.Disconnect | src/Evel/CiList.h:66-72 | hands out the whole chain and leaves an empty list |
| CiList.LinkedIffNext | src/Evel/CiList.h:9-12 | membership is next not being null, and only the last item points to itself |
| WaitOut.Timeout | src/Evel/WaitOut.cpp:12-42 | after a pass the list is the events with output left, in their order, then the new ones pushed during the pass; the others are deleted once, in order; the timer goes exactly when nothing is left; pushes of events of the chain change nothing |
| WaitOut.FilterPartitions | src/Evel/WaitOut.cpp:15-32 | each event is either kept or deleted, once |
| WaitOut.AppendDistinct | src/Evel/CiList.h:19-26 | pushes of other threads leave a list without duplicates |
| WaitOutProtocol.InvRuns | src/Evel/EvLoop.cpp:178-184 | the invariant of pushers, lock and timer holds after every interleaving |
| WaitOutProtocol.NoLostWakeUp | src/Evel/EvLoop.cpp:178-184 | in every interleaving, an event that waits has a timer, or a pusher that is about to look for one |
| WaitOutProtocol.EachEventOnce | src/Evel/WaitOut.cpp:12-42 | in every interleaving, each event that arrived is in exactly one place, and is deleted at most once |
| WaitOutProtocol.LosesEventWhen | src/Evel/Event.cpp:57-59 | at the push of an event: it can be deleted before its thread reads the loop from it, without further pushes and without another late read, exactly when there is a timer that is not about to go, or another thread can go on to look for one |
| WaitOutProtocol.LateRead | src/Evel/Event.cpp:57-59 | such a late read can come about |
| WaitOutProtocol.UselessWhen | src/Evel/EvLoop.cpp:178-184 | over every run, a look makes a useless timer exactly when there is none and every event that arrived, the own one included, is deleted |
| WaitOutProtocol.StaleForever | src/Evel/WaitOut.cpp:13 | over every run without pushes, a timer over an empty list changes nothing and is never retired |
| WaitOutProtocol.StaleTimer | src/Evel/EvLoop.cpp:178-184 | such a timer can come about without any late read: the thread has read the loop in time and waits for the mutex |
| TlsTheorems.RunKeeps | src/Evel/TlsConnection.cpp:57-390 | the invariant of the connection holds after every run, whatever OpenSSL answers and the user asks |
| TlsResults.RetrySameMessage | src/Evel/TlsConnection.cpp:286-318 | after WANT_READ, WANT_WRITE or EINTR, the next SSL_write passes the same message, even if reads come between |
| TlsResults.RetryIsQueued | src/Evel/TlsConnection.cpp:64-83 | until then that message is the head of waiting_sends |
| TlsResults.ShutdownIsLast | src/Evel/TlsConnection.cpp:100-110 | SSL_shutdown is called with nothing left to write, and no SSL_write, no accepted message and no parse follow it |
| TlsResults.FailureIsFinal | src/Evel/TlsConnection.cpp:121-205 | once has_error is set, only SSL_read is called any more and nothing is parsed |
| TlsResults.ErrorMeansDeleted | src/Evel/Event.cpp:36-65 | has_error implies that next_del is set |
| TlsResults.RefusedPeer | src/Evel/TlsConnection.cpp:352-360 | over every run of a client: if the first successful SSL_read comes with a certificate that is refused, an error follows at once and nothing is ever parsed |
| TlsResults.ParseFollows | src/Evel/TlsConnection.cpp:352-364 | over every run: the parser is called directly behind a successful SSL_read, exactly when nothing has ended the connection and it is not the first data of a client whose certificate is refused; and nowhere else |
| TlsDuties.ErrorWhen | src/Evel/TlsConnection.cpp:262-388 | over every run: has_error is set directly behind a verdict of OpenSSL that ends the connection, a hang-up, or the first data of a client whose certificate is refused, always and nowhere else |
| TlsDuties.InterruptedRepeats | src/Evel/TlsConnection.cpp:86-88 | over every run: a call that failed with EINTR is made again at once |
| TlsDuties.RedoIsLastWord | src/Evel/TlsConnection.cpp:207-215 | over every run without an error: to_redo and redo_dir are what OpenSSL asked for last, and to_redo is empty if it was content |
| TlsDuties.NothingForgotten | src/Evel/TlsConnection.cpp:100-205 | over every run, between events: a connected connection without an error waits for OpenSSL, or has written all it took and has begun the shutdown asked for; one that is closed and has nothing to write is on a list of the loop |
| TlsProgress.RunSteady | src/Evel/TlsConnection.cpp:57-390 | the invariant behind these three holds after every run |
| TlsProgress.OnOutRecalls | src/Evel/TlsConnection.cpp:188-204 | after on_out there is an error, OpenSSL is waited for, or the queue is empty, the input that was kept is read and the shutdown asked for has begun |
| TlsProgress.InpCalls | src/Evel/TlsConnection.cpp:127-148 | the first call that on_inp makes: SSL_read, or what OpenSSL wants repeated on input; if it waits for output, none, and the input is kept |
| TlsProgress.OutCalls | src/Evel/TlsConnection.cpp:164-204 | the first call that on_out makes: the handshake of a new client, what OpenSSL wants repeated on output, the head of the queue, kept input, or the shutdown; and none if nothing is left or OpenSSL waits for input |
| TlsDuties.EventCalls | src/Evel/EvLoop.cpp:74-81 | in any reachable state, an epoll entry makes these calls |
| TlsDuties.HangUpEnds | src/Evel/EvLoop.cpp:83-90 | whatever comes with it, a hang-up sets has_error and next_del |
| TlsDuties.TimeoutCloses | src/Evel/Event.cpp:120-122 | a timeout closes; with nothing to write the connection is then on a list of the loop |
| TlsDuties.SendTakes | src/Evel/TlsConnection.cpp:57-66 | send takes a message exactly when it is not empty and nothing has ended the connection, and writes it at once exactly when it is connected and nothing is queued or to be redone |
| TlsDuties.CloseAsks | src/Evel/TlsConnection.cpp:100-110 | close asks for a shutdown once, and begins it at once exactly when the connection is there and nothing is to be written |
| TlsDuties.ReadsUntilDry | src/Evel/TlsConnection.cpp:320-390 | the read loop goes on until an SSL_read has no data: epoll is edge-triggered |
| TlsDuties.ShutdownCloses | src/Evel/TlsConnection.cpp:256-259 | a shutdown that succeeds closes the connection |
| TlsDuties.StalledExample | src/Evel/TlsConnection.cpp:179-182 | a message sent by the parser that has to wait for output is stuck behind an SSL_read that waits for input |
| TlsResults.OrderKept | src/Evel/TlsConnection.cpp:57-98 | written followed by queued is what send took, in order, but for messages whose SSL_write by send itself was refused; it is all that send took exactly when none was refused |
| TlsResults.NothingDropped | src/Evel/TlsConnection.cpp:86-91 | on a connection without has_error, written followed by queued is all that send took exactly when no SSL_write failed without an error code |
| TlsResults.DroppedExample | src/Evel/TlsConnection.cpp:89-90 | with errno 0 a message is lost and the connection goes on without an error |
| TlsTheorems.SendKeeps | src/Evel/TlsConnection.cpp:57-98 | send keeps the invariant: a message to be written again heads the queue, nothing is written after a shutdown or an error, and what is written and queued is what was kept |
| TlsTheorems.OnInpKeeps | src/Evel/TlsConnection.cpp:127-162 | so does on_inp, which does nothing after an error |
| TlsTheorems.OnOutKeeps | src/Evel/TlsConnection.cpp:164-205 | so does on_out |
| TlsConnection.TlsConnection.DoRead | src/Evel/TlsConnection.cpp:320-390 | the read loop is that of the specification, which `RefusedPeer`, `ParseFollows` and `ReadsUntilDry` are about, with what parse asks of the connection |
| TlsTheorems.DispatchKeeps | src/Evel/EvLoop.cpp:67-91 | so does one entry of epoll, with any combination of events |
| TlsConnection.TlsConnection.Serve | src/Evel/TlsConnection.cpp:57-390 | any sequence of events and requests keeps the invariant and is the run of the specification |
| TcpConnection.StreamConserved | src/Evel/TcpConnection.cpp:154-208 | for all results of sendmsg, bytes sent followed by bytes queued are the bytes that were queued |
| TcpConnection.SentAre | src/Evel/TcpConnection.cpp:173-207 | the bytes sent are the first ones of the stream, as many as the calls took up to the last one made, said of their results alone |
| TcpConnection.MessagesKept | src/Evel/TcpConnection.cpp:193-206 | the messages left are the last ones, the first of them without its beginning |
| TcpConnection.AllSentWhen | src/Evel/TcpConnection.cpp:186-191 | the queue is cleared exactly when the first call that is not interrupted takes everything |
| TcpConnection.HungUpWhen | src/Evel/TcpConnection.cpp:178-184 | on_out hangs up exactly when a call that it makes fails or takes nothing |
| TcpConnection.BlockedWhen | src/Evel/TcpConnection.cpp:178-184 | it is blocked exactly when a call that it makes is refused for now, or none is left to end it |
| TcpConnection.OverrunWhen | src/Evel/TcpConnection.cpp:186-201 | the array is overrun exactly when a call after a short write takes all that is left |
| TcpConnection.TcpConnection.OnOut | src/Evel/TcpConnection.cpp:154-208 | the loops over iovec array and deque, kept in step after each short write, do what the report says, which the six rows above are about |
| TcpConnection.TcpConnection.AddSendItem | src/Evel/TcpConnection.cpp:90-102 | a non-empty message goes to the end of the stream |
| DnsName.NameRoundTrip | src/Evel/Dns.cpp:96-107 | the QNAME of any address, anywhere in a message, is read back as its non-empty labels joined by dots, the cursor behind it, exactly when no label exceeds 255 bytes; otherwise a name with other labels is read |
| DnsName.NameComesBack | src/Evel/Dns.cpp:193-209 | the name read is the address itself exactly when the address is normal and its labels are short |
| DnsName.NormalWhen | src/Evel/Dns.cpp:97-106 | normal: no zero byte, no '@', and no dot at an end or beside a dot |
| DnsName.LabelsOfJoin | src/Evel/Dns.cpp:97-106 | joining labels by dots and splitting again gives the same labels |
| DnsName.WriteQName | src/Evel/Dns.cpp:96-107 | the one-pass writer puts out each non-empty label behind its length, and the terminator |
| DnsName.ReadCName | src/Evel/Dns.cpp:193-209 | the reader loop is the function that the round trip is about |
| DnsDecode.Fields | src/Evel/Dns.cpp:162-165 | type, class, ttl, length and data of a record are read as they were written |
| DnsDecode.ReadsRecords | src/Evel/Dns.cpp:150-183 | records that point to the question's name: the A and AAAA data are stored in order, the others are skipped |
| DnsDecode.ReplyDecodes | src/Evel/Dns.cpp:125-190 | an answer to a request, with any records, flags and trailing bytes: exactly when the address is normal, every callback is called once with exactly the addresses in order and the request is erased; else the request stays |
| DnsCalls.ReplyCalls | src/Evel/Dns.cpp:125-190 | after such an answer, said without the table's operations: each callback got exactly one call, in order, without an error and with the cached addresses followed by those of the answer; the entry, the count and the other requests are as they should be |
| DnsCalls.MessageCalls | src/Evel/Dns.cpp:125-190 | the same for any message that closes a request, with all A and AAAA data of its bytes; a message that closes none calls nobody |
| DnsDecode.RequestNamesItself | src/Evel/Dns.cpp:83-110 | the request written by a query names its own address, number, type and class: read back by the client, which does not look at the flags, it closes its own request |
| DnsTable.MessageTouchesOne | src/Evel/Dns.cpp:238-258 | a message of any bytes closes at most one request, one pending under its number, and touches no other cache entry; with an unknown number it changes nothing |
| DnsTable.UndefinedWhen | src/Evel/Dns.cpp:139-183 | the program follows the null entry exactly when no question is for all records of class IN and the first address record is of another class, whatever the table |
| DnsTable.NamelessIsUndefined | src/Evel/Dns.cpp:167-173 | an A record of another class in a message without questions is stored through the null entry |
| DnsTable.ClosesWhen | src/Evel/Dns.cpp:125-190 | any message closes a pending request exactly when it has its number, its first question for all records of class IN, or without one its first address, is for its name and of class IN, and no other such question or address is for another name |
| DnsTable.EntryFrom | src/Evel/Dns.cpp:238-258 | a message makes a cache entry exactly for the name it is about to begin with, if that is pending under its number; the request stays beside the entry exactly when the message goes on to another name |
| DnsTable.CallsConserved | src/Evel/Dns.cpp:48-123 | over every run, for each address, calls made and pending are the callbacks given plus the extra ones of queries without a server |
| DnsTable.CalledOnceWhen | src/Evel/Dns.cpp:113-119 | over every run of a new client, each callback is called once or still pending, not both, exactly when the configuration file names a server at the first query |
| DnsCalls.QueryCalls | src/Evel/Dns.cpp:48-123 | a query for a cached address is answered from the cache at once, one for a pending address waits with the others, any other makes a request with the number drawn; NO_RESOLV_ENTRY exactly without a server |
| DnsCalls.TimeoutCalls | src/Evel/Dns.cpp:264-268 | a timeout calls each callback of the request once, with TIMEOUT and no addresses |
| DnsCalls.RequestsSent | src/Evel/Dns.cpp:48-123 | over every run, one message is sent for each query whose address is neither cached nor pending while a server is known, in order, and nothing else; read back it has the number, one question, the labels, type 255 and class 1 |
| DnsCalls.ServersWhen | src/Evel/Dns.cpp:112-119 | a server is known after a run of a new client exactly when there was a query and the configuration file named one at the first |
| DnsTable.RunCounted | src/Evel/Dns.cpp:260-268 | the share in nb_waiting_events is the number of pending requests after every run |
| Dns.Dns.Query | src/Evel/Dns.cpp:48-123 | the method is the table's query, which `QueryCalls` and `RequestsSent` are about, with the request it writes |
| Dns.Dns.Ans | src/Evel/Dns.cpp:125-190 | the decoding loops are the table's answer, which `ReplyCalls` and `MessageCalls` are about, including the null entry |
| Dns.Dns.OnTimeout | src/Evel/Dns.cpp:264-268 | every callback gets the timeout and the request is erased |
| Dns.Dns.Serve | src/Evel/Dns.cpp:48-268 | any sequence of queries, messages and timeouts is the run of the table and keeps the count |
| EvLoopTheorems.DoKeeps | src/Evel/Event.cpp:36-72 | installing, closing, deleting, failing and registering work keep counting, lists, timer, history and what epoll knows right, whatever list an event is on |
| EvLoopGrowth.DoGrows | src/Evel/Event.cpp:36-72 | no operation of a callback deletes an event, takes one off a list or reopens one that closes |
| EvLoopTheorems.SweepDeletes | src/Evel/WaitOut.cpp:13-32 | a pass that comes to its end found every event of its list, deleted those whose output is out, and touched no others |
| EvLoopTheorems.PassKeeps | src/Evel/WaitOut.cpp:12-42 | a pass keeps the invariant: the timer is there as long as events wait |
| EvLoopRuns.RunMeans | src/Evel/EvLoop.cpp:33-95 | every run keeps the invariant, and ends by itself with no counted event, no DNS request, no event that waits for its output, and empty lists; it waits only while there is something to wait for |
| EvLoopStops.RunStoppedWhen | src/Evel/EvLoop.cpp:33-101 | `run` ends because of `stop` exactly behind the first turn whose work or callbacks ask for it, unless it crashes, is idle or epoll fails before; said from the requests made |
| EvLoopStops.TurnCnt | src/Evel/EvLoop.cpp:42-101 | after a turn the loop goes on exactly when it did before and no `stop` was among the requests of the turn, and it waits for the DNS requests begun and not ended |
| EvLoopStops.TurnsCnt | src/Evel/EvLoop.cpp:97-101 | the same over a whole run |
| EvLoopRuns.NothingWhen | src/Evel/EvLoop.cpp:52-54 | the count is 0 exactly when there is nothing to wait for |
| EvLoopRuns.CountExactWhen | src/Evel/EvLoop.cpp:111-141 | nb_waiting_events is the number of counted events plus DNS requests exactly when no counted event was deleted with a descriptor of at most 2 |
| EvLoopRuns.LeakNeverIdle | src/Evel/Event.cpp:25-30 | after such a deletion the loop never stops by itself |
| EvLoopExamples.LeakExample | src/Evel/Event.cpp:25-30 | standard input, waited for and deleted: the loop waits for nothing, and epoll may name the deleted event |
| EvLoopHistory.AbortedWhen | src/Evel/EvLoop.cpp:111-152 | a run aborts exactly when it deletes an event, of a descriptor above 2, that by the requests of the run was given a timeout before it was installed or was refused by epoll |
| EvLoopRuns.UnknownWhen | src/Evel/EvLoop.cpp:111-136 | an event whose deletion aborts the program gets so exactly by a timeout given before it is installed, or when epoll refuses its descriptor |
| EvLoopExamples.AbortExample | src/Evel/EvLoop.cpp:147-152 | a timeout given before installing leads to the abort |
| EvLoopRuns.WorkInOrder | src/Evel/EvLoop.cpp:43-45 | registered work is done first come, first served, work registered meanwhile behind it |
| EvLoopRuns.DelKind | src/Evel/EvLoop.cpp:47-50 | the deletion phase deletes exactly the listed events, once each, in order |
| EvLoopRuns.DeletedBeforeWait | src/Evel/EvLoop.cpp:43-57 | an event on the deletion list is deleted, once, before the loop waits again, whatever the work does |
| EvLoopRuns.FailedIsDeleted | src/Evel/Event.cpp:75-93 | so is an installed event after an error |
| EvLoopEffects.EarlyDeletion | src/Evel/Event.cpp:48-112 | an event asked to be deleted before it is installed is on del_list or wait_out_list behind that, whatever is asked meanwhile, exactly when it got no timeout meanwhile or something else has listed it |
| EvLoopEffects.CloseLists | src/Evel/Event.cpp:36-46 | close_fd puts an installed event on del_list or wait_out_list exactly when its output is out and it did not close before, or it has an error; it is closing then |
| EvLoopEffects.EntryServed | src/Evel/EvLoop.cpp:67-91 | one entry of epoll calls on_inp once if there is input and on_out left the event open, and else not; a closing event with nothing to write is listed, and one with an error or hang-up is on del_list |
| EvLoopEffects.TimerServes | src/Evel/WaitOut.cpp:12-42 | when epoll names the wait-out timer, the waiting events whose output is out are deleted, and the others go on waiting |
| EvLoopEffects.WorkListed | src/Evel/Event.cpp:67-73 | work asked for is on work_list, or noted until the event is installed |
| EvLoopRuns.NoInputOnceClosing | src/Evel/EvLoop.cpp:70-81 | an event that was closed or is to be deleted never gets input again in any run |
| EvLoopRuns.HandleKind | src/Evel/EvLoop.cpp:67-91 | one entry of epoll keeps the invariant, and an event that closes, or was deleted, still does, and gets no input |
| EvLoopDangling.DanglesWhen | src/Evel/EvLoop.cpp:43-92 | over every run that does not abort: a deleted event is followed, or left on a list, exactly when the deletion phase deletes an event that also waits for its output, a pass deletes one that is on another list or named further on by epoll, or epoll names a deleted one |
| EvLoopDangling.HandleAllDangles | src/Evel/EvLoop.cpp:67-91 | the same for one answer of epoll: a pointer in it to a deleted event is followed in the same turn |
| EvLoopDangling.NamedGoneWhen | src/Evel/Event.cpp:25-30 | epoll names a deleted event only if that was registered and had a descriptor of at most 2 |
| EvLoopDangling.DanglingFollowed | src/Evel/EvLoop.cpp:43-57 | a run that stops by itself has left none, and one that waits has left none but on the list of waiting events |
| EvLoopTwice.TwiceWhen | src/Evel/Event.cpp:48-65 | over every run that does not abort: an event comes to be on both lists, or is deleted while on one of them, exactly when some del, direct or through close or an error, puts it on the other list |
| EvLoopTwice.TwiceDangles | src/Evel/EvLoop.cpp:47-50 | an event on both lists is deleted by the next deletion phase and leaves the other entry behind, if not sooner |
| EvLoopExamples.BatchExample | src/Evel/WaitOut.cpp:25-26 | the pass of the timer deletes a connection that is named next in the same answer of epoll |
| EvLoopExamples.HangUpExample | src/Evel/EvLoop.cpp:83-84 | a connection waits for its output, its peer hangs up, and the next pass walks onto the deleted event |
| EvLoop.EvLoop.Timeout | src/Evel/WaitOut.cpp:12-42 | the wait-out pass within the loop |
| EvLoop.EvLoop.RunLoop | src/Evel/EvLoop.cpp:33-95 | the loops of run: legal callers get the meaning of its end, and the exact condition for pointers to deleted events |

## Left out

- ExpIndexedList.ExpIndexedList.Shift: callbacks must not remove another item that fires in the same shift and must not add at index sa - 1; what happens then is in `DrainHeap`, for one slot, and in `SelfAddSurvives`. The order in which a slot's items fire is whatever the lists give and is not promised.
- ExpIndexedList.ExpIndexedList.Add: from a callback, not at index sa - 1, for the same reason.
- ExpIndexedList.ExpIndexedList.Rem: from a callback, not of an item that still waits in the drained slot, for the same reason.
- DueCalendar.StepRefines: shifts with such callbacks are not steps of the calendar.
- DueCalendar.RunRefines: nor are they steps of the runs compared.
- WheelTheorems.RemovedNeverFires: nor here; an item removed while no linked item of its slot stands before it fires all the same (`FiresWhen`).
- DrainHeap.Drain: for callbacks that only remove, and items of the slot; an item that is removed and added again while the loop is on its way to it takes the loop with it into another bucket, which is not modelled.
- WheelTheorems.SelfAddSurvives: for that reason the other callbacks must respect the drain; one that removes a waiting item and adds it elsewhere can keep the callback of the item in question from running, or, with an add at sa - 1, can damage the links of another bucket.
- ExpIndexedList.ExpIndexedList.constructor: asks for nb of at least 1; a list with only the overflow bucket is covered on values (`TimingWheel`), not on the heap, where the bucket's array has length zero.
- WheelTheorems.WheelIsPlainMap: holds on runs of exact adds only, because the code fires other items early (`EarlyExample`).
- CiList.CiList.Prepend: the mutexes are not in the heap model, which is of one thread at a time; `WaitOutProtocol` has the interleavings, on sequences.
- WaitOut.Timeout: other threads do not push an event that the pass has deleted, nor one in the short time in which its link is cleared; `WaitOutProtocol` has the latter.
- WaitOutProtocol.NoLostWakeUp: an event put on wait_out_list is taken not to be on del_list; `EvLoopTwice.TwiceWhen` has when that fails.
- EvLoopRuns.RunMeans: callers name events that exist and do not touch the wait-out timer, names of deleted events are not used again, and epoll names each event at most once and only those it was given; the wait-out timer has input and nothing else.
- EvLoopRuns.UnknownWhen: the wait-out timer is taken to get a descriptor above 2 and to be accepted by epoll; `make_timer_fd` may return -1, and then the timer counts but never fires.
- EvLoopHistory.AbortedWhen: nor is such a timer among the events deleted.
- EvLoop.EvLoop.RunLoop: what `work` and `on_rdy` do on installation is a later step of the run; events are named by numbers and the lists are sequences, so that the links inside events (`CiList`) and aliasing are not captured; what the program does after following a pointer to a deleted event, explicit use of rem_event_obj outside the destructor, and a loop whose epoll descriptor could not be made, are left out.
- TlsResults.FailureIsFinal: SSL_read may be called again after a refused certificate, as in the code.
- TlsTheorems.RunKeeps: the connection is installed from the start, so that `del` takes effect at once.
- DnsDecode.ReplyDecodes: asks for labels of at most 255 bytes (RFC 1035 allows 63) and for records named by a pointer to the question; for addresses under other names `DnsTable.ClosesWhen` says what happens, and for other names the reader is modelled as it is, re-reading after the first length byte.
- Dns.Dns.Query: the request buffer is unbounded; callbacks do not call back into the client; a configuration file that cannot be opened aborts the program in the source.
- DnsName.ReadCName: Hpipe is not part of this model; a read past the end of a message is taken to give 0 and to stay at the end.
- TcpConnection.TcpConnection.AddSendItem: messages are byte sequences; who owns and frees a buffer is not modelled.
- Widths: ticks, sizes and counts are unbounded integers; wrap-around of size_t is not modelled, nor is the floating-point conversion of delays to indices.
- TLS: nothing is said about OpenSSL or the peer ever answering; no certificate contents, no TLS timeouts on the wheel; OpenSSL and its error queue are the script.
- TcpConnection::send writes directly and drops data on EAGAIN: there is nothing to conserve.
- UdpConnectionDTLS and UdpConnectionFactory: the count of live connections would only repeat the accounting shown for the event loop.
- Listeners, signals, timers' descriptors, post functions, logging, address formatting and hashing: plumbing.
