# CloudMeeting: the meeting room, its queue, its wire

A Dafny model of the core of the CloudMeeting video conference: the server's meeting rooms
(acceptor threads, one accept thread, one room thread and five senders per room), the bounded
message queue between them, and the framing that client and server speak.

A server's room is `Room.Room`, a state machine. Each step is one critical section, one queue
operation or one system call of one thread, and any thread may move at any time, so a run
(`Room.Legal`, `Room.After`) is any interleaving. Theorems about rooms hold in every run.

| Module | Part of the system |
|---|---|
| `Wire`, `Framing`, `Causes`, `Reads`, `LongStreams`, `TcpSocket` | frames; the client's incremental parser, as a function of the stream and in its 4 MB array; why it drops what it drops; what depends on how the stream is read |
| `Wakeups`, `Clearing` | the queue of server and client as a monitor with one condition variable; what emptying it does |
| `NetMsg`, `Pool`, `Room` | messages, the critical sections under `Pool::lock`, and the room's threads |
| `Membership`, `Connections`, `SelectPass`, `Handles` | who is in a room; what becomes of each connection, and who closes a room; one select pass; whose sockets a room touches |
| `Roster`, `Ghosts`, `GhostRuns`, `Exactness` | what members see of each other: never too little, exactly right, and exactly on which schedules |
| `Fifo`, `Drain`, `Progress` | the two queues; shutdown and payload ownership; when threads wait |
| `Server`, `Directory`, `Composition` | all rooms and acceptors together; from a number to its meeting; each room of a server as a room by itself |
| `NetIo`, `FrameReader`, `FrameWriter` | whole reads and writes; reading and writing frames on the server |
| `Relay`, `Delivery`, `EndToEnd` | what a room reads and writes; how often each payload goes to whom; from one member's bytes to another's frames |
| `Order`, `Overrun`, `MediaRuns` | in which order media arrives; what overlong and negative lengths do |
| `Handshake` | creating and joining a meeting |
| `SharedPool`, `SendQueue`, `Partners` | the objects that are updated in place, method by method, against the functions above |

What the environment decides is a parameter or a choice of the run: what the network delivers and
in which pieces, which sockets select reports, which thread runs or is woken, the address behind a
connection, the random room numbers. Connections are fresh positive numbers. A write of a whole
frame is one step with respect to other writers of the same socket, and succeeds unless the server
has closed the socket (the code only logs a write that fails). Where a variable is read that
nothing was read into, its value is a parameter called `stale`; `int tail` in the room thread is
taken to be the byte read.

Some plausible properties are false of the code. They are stated with the exact condition, or with
a run that shows the failure:

- Reads may not be cut anywhere: an oversize header drops the whole buffer, so what survives depends
  on how much had arrived. `Framing.ChunkIndependence` gives the exact condition for the events (every
  frame, every skipped byte, every flush with what it dropped) and the residue,
  `Framing.ShortStreams` for the frames and the residue of a stream that fits the buffer, and
  `Framing.HeaderAndByte` a stream that fails. A longer stream may hide the difference
  (`LongStreams.EarlyFlushUnseen`). These compare with the parse of the whole stream at once;
  `Reads.ReadsAgree` says exactly when any two ways of reading agree with each other.
- The queue loses wakeups when it is too small. `Wakeups.LostWakeupExact` gives the exact capacity.
- Emptying the queue notifies nobody. `Clearing.ClearExact` says exactly when that is harmless, and
  `Clearing.ClearStrands` shows a run in which it is not.
- A member may show somebody who has left. `Exactness.GhostsExact`: never, at rest, if and only if one
  sender runs and no member is evicted in the middle of a join; `GhostRuns.EvictionInsideJoin` and
  `GhostRuns.OvertakingSenders` are the runs.
- A guest may be admitted before the creator, because a room is published before the creator is
  handed over, and the two may then never hear of each other. `Exactness.OmissionsExact`: everybody
  shows everybody, at rest, if and only if nobody is admitted before the creator;
  `GhostRuns.EarlyGuestIsMissed` is the run.
- Media does not arrive in the order in which it was read. `Order.OrderExact`: it does if and only if
  at most one sender runs; `MediaRuns.TextsSwapped` shows two texts that change places.
- A header may announce a negative length. `Relay.FramedExact` says when a sender writes a frame,
  `EndToEnd.ParsedExactly` when a client finds what was written to it, `EndToEnd.LostFrom` what it finds
  otherwise, and `MediaRuns.NegativeReachesOthers` shows a run in which twelve bytes from one member make
  another's client drop what it holds.
- A header may announce more than a sender's buffer holds, and the server does not look.
  `Overrun.NeverOverrunsExact` says exactly when no sender copies past its buffer, and
  `Overrun.AnyLengthIsHeld` shows a run for every length.
- A client's media request is not a frame, because its payload is not written.
  `Handshake.LengthOnlyFrame` says when a request is one.

## Model

| member | source | states |
|---|---|---|
| Wire.Be32Written | CloudMeeting-master/mytcpsocket.cpp:13-20 | reading a big-endian number gives what was written, wherever in a buffer it stands |
| Wire.Be32Read | CloudMeeting-master/mytcpsocket.cpp:13-20 | writing the number that was read restores the four bytes, so no two byte patterns share a number |
| Wire.EncodeLayout | CloudMeeting_Server-master/userdeal.cpp:213-231 | an encoded frame at the front of any buffer shows its type, address, size, payload and tail where the parser looks for them |
| Wire.FrameAtEncodes | CloudMeeting-master/mytcpsocket.cpp:244-276 | a buffer front that passes the parser's checks is the encoding of the frame taken from it |
| Framing.ParseConserves | CloudMeeting-master/mytcpsocket.cpp:234-271 | the frame loop loses and invents nothing: skipped bytes, frames, flushed bytes and residue spell the buffer |
| Framing.ParseLeavesRoom | CloudMeeting-master/mytcpsocket.cpp:234-263 | the loop stops only when it needs more bytes, and then the buffer has room for at least one |
| Framing.ReceiveAllConserves | CloudMeeting-master/mytcpsocket.cpp:219-271 | for every stream and chunking, delivered frames are disjoint stretches of the stream, in order, each from its '$' to the '#' its header points at; the residue is the stream's end |
| Framing.FlushIsLast | CloudMeeting-master/mytcpsocket.cpp:252-258 | an oversize header ends the call at once and leaves the buffer empty |
| Framing.ParseExtends | CloudMeeting-master/mytcpsocket.cpp:234-271 | what later bytes add to a parse: it goes on from the residue, except that a flush swallows them |
| Framing.ChunkIndependence | CloudMeeting-master/mytcpsocket.cpp:219-271 | every way of cutting a stream into reads that fit the buffer gives the events (frames, skipped bytes, flushes and what they drop) and the residue of the whole stream if and only if no oversize header is met before the stream's last byte |
| Framing.ShortStreams | CloudMeeting-master/mytcpsocket.cpp:219-271 | for a stream no longer than the buffer, the same condition is exact for the delivered frames and the residue alone |
| Framing.HeaderAndByte | CloudMeeting-master/mytcpsocket.cpp:252-258 | a concrete stream that fails: an oversize header and one byte, which two reads keep and one read drops |
| LongStreams.EarlyFlushUnseen | CloudMeeting-master/mytcpsocket.cpp:219-271 | for longer streams it is not: a family of streams with an early oversize header whose frames and residue are the same for every way of reading them into the buffer |
| Reads.ReadsAgree | CloudMeeting-master/mytcpsocket.cpp:219-258 | any two ways of reading a stream into the buffer give the same events and residue if and only if each early flush finds the buffer full, so that no read can reach past it |
| Framing.FlushedSooner | CloudMeeting-master/mytcpsocket.cpp:252-258 | where the whole stream is flushed early, byte-by-byte reads flush the same buffer front but fewer bytes |
| Framing.LateByteSurvives | CloudMeeting-master/mytcpsocket.cpp:252-258 | after an early oversize header, a last byte read by itself survives where the whole parse leaves nothing; these two reads fit exactly when the first is no longer than the buffer |
| Framing.FramesParseBack | CloudMeeting-master/mytcpsocket.cpp:234-276 | frames with any bytes inside are found again in order, whatever follows them |
| Framing.GarbageIsSkipped | CloudMeeting-master/mytcpsocket.cpp:237-242 | bytes without '$' in front of a frame are dropped one by one and nothing else changes |
| Causes.EverythingHasACause | CloudMeeting-master/mytcpsocket.cpp:234-271 | for every way of reading: a byte is skipped only where no '$' or a frame with a wrong tail stands, the buffer is flushed only where a header announces more than 4 MB - 12, and a frame is delivered only where its encoding stands |
| Framing.EncodeParseRoundTrip | CloudMeeting-master/mytcpsocket.cpp:219-276 | garbage without '$', then any frames up to the largest size, in any chunks: exactly the frames come out and the buffer is empty |
| Framing.FramesRoundTrip | CloudMeeting-master/mytcpsocket.cpp:219-276 | the same for any number of frames, none included |
| Framing.PrefixParsed | CloudMeeting-master/mytcpsocket.cpp:219-276 | when only a part of a stream of frames has arrived, in any chunks, the first of the frames have come out |
| Framing.FlushComes | CloudMeeting-master/mytcpsocket.cpp:252-258 | in any chunks, the frames in front of an oversize header come out, and then the buffer is flushed from that header on |
| TcpSocket.MyTcpSocket.RecvFromSocket | CloudMeeting-master/mytcpsocket.cpp:212-518 | one read event on the array, capped by the free room, does to log and buffer what the whole-buffer parse of residue and new bytes does, and never fills the buffer |
| TcpSocket.MyTcpSocket.Turn | CloudMeeting-master/mytcpsocket.cpp:234-271 | one turn of the loop takes the decision of the specification, and a turn that goes on makes the buffer shorter |
| TcpSocket.MyTcpSocket.Shift | CloudMeeting-master/mytcpsocket.cpp:514-516 | moving down keeps exactly the unconsumed bytes |
| TcpSocket.MyTcpSocket.Session | CloudMeeting-master/mytcpsocket.cpp:212-271 | the reads of a whole session fit, log and buffer spell the bytes taken, and equal a single parse of them unless that parse would flush early |
| TcpSocket.DrainTurn | CloudMeeting-master/mytcpsocket.cpp:234-271 | a turn of the loop does not change what the loop will have done at its end |
| TcpSocket.MyTcpSocket.ReadBe32 | CloudMeeting-master/mytcpsocket.cpp:13-16 | the number at an offset of the buffer, as the format defines it |
| Wakeups.BalancedStep | CloudMeeting_Server-master/msg.h:48-96 | each push, pop, wait, notification and spurious wakeup keeps the account of sleepers against owed notifications |
| Wakeups.NoLostWakeup | CloudMeeting_Server-master/msg.h:48-83 | with capacity at least P + C - 1: never a producer and a consumer asleep together; if all of one side sleep beside work for them, at least that many notifications are owed |
| Wakeups.TooSmallLoses | CloudMeeting_Server-master/msg.h:48-83 | with any smaller capacity there is a run that ends with work, a sleeping side and no notification owed |
| Wakeups.LostWakeupExact | CloudMeeting_Server-master/msg.h:48-83 | no run loses a wakeup if and only if the capacity is at least P + C - 1 |
| Wakeups.ServerQueueKeepsWakeups | CloudMeeting_Server-master/msg.h:15-17 | two producers, five senders and 10000 slots never lose a wakeup |
| Wakeups.ClientQueueKeepsWakeups | CloudMeeting-master/netheader.h:84-113 | the client's queues, which hold 1501 items, never do with up to 1502 threads |
| Clearing.ClearExact | CloudMeeting_Server-master/msg.h:98-107 | after a clear no run puts both sides to sleep, and none loses a wakeup, if and only if no producer slept at the clear, or one did and every consumer was about to notify |
| Clearing.ClearStrands | CloudMeeting_Server-master/msg.h:98-107 | a run in which the clear leaves a producer asleep at an empty queue with every consumer asleep too and no notification owed |
| Clearing.StrandedIsStuck | CloudMeeting_Server-master/msg.h:48-107 | from there only another push, a spurious wakeup or the shutdown leads on |
| NetMsg.IpsRoundTrip | CloudMeeting-master/mytcpsocket.cpp:349-380 | an address list of any length decodes to itself |
| Pool.WithoutIsErase | CloudMeeting_Server-master/room.cpp:214-216 | erasing the first occurrence removes exactly that member from a list without repetition |
| Pool.SelectIsFilter | CloudMeeting_Server-master/room.cpp:385-415 | the target loops choose exactly the members that are, or are not, the named one, each once |
| Pool.IpsOfMembers | CloudMeeting_Server-master/room.cpp:298-308 | the addresses of a list of members are all of theirs and nobody else's |
| Membership.InvStep | CloudMeeting_Server-master/room.cpp:13-323 | every step of every thread keeps the membership invariant |
| Membership.OpenRoomAlways | CloudMeeting_Server-master/room.cpp:203-282 | in every reachable open room: members once each, `num` their number, address map exactly theirs with their peers' addresses, select set a subset and all of them while membership never exceeded 1024, owner a member |
| Membership.CloseIsFinal | CloudMeeting_Server-master/msg.h:141-155 | once the room is closed no step of any thread opens it or admits anybody, in every continuation |
| Connections.ClosingDisconnects | CloudMeeting_Server-master/msg.h:145-148 | when a room is closed every connection ever admitted is closed, and whoever is taken out of the line after that is turned away and closed |
| Connections.NobodyLeftHanging | CloudMeeting_Server-master/room.cpp:229-282 | in every run each connection handed over waits in line, is in the accept thread's hand, is a member of the open room, or is closed |
| Connections.OnlyTheLostAreClosed | CloudMeeting_Server-master/room.cpp:193-282 | while a room stays open only the connection that the room thread gives up is closed, and a joiner that was taken is admitted |
| Connections.CreatorCloses | CloudMeeting_Server-master/room.cpp:193-200 | in every run, giving up a connection closes the room exactly if it is the creator's, and nothing else closes it |
| Connections.RecordIsTheRuns | CloudMeeting_Server-master/room.cpp:229-282 | what the other theorems say of a run's past (who was admitted, who came before the creator, how many there were) is what the run's steps say |
| SelectPass.CountingStep | CloudMeeting_Server-master/room.cpp:57-164 | every step keeps the tally: ready sockets still ahead are what the countdown counts, ready sockets behind are the ones handled |
| SelectPass.PassHandlesAllReady | CloudMeeting_Server-master/room.cpp:33-164 | in every run, between two passes, however the last one ended, the sockets read since the last select are exactly those it reported, each read once, although members are evicted or the room cleared meanwhile; and during a pass some of them |
| SelectPass.EverybodyIsAsked | CloudMeeting_Server-master/room.cpp:33-49 | in every run, while membership never exceeded 1024, select is asked about every member of an open room and may report any of them |
| SelectPass.VisitReady | CloudMeeting_Server-master/room.cpp:57-164 | the undisturbed loop with its early break handles the ready members in snapshot order and all of them |
| Handles.OwnStep | CloudMeeting_Server-master/room.cpp:229-424 | each step keeps every socket in a room's queue, targets, list and inboxes among those admitted to it |
| Handles.OwnAlways | CloudMeeting_Server-master/room.cpp:229-424 | so in every run a room names only sockets admitted to it, and all of those were handed to it |
| Roster.CoveredStep | CloudMeeting_Server-master/room.cpp:193-424 | every step keeps a member covered: shown already, or a message that tells is on its way |
| Roster.ListTells | CloudMeeting_Server-master/room.cpp:298-319 | the newcomer's list decodes to a list that names every other member of its moment |
| Roster.NobodyIsMissing | CloudMeeting_Server-master/room.cpp:203-424 | in every run with five senders in any order: at rest every member shows every other, save creator and those admitted before the creator |
| Roster.EverybodyShowsEverybody | CloudMeeting-master/widget.cpp:1014-1071 | with the creator handed over first, at rest everybody shows everybody |
| Ghosts.NoGhostStep | CloudMeeting_Server-master/room.cpp:193-424 | on the calm schedule every step keeps this: what is shown after everything on its way is applied names only members, and one whose exit is about to be queued |
| Ghosts.NobodyLeftOut | CloudMeeting_Server-master/room.cpp:193-424 | and it names every member |
| Ghosts.ListHonest | CloudMeeting_Server-master/room.cpp:298-319 | the newcomer's list names nobody but other members |
| Ghosts.RosterExact | CloudMeeting_Server-master/room.cpp:193-323 | one sender, joins in one piece: applying what is on its way to a member gives exactly the other members' addresses |
| Ghosts.RosterAtRest | CloudMeeting-master/widget.cpp:1115-1167 | at rest the partner set is exactly the other members' addresses |
| Exactness.GhostsExact | CloudMeeting_Server-master/room.cpp:193-424 | over all creators and runs of the first k senders, at rest and with unique addresses: nobody shows somebody who has left, and everybody shows exactly the others, if and only if k is 1 and no eviction falls inside a join |
| Exactness.OmissionsExact | CloudMeeting_Server-master/userdeal.cpp:98-117 | on any schedule, over all runs with at most n members admitted before the creator, at rest and with unique addresses: everybody shows everybody else if and only if n is 0 |
| GhostRuns.EvictionInsideJoin | CloudMeeting_Server-master/room.cpp:271-319 | with any number of senders, one included, and unique addresses, an eviction between admission and announcement can leave a ghost |
| GhostRuns.OvertakingSenders | CloudMeeting_Server-master/room.cpp:325-424 | with two senders or more and unique addresses, joins in one piece or not, a sender can overtake another and leave a ghost |
| GhostRuns.EarlyGuestIsMissed | CloudMeeting_Server-master/userdeal.cpp:98-117 | a guest handed over before the creator, when both wait in line, can settle before the creator is admitted; then the two, with different addresses and nobody else early, never show each other on any schedule |
| Fifo.QueueIsFifo | CloudMeeting_Server-master/msg.h:48-107 | in every run, shutdown included, what threads hold where they push, since the last clear and in order, is what senders took since then, in order, followed by the queue |
| Fifo.LineIsFifo | CloudMeeting_Server-master/room.cpp:229-242 | in every run the connections handed over, in order, are those the accept thread has taken, in order, followed by those that wait |
| Fifo.FreedByItsOwner | CloudMeeting_Server-master/room.cpp:95-110 | while a room is open a payload is freed only by the sender that has passed it on or by the reader of a bad frame |
| Fifo.NothingIsLost | CloudMeeting_Server-master/msg.h:48-83 | so in an open room each payload is with one thread or queued until then |
| Progress.AcceptWaits | CloudMeeting_Server-master/room.cpp:231-323 | the accept thread waits exactly for a connection or for room in the queue |
| Progress.RoomWaits | CloudMeeting_Server-master/room.cpp:28-182 | the room thread waits exactly for room in the queue and, once the room is closed, for the other threads to end |
| Progress.SenderWaits | CloudMeeting_Server-master/msg.h:65-83 | a sender waits exactly for a message |
| Progress.NoDeadlock | CloudMeeting_Server-master/room.cpp:167-182 | in every run, until the room thread returns, some thread of the room can take a step |
| Drain.DrainingStep | CloudMeeting_Server-master/room.cpp:167-182 | every step keeps the shape of the queue: real messages, then one pill for each live sender |
| Drain.CleanDrain | CloudMeeting_Server-master/room.cpp:167-182 | after shutdown nothing is pushed, pills are taken only when no real message is left, no sender finds the queue empty, and when the room thread returns queue and senders are gone |
| Drain.LedgerStep | CloudMeeting_Server-master/room.cpp:90-115 | every step moves each payload from one holder to one holder or frees it |
| Drain.PayloadsConserved | CloudMeeting_Server-master/room.cpp:426-430 | in every run each allocated payload is in exactly one place, none is freed twice, and at the end all are freed |
| Drain.FreeQueueFrees | CloudMeeting_Server-master/msg.h:98-107 | `clear` frees each queued payload as often as it was queued |
| Server.OnePlaceStep | CloudMeeting_Server-master/userdeal.cpp:98-195 | every action of acceptors and rooms keeps connections in one place and rooms apart |
| Server.ConnectionInOnePlace | CloudMeeting_Server-master/userdeal.cpp:101-195 | with any number of rooms and acceptors, a connection is at most once in acceptors' hands, waiting lines, accept threads' hands and member lists |
| Server.RoomsAreIsolated | CloudMeeting_Server-master/room.cpp:385-424 | what a room's sender is about to write goes to a socket admitted to that room and known to no other room or acceptor |
| Directory.HandedToTheRightRoom | CloudMeeting_Server-master/userdeal.cpp:98-195 | in every history a connection that is handed over goes to one room, made under the number its acceptor last asked for or created |
| Directory.LookUpFinds | CloudMeeting_Server-master/userdeal.cpp:141-149 | where no number was given twice, a look-up finds the r-th room made exactly if that room has this number and has not been erased, and changes nothing if there is none |
| Directory.CheckExact | CloudMeeting_Server-master/userdeal.cpp:165-179 | a joiner passes the check exactly if the room is open and has fewer than 1024 members at that moment |
| Directory.BranchIsTheServers | CloudMeeting_Server-master/userdeal.cpp:141-195 | the branch of the request loop is the one the threads take on the table and the rooms of that moment |
| Directory.NoConnectionIsLost | CloudMeeting_Server-master/userdeal.cpp:50-117 | in every history each accepted connection is with an acceptor, was handed to a room, or was hung up on |
| Composition.EveryRoomIsARun | CloudMeeting_Server-master/userdeal.cpp:98-117 | in every history each room is in a state that a room of its number reaches by itself through the steps meant for it, so the theorems about all runs of one room hold of it |
| Composition.AddressesAreRight | CloudMeeting_Server-master/room.cpp:254-281 | in every history the address a room has for a connection is the one it came from |
| NetIo.Socket.Readn | CloudMeeting_Server-master/net.cpp:32-59 | for every schedule of partial reads and interruptions: the next n bytes, or all before the end, or an error, as the stream alone decides |
| NetIo.Socket.Writen | CloudMeeting_Server-master/net.cpp:61-84 | the buffer goes out once and in order; it fails exactly when the socket fails before the last byte, and then a proper prefix went out |
| NetIo.Taken | CloudMeeting_Server-master/net.cpp:32-59 | gathered bytes and remaining stream determine the result of the read |
| FrameReader.ServeSocket | CloudMeeting_Server-master/room.cpp:62-160 | reading a frame from a socket gives what the stream alone says, whatever the fragmentation, for good, short and bad frames and bad payloads |
| FrameReader.MediaIsRead | CloudMeeting_Server-master/room.cpp:85-116 | a well-formed media frame of any length a C int holds is read whole, its type raised by one, and the stream goes on behind it |
| FrameReader.CameraIsRead | CloudMeeting_Server-master/room.cpp:118-127 | so is a camera frame |
| FrameReader.AllMediaRead | CloudMeeting_Server-master/room.cpp:62-116 | a stream of media frames is read frame by frame to its end |
| FrameReader.GoodOnlyIf | CloudMeeting_Server-master/room.cpp:62-160 | the converse: media are taken and a camera is closed only for a stream that begins with such a frame (or ends in front of a tail that the variable happened to hold), and a header is reported short exactly when the stream ends inside it |
| FrameWriter.SenderFrame | CloudMeeting_Server-master/room.cpp:344-376 | a sender writes a full header exactly for the types a room queues; any other would be four bytes short |
| FrameWriter.SendBuffer.Encode | CloudMeeting_Server-master/room.cpp:327-376 | the bytes written by cursor into the array are those of the format, exactly when they fit its 4 MB; otherwise the copy runs past its end |
| Overrun.OverrunExact | CloudMeeting_Server-master/room.cpp:363-376 | in every run a sender overruns its buffer exactly when it holds media longer than 4 MB - 12 or a list of as many addresses, and then a header announced that length or the room has had that many members |
| Overrun.AnyLengthIsHeld | CloudMeeting_Server-master/room.cpp:79-116 | for every length a C int holds there is a run in which a sender holds a text of that length |
| Overrun.NeverOverrunsExact | CloudMeeting_Server-master/room.cpp:325-376 | in all runs with fewer members than a list has room for, no sender overruns its buffer if and only if no header announces more than 4 MB - 12 |
| Relay.FramedExact | CloudMeeting_Server-master/room.cpp:344-376 | of the messages a room queues, exactly those whose length is not negative are written as their frames |
| Relay.NegativeIsOversize | CloudMeeting_Server-master/room.cpp:363-376 | a message with a negative length is written as twelve bytes that make a client drop its buffer, whatever follows |
| Relay.SendersWriteFrames | CloudMeeting_Server-master/room.cpp:344-376 | in every run both hold of every message a sender holds |
| Relay.ReadIsFollowed | CloudMeeting_Server-master/room.cpp:62-164 | whatever the stream of a ready socket holds, the room's state machine can take the steps for it: a good media or camera frame is passed on naming its member, a bad header evicts, a bad payload is allocated, freed once and evicts, a short header is skipped |
| Relay.MediaIsSigned | CloudMeeting_Server-master/room.cpp:85-94 | in every run a media message names the member it came from and carries the address recorded for it |
| Relay.OnceToEachMember | CloudMeeting_Server-master/room.cpp:385-424 | in every run, between finding targets and letting go a sender writes to each member the message is for exactly once, and to nobody else, whatever the other threads do |
| Delivery.WrittenOnce | CloudMeeting_Server-master/room.cpp:385-430 | in every run of five senders, each payload finds targets at most once and is written to each connection at most once: to none but those meant at that moment, and to each of them once the sender has let go of it; a broadcast is never meant for the member it names |
| Delivery.OutputCounted | CloudMeeting_Server-master/room.cpp:418-424 | what went out on an open connection is what was counted, and each message went out as it was made |
| Delivery.InboxIsOutput | CloudMeeting_Server-master/room.cpp:418-424 | what a client has read and has still to read is what was written to it, in the order of the writes |
| EndToEnd.ReadSoFarRun | CloudMeeting_Server-master/room.cpp:62-116 | a run that reads a member's stream of media frames takes those frames from it, whole and in order |
| EndToEnd.OutputIsParsed | CloudMeeting-master/mytcpsocket.cpp:219-276 | in every run, of the bytes senders wrote to a member, payloads up to 4 MB - 12 and no negative length, what has arrived is, in any chunks, parsed to the first frames of the messages written, in the order of the writes; to all of them once all has arrived |
| EndToEnd.ParsedExactly | CloudMeeting-master/mytcpsocket.cpp:219-276 | in any chunks, a client finds exactly the frames of what was written to it if and only if no message has a negative length |
| EndToEnd.LostFrom | CloudMeeting-master/mytcpsocket.cpp:252-258 | otherwise, in any chunks and whatever follows, the frames before the first such message come out, and then the buffer is flushed from that message on |
| EndToEnd.CutDecides | CloudMeeting-master/mytcpsocket.cpp:252-258 | a frame right behind such a message comes out if it is read by itself, and is lost if it is read together with it |
| EndToEnd.RelayEndToEnd | CloudMeeting_Server-master/room.cpp:62-116 | in every run: media frames on a member's socket, in any fragmentation, become messages in order with type + 1, the recorded address and the same payload; each is written to another connection exactly once if a sender has dealt with it and that connection was a member when it found the targets, else at most once or never, and never to its own member |
| Order.OrderExact | CloudMeeting_Server-master/room.cpp:325-424 | in all runs of a room in which only the first k senders take part, every member is written media in the order in which the room read it, if and only if k is at most 1 |
| MediaRuns.TextsSwapped | CloudMeeting_Server-master/room.cpp:325-424 | a run of two senders in which two different texts of one member reach another in the wrong order |
| MediaRuns.NegativeIsAccepted | CloudMeeting_Server-master/room.cpp:79-116 | twelve bytes that announce a length of -1 are accepted as a text without payload |
| MediaRuns.NegativeReachesOthers | CloudMeeting_Server-master/room.cpp:79-116 | a run in which such a text comes next on another member's socket, whose client, however it reads on, first drops its buffer from there |
| Handshake.PrepareRequest | CloudMeeting-master/mytcpsocket.cpp:90-124 | the client's send buffer holds the request as the format function gives it |
| Handshake.LengthOnlyFrame | CloudMeeting-master/mytcpsocket.cpp:103-124 | a request that writes a length and no payload is a frame if and only if the payload is empty |
| Handshake.JoinFrame | CloudMeeting-master/mytcpsocket.cpp:109-117 | a join request is the frame of the room number |
| Handshake.ServeRequest | CloudMeeting_Server-master/userdeal.cpp:55-139 | reading a request from a socket gives what the stream alone and the uninitialised locals say, including short, failed and wrongly sized join bodies, until the server leaves its local variables |
| Handshake.CreateIsRead | CloudMeeting_Server-master/userdeal.cpp:87-96 | the client's create request is read as one |
| Handshake.JoinIsRead | CloudMeeting_Server-master/userdeal.cpp:124-139 | the client's join request is read as one for the same room number |
| Handshake.GenerateRoomId | CloudMeeting_Server-master/userdeal.cpp:15-25 | the number drawn is in range and not in use; without one, all draws were in use |
| Handshake.WriteToFd | CloudMeeting_Server-master/userdeal.cpp:213-236 | a reply reaches the socket as one whole frame with address 0 exactly when the socket lasts that long |
| Handshake.DoWithUser | CloudMeeting_Server-master/userdeal.cpp:50-211 | the conversation ends, answers and leaves the stream as the stream and, of each turn, the room table and the uninitialised locals decide, whatever the fragmentation |
| Handshake.EveryTryIsAnswered | CloudMeeting_Server-master/userdeal.cpp:124-204 | a client that tries rooms in turn, while the room table changes, is answered for each by the branch the server took for it, until one lets it in; the rest of the stream is left to that room |
| Handshake.CreateMakesARoom | CloudMeeting_Server-master/userdeal.cpp:87-117 | a client that creates a meeting, at once or after any rooms that did not let it in, has its tries answered and gets a new room, which is left the rest of the stream |
| Handshake.NoiseIsPassedOver | CloudMeeting_Server-master/userdeal.cpp:58-72 | eleven bytes that are no request are passed over; at the end of the stream the connection is closed |
| Handshake.RequestOnlyIf | CloudMeeting_Server-master/userdeal.cpp:58-139 | the converse of reading requests: one is taken only if the stream begins with it, and the server hangs up only when there is nothing to read |
| Handshake.JoinHandshake | CloudMeeting-master/widget.cpp:937-976 | any join request arrives as that number, and the reply, in any chunks and among any other frames, makes the client show not found, full or joined exactly when the server took that branch |
| Handshake.ListHandshake | CloudMeeting-master/widget.cpp:1047-1071 | a newcomer decodes the list made for it, of any length that fits a frame |
| Handshake.CreateHandshake | CloudMeeting_Server-master/room.cpp:260-264 | the creator becomes the owner, and its reply goes to it alone and carries the number of its room |
| SharedPool.PoolObject.AdmitCreator | CloudMeeting_Server-master/room.cpp:250-258 | the new state of the shared object is the state machine's |
| SharedPool.PoolObject.AdmitJoiner | CloudMeeting_Server-master/room.cpp:270-282 | the same, with the refusal of a closed room |
| SharedPool.PoolObject.Find | CloudMeeting_Server-master/room.cpp:214-216 | the first position of the socket, or the end when it is not there |
| SharedPool.PoolObject.FdClose | CloudMeeting_Server-master/room.cpp:193-227 | the owner's exit closes every member and empties the room; another's erases exactly that member, closes it and gives its address |
| SharedPool.PoolObject.ClearRoom | CloudMeeting_Server-master/msg.h:141-153 | every member's socket is closed in order and all fields are reset |
| SharedPool.PoolObject.FindTargetsOf | CloudMeeting_Server-master/room.cpp:385-416 | the loops compute the targets of the state machine |
| SharedPool.PoolObject.TakeList | CloudMeeting_Server-master/room.cpp:298-308 | the loop computes the newcomer's list, and inserts 0 for an unknown address as `operator[]` does |
| SendQueue.SendQueue.PushMsg | CloudMeeting_Server-master/msg.h:48-63 | waits when full, drops and frees after shutdown, else appends; nothing else changes |
| SendQueue.SendQueue.PopMsg | CloudMeeting_Server-master/msg.h:65-83 | waits when empty, a pill when empty after shutdown, else the oldest message |
| SendQueue.SendQueue.Shutdown | CloudMeeting_Server-master/msg.h:85-96 | five pills behind what is queued |
| SendQueue.SendQueue.Clear | CloudMeeting_Server-master/msg.h:98-107 | empties the queue and frees its payloads once each |
| Partners.FrameActsAsMessage | CloudMeeting-master/widget.cpp:1014-1071 | the frame of a message does to a partner set what the state machine says the message does |
| Partners.Widget.AddPartner | CloudMeeting-master/widget.cpp:1115-1144 | adds the address, and says whether it was new |
| Partners.Widget.RemovePartner | CloudMeeting-master/widget.cpp:1146-1167 | removes exactly that address |
| Partners.Widget.DataSolve | CloudMeeting-master/widget.cpp:977-1071 | the dispatch of a frame changes the partner set as specified; a list with a broken length changes nothing |

## Left out

- Threads' endless loops: they are the labels of `Room.Step` and `Server.Do`, not `while` loops; what a thread holds between two critical sections is its program counter's argument.
- Liveness: nothing is proved about a step eventually being taken.
- The user interface, camera, audio devices, and the compression, base64 and image codecs: payloads are bytes, and whether an image can be decoded is a choice of the run.
- Socket creation, listening, accepting, the inside of select, and `getpeername`.
- The client's own entry in its partner set, which it adds when its meeting is created or joined, and clearing the set at disconnection: partner sets here hold the others.
- The client's sending loop and its `readn`, which repeat the server's `writen` and `Readn`.
- Media from client to server as the client writes it: it is not a frame (`Handshake.LengthOnlyFrame`). The relay starts from well-formed frames on the member's socket.
- Handshake.ServeRequest: once a join request makes the server read or write beyond its 15-byte buffer or its four-byte room number, or a body of more than four bytes fails with a socket error, the modelled conversation ends.
- FrameWriter.SendBuffer.Encode: nothing is said of what a frame longer than the sender's 4 MB buffer does to the memory behind it (`Overrun` says when there is one); the theorems about what clients find speak of payloads up to 4 MB - 12.
- Framing.ChunkIndependence: for streams longer than the buffer the condition is exact for the event log; for the frames and the residue alone it is sufficient but not necessary (`LongStreams.EarlyFlushUnseen`).
- Failure of `malloc`, except for a negative length.
- A CREATE_MEETING_RESPONSE with fewer than four payload bytes, for which the client reads behind the frame: the parser's results are stated at frame level, and servers send four.
- Two writers' bytes interleaving on one socket, and the reuse of a closed socket's number.
- Two rooms with one number: a number is drawn and inserted under two separate locks. Rooms are told apart by their place in `Server.rooms`, so the theorems do not need distinct numbers.
- The limit of 1024 members: it is checked when a join request is answered, not at admission, so it is not an invariant. The select set is related to the members with and without it (`Membership.OpenRoomAlways`).
- `num` after the room has closed: evictions in the same pass still count it down.
- Wakeups.ServerQueueKeepsWakeups: the monitor covers pushes, pops and the shutdown; `clear` is not among its steps but has its own theorem, `Clearing.ClearExact`.
- The log queue, the text editor, chat layout and audio buffering.
