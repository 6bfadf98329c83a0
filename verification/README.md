# Verified model of the virtual network's packet paths

This project models, in Dafny, the parts of the repository that keep state and whose correctness
depends on whole runs: IPv4 reassembly, the backup-link failover protocol, connection tracking for
statistics, UDP source NAT, the Internet checksum, the forwarding database with its port numbers
and memberships, a ring of counted buffers, and the IPv4 header codec. `dafny verify
dfyconfig.toml` checks all of it.

Each component comes in two layers. One gives the values and the steps, with lemmas over every
input, every arrival order or every run. The other has classes whose methods change fields, maps
and arrays in place, as the Go code does, and whose contracts tie the new state to the old one
through the first layer.

| files | component |
|---|---|
| `Machine`, `Counting` | fixed-width integers and byte layout; pigeonhole arguments |
| `Checksum` | `src/nat/checksum.go` against the sum of RFC 1071 |
| `FragmentQueue`, `Reassembly`, `ArrivalOrders`, `FragmentTable`, `FragmentHeaders` | one queue; all arrival orders of one datagram; their packet buffers; interleaved datagrams; fragments in header bytes |
| `BackupLink`, `Failover`, `FailoverInvariant`, `FailoverRelease`, `FailoverActivation` | the slots; the protocol as a step system with program counters; what all interleavings keep; how a wait ends; that the failover takes place |
| `Conntrack` | flow keys and timers, shared by the two connection tables |
| `Netstat`, `NetstatHistory`, `NetstatTiming`, `NetstatTable`, `NetstatRace` | table and clock; what a state says about the past; idleness and deletion; the linked table; firing and callback as two steps |
| `TimerWheel`, `TimerRuns`, `TimerTable` | the timer wheel that both connection tables use; over whole runs; as an object |
| `NatEntry`, `NatTable`, `NatHistory`, `NatTiming`, `NatSearch`, `NatWitness`, `NatConnections` | translation of tuples; the two-key table; what an entry says about the past; when it is given up; the port search while timers fire; runs that reach corner cases; the linked table |
| `PacketHeaders`, `NatRewrite`, `NatChain`, `NatHandler` | headers in a buffer; translation of bytes; follow-on fragments; table and packet together |
| `TransportOffset`, `NatDispatch` | where the ports of a reassembled datagram are read; reassembly and translation from end to end |
| `PortPool`, `Fdb`, `FdbSwitching`, `FdbTable` | the free list in an array; ports, MAC entries and forwarding; the learning switch over runs; the linked FDB |
| `Membership`, `MembershipLists`, `Reconciliation` | joining and quitting one FDB; lists of ids; the client objects |
| `Masters`, `MastersLoop`, `MastersResult`, `MastersRuns`, `MasterUpdate` | the update of all masters as a loop over values; what it keeps; when it is right; runs of lists and updates; the loop over client objects |
| `RingBuffer`, `RingPool`, `RingRace` | the ring and its counts; many users, one atomic operation a step; a get that reads after unlocking |
| `HeaderCodec` | `Marshal` and `Parse` |

## What the results found

Some promises do not hold for all inputs. Each is kept as the code has it, with the exact
condition under which it holds.

- RFC 791 does not ask that the first piece arrive first. The queue does: it never inserts in
  front of its head, so a datagram completes if and only if piece 0 comes first
  (`ReassembledInEveryOrder`). No queue is ever removed, so a completed key refuses further
  fragments for ever (`CompletedKeyRefuses`).
- A fragment that arrives twice, as IP networks may deliver it, aborts the process if the queue
  still holds it, except for one case in which it is refused (`AbortsExactlyAtRepeat`).
- The ports of a reassembled datagram are read, and written, behind the header length of the
  fragment that arrived last, which is right for all datagrams if and only if the header lengths
  agree (`ReadsOwnIff`, `OptionsMisread`, `OwnPortsAfter`).
- A fragment whose end wraps at 65536 is accepted and breaks the order (`WrappedEndBreaksOrder`).
- `Checksum` is right for a longer buffer exactly when the sum fits 32 bits
  (`ChecksumRightIff`, `ChecksumRightIffNoOverflow`).
- When every reply port of an endpoint is taken, as 65536 flows from one host bring about, the port
  search goes round and round (`PortsRunOut`, `SearchWaits`) until the timer of some flow fires
  (`EndsOnceAnyPortIsFree`, `PortsComeBack`, `SearchEndsInTime`).
- In the reply direction `doNat` does not translate the destination of follow-on fragments
  (`FollowOnAddresses`). A total length past the end of the buffer aborts (`AbortsExactly`).
- A reply brings a translation entry that is being deleted back to life (`RevivedExactlyByReply`,
  `RevivalHappens`).
- A FIN or RST between the firing of the established timer and its callback leaves a connection
  in the table for ever, and nothing else does (`QuietExactlyByRace`, `RaceHappens`).
- `updateMasterFdb` does not empty its lists of ids between masters; a later one can join an FDB
  twice and then leaks a port (`KeepsPortsIff`, `TwoMastersIff`, `LeakHappens`). It also compares
  ids, not FDB objects, and can leave a master in an object that is no longer registered; with one
  update after every list it never does (`LiveIff`, `RoundsSettle`, `StaleHappens`).
- `quitAllFdb` leaves a nil map, into which a later join panics (`HandleFdbIds`).
- `RBGetBuf` reads its slot after unlocking, and two other gets are enough to overwrite it
  (`ReadsOwnBufferIff`, `TwoOvertakeFirst`, `ForeignBufferRead`).
- `Parse` keeps the receiver's old options when the header has none (`OldOptionsSurvive`,
  `MarshalUndoesParseIff`), and `Marshal` ignores `Version` and does not check `Len` against the
  options (`ParseUndoesMarshalIffInRange`).

## How time and interleaving are modelled

- The clock counts nanoseconds. In `Netstat` a timer fires at its deadline, a packet takes its
  handler one tick, and time does not pass the deadline of a running timer. Firing and callback
  are one step there, and two in `NetstatRace`.
- In `Failover` a step is one statement that touches shared state, with two exceptions: the two
  statements of `addBackup` that set the master and release the lock are one step, and so is the
  critical section of `Close`. The master link itself is never closed, as the source's log message
  at that branch says.
- The delays that `choseBackup` reads are arbitrary numbers, chosen anew at every read.
- In `RingPool` every atomic add, put and get is a step, and a get reads its slot before it
  releases the lock. In `RingRace` it reads it afterwards, as the source does.
- In `NetstatRace` time is that of the step, and never runs backwards.
- In `NatTable` a packet is handled as one step, but for the port search, during which timers may
  fire (`NatSearch`, `Open`).
- In `NatTable` packets take no time. So an entry whose last byte came in the very instant in which
  its timer was started is given up by the order of the two (`GivenUpExactlyIfNothingCounted`).
- `TimerWheel` counts ticks of 200 ms, without wrap-around. That every timer is run once, at its
  tick, is what the timers of `Netstat` and `NatTable` assume.
- A map is visited in any order: the order is a parameter of the step.

## Model

| member | source | states |
|---|---|---|
| `InternetChecksum.Checksum` | src/nat/checksum.go:11-32 | the loop returns the folded 32-bit sum for every buffer, and up to 131072 bytes the one's-complement sum of RFC 1071 |
| `InternetChecksum.ChecksumIsOnesSum` | src/nat/checksum.go:11-32 | up to 131072 bytes the accumulator cannot overflow, and the single fold is the one's-complement sum: the canonical residue modulo 65535, 0 only if all is 0 |
| `InternetChecksum.ChecksumRightIff` | src/nat/checksum.go:11-32 | for every buffer the result is right exactly when what the accumulator lost by wrapping is a multiple of 65535 times 2^32, and did not leave it at 0 |
| `InternetChecksum.ChecksumRightIffNoOverflow` | src/nat/checksum.go:11-32 | below 2^32 times 65535, exactly when the true sum fits in 32 bits |
| `InternetChecksum.ChecksumBoundIsTight` | src/nat/checksum.go:11-32 | one word more than 131072 bytes can make the result wrong |
| `InternetChecksum.CombineIsCanonical` | src/nat/checksum.go:29-32 | one fold is enough: for every `uint32` it is already the canonical residue |
| `InternetChecksum.ChainingIsConcatenation` | src/nat/checksum.go:59-63 | folding over pieces, all but the last of even length, is the one's-complement sum of their concatenation |
| `InternetChecksum.ChainingIsOneChecksum` | src/nat/checksum.go:59-63 | and equals one `Checksum` of the concatenation while that is within the bound |
| `InternetChecksum.ComplementVerifies` | src/nat/ipv4.go:160-167 | the complement of the sum, written into the zeroed field, makes the buffer sum to 0xFFFF |
| `InternetChecksum.ComplementUnique` | src/nat/ipv4.go:160-167 | no other field value passes, except that 0 and 0xFFFF are the same one's-complement number |
| `FragmentQueue.ProcessKeepsValid` | src/nat/fragment.go:62-118 | a call that does not abort keeps the list sorted and disjoint, `meat` the sum of lengths, `qLen` the end, and completeness a gap-free tiling; a rejected call changes nothing; an accepted one adds exactly its fragment |
| `FragmentQueue.DoneIffTiled` | src/nat/fragment.go:72-118 | completion is reported exactly when the last piece is in and the list tiles from 0 with no gap; never by the first fragment of a queue |
| `FragmentQueue.AcceptedInsertion` | src/nat/fragment.go:72-108 | every accepted path inserts between neighbours that leave room, and the end mark is the end of the list |
| `FragmentQueue.LastPieceOutcome` | src/nat/fragment.go:79-94 | a last piece aborts exactly when some fragment ends beyond its start, whatever the arrival order was |
| `FragmentQueue.MiddlePieceOutcome` | src/nat/fragment.go:96-117 | a middle piece is refused exactly when no fragment ends at or before its start, and else aborts exactly when it overlaps one |
| `FragmentQueue.WrappedEndBreaksOrder` | src/nat/fragment.go:58-60 | an accepted fragment keeps the queue valid exactly when `offset + len` fits 16 bits |
| `FragmentQueue.WrappedEndIsAccepted` | src/nat/fragment.go:58-118 | a concrete fragment with a wrapped end that is accepted |
| `FragmentQueue.FragQueue.ProcessFragment` | src/nat/fragment.go:62-118 | the method on the queue's own fields does what the specification of one call says |
| `FragmentQueue.FragQueue.FindPlace` | src/nat/fragment.go:96-99 | the backward scan finds the last fragment that ends at or before the offset |
| `FragmentQueue.FragQueue.Completed` | src/nat/fragment.go:120-138 | the buffers are chained by `next` in list order, and the head is returned |
| `ArrivalOrders.ReportsWithRepeats` | src/nat/fragment.go:62-118 | for every cut of a payload and every sequence of arrivals, each in a buffer of its own, repeats included, up to the first abort: before completion a piece before the first arrival is refused and a piece already held aborts, except the first arrival itself if more follow it, which is refused; afterwards all are refused; completion is reported exactly when the last missing piece comes |
| `ArrivalOrders.AbortsExactlyAtRepeat` | src/nat/fragment.go:82-107 | a run aborts if and only if some piece that the incomplete queue holds arrives again, in whatever buffer, and is not that refused first one |
| `ArrivalOrders.ReportsInEveryOrder` | src/nat/fragment.go:62-118 | with every piece arriving once, in any order: no call aborts, a piece is refused exactly when it lies before the first arrival, and completion is reported exactly at the final arrival if piece 0 came first, else never |
| `ArrivalOrders.ReassembledWithRepeats` | src/nat/fragment.go:62-118 | the queue is complete if and only if every piece has come and piece 0 came first, and then holds the fragments in payload order, each in the buffer in which it came first |
| `ArrivalOrders.BareProcess` | src/nat/fragment.go:62-118 | a call does the same whatever the buffers are |
| `ArrivalOrders.BuffersStayApart` | src/nat/fragment.go:62-118 | buffers that arrive once are in the queue once at most, so every arrival meets what `HandleFragment` asks of it |
| `ArrivalOrders.ReassembledInEveryOrder` | src/nat/fragment.go:62-118 | with every piece arriving once: if and only if piece 0 came first |
| `ArrivalOrders.ChainIsPayload` | src/nat/fragment.go:120-138 | the bytes of the chained buffers are the payload |
| `FragmentTable.QueuesAreIndependent` | src/nat/snat.go:175-182 | the queue of a key is what its own fragments alone make it, in any interleaving of datagrams |
| `FragmentTable.ReportsAreIndependent` | src/nat/snat.go:175-195 | so is every report |
| `FragmentTable.QueuesStayValid` | src/nat/snat.go:175-196 | whatever fragments arrive, as long as their ends fit 16 bits and none has aborted, every queue is sorted and disjoint, and a complete one covers its datagram without a gap |
| `FragmentTable.InterleavedReassembly` | src/nat/snat.go:157-196 | in the middle of arbitrary other traffic, repeats in other buffers included, every report is the one that the order of the key's own pieces determines, and a completed queue holds the fragments in payload order, each in the buffer in which it came first |
| `FragmentTable.InterleavedOnce` | src/nat/snat.go:157-196 | and with every piece arriving once none aborts, and completion is reported exactly for the final one if piece 0 came first |
| `FragmentTable.CompletedKeyRefuses` | src/nat/fragment.go:140-151 | a queue is never removed, so after completion every further fragment with its key is refused for ever |
| `FragmentTable.FragTable.HandleFragment` | src/nat/snat.go:175-196 | the table of queue objects steps as specified, the verdict follows the report, and on completion the head of the chain is handed on |
| `FragmentHeaders.ReadAsSentIff` | src/nat/snat.go:156-182 | a piece is read off its header with the offset, length, flag and key that it was sent with if and only if it starts at a multiple of eight bytes |
| `FragmentHeaders.PacketsAreArrivals` | src/nat/snat.go:156-182 | packets, each in a buffer of its own, that carry the pieces of a payload, arrive as its fragments, in their order |
| `FragmentHeaders.PayloadFromPackets` | src/nat/snat.go:151-196 | from header bytes to payload bytes: when all pieces have come, the first one first and none so that it aborts, the buffers of the key's queue hold the payload in list order |
| `FragmentHeaders.ClassifiedByBits` | src/nat/snat.go:151-182 | every packet is classified by the version nibble, the 13-bit offset and the more-fragments bit alone, whatever the other flags are, and by the length field if it is a fragment; a fragment's key, offset, length and flag are these header fields |
| `FragmentHeaders.HandleIp` | src/nat/snat.go:151-196 | version, fragment bits and length field decide between dropping, passing on, aborting and the queue, which steps as specified |
| `TransportOffset.ReadsOwnIff` | src/nat/snat.go:194-209 | the head of a reassembled datagram is read at the header length of the fragment that arrived last: for every head its own ports are read if and only if the two header lengths agree |
| `TransportOffset.ReadsOwnExactly` | src/nat/snat.go:194-209 | for one head, exactly if the four bytes behind that length are its ports |
| `TransportOffset.OwnPortsAfter` | src/nat/snat.go:304-318 | otherwise translation leaves the head's own ports as they are, except that the destination port becomes 0 if its header is one word longer |
| `TransportOffset.OptionsMisread` | src/nat/snat.go:194-209 | two fragments that complete a datagram with ports 5000 and 53, of which 0x0101 and 0x0101 are read |
| `NatDispatch.WholePacketGoesOn` | src/nat/snat.go:156-159 | a whole packet, don't-fragment flag set or not, goes on by itself, is read at its own header length, and leaves the fragments alone |
| `NatDispatch.HandlePacket` | src/nat/snat.go:151-210 | reassembly and transport handler together: the fragments step as specified, the verdict follows, the table of connections counts the tuple that is read at that offset, and the head and the buffers behind it are translated by the entry of that tuple; other protocols pass or are dropped unchanged |
| `BackupSlots.RemovedUndoesPlaced` | src/vnet/bakLink.go:102-143 | `delBackup` undoes `addBackup` on the slots, and placing makes no duplicates |
| `BackupSlots.BackupLink.AddBackup` | src/vnet/bakLink.go:102-120 | the client goes to the first free slot, the one-place channel holds a token, and the client knows its master |
| `BackupSlots.BackupLink.DelBackup` | src/vnet/bakLink.go:122-143 | the client's slot is freed, and if it was active it is deactivated and counted off |
| `BackupSlots.BackupLink.ChoseBackup` | src/vnet/bakLink.go:169-198 | none is chosen exactly when no slot holds an open client; otherwise the open client of least known delay, or the first open one if no delay is known |
| `FailoverInvariant.WaitGroupTracksActive` | src/vnet/bakLink.go:138-141 | over every interleaving nothing panics, the WaitGroup is 0 or 1 and never negative, and is 1 exactly when a slave is active, except between the two statements that change both |
| `FailoverInvariant.PanicsExactly` | src/vnet/bakLink.go:122-143 | what would panic: removing a client that was not added, a WaitGroup below 0, a second close of `reconnect`, a send to it once closed |
| `FailoverInvariant.ActiveIsInSlot` | src/vnet/bakLink.go:122-143 | the active slave is in a slot, unless its own loop is inside `delBackup` under the lock |
| `FailoverInvariant.MasterNeverMissesOpenSlave` | src/vnet/bakLink.go:115-117 | a master blocked on an empty channel has overlooked no open client: any in a slot was placed since, and the next statement of its loop posts the token |
| `FailoverInvariant.ReconnectSentOnce` | src/vnet/client.go:386-420 | each closed slave has exactly one sender on `reconnect`, which is never blocked and never meets a closed channel |
| `FailoverInvariant.BackedUpInOneSlot` | src/vnet/bakLink.go:102-143 | from `addBackup` to `delBackup` a client is in exactly one slot, and `delBackup` finds its master set |
| `FailoverInvariant.FreeSlotExists` | src/vnet/bakLink.go:109-114 | `addBackup` always finds a free slot |
| `FailoverRelease.ReleasedAfterSteps` | src/vnet/bakLink.go:157-159 | while the master waits for a closed active slave, whatever all other goroutines do in between, the WaitGroup reaches 0 after exactly a known number, at most eight, of releasing steps: the pending send on `reconnect`, then steps of the slave's own loop |
| `FailoverRelease.NextSteps` | src/vnet/bakLink.go:122-143 | each releasing step brings the release one step nearer, and no other step of any goroutine changes how far it is |
| `FailoverRelease.ReleaserOrHolder` | src/vnet/bakLink.go:122-143 | the releasing step can be taken, unless the lock that it needs is held by another loop, which can go on towards giving it back |
| `FailoverRelease.ClosedActiveIsReleased` | src/vnet/bakLink.go:157-159 | no lost wake-up: from every reachable state of such a wait there is a run of releasing steps and steps of the lock's holders that ends with the WaitGroup at 0 |
| `FailoverInvariant.RunKeeps` | src/vnet/bakLink.go:145-227 | every run keeps the whole invariant of the protocol |
| `FailoverActivation.ChosenIsActivated` | src/vnet/bakLink.go:213-224 | in every reachable state, a slave that the master has chosen and is about to unlock is active and counted, unless it was closed before |
| `FailoverActivation.ScanActivates` | src/vnet/bakLink.go:169-224 | from every state of the invariant, a master that is about to scan activates an open slave if there is one, within six steps more than there are slots, whatever delays it reads |
| `FailoverActivation.ChoiceEnds` | src/vnet/bakLink.go:213-227 | nothing can hold up a master that has made its choice: it comes to wait, with the chosen slave active and counted unless that one was closed when it was checked |
| `FailoverActivation.OpenSlaveIsActivated` | src/vnet/bakLink.go:145-227 | from every such state in which the master is between two choices, any open slave can become the active one, without anybody being closed |
| `FailoverActivation.FailsOver` | src/vnet/bakLink.go:145-227 | the failover from end to end: from every reachable state in which the active slave is closed while another one is open, a run that closes nobody else ends with the other one active and counted |
| `FailoverActivation.LoopJoins` | src/vnet/bakLink.go:145-167 | a loop that dials gets a new client into a free slot and the token posted, and waits with the client working; nothing else changes |
| `FailoverActivation.LoopLeaves` | src/vnet/bakLink.go:122-143 | a loop that is told to reconnect takes its client out of its slot and out of activity, counts it off if it was active, closes its channel, and dials again; nobody else's slot or client changes |
| `Netstat.TableAgreement` | src/netstat/conntrack.go:137-170 | in every reachable state both keys of a live connection lead to it, every key belongs to a live connection, the table is closed under `invert`, and what is not being deleted is live |
| `Netstat.DeleteIsPrivate` | src/netstat/conntrack.go:144-149 | `delConntrack` removes the keys of its own connection and no other |
| `Netstat.NeverUnknownProtocol` | src/netstat/conntrack.go:243-252 | `getProtoEstablishTimeout` is never called for a protocol it panics on |
| `NetstatHistory.CountersAreSums` | src/netstat/net.go:177-178 | the byte counters equal the sums of the lengths of the counted packets, per direction |
| `NetstatHistory.StatusNeverDecreases` | src/netstat/net.go:131-273 | the status of a connection never decreases, and its origin key never changes |
| `NetstatHistory.OpeningPacket` | src/netstat/net.go:146-171 | every connection was opened by a packet with its origin key, for TCP an outbound pure SYN |
| `NetstatHistory.OpensExactly` | src/netstat/net.go:146-171 | and conversely: a packet with an unknown key opens a connection, reachable under both keys, exactly if it is a datagram or an outbound pure SYN |
| `NetstatHistory.SynAckSeen` | src/netstat/net.go:203-218 | a connection in CT_REPLY has seen the SYN-ACK on the inverse key after its SYN |
| `NetstatHistory.HandshakeSeen` | src/netstat/net.go:146-231 | an established TCP connection has seen, in order, an outbound pure SYN, a SYN-ACK on the inverse key, and a pure ACK |
| `NetstatHistory.TcpStatusExactly` | src/netstat/net.go:146-231 | a TCP connection that is not being deleted is established exactly if a SYN-ACK on the inverse key and then a pure ACK have been counted for it, in CT_REPLY exactly if only the SYN-ACK, and else new |
| `NetstatHistory.UdpStatusExactly` | src/netstat/net.go:255-273 | a UDP connection that is not being deleted is established exactly if a byte has been counted for it in the reply direction, and else new |
| `NetstatHistory.NoFinSeen` | src/netstat/net.go:180-197 | while a TCP connection is not being deleted, no FIN or RST has been counted for it |
| `NetstatTiming.GivenUpExactlyWhenIdle` | src/netstat/conntrack.go:213-241 | `ctESTABLISHEDTimeout` gives a connection up exactly when its last counted byte is at least one timeout old (240 s TCP, 120 s UDP), and that byte is always less than two timeouts old |
| `NetstatTiming.ClosedExactly` | src/netstat/net.go:180-197 | a connection starts being deleted exactly by a FIN or RST that is counted for it, or by its timer unless it is established and its last counted byte is less than one timeout old |
| `NetstatTiming.KeysLeaveTenSecondsLater` | src/netstat/net.go:180-197 | a closed connection keeps both keys for exactly ten seconds, whatever happens |
| `NetstatTiming.HalfOpenGivenUpOnTime` | src/netstat/net.go:146-166 | a connection that is not established leaves the table exactly 3 s (TCP) or 15 s (UDP) after it was opened or last refreshed, with both keys |
| `NetstatTable.Connection.HandleTcp` | src/netstat/net.go:146-232 | the in-place handler of a known TCP connection agrees with its specification |
| `NetstatTable.Connection.HandleUdp` | src/netstat/net.go:255-273 | likewise for UDP |
| `NetstatTable.NetConntrack.Receive` | src/netstat/net.go:131-273 | one packet changes the linked table as specified |
| `NetstatTable.NetConntrack.Fire` | src/netstat/conntrack.go:203-241 | one timer does so too |
| `NetstatRace.StrandedExactlyByRace` | src/vendor/timer/timer.go:190-222 | when firing, not before the deadline, and callback are two steps, a connection is stranded in CT_DEL with no timer, or will be once its pending callback has run, if and only if a FIN or RST was handled between the firing of the established timer and its callback |
| `NetstatRace.QuietExactlyByRace` | src/vendor/timer/timer.go:190-222 | after any run that ends with no callback pending it is stranded if and only if that happened |
| `NetstatRace.NewExactlyByRace` | src/netstat/net.go:146-171 | so it is for every connection that a packet opens |
| `NetstatRace.DoomedByRace` | src/netstat/net.go:180-197 | step by step: nothing else dooms a connection |
| `NetstatRace.StrandedForEver` | src/netstat/net.go:173-175 | no further run changes a stranded connection |
| `NetstatRace.RaceHappens` | src/netstat/conntrack.go:224-226 | a run from an opening SYN that ends stranded: a handshake, the timer 240 s later, and a FIN before its callback |
| `TimerWheel.TickRunsExactlyDue` | src/vendor/timer/timer.go:161-222 | a tick of the five-vector wheel runs exactly the timers that are due at it, each once, and leaves all others pending |
| `TimerWheel.CascadedKeeps` | src/vendor/timer/timer.go:143-155 | handing a bucket down puts each of its timers where it will be found in time |
| `TimerWheel.CascadeSparesBucket` | src/vendor/timer/timer.go:143-155 | and none back into the same bucket, whose memory is still being read |
| `TimerWheel.AddedKeeps` | src/vendor/timer/timer.go:91-141 | a timer is due at `expires`, or at the next tick if that has passed; one more than 2^32 ticks away included |
| `TimerWheel.DeletedKeeps` | src/vendor/timer/timer.go:232-260 | a pending timer is found where it says, and stopping it takes out no other |
| `TimerRuns.StartedRunsAtExpires` | src/vendor/timer/timer.go:280-293 | over every run: a timer that is started and left alone is run exactly once, at the tick at which it is due, whatever other timers do |
| `TimerRuns.RunsOnceWhenDue` | src/vendor/timer/timer.go:161-222 | so is any pending one, restarted ones included |
| `TimerRuns.NotRunAgain` | src/vendor/timer/timer.go:232-260 | one that has been run or stopped is not run any more unless it is started again |
| `TimerRuns.RestartedRunsAtExpires` | src/vendor/timer/timer.go:262-278 | a timer that is started again at any point of a run is run exactly once, at its new `expires` or, if that has passed, at the next tick |
| `TimerRuns.StoppedRunsNot` | src/vendor/timer/timer.go:232-260 | one that is stopped at any point of a run is not run from then on |
| `TimerTable.WheelObject.OnTick` | src/vendor/timer/timer.go:161-222 | the tick in place: cascades, then the bucket, whose timers can no longer be stopped |
| `TimerTable.WheelObject.DelTimer` | src/vendor/timer/timer.go:232-260 | stopping succeeds exactly for a pending timer, and neither check panics |
| `NatTable.SearchEndsIffPortLeft` | src/nat/snat.go:343-362 | in a table that nothing changes meanwhile the port search ends within 65536 probes, wrap-around included, if and only if some reply port of the endpoint is unused |
| `NatSearch.FindUniqueReplyAmid` | src/nat/snat.go:350-360 | the loop that reads the table anew at every probe ends with the first probe whose tuple is unused at that time |
| `NatSearch.EndsIfPortStaysFree` | src/nat/conntrack.go:127-132 | whatever happens in between, it ends within 65536 probes if some port stays unused throughout |
| `NatSearch.EndsOnceAnyPortIsFree` | src/nat/conntrack.go:141-146 | with timers only, within 65536 probes of the first one at which any port of the endpoint is unused, and at none before |
| `NatSearch.SearchEndsInTime` | src/nat/conntrack.go:202-240 | with timers that are on time and no other packets it has ended by its first probe later than 250 s after it began, however full the table was |
| `NatSearch.SearchOpens` | src/nat/snat.go:343-362 | its end is a step of the runs that `NatTable` covers: the entry is opened under a tuple that is unused, of its own endpoint |
| `NatWitness.PortsRunOut` | src/nat/snat.go:350-360 | a full endpoint is reached: after one packet from each of the 65536 source ports of a host no reply port is left for any further flow to it |
| `NatWitness.SearchWaits` | src/nat/snat.go:350-360 | every probe for such a flow in the next 15 s fails |
| `NatWitness.PortsComeBack` | src/nat/conntrack.go:202-210 | and then the timer of any of the flows frees its port |
| `NatTable.SmallTableHasPort` | src/nat/snat.go:350-360 | a table with fewer than 65536 keys always has a port left |
| `NatTable.UniqueReplyIsFirstFree` | src/nat/snat.go:343-362 | the first free port in cyclic order from the flow's own source port is taken |
| `NatTable.TableAgreement` | src/nat/conntrack.go:134-146 | in every reachable state both keys of a live entry lead to it, every key belongs to a live entry, and live entries share no key |
| `NatTable.DeleteIsPrivate` | src/nat/conntrack.go:141-146 | deleting an entry removes exactly its own keys |
| `NatTable.NewFlowTranslated` | src/nat/snat.go:231-246 | the first packet of a flow creates a live entry with that reply tuple and leaves as its inverse |
| `NatTable.OpenedFlowTranslated` | src/nat/snat.go:231-246 | so it does at the end of a search during which timers have fired |
| `NatTable.ReplyUndoesTranslation` | src/nat/snat.go:248-266 | however the run goes on, the answer to a translated packet finds the same entry, is seen as a reply unless the flow goes from the NAT address to itself between equal ports, and is delivered as the answer to the original |
| `NatTable.TranslationIsInjective` | src/nat/snat.go:276-315 | different live flows leave as different flows |
| `NatTable.RevivedExactlyByReply` | src/nat/snat.go:254-265 | an entry that is being deleted goes back to established exactly when a packet in the reply direction arrives, of a flow that is not its own answer |
| `NatHistory.CountersAreSums` | src/nat/snat.go:243-255 | the byte counters of an entry are the lengths of its packets, added up per direction |
| `NatHistory.StatusExactly` | src/nat/snat.go:248-266 | an entry that is not being deleted is established exactly if a packet in the reply direction has been counted for it, and else new |
| `NatTiming.TimersAreStarted` | src/nat/snat.go:244-262 | every running timer was started by the event that last changed it, for 15, 120 or 10 seconds by the entry's status, and that of an established entry remembers what had been counted by then |
| `NatTiming.TimerStep` | src/nat/snat.go:244-262 | only its own firing, and a reply to an entry that is not established, start a timer; origin packets, and any packets of an established entry, do not |
| `NatTiming.GivenUpExactlyIfNothingCounted` | src/nat/conntrack.go:212-231 | `ctESTABLISHEDTimeout` gives an entry up exactly if no byte has been counted for it since its timer was started, 120 seconds before the deadline; else it stays established for another 120 seconds |
| `NatTiming.GivenUpWhenIdle` | src/nat/conntrack.go:212-231 | with timers that are on time it has then been idle for at least 120 seconds, and one that is kept for at most 120 |
| `NatTiming.LeavesOnTime` | src/nat/conntrack.go:202-210 | a new entry leaves with both keys exactly 15 seconds after its first packet, however many more of the same direction it sees, and one that is being deleted 10 seconds after that has begun |
| `NatWitness.RevivalHappens` | src/nat/snat.go:254-265 | a run reaches such an entry, still in the table, and one more answer keeps both keys in the table past the deadline of the deletion |
| `NatEntry.KeysDiffer` | src/nat/snat.go:343-362 | the two tuples of an entry are equal exactly for a flow from the NAT address to itself between equal ports |
| `NatEntry.TranslationOf` | src/nat/snat.go:285-315 | a packet leaves with the inverse of the reply tuple, from the NAT address; a reply arrives as the inverse of the origin tuple |
| `NatConnections.NetConntrack.FindUniqueReply` | src/nat/snat.go:350-360 | the probing loop ends and finds the first free tuple |
| `NatConnections.NetConntrack.UdpHandler` | src/nat/snat.go:220-267 | the linked table steps as specified; the entry found owns the packet's key |
| `NatConnections.NetConntrack.TimeoutDelete` | src/nat/conntrack.go:202-210 | the timer callback that removes an entry, in place |
| `NatConnections.NetConntrack.EstablishedTimedOut` | src/nat/conntrack.go:212-240 | the timer callback that checks for idleness, in place |
| `NatRewrite.DoNat` | src/nat/snat.go:276-321 | the first buffer is rewritten in place as specified, `xsum` is the chained UDP checksum, and a length field that points past the buffer aborts |
| `NatRewrite.AbortsExactly` | src/nat/snat.go:296-321 | that is, exactly if the `uint16` difference of total and header length, or the UDP length if they are equal, claims more bytes than the buffer has |
| `NatRewrite.SumsWholeDatagram` | src/nat/snat.go:316-321 | for a packet whose length field is right nothing aborts, and `xsum` is the RFC 768 sum over the whole translated datagram |
| `NatChain.DoNatChain` | src/nat/snat.go:276-341 | so is every follow-on buffer of a reassembled datagram, wherever the ports of the first one are read, with `xsum` carried through their data, unless there is nothing to translate or the first buffer has aborted |
| `NatChain.ChainLeavesAsOne` | src/nat/snat.go:323-336 | in the origin direction all fragments leave from the NAT address to the same destination, with their data unchanged; the header checksums verify, that of the first one exactly if zeroing the bytes taken for its UDP checksum is harmless |
| `NatRewrite.BytesCarryTranslation` | src/nat/snat.go:304-318 | afterwards the bytes carry exactly the translated tuple, where it was read; the header checksum verifies if that was behind the header |
| `PacketHeaders.RewrittenSums` | src/nat/snat.go:316-318 | and else exactly if the bytes taken for the UDP checksum, which are zeroed after the header's own has been computed, were 0 or 0xFFFF |
| `NatRewrite.RoundTripInBytes` | src/nat/snat.go:304-318 | the answer to a translated packet, translated back, reaches the sender as the answer to what it sent; payloads are untouched |
| `NatRewrite.FollowOnAddresses` | src/nat/snat.go:325-336 | follow-on fragments leave from the NAT address in the origin direction, and in the reply direction reach the sender exactly when no address translation was needed |
| `NatHandler.HandleUdp` | src/nat/snat.go:220-267 | table and packet together, follow-on fragments, a length field past the buffer and ports read elsewhere than behind the header included |
| `PacketHeaders.HeaderChecksumVerifies` | src/nat/snat.go:316-317 | zeroing, summing and complementing leaves a header that sums to 0xFFFF |
| `PacketHeaders.RewrittenTuple` | src/nat/ipv4.go:147-158 | the rewritten header shows the new endpoint and the old other endpoint |
| `PacketHeaders.RewrittenKeepsRest` | src/nat/snat.go:304-318 | no byte outside checksum, addresses, ports and UDP checksum changes |
| `PacketHeaders.UdpChainIsRfc768` | src/nat/udp.go:82-101 | the chain of pseudo-header, length and datagram is the sum that RFC 768 defines |
| `Machine.Word32RoundTrip` | src/nat/ipv4.go:131-158 | reading and writing a big-endian address are inverse |
| `Conntrack.InvertTwice` | src/nat/conntrack.go:155-162 | `invert` is its own inverse |
| `PortPool.ChainReaches` | src/fdb/port.go:66-80 | the links from slot 0 reach the free numbers one after the other and then 0 |
| `PortPool.ChainIsUnique` | src/fdb/port.go:66-80 | the array determines the free list |
| `PortPool.PortPools.constructor` | src/fdb/port.go:39-43 | `initPortPool` leaves 127 down to 1 on the list |
| `PortPool.PortPools.PortIdAlloc` | src/fdb/port.go:66-73 | 0 exactly when nothing is free, else the head of the list, which is taken off |
| `PortPool.PortPools.PortIdFree` | src/fdb/port.go:75-80 | the number goes to the front of the list |
| `Fdb.PortsAndMacs` | src/fdb/port.go:101-125 | in every reachable state joined and free numbers partition 1 to 127, `allocNum` counts the ports joined with `inc`, and every MAC entry points to a joined port's owner and is not from the future |
| `Fdb.JoinTakesFreePort` | src/fdb/port.go:101-111 | joining fails exactly when all 127 ports are joined, else takes a port nobody has and leaves the others alone |
| `Fdb.ReleaseFreesOnce` | src/fdb/port.go:113-125 | a port is freed once, with its owner's MAC entries; releasing it again does nothing; `allocNum` never becomes negative |
| `Fdb.NoEcho` | src/fdb/forward.go:9-72 | no frame is handed back to the owner it came from |
| `FdbSwitching.EntryIsLastAccepted` | src/fdb/forward.go:35-51 | a MAC entry is the owner and time of the last accepted frame with that source |
| `FdbSwitching.RefusedExactly` | src/fdb/forward.go:29-47 | a frame is refused exactly if it is neither ARP nor IP, or is no ARP reply and its source has an entry and was accepted last through somebody else's port, at most 3 ticks ago |
| `FdbSwitching.AddressMoves` | src/fdb/forward.go:35-51 | an ARP reply, or any ARP or IP frame of an address not accepted in the last 3 ticks, is accepted through whatever port it comes, and the address is behind that port from then on |
| `FdbSwitching.GoesToLastAccepted` | src/fdb/forward.go:52-71 | a frame that is not refused is flooded if it is an ARP broadcast or its destination has no entry, goes to nobody if its destination is behind the port it came from, and else to the owner through whom its destination was accepted last |
| `FdbSwitching.Delivered` | src/fdb/forward.go:9-23 | what is handed over for each of these fates: nothing, one frame, or one frame to each port of another owner |
| `FdbSwitching.EntriesComeAndGo` | src/fdb/forward.go:35-51 | only an accepted frame with that source brings an address in, and only ageing and the release of its owner's ports take it out |
| `FdbSwitching.MacStays` | src/fdb/fdb.go:132-134 | an address heard on its port at least every 3 ticks stays there, unless an ARP reply through another port or the release of a port of its owner intervenes |
| `FdbSwitching.LoopIsDropped` | src/fdb/forward.go:38-47 | meanwhile its frames through other ports are dropped and change nothing |
| `FdbSwitching.UnicastToOwner` | src/fdb/forward.go:61-65 | and frames for it go to its owner alone |
| `FdbSwitching.UnknownIsFlooded` | src/fdb/forward.go:66-70 | a frame for an address never accepted is flooded |
| `FdbSwitching.AgeingKeepsRecent` | src/fdb/fdb.go:109-121 | a tick takes out exactly the addresses not accepted within the last 300 ticks, if it is a 64th one and there are more than 128 addresses, and else none |
| `FdbTable.FDB.JoinFwdPort` | src/fdb/port.go:101-111 | the linked FDB joins as specified |
| `FdbTable.FDB.ReleaseFwdPort` | src/fdb/port.go:113-125 | and releases as specified |
| `FdbTable.FDB.Flood` | src/fdb/forward.go:9-23 | one copy to each port of another owner, and to no other |
| `FdbTable.FDB.Forward` | src/fdb/forward.go:27-72 | learning, the hand-over of the frame and the result are as specified |
| `FdbTable.FDB.Age` | src/fdb/fdb.go:109-121 | the ageing pass over the MAC table |
| `Membership.JoinOneKeeps` | src/vnet/vid.go:35-46 | joining one FDB keeps the client's knowledge of its ports sound, other clients' ports and other ids as they are, and takes a port exactly if one is left |
| `Membership.QuitOneKeeps` | src/vnet/vid.go:56-68 | so does quitting one, with the deletion of an FDB nobody is counted in; a client that knew all its ports of the id has none left |
| `Membership.DeletedExactlyWhenUncounted` | src/fdb/fdb.go:97-103 | quitting, be the membership stale or not, takes an FDB out of the registry exactly when the FDBs are not configured and only links to other servers are left in the registered object |
| `MembershipLists.Reconciles` | src/vnet/vid.go:98-118 | quitting what is gone and joining what is missing, in whatever order the maps are visited, gives exactly the requested FDBs that were not full, one port in each, and touches nobody else |
| `Reconciliation.Client.HandleFdbIds` | src/vnet/vid.go:98-118 | for any list, duplicates included, the client is so reconciled in place; after `quitAllFdb` the call panics if and only if some requested FDB is not full, and else changes nothing |
| `Reconciliation.Client.QuitAllFdb` | src/vnet/vid.go:70-81 | afterwards the client owns no port in any FDB, and its map is nil |
| `Masters.PushedSum` | src/vnet/vid.go:35-46 | joining an id n times takes min(n, free) ports, and a client that owned exactly the ports it knew of still does if and only if that is at most one, and none if it had one already |
| `Masters.TurnOfMaster` | src/vnet/vid.go:192-193 | the turn of one master with the carried lists: in each registered FDB it takes a port for every time the id is on the list, as long as there are any, and the registry stays as it is |
| `MastersResult.KeepsPortsIff` | src/vnet/vid.go:173-203 | any number of masters, with the lists carried from one to the next: a master keeps one port per FDB and no leak if and only if in no live FDB it takes more than it may, which follows from the state before |
| `MastersResult.TwoMastersIff` | src/vnet/vid.go:173-203 | two masters: the first never leaks; the second does not if and only if every FDB that the first had not joined has at most one free port if the second has joined it, and at most two if not |
| `MastersResult.LiveIff` | src/vnet/vid.go:186-190 | ids are compared, not objects: after the update a master is in the live FDB of an id exactly if it was before or took a port in it |
| `MastersRuns.LeakHappens` | src/vnet/vid.go:174-198 | a client's list leaves two masters with one new FDB; whatever course the update takes, the second leaks a port |
| `MastersRuns.LeakingUpdateExists` | src/vnet/vid.go:174-198 | and such a course exists |
| `MastersRuns.SingleSettlesIff` | src/vnet/vid.go:173-203 | after the update a single master is live in every id it has, except exactly those it had stale before |
| `MastersRuns.RoundsSettle` | src/vnet/vid.go:98-118 | over every run in which each list handled for a client is followed by its update, a single master is never stale and nobody leaks a port |
| `MastersRuns.StaleHappens` | src/vnet/vid.go:186-190 | when two lists are handled before the update, it ends stale: an FDB deleted and created again in between |
| `MasterUpdate.UpdateMasterFdb` | src/vnet/vid.go:173-203 | the loop over client objects takes such a course, with the lists carried along, skips a nil map, and reports exactly for the masters whose lists were not both empty |
| `RingBuffer.Ring.RBPutBuf` | src/reaserch/goRingBuffer.go:104-117 | the ring is a first-in first-out queue: a put appends, and is refused exactly when all slots but one are in use |
| `RingBuffer.Ring.RBGetBuf` | src/reaserch/goRingBuffer.go:119-129 | a get that nobody overtakes removes the oldest, and fails exactly on the empty queue |
| `RingRace.ReadsOwnBufferIff` | src/reaserch/goRingBuffer.go:123-125 | a get that reads its slot after unlocking, while others go on, reads the buffer it took out if and only if no more puts were accepted in between than there were buffers outside the ring when it unlocked, its own included |
| `RingRace.TwoOvertakeFirst` | src/reaserch/goRingBuffer.go:123-125 | and reads another one only if at least two other gets went through in between |
| `RingRace.ForeignBufferRead` | src/reaserch/goRingBuffer.go:123-125 | a run with three buffers in which two are enough |
| `RingBuffer.Ring.GetBuf` | src/reaserch/goRingBuffer.go:131-138 | the buffer is held once and is no longer in the ring |
| `RingBuffer.Ring.PutBuf` | src/reaserch/goRingBuffer.go:140-158 | the last release returns the buffer, and never finds the ring full |
| `RingBuffer.CreateRingBuffer` | src/reaserch/goRingBuffer.go:84-95 | n new free buffers, in order, and no put is refused |
| `RingBuffer.PushKeepsRing` | src/reaserch/goRingBuffer.go:107-113 | the slot arithmetic of a put: full exactly at count - 1 buffers |
| `RingBuffer.PopKeepsRing` | src/reaserch/goRingBuffer.go:121-126 | the slot arithmetic of a get |
| `RingPool.EveryBufferAccounted` | src/reaserch/goRingBuffer.go:131-167 | after any interleaving every buffer is in one place: once in the ring, on its way, or held with a count equal to its holders |
| `RingPool.ReturnNeverRefused` | src/reaserch/goRingBuffer.go:149-153 | a returning buffer never finds the ring full and goes to the end of the queue |
| `RingPool.ReleaseNeverNegative` | src/reaserch/goRingBuffer.go:154-156 | a release by a holder never makes the count negative, and returns the buffer exactly if it was the last |
| `RingPool.FirstInFirstOut` | src/reaserch/goRingBuffer.go:102-129 | over every run, the buffers taken out followed by those in the ring are those that were there followed by those put back, in order |
| `RingPool.CountIsHolds` | src/reaserch/goRingBuffer.go:131-167 | the count of a buffer is the number of its holds less that of its releases |
| `RingPool.HeldComesBack` | src/reaserch/goRingBuffer.go:140-158 | from every such state a held buffer comes back to the end of the ring when each of its holders releases it |
| `RingPool.FreeIsHeld` | src/reaserch/goRingBuffer.go:131-138 | and the first buffer of the ring can be taken out and is then held once |
| `HeaderCodec.ParseUndoesMarshalIffInRange` | src/packet/ipv4.go:57-156 | parsing into a new header undoes printing, up to the form of the addresses, if and only if version, length, options and all fields are in range |
| `HeaderCodec.OldOptionsSurvive` | src/packet/ipv4.go:146-154 | parsing into a used header does so exactly if the printed one had options or the old one had none |
| `HeaderCodec.MarshalUndoesParseIff` | src/packet/ipv4.go:57-156 | printing what was parsed gives the header's bytes back if and only if the version is 4, there are at least five words, and no old options got in |
| `HeaderCodec.ParsedFields` | src/packet/ipv4.go:105-156 | what is parsed from a printed header, field by field, for fields out of range too |
| `HeaderCodec.MarshalErrors` | src/packet/ipv4.go:57-103 | printing fails exactly for a length below 20, and else for a destination without a four-byte form; a source without one is printed as zeros |
| `HeaderCodec.ParseErrors` | src/packet/ipv4.go:106-112 | parsing fails exactly for fewer than 20 bytes, and else for fewer than the length field says |
| `HeaderCodec.IPHeader.Marshal` | src/packet/ipv4.go:57-103 | the step-by-step printer gives the specified bytes or error |
| `HeaderCodec.IPHeader.Parse` | src/packet/ipv4.go:106-156 | the parser fills the fields as specified, or reports the error and changes nothing |

## Left out

- NatRewrite.DoNat: the UDP checksum field stays 0, because the source discards `xsum` and writes 0 there.
- NatTable.ReplyUndoesTranslation: speaks of the entry while it stays live; a status order is not claimed, because this handler can bring an entry in CT_DEL back to CT_ESTABLISHED (`RevivedExactlyByReply`).
- Reconciliation.Client.HandleFdbIds: FDB objects are referred to by number and changed by value, so aliasing between their parts is not modelled here (it is in `FdbTable`); the state that a panic leaves behind is not described.
- NetstatTable.NetConntrack.Receive: one zone; the choice of the table by VLAN is not modelled.
- FragmentHeaders.HandleIp: the length of the network data is a parameter, because `NetworkDataLen` is not defined in the repository; one zone; the buffers' reference counts are not modelled.
- FragmentTable.FragTable.HandleFragment: the hold on an accepted buffer is not modelled.
- NatDispatch.HandlePacket: the search for a port is not disturbed; that timers fire during it is treated in `NatSearch`.
- NatConnections.NetConntrack.FindUniqueReply: likewise.
- RingBuffer.Ring.RBGetBuf: one user; the slot that is read after unlocking is treated in `RingRace`.
- Decoding of the id list message in `handleFdbIdsMsg`, and its filter by configured ids.
- `BackupClient` without reconnection: its loop ends after one round.
- Packets whose header length field is below five words, or that end before their UDP header: the NAT handlers are modelled for headers that lie in the buffer.
- 64-bit wrap-around of the byte counters and of `FdbTick`, and 32-bit wrap-around of reference counts.
- The rounding of durations to ticks of 200 ms, and the channels and tickers on top of the wheel in `src/vendor/timer/timer.go`.
- Locks other than those of the failover protocol, of the ring and of the port search: the other components are sequential.
- Sockets, TLS, TUN devices, routes, HTTP pages, flags, configuration and logging: input and output.
- Block ciphers and packet encryption: the implementation is in another package.
- Heartbeat sending and averaging: `choseBackup` is given arbitrary delays.
- TCP translation in `src/nat/snat.go`: a stub in the source.
- The message header in `src/vnet/encode.go`, device ids, string formatting and field getters: each is a single expression or a fixed layout, with no state and no property beyond its own body.
- `src/vnet/tun.go`, `src/vnet/conn.go` and the other experiments in `src/reaserch`: no state with an invariant of its own.
