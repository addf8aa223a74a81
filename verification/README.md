# KickCAT in Dafny

KickCAT is an EtherCAT stack: a master, the slave-side library, a network simulator and a
graphical tool. This project models its most intricate parts and proves what they promise. Each
module states the behaviour as functions on values, ties the imperative form of the code (classes
and loops) to those functions, and then proves laws about them for every input or every run.

Verify with `dafny verify dfyconfig.toml`.

| modules | what they cover | main results |
|---|---|---|
| `InfoCrc`, `SiiFormat`, `SiiRoundTrip`, `SiiReading`, `SiiImage` | the EEPROM image of ETG.2010: reader, writer, checksum | `RoundTripExact`, `WriteAgain`, `ReadIsWellFormed`, `CutMapping`, `UnnoticedChange` |
| `SceneTree`, `ScenePorts`, `SimScene`, `Wiring` | simulator scenes: ports, scan order, topology files | `PreOrderIsPermutation`, `ScanMeetsKids`, `PortsTakeOnePlug`, `TopologyIsTree` |
| `EmulatedNetwork`, `FrameWalk`, `RingWalk`, `StationScan` | the wired segment, the way of a frame through it from either end, and the numbering of the slaves | `FrameFollowsScan`, `RingFrames`, `Passages`, `SetAddresses` |
| `Discovery`, `DiscoveryCorrect`, `PortRouting`, `Inference`, `SceneReadBack` | the master reading the tree back off the wire | `GuessExact`, `DiscoveryExact`, `RoutingInvertsWiring`, `ReadBack` |
| `DatagramFormat`, `Frame`, `FrameTransfer` | datagrams packed into a frame, sent, received and read | `ReadAllBack`, `WireReadsBack`, `AcceptedWhole` |
| `LinkDispatch`, `LinkMerge` | datagrams in flight and cable redundancy | `EachEndsOnce`, `MergeRebuilds`, `MergeAccepted` |
| `MailboxFormat`, `SdoInformation`, `RequestMailbox`, `RequestRuns` | the master's mailbox: information requests and their fragments, standing handlers, and the gateway messages behind them | `Completes`, `EveryRun`, `SettledAlways`, `GatewayCompletes`, `GatewayBehindHandlers` |
| `ResponseMailbox`, `ResponseRuns`, `RepeatHandshake` | the slave's sessions and its repeat procedure | `EveryRun`, `OldestTakes`, `RepliesArriveInOrder`, `AskExactAlways` |
| `OdScan`, `EventRing`, `ScanDisplay`, `ScanRuns`, `ScanLoss`, `ScanSession` | the graphical tool's object-dictionary scans: the bus thread, the ring of events and what the user is shown | `ScanComplete`, `ShownRight`, `EndSeen`, `RefusedSeemsRunning`, `EndFits`, `EndCanBeLost` |
| `ErrorCounters`, `ErrorLedger`, `CommandQueue`, `EventLog` | the rest of its bus thread, and its event log | `AlwaysBalanced`, `FaultlessIsRight`, `DebtsBooked`, `FaultsCost`, `EveryRun`, `ResultsStay`, `AlwaysTells` |

How the pieces meet: a scene (`SimScene`) is turned into a topology, the topology into a wired
segment (`FrameWalk.BuildSegment`). The master's frame is walked through that segment, on a ring
from both ends (`StationScan.Passages`), and numbers the slaves in the order it meets them
(`StationScan.SetAddresses`). From the open ports read in that order the tree is guessed
(`Discovery.GetTopology`) and the ports are computed again (`PortRouting.ComputePortRouting`).
`SceneReadBack.ReadBack` runs through these methods in turn, each working on what the one before
returned, and states when the scene comes back. `FrameTransfer.Carry` does the same for a frame
built, sent, received and read. `ScanSession` ties the methods of the user interface to the steps
of `ScanDisplay`, and `ScanRuns.PhaseEmits` ties the steps of the bus thread to what
`OdScan.Scan.ExecuteDiscover` emits. `Common` holds what several modules share.

## What the proofs found

- With cable redundancy a scene is read back if and only if the slave that closes the ring is
  scanned last; otherwise the next slave scanned is hung on it (`SceneReadBack.ReadBack`).
  `SceneReadBack.RingExample` is a three-slave scene, wired, walked and discovered wrong.
- The EEPROM round trip holds, for lists below 64 KiB, if and only if the one-byte counts fit, the
  opaque payloads can be declared, and no vendor category uses a known kind or the end marker
  (`SiiReading.RoundTripExact`).
- Asking for a repeat costs a reply if and only if one is waiting for its first reading
  (`RepeatHandshake.AskExact`, over all runs `AskExactAlways`). A displaced reply asked for once
  more comes as the repeat of another (`DisplacedComesAsRepeat`). A reply
  arrives if and only if it is not shorter than the mailbox (`ShortReplyExact`); the slave's own
  replies never are, since they are built in the received message and `configure` insists that
  both mailboxes have one length (lib/src/Mailbox.cc:322).
- A settled status does not always last: an information request told that its buffer is too small
  while fragments are still to come stays in the list, outlives its deadline
  (`RequestRuns.OutlivesDeadline`), and takes another status when the next reply is an error or
  ill-formed (`RequestRuns.ErrorOverturns`). `RequestRuns.OverturnedExact` says that no other step
  does this to any message, and `SettledAlways` follows it through every run.
- A gateway reply completes its request if and only if no standing handler ahead takes messages of
  its type and service, for these do not look at the address (`RequestRuns.GatewayCompletes`).
  With the handlers `Bus::init` installs, a reply that is neither CoE nor an error is always lost
  (`RequestRuns.GatewayBehindHandlers`, `GatewayReplyLost`).
- The error totals are computed from cached counters. A slave that does not answer the sweep after
  a clear has its old counter added again, in every sweep it misses
  (`ErrorLedger.StaleCopyCountsOn`); `ErrorLedger.WhichRepeat` says exactly which unanswered sweeps
  do so. A failed clear makes the next sweep count the register twice
  (`ErrorLedger.FailedClearCountsTwice`), and a clear wipes what an unanswered slave counted
  unseen. Without any of five faults a total is always right (`ErrorLedger.FaultlessIsRight`); with
  them it is right if and only if it lacks as much as it counts again (`ErrorLedger.RightExact`),
  which does happen (`ErrorLedger.FaultsCancel`).
- A scan ended by stopping the bus thread ends without an error, however little was read
  (`OdScan.StopLooksFine`, and exactly when in `OdScan.ScanComplete`), but nobody sees that end: over
  every interleaving of bus thread and user interface a scan shown as ended without error has shown
  every object (`ScanRuns.ShownRight`).
- The end of a scan is shown if and only if the ring of events is not full when it is pushed and the
  session is not closed before it is taken out (`ScanRuns.EndSeen`). If it is refused the scan seems
  to go on, and no other scan of the slave can be started, until the user disconnects
  (`ScanRuns.RefusedSeemsRunning`). One place per object and two more keep that from happening to a
  scan that is announced once and alone in pushing (`ScanRuns.EndFits`; each time it is queued again
  from its first object costs one more). Two long scans with nobody looking do lose an end
  (`ScanLoss.EndCanBeLost`).
- When a slave does not answer, the two halves of a split frame may be put together wrongly, but
  the working counter then never reaches the expected one (`LinkMerge.MergeAccepted`).
- An empty frame goes out as padding and reads back as one empty NOP datagram
  (`DatagramFormat.PaddingReads`).

## Model

| member | source | states |
|---|---|---|
| `InfoCrc.ComputeInfoCrc` | lib/src/SIIParser.cc:382-406 | the loops compute the bytewise checksum of the first fourteen bytes |
| `InfoCrc.FeedByte` | lib/src/SIIParser.cc:392-403 | the eight shift steps absorb one byte |
| `InfoCrc.SingleByteChangeDetected` | lib/src/SIIParser.cc:382-406 | blocks that differ in exactly one covered byte never share a checksum |
| `InfoCrc.CrcInjectiveInState` | lib/src/SIIParser.cc:387-403 | later bytes never merge two different register states |
| `InfoCrc.CrcLinear` | lib/src/SIIParser.cc:387-403 | the residue of the differences is the difference of the checksums |
| `InfoCrc.UnnoticedChange` | lib/src/SIIParser.cc:382-406 | a change of any number of covered bytes is unnoticed exactly when its bit pattern leaves no residue |
| `SiiImage.SII.Parse` | lib/src/SIIParser.cc:111-211 | refuses an image below the info area, otherwise holds the value the image denotes |
| `SiiImage.SII.ReadCategories` | lib/src/SIIParser.cc:136-210 | the cursor loop applies the categories the image splits into, in order |
| `SiiImage.SII.ReadCategory` | lib/src/SIIParser.cc:153-205 | one category has the effect its kind prescribes |
| `SiiImage.SII.ParseStrings` | lib/src/SIIParser.cc:9-37 | appends the reserved string and the strings that lie within the payload |
| `SiiImage.SII.ParseSyncM` | lib/src/SIIParser.cc:47-59 | appends the records that are whole |
| `SiiImage.SII.ParsePdo` | lib/src/SIIParser.cc:61-109 | appends the blocks of a PDO category, a cut one with the entries it has |
| `SiiImage.SII.Serialize` | lib/src/SIIParser.cc:238-354 | writes the image of the value: sealed info area, categories in order, end marker |
| `SiiImage.SII.AppendCategory` | lib/src/SIIParser.cc:229-235 | appends kind, word count in sixteen bits, payload |
| `SiiImage.SII.RegisterString` | lib/src/SIIParser.cc:357-380 | a text gets the index it can be looked up by, pooling it twice does not grow the table, and a full table gives index 0 |
| `SiiRoundTrip.FrameDeclaresPayload` | lib/src/SIIParser.cc:229-235 | a category declares its own payload length exactly when that is even and below 64 KiB |
| `SiiRoundTrip.SplitFrames` | lib/src/SIIParser.cc:136-210 | cutting an image recovers the framed categories, up to an end marker among them |
| `SiiRoundTrip.MappingsBack` | lib/src/SIIParser.cc:61-109 | a PDO mapping comes back alone and whole if and only if its entry count fits a byte |
| `SiiRoundTrip.StringTableBack` | lib/src/SIIParser.cc:9-37 | a string table comes back with strings cut to 255 bytes, as many as the count byte says |
| `SiiRoundTrip.ReadWritten` | lib/src/SIIParser.cc:111-354 | what reading a written image gives, for every value with declarable payloads |
| `SiiRoundTrip.RoundTrip` | lib/src/SIIParser.cc:111-354 | every well-formed value is read back, normalised |
| `SiiRoundTrip.WriteAgain` | lib/src/SIIParser.cc:238-354 | writing what was read from a written image gives the same bytes |
| `SiiReading.SplitBounds` | lib/src/SIIParser.cc:136-210 | cutting any bytes yields no more payload than there is, all of it declarable |
| `SiiReading.ReadIsWellFormed` | lib/src/SIIParser.cc:111-211 | any image below 64 KiB with at most one string table reads to a well-formed value |
| `SiiReading.ReadWriteRead` | lib/src/SIIParser.cc:111-354 | what was read survives writing and reading, bar the checksum and an empty string table |
| `SiiReading.RoundTripExact` | lib/src/SIIParser.cc:111-354 | reading a written image gives the normalised value if and only if the counts fit, the opaque payloads can be declared and vendor kinds are foreign |
| `SiiReading.CutSyncManagers` | lib/src/SIIParser.cc:47-59 | a record list cut anywhere reads as its whole records |
| `SiiReading.CutMapping` | lib/src/SIIParser.cc:61-109 | a PDO block cut within its entries reads as the block with its whole entries |
| `SimScene.Scene.AssignedPorts` | tools/kickui/Simulator.cc:27-42 | every slave gets the next of its parent's ports 1, 3, 2 |
| `SimScene.Scene.Load` | tools/kickui/Simulator.cc:65-106 | replaces the scene if a slave is named, else changes nothing; parents then precede their children |
| `SimScene.Scene.WriteTopology` | tools/kickui/Simulator.cc:108-173 | succeeds exactly for one root and at most three children per slave, and then names one link per child |
| `SimScene.Scene.ScanToEditorOrder` | tools/kickui/Simulator.cc:205-232 | non-empty exactly for one root with parents before children, and then a pre-order permutation of all slaves |
| `SimScene.DfsEditorOrder` | tools/kickui/Simulator.cc:180-203 | appends the branch of a slave in pre-order |
| `SceneTree.PreOrderCount` | tools/kickui/Simulator.cc:180-203 | every slave of a branch occurs in its pre-order exactly once, and no other |
| `SceneTree.PreOrderIsPermutation` | tools/kickui/Simulator.cc:205-232 | the scan lists every slave exactly once, so the size check never rejects |
| `SceneTree.ScanMeetsKids` | tools/kickui/Simulator.cc:180-203 | the scan meets the children of every slave in the order they are listed |
| `ScenePorts.ScanKidsRanked` | tools/kickui/Simulator.cc:180-203 | the sorted children lists hold each child once, in processing order |
| `ScenePorts.PortsAlongScan` | tools/kickui/Simulator.cc:180-203 | with at most three children the k-th one scanned is on the k-th port in use |
| `ScenePorts.RankingUnique` | tools/kickui/Simulator.cc:180-203 | with at most three children every sort by rank gives the same order |
| `Wiring.LinksUsePorts` | tools/kickui/Simulator.cc:108-173 | the links use exactly the ports the children's turns name, each once |
| `Wiring.PortsTakeOnePlug` | tools/kickui/Simulator.cc:108-173 | no port takes two plugs, the master's two cables included |
| `Wiring.TopologyIsTree` | tools/kickui/Simulator.cc:108-173 | n - 1 links connect every slave to the root |
| `Wiring.PortsVisitKids` | tools/kickui/Simulator.cc:180-203 | visiting ports 3, 1, 2 of a slave visits its children in scan order |
| `EmulatedNetwork.Network.constructor` | lib/slave/src/EmulatedNetwork.cc:47-74 | slaves wired as a line |
| `EmulatedNetwork.Network.Connect` | lib/slave/src/EmulatedNetwork.cc:76-90 | plugs a cable, the first explicit one dropping the line |
| `EmulatedNetwork.Network.ApplyTopology` | lib/simulation/src/Topology.cc:61-81 | injection points and links of a topology applied in order |
| `EmulatedNetwork.Network.MarkMasterPorts` | lib/slave/src/EmulatedNetwork.cc:244-310 | exactly the injection ports carry a master cable |
| `EmulatedNetwork.Network.WalkFrame` | lib/slave/src/EmulatedNetwork.cc:124-166 | the recursive walk is the walk function on the wiring |
| `FrameWalk.LinksWire` | lib/slave/src/EmulatedNetwork.cc:76-90 | joining the links of a scene wires every port to the child or parent it belongs to |
| `FrameWalk.BuildSegment` | lib/simulation/src/Topology.cc:61-81 | applying a scene's topology to a fresh segment wires the scene |
| `FrameWalk.WalkTree` | lib/slave/src/EmulatedNetwork.cc:124-166 | a frame entering a branch from above passes it in pre-order, leaving at the end of a ring |
| `FrameWalk.FrameFollowsScan` | lib/slave/src/EmulatedNetwork.cc:124-166 | the frame passes the slaves in scan order, on a ring up to its end, within the walk budget |
| `RingWalk.TailFrame` | lib/slave/src/EmulatedNetwork.cc:124-166 | a frame sent into the closing cable climbs to the root and passes what is scanned after the last slave |
| `RingWalk.ScanSplits` | tools/kickui/Simulator.cc:180-232 | the scan is what is met up to the last slave of the scene and what lies after it |
| `RingWalk.RingFrames` | lib/slave/src/EmulatedNetwork.cc:124-166 | on a ring the frame from the root leaves by the closing cable, the one sent into that cable leaves at the root, and together they pass every slave in scan order |
| `StationScan.Passages` | lib/master/src/Link.cc:211-245 | a frame written on one interface and then on the other passes every slave in scan order, with or without a ring |
| `StationScan.Address` | lib/slave/src/ESC/EmulatedESC.cc:511-520 | a datagram counting up from minus `i` writes to the `i`-th slave passed and no other, and is counted once; past the last slave it is not counted |
| `StationScan.SendFrame` | lib/master/src/Bus.cc:356-369 | one frame numbers its slaves, and fails if and only if one of its datagrams finds none |
| `StationScan.SetAddresses` | lib/master/src/Bus.cc:352-385 | in frames of fifteen, the slave scanned `i`-th gets station address 1001 + `i` in sixteen bits; it fails if and only if more slaves are expected than there are |
| `Discovery.GetTopology` | lib/master/src/Diagnostics.cc:13-60 | fails without slaves or on a slave without open port, else maps every slave to the guessed parent |
| `Discovery.CountOpenPorts` | lib/master/src/Slave.cc:81-92 | counts the communicating ports |
| `DiscoveryCorrect.BranchGuessed` | lib/master/src/Diagnostics.cc:13-60 | scanning a branch guesses its parents and returns to the innermost open branch |
| `DiscoveryCorrect.LineGuessed` | lib/master/src/Diagnostics.cc:13-60 | without a ring every parent is guessed right |
| `DiscoveryCorrect.RingEndEarlier` | lib/master/src/Diagnostics.cc:13-60 | a ring end that is not scanned last makes the guess wrong |
| `DiscoveryCorrect.GuessExact` | lib/master/src/Diagnostics.cc:13-60 | the guess is right if and only if there is no ring or its end is scanned last |
| `PortRouting.ComputePortRouting` | tools/kickui/TopologyView.cc:12-53 | the upstream port is the lowest open one, and children take the others in processing order |
| `Inference.FlagsOfScene` | lib/slave/src/EmulatedNetwork.cc:215-236 | a wired slave communicates upwards, on one port per child, and on port 1 at the ring's end |
| `Inference.ComputeTopology` | tools/kickui/BusSession.cc:72-123 | the discovered parents, or every slave its own parent when discovery fails |
| `Inference.RoutingInvertsWiring` | tools/kickui/TopologyView.cc:12-53 | routing computed from the tree finds port 0 upstream and the very port the scene assigned, with or without a ring |
| `Inference.DiscoveryExact` | lib/master/src/Diagnostics.cc:13-60 | discovery over a wired scene reports every parent if and only if there is no ring or its end is scanned last |
| `Inference.SceneRecovered` | tools/kickui/TopologyView.cc:12-53 | from the open ports on the wire the tool recovers every parent and port of the scene |
| `Inference.RingEndTakesNext` | lib/master/src/Diagnostics.cc:13-60 | the slave scanned after the end of a ring is reported to hang on it, which its parent never is |
| `SceneReadBack.ReadBack` | tools/kickui/TopologyView.cc:12-53 | a scene written, wired, walked, numbered, discovered and routed gives every slave its own parent and port back if and only if there is no ring or it closes on the slave scanned last; else the next slave hangs on its end |
| `SceneReadBack.RingExample` | lib/master/src/Diagnostics.cc:13-60 | two slaves on the first and a ring: the slave scanned last is reported under the other one |
| `DatagramFormat.DecodeEncode` | lib/src/Frame.cc:187-203 | a datagram is read back as written, wherever it stands |
| `DatagramFormat.EncodeDecode` | lib/src/Frame.cc:187-203 | the bytes read as a datagram are its encoding |
| `DatagramFormat.ReadAllBack` | lib/src/Frame.cc:187-225 | a written chain is read back whole, whatever follows it |
| `DatagramFormat.ClosedInPlace` | lib/src/Frame.cc:168-173 | clearing one bit in place rewrites just the last datagram |
| `DatagramFormat.PaddingReads` | lib/src/Frame.cc:176-182 | the padding of an empty frame reads as an empty NOP |
| `Frame.Frame.constructor` | lib/src/Frame.cc:9-28 | an empty frame, broadcast destination, EtherCAT type |
| `Frame.Frame.FreeSpace` | lib/src/Frame.cc:65-69 | the complement of the datagrams' size and of the length field |
| `Frame.Frame.IsFull` | lib/src/Frame.cc:72-85 | full exactly at fifteen datagrams or when no empty one fits |
| `Frame.Frame.AddDatagram` | lib/src/Frame.cc:88-150 | the frame holds one more datagram, its payload zeros for reads, the length field and the last position following; all other bytes stay |
| `Frame.Frame.Finalize` | lib/src/Frame.cc:168-184 | closes and pads the frame, resets the context, and returns the bytes to send |
| `Frame.Frame.NextDatagram` | lib/src/Frame.cc:187-203 | returns the datagram at the cursor and resets the context after the last |
| `Frame.Frame.PeekDatagram` | lib/src/Frame.cc:206-225 | returns the datagram at the cursor and nothing after the last |
| `Frame.BuiltStep` | lib/src/Frame.cc:88-150 | the frame invariant survives one more datagram |
| `FrameTransfer.Drain` | lib/src/Frame.cc:187-203 | taking datagrams while there are any yields the whole chain, for every readable frame |
| `FrameTransfer.DrainPeeking` | lib/src/Frame.cc:206-225 | peeking until nothing is left yields the same chain |
| `FrameTransfer.WireReadsBack` | lib/src/Frame.cc:88-225 | whoever receives the bytes sent reads the datagrams back, `multiple` set on all but the last |
| `FrameTransfer.WriteFrame` | lib/src/Frame.cc:273-291 | the closed frame goes out, the result tells whether all of it did, and the frame is ready for reuse |
| `FrameTransfer.ReadFrame` | lib/src/Frame.cc:234-270 | the result and buffer for every outcome of the socket |
| `FrameTransfer.AcceptedWhole` | lib/src/Frame.cc:234-291 | a frame sent is accepted if and only if all its bytes come back, and then reads back |
| `FrameTransfer.Collect` | lib/src/Frame.cc:234-270 | reading a frame that was sent whole yields its datagrams |
| `FrameTransfer.Carry` | lib/src/Frame.cc:88-291 | a frame written, carried whole and read by another delivers its datagrams and is ready for reuse |
| `LinkDispatch.Link.AddDatagram` | lib/master/src/Link.cc:69-95 | refused exactly with 255 in flight, else the window grows by one and a full frame goes out |
| `LinkDispatch.Link.SendFrame` | lib/master/src/Link.cc:268-307 | one more frame under way, or exactly the frame's datagrams marked unsent |
| `LinkDispatch.Link.Dispatch` | lib/master/src/Link.cc:350-382 | every datagram offered is stale, was content, or reaches its callback |
| `LinkDispatch.Link.ReadBack` | lib/master/src/Link.cc:115-149 | all readings are dispatched, at most two per frame |
| `LinkDispatch.Link.ProcessDatagrams` | lib/master/src/Link.cc:107-178 | callbacks, then all the errors of the window in order whichever of them throw, then an empty window and the last exception thrown again |
| `LinkDispatch.ErrorsOnce` | lib/master/src/Link.cc:152-166 | a datagram not content is reported once, with its status, and no other |
| `LinkDispatch.EachEndsOnce` | lib/master/src/Link.cc:107-178 | every datagram ends once: content and not processed again, or reported failed; leftovers of earlier cycles touch nothing |
| `LinkMerge.MergeSplitLrw` | lib/master/src/Link.cc:13-52 | the loops compute the merge function in place |
| `LinkMerge.AttributedExactly` | lib/master/src/Link.cc:31-44 | the working counter of the first side tells exactly how many slaves it has |
| `LinkMerge.MergeRebuilds` | lib/master/src/Link.cc:13-52 | wherever the ring is broken, merging the two copies gives what the intact ring returns |
| `LinkMerge.MergeAccepted` | lib/master/src/Link.cc:27-44 | whatever slaves that do not answer leave behind: the counters add up to the expected one if and only if all answered, and then the merge is what the intact ring returns |
| `SdoInformation.Information.Process` | lib/src/CoE/mailbox/request.cc:352-400 | passes what is not an information reply, ends on an error, and gathers what answers its opcode |
| `SdoInformation.Information.ProcessResponse` | lib/src/CoE/mailbox/request.cc:402-449 | a fragment is copied if it fits, the last one ends the request |
| `SdoInformation.Gathered` | lib/src/CoE/mailbox/request.cc:411-438 | over any number of fragments and other replies: the buffer holds the fragments joined as long as they fit, and the status tells whether all did |
| `SdoInformation.Completes` | lib/src/CoE/mailbox/request.cc:411-449 | the last fragment ends with success if and only if the whole answer fits, which the client then has, with its size |
| `SdoInformation.TooSmallLeft` | lib/src/CoE/mailbox/request.cc:377-427 | a too small buffer is no longer reported after exactly the replies that are an error with another code or ill-formed |
| `RequestMailbox.Mailbox.CreateRequest` | lib/src/Mailbox.cc:53-63 | an inactive mailbox throws, else the SDO transfer or information request is queued with the next counter |
| `RequestMailbox.Mailbox.CreateGatewayMessage` | lib/src/Mailbox.cc:66-91 | refused exactly when too small, too big or shorter than declared, without spending a counter |
| `RequestMailbox.GatewayOf` | lib/src/Mailbox.cc:236-255 | the message remembers the address asked for and carries the masked index |
| `RequestMailbox.Mailbox.StepCounter` | lib/src/Mailbox.cc:15-23 | one to seven and round again |
| `RequestMailbox.Mailbox.Status` | lib/src/Mailbox.cc:223-233 | a running message past its deadline has timed out |
| `RequestMailbox.Mailbox.Send` | lib/src/Mailbox.cc:147-158 | the front message goes out and waits if it still runs |
| `RequestMailbox.Mailbox.RemoveTimedOut` | lib/src/Mailbox.cc:163-170 | exactly the timed-out messages leave, the others keep their order |
| `RequestMailbox.Mailbox.Receive` | lib/src/Mailbox.cc:161-201 | the first message that takes the reply decides what becomes of it, whatever length the reply declares |
| `RequestMailbox.Mailbox.Offer` | lib/src/Mailbox.cc:172-197 | one message takes the reply and goes on, finishes or stays, or passes it |
| `RequestRuns.EveryRun` | lib/src/Mailbox.cc:147-201 | over every run: one queue and once, leaving only by timeout or finishing, never forgotten, a settled status kept if and only if no reply overturns it, counters cycling through 1 to 7 |
| `RequestRuns.LeavesSettled` | lib/src/Mailbox.cc:147-201 | a message leaves the queues only by timing out or finishing on a reply |
| `RequestRuns.SettledAlways` | lib/src/Mailbox.cc:223-233 | over every run a message keeps its kind, and its settled status if and only if no step in between overturns it |
| `RequestRuns.OverturnedExact` | lib/src/CoE/mailbox/request.cc:377-438 | a step changes a settled status if and only if a reply goes to an information request kept with a too small buffer and is an error or ill-formed; the request then leaves |
| `RequestRuns.OutlivesDeadline` | lib/src/Mailbox.cc:163-170 | past its deadline a message stays if and only if it is an information request whose buffer was too small |
| `RequestRuns.ErrorOverturns` | lib/src/CoE/mailbox/request.cc:377-438 | a run, for every request, too large fragment and later error, in which a too small buffer is first reported and then the error |
| `RequestRuns.OneTaker` | lib/src/Mailbox.cc:172-200 | a reply changes at most one message and the others keep their order |
| `RequestRuns.GatewayCompletes` | lib/src/Mailbox.cc:271-296 | a fitting gateway reply completes its message, address restored, nothing else changed, if and only if no standing handler ahead takes its type and service |
| `RequestRuns.GatewayIgnored` | lib/src/Mailbox.cc:271-296 | a gateway reply is taken by none if and only if no standing handler takes its type and service and no message with its index has room |
| `RequestRuns.GatewayVerdict` | lib/src/CoE/mailbox/request.cc:64-75 | SDO transfers and information requests pass every gateway reply; what is left is the standing handlers and the message asked |
| `RequestRuns.GatewayBehindHandlers` | lib/master/src/Bus.cc:117-137 | behind the handlers installed at start exactly errors and CoE other than emergencies and SDO requests reach their message |
| `RequestRuns.GatewayReplyLost` | lib/src/CoE/mailbox/request.cc:481-517 | a gateway reply that is neither CoE nor an error is taken by a check handler ahead, its request left waiting |
| `ResponseMailbox.Mailbox.HandleMessage` | lib/src/Mailbox.cc:383-428 | the message has the outcome the sessions and factories determine |
| `ResponseMailbox.Mailbox.AskSessions` | lib/src/Mailbox.cc:385-408 | the first session that wants the message takes it |
| `ResponseMailbox.Mailbox.Process` | lib/src/Mailbox.cc:431-456 | the first session with work to do does it |
| `ResponseMailbox.Mailbox.PopReply` | lib/src/Mailbox.cc:458-468 | the front reply, or an empty one |
| `ResponseMailbox.Mailbox.ReplyError` | lib/src/Mailbox.cc:565-581 | queues the refusal of the message |
| `ResponseMailbox.Refusal` | lib/src/Mailbox.cc:565-581 | an error message with the code, keeping address, channel, counter and the rest of the request |
| `ResponseRuns.EveryRun` | lib/src/Mailbox.cc:383-468 | over every run: at most `max_msgs` sessions, those begun and not ended in that order; every message handled once taken, opening or refused; the refusals queued are those of the refused messages in order; replies leave in order |
| `ResponseRuns.OldestTakes` | lib/src/Mailbox.cc:383-428 | in every run a message goes to the oldest open session that wants it, opens one or is refused for memory exactly when none does |
| `RepeatHandshake.Mailbox.Send` | lib/src/Mailbox.cc:505-557 | one call has the effect of the step function on ESC and mailbox |
| `RepeatHandshake.Mailbox.Reply` | lib/src/Mailbox.cc:589-592 | queues the reply |
| `RepeatHandshake.Esc.Write` | lib/slave/src/ESC/EmulatedESC.cc:276-292 | a full mailbox refuses, and the last byte written fills it |
| `RepeatHandshake.RepliesArriveInOrder` | lib/src/Mailbox.cc:505-557 | over every interleaving in which no repeat is asked for while a reply waits for its first reading: what is fetched, repeats collapsed, is what was queued, in order and without loss |
| `RepeatHandshake.StepKeeps` | lib/src/Mailbox.cc:505-557 | every step of slave and master keeps the handshake invariant |
| `RepeatHandshake.AskExact` | lib/src/Mailbox.cc:520-538 | in every state of the handshake a repeat asked for and served costs no reply if and only if none waits for its first reading |
| `RepeatHandshake.AskExactAlways` | lib/src/Mailbox.cc:520-538 | the same after every allowed run |
| `RepeatHandshake.AskingDisplaces` | lib/src/Mailbox.cc:520-538 | what an untimely repeat displaces, and what the mailbox then holds: the reply read before, or nothing |
| `RepeatHandshake.DisplacedComesAsRepeat` | lib/src/Mailbox.cc:510-538 | a displaced reply that is asked for comes as the repeat of another |
| `RepeatHandshake.SendExact` | lib/src/Mailbox.cc:540-556 | sending costs no reply if and only if the one sent is not shorter than the mailbox |
| `RepeatHandshake.ShortReplyExact` | lib/src/Mailbox.cc:540-556 | after every allowed run that leaves the mailbox free, a reply arrives if and only if it is not short |
| `RepeatHandshake.AskingWhileFullLoses` | lib/src/Mailbox.cc:520-538 | a run in which the second of two replies is displaced, for every mailbox size |
| `RepeatHandshake.ShortReplyLost` | lib/src/Mailbox.cc:550-556 | a run in which a reply shorter than the mailbox is overwritten by the next |
| `OdScan.Scan.ExecuteDiscover` | tools/kickui/BusSession.cc:2334-2533 | emits the list from where it resumes to where it halts, ends as the verdict says, and pushes its end if there is room |
| `OdScan.Scan.Attempt` | tools/kickui/BusSession.cc:2352-2526 | one phase: an exception, a missing list, a list read to where it halts, or another try in the next phase |
| `OdScan.Scan.ScanObjects` | tools/kickui/BusSession.cc:2411-2509 | the object loop emits the objects up to where it halts |
| `OdScan.Scan.CheckAbort` | tools/kickui/BusSession.cc:1844-1859 | whether the scan has to yield |
| `OdScan.OnePhase` | tools/kickui/BusSession.cc:2334-2533 | a resume point lies in the list, a scan that ends without error is incomplete if and only if it was stopped short, and an unchanged list never looks shrunk |
| `OdScan.ScanComplete` | tools/kickui/BusSession.cc:2334-2533 | over any number of phase changes the objects are an in-order prefix of the list, and all of it when the scan ends without error if and only if the last phase was not stopped short |
| `OdScan.StopLooksFine` | tools/kickui/BusSession.cc:2513-2532 | for every list and every number of objects short of all, a stop after just those ends the scan without error |
| `EventRing.Ring.Push` | lib/include/kickcat/Ring.h:41-53 | the entry is last, unless all 4096 places are taken; the 32-bit counters may wrap |
| `EventRing.Ring.Pop` | lib/include/kickcat/Ring.h:55-67 | the oldest entry leaves, and the others keep their order |
| `ScanSession.Session.PushEvent` | tools/kickui/BusSession.cc:135-138 | refused exactly when the ring is full, and else the bus thread's step of the state machine |
| `ScanSession.Session.Apply` | tools/kickui/BusSession.cc:145-180 | one event changes what is shown of its slave |
| `ScanSession.Session.DrainEvents` | tools/kickui/BusSession.cc:140-182 | every event is shown in order, as the state machine's pops do |
| `ScanSession.Session.DiscoverOd` | tools/kickui/BusSession.cc:2249-2266 | a scan is shown as running and queued, unless one of the slave is shown as running |
| `ScanSession.Session.Drop` | tools/kickui/BusSession.cc:785-818 | queued scans, events and what was shown are dropped |
| `ScanDisplay.StepKeeps` | tools/kickui/BusSession.cc:135-182 | every step of bus thread and user interface keeps the invariant between list, ring, queue and display |
| `ScanRuns.ShownRight` | tools/kickui/BusSession.cc:140-182 | at every moment of every interleaving the objects shown are an in-order prefix of the list, and all of it when the scan is shown as ended without error |
| `ScanRuns.PhaseEmits` | tools/kickui/BusSession.cc:2334-2533 | a phase pushes what the scan's code emits in it, and ends as that code does |
| `ScanRuns.EndSeen` | tools/kickui/BusSession.cc:2528-2532 | the end of a scan is accepted if and only if the ring is not full, and once the ring is empty it has been shown if and only if the session was not closed while it was in the ring |
| `ScanRuns.EndShown` | tools/kickui/BusSession.cc:161-167 | the step that takes the end out shows the scan as ended, with its error |
| `ScanRuns.RefusedSeemsRunning` | tools/kickui/BusSession.cc:2249-2266 | a scan whose end was refused is shown as running, with no other of the slave started, until the session is closed |
| `ScanRuns.EndFits` | tools/kickui/BusSession.cc:2381-2532 | with a place for each object to come, for each announcement and for the end, and nothing else pushed, the end is not refused |
| `ScanLoss.EndCanBeLost` | tools/kickui/BusSession.cc:2500-2532 | for any list that fits the ring and any second one that, with it, their totals and their ends, exceeds it: a run of two scans in which the end of the second finds the ring full |
| `ErrorCounters.Diagnostics.SampleSlave` | tools/kickui/BusSession.cc:2060-2086 | the port loop moves totals, last values and the saturation mark |
| `ErrorCounters.Diagnostics.Refresh` | tools/kickui/BusSession.cc:2030-2098 | answers are cached, every slave is swept from the cache, and a clear is due exactly when asked for or a cached counter is high; when reading throws only the cache moves |
| `ErrorCounters.Diagnostics.TakeAnswers` | lib/master/src/Bus.cc:1495-1512 | a slave that answers is cached, one that does not keeps its old counters |
| `ErrorCounters.Diagnostics.Sum` | tools/kickui/BusSession.cc:2051-2097 | every cached slave is summed up, and the last values forgotten when clearing |
| `ErrorCounters.AfterAt` | tools/kickui/BusSession.cc:2068-2085 | each total grows by what its counter moved |
| `ErrorLedger.LedgerFollows` | tools/kickui/BusSession.cc:2038-2097 | the sweep moves a counter, its cached copy and its total as the ledger does, answered or not, summed or given up |
| `ErrorLedger.AlwaysBalanced` | tools/kickui/BusSession.cc:2030-2098 | over every run, whatever fails or stays silent: total and missed events make up the true events and those counted again |
| `ErrorLedger.FaultsCost` | tools/kickui/BusSession.cc:2060-2097 | what each of five faults costs: a repeat is counted again, overflows, wipes and slips are lost events, a clear that does not arrive leaves the register to be counted again |
| `ErrorLedger.RightExact` | tools/kickui/BusSession.cc:2030-2098 | over every run a total is right if and only if what it lacks is what it counts again, and is off by the difference |
| `ErrorLedger.FaultlessIsRight` | tools/kickui/BusSession.cc:2030-2098 | without overflow, silence after a clear, silence at a clear, a clear that does not arrive and a clear that wipes newer events, a total is right at every moment |
| `ErrorLedger.DebtlessThroughout` | tools/kickui/BusSession.cc:2030-2098 | a total is right and nothing stands against its next sum, all through a run, if and only if none of the five happens in it |
| `ErrorLedger.DebtsBooked` | tools/kickui/BusSession.cc:2060-2097 | summing a new read keeps a total right if and only if the events lost and the last value make up what the register held |
| `ErrorLedger.FaultsCancel` | tools/kickui/BusSession.cc:2088-2097 | a failed clear and an overflow that leave the total right, for every high counter |
| `ErrorLedger.SlipShowsLate` | tools/kickui/BusSession.cc:2088-2097 | events wiped by a clear show in the total only with the next read |
| `ErrorLedger.WhichRepeat` | lib/master/src/Bus.cc:1495-1512 | over every run an unanswered automatic sweep moves a total if and only if the sweep before it cleared and the last answer was not zero or, where a newer read was left unsummed, that read is neither zero nor the last value |
| `ErrorLedger.TotalsTell` | tools/kickui/BusSession.cc:2030-2098 | with working clears and no harmful silence a total never exceeds the truth and equals it unless saturation is reported |
| `ErrorLedger.CountsExactly` | tools/kickui/BusSession.cc:2051-2085 | with at most 63 events between answered sweeps no counter fills and the total is the truth |
| `ErrorLedger.FailedClearCountsTwice` | tools/kickui/BusSession.cc:2088-2097 | a failed clear makes the next sweep count the register again |
| `ErrorLedger.StaleCopyCountsOn` | tools/kickui/BusSession.cc:2060-2097 | a slave that stays away after a clear has its old counter added in each of any number of sweeps |
| `CommandQueue.Actor.SeedPass` | tools/kickui/BusSession.cc:1543-1560 | motor updates leave, the others keep their order |
| `CommandQueue.Actor.TakeIdle` | tools/kickui/BusSession.cc:1793-1809 | the front command |
| `CommandQueue.Actor.TakeCyclic` | tools/kickui/BusSession.cc:1661-1692 | the commands the loop applies itself and at most one other |
| `CommandQueue.Actor.ExecuteSdo` | tools/kickui/BusSession.cc:2268-2332 | on every path an awaited request is marked done once, with its result |
| `CommandQueue.Actor.Dispatch` | tools/kickui/BusSession.cc:1828-1842 | only reads and writes report, and they are marked done with what they met |
| `CommandQueue.Actor.Enqueue` | tools/kickui/BusSession.cc:1751-1756 | the command is queued last |
| `CommandQueue.Actor.RunIdle` | tools/kickui/BusSession.cc:1791-1825 | a round of the idle phase takes and executes as the state machine does |
| `CommandQueue.Actor.RunSeed` | tools/kickui/BusSession.cc:1543-1560 | so does entering the cyclic phase |
| `CommandQueue.Actor.RunTick` | tools/kickui/BusSession.cc:1661-1700 | so does a cyclic tick |
| `CommandQueue.Actor.CancelAll` | tools/kickui/BusSession.cc:1033-1045 | every request still queued is marked done as cancelled, as the state machine does |
| `CommandQueue.EveryRun` | tools/kickui/BusSession.cc:1018-1045 | over every run and both phases: first come first served, requests marked in order, exactly those marked have a result, all of them once the thread is stopped |
| `CommandQueue.MarkedOnce` | tools/kickui/BusSession.cc:2268-2332 | no result is marked twice |
| `CommandQueue.ResultsStay` | tools/kickui/BusSession.cc:2268-2332 | a result once given is never overwritten |
| `EventLog.Log.Append` | tools/kickui/EventLog.cc:26-34 | appends and trims to 500 entries |
| `EventLog.Log.Unacked` | tools/kickui/EventLog.cc:36-40 | the number of unread entries of whatever story the log stands for |
| `EventLog.Log.UnackedSevere` | tools/kickui/EventLog.cc:42-49 | whether one of the unread entries of that story is severe |
| `EventLog.StepRefines` | tools/kickui/EventLog.cc:26-55 | every operation on the bounded log is the view of the operation on the unbounded one |
| `EventLog.AlwaysTells` | tools/kickui/EventLog.cc:26-55 | after any run: the last 500 entries, and past the acknowledged ones exactly the unread entries of the unbounded log |

## Left out

- Service messages and the object dictionary: the mailbox takes the answers of SDO transfers as given, and of emergencies and unexpected messages only who takes them is modelled.
- SdoInformation.Completes: sizes are unbounded, where the code counts in 32 bits; the capacity is what the client said at the start.
- The EtherCAT state machine, distributed clocks, process image mapping, CiA 402 drives, sockets, gateway transport and the command line tools.
- The user interface, drawing, plots and file dialogs; the text of topology and scene files, of which only the content is modelled.
- `EmulatedESC` beyond the mailbox flags and the counting of positions, `EmulatedNetwork`'s receive times and link breaking.
- `Link::writeThenRead`'s failures and frame checks, `checkRedundancyNeeded`, the event callbacks, and the merging of the two copies for commands other than a mapped LRW.
- LinkDispatch.Link.ProcessDatagrams: an exception thrown by a process callback, which leaves the window as it is, is not modelled.
- LinkMerge.MergeRebuilds: is about frames every slave answered; `LinkMerge.MergeAccepted` covers the others.
- A second reading of the indices after 256 datagrams: a leftover whose index has come round again is taken for the new datagram, in the model as in the code.
- ScenePorts.ScanKidsRanked: `std::sort` leaves the order of equal ranks open, which needs more than three children on a slave; the model keeps their order, and the lemmas about scans hold for every order.
- RepeatHandshake.RepliesArriveInOrder: takes replies that fill the mailbox and no repeat asked for while a reply waits for its first reading; `AskExactAlways` and `ShortReplyExact` show that it fails without either.
- SiiReading.RoundTripExact: takes a string table, an FMMU list and a sync manager list of less than 64 KiB each; a longer one wraps its size and is read as further categories, which may add to the same list.
- StationScan.SetAddresses: takes at most 65536 slaves, as many as there are positions.
- SceneReadBack.ReadBack: likewise takes at most 65536 slaves.
- OdScan.ScanComplete: takes the list of objects as unchanged between phases, and the stop flags as only ever raised while a scan runs, as only the scanning thread lowers them.
- ScanRuns.ShownRight: takes the object list of a slave as unchanged within a session; the content of an object beside its index is not modelled.
- ScanSession.Session.DrainEvents: has nobody pushing meanwhile; pushes between two pops are steps of the state machine, and `ScanRuns` covers every order of them.
- ScanSession.Session.DiscoverOd: is about a connected session; without one the code does nothing.
- ErrorCounters.Diagnostics.Refresh: totals are unbounded, where the code has 64 bits.
- CommandQueue.EveryRun: takes only reads and writes as awaited, as the two functions that ask for a result do; a step takes and executes a command at once; the state change of an operated slave that is taken from the queue just before the cyclic loop ends counts as taken.
- EventLog: what `update` logs for a snapshot is not modelled.
