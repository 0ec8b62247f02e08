# A verified model of a SIP/RTP voice gateway

The gateway answers SIP calls, bridges their RTP audio to a bot over AudioSocket or gRPC, and can
record both directions. This project models five of its parts and proves what they are for.

* **Signalling** (`Transactions`, `Registry`, `RtpPorts`, `Calls`, `Gateway`, `Safety`, `Guarantees`,
  `Requests`, `Scenarios`, `Sessions`, `GatewayApp`). The handler of SIP messages, the transaction clean-up, the call
  registry, the sessions and the port allocator form one transition system, `Gateway.Step`: a message
  arrives, transactions are swept out, time passes, an operator cuts a call, and a session goes with
  its last reference. `Safety` and `Guarantees` prove invariants over every run, `Requests` what each request
  is answered with and what it does; `Sessions` and
  `GatewayApp` are the objects of the program, whose methods change maps, sets and fields in place
  and are proved to take exactly the steps of that system.
* **Text protocols** (`Text`, `SipMessage`, `SipParser`, `SipRoundTrip`, `SipResponse`, `SipText`,
  `Sdp`, `SdpRoundTrip`, `SdpText`). Parser and printer of SIP messages with their stable header multimap, the response
  builder, and the negotiation, printing and parsing of session descriptions. All the way down to
  characters, decimal numbers and trimming. `SipText` and `SdpText` say what is read and written
  without reference to the program's own functions: which text a response or an answer is, and what
  any well-formed request or offer is read as.
* **Jitter buffer** (`Jitter`). Insertion by 16-bit numbers that wrap around, five packets deep.
* **Audio path** (`G711`, `Pcm`, `Downlink`, `MediaStages`, `AudioSocket`). Companding with its
  `int16_t` arithmetic, the gain, the bounded downlink stream that both bridge stages keep, and the
  framing on the AudioSocket connection.
* **Recorder** (`Mixer`, `Recorder`, `Wav`). The producer/worker queue and its shutdown, the mixer of
  two streams with saturation and flush, and the WAV file with its sizes.

`dfyconfig.toml` lists the whole project, so `dafny verify dfyconfig.toml` checks it.

Session identity is a type parameter of the transition system; the objects instantiate it with
references. Time is a tick counter; the operating system's part in an allocation is a function from
ports to outcomes; the clock value in a generated tag and the epoch in the identification frame are
parameters. SIP messages and session descriptions are datatypes because the program copies them as
values.

## What the proofs say about the code

Some statements one might expect are not true of the code. The model keeps the code, and the lemmas
give the exact condition.

* An INVITE accepted for a call that is already registered overwrites the session's port without
  releasing it (src/call/CallSession.cpp:46), and a failing epoll registration leaves its entry in
  the worker's map (src/rtp/RtpWorker.cpp:63-66). Such a port stays in use for ever
  (`LostForEver`). These are the only two ways to lose one, and when they happen can be told
  beforehand (`InviteLosesExactly`, `LeaksExactly`); `LeakExample` is a run that loses one.
* A repeated INVITE that is refused, with 500 or 488, also ends the call it repeats: the registry
  entry is removed in both branches (src/app/GatewayApp.cpp:131-153). A registered call survives
  another INVITE exactly when there is a free port once more and the best match of offer and
  preferences exists and is not of payload type -1 (`CallSurvivesExactly`); `EndedExample` is a run that ends one.
* The 400 branch of the INVITE handling is dead, since the description parser always returns a
  session or throws (src/sdp/SdpParser.cpp:69). The model has no such branch.
* A parsed response has no method, so it reaches no transaction of an ordinary request
  (`ResponsesReach`), although the handler looks one up (src/app/GatewayApp.cpp:208-218).
* An accepted INVITE is in a terminated state and a repetition of it is met with silence, not with
  the 200 again (`RestResends`).
* The transaction key joins three texts by colons and is ambiguous for exactly the branches and
  methods that contain one (`KeyIsAmbiguous`).
* A negative limit on calls is compared as an unsigned number, so it applies only near 2 to the 64
  calls (`NegativeLimit`).
* The sample -32768 is negated in an `int16_t` and stays as it is, so it is encoded as near silence;
  with the gain this happens to every sample of -10923 or below (`FrameIsClose`).
* A negotiated payload type of -1 counts as "no codec found", even where another match would do
  (`AnswerIsBest`, and `MinusOneIsRefused` for an offer where it matters). An offer is negotiable
  when its best match exists and is not of payload type -1.
* A local address is read back from an answer exactly when it is not empty, has no space and no
  newline, and does not end in a blank (`AnswerRoundTrip`); an empty one is always misread
  (`EmptyAddressMisread`).
* A client whose reader loop has ended is not stopped by `stop`, the destructor's included: no terminate
  frame is sent, the socket stays open, and the reader thread is never joined
  (src/audiosocket/AudioSocketClient.cpp:50, `AudioSocket.HearOut`).
* The payload of an audio frame is sent even when its header could not be (src/audiosocket/AudioSocketClient.cpp:117-118,
  `AudioSocket.Client.SendAudio`).
* An ACK that is answered from the table, because a request of an odd method was filed under the same key,
  does not reach its INVITE (`RepetitionIsAnswered` says exactly which ACKs count).
* A packet that repeats a number already played out is played again (`LateIsPlayedAgain`, `PlayedAgain`;
  `SortsExactly` gives the exact bound for repetitions).

## Model

| member | source | states |
|---|---|---|
| `Jitter.JitterBuffer.Push` | src/rtp/JitterBuffer.cpp:6-30 | The scan in place gives the sequence of the insertion function, including the early exit on a held duplicate |
| `Jitter.JitterBuffer.Pop` | src/rtp/JitterBuffer.cpp:32-59 | The front comes out exactly when five packets are held; otherwise nothing changes |
| `Jitter.InsertedIsPlaced` | src/rtp/JitterBuffer.cpp:16-29 | Whatever the buffer holds: the scan stops at the first packet that has the number or is at most half the number space ahead of it, and the new packet goes in front of that one, to the end if there is none, and nowhere if it has the number |
| `Jitter.CompareIsOrder` | src/rtp/JitterBuffer.cpp:22-24 | Within half the number space the 16-bit comparison is the order of the unbounded sequence numbers, and equality is equality (RFC 1982 section 3.2, RFC 3550 section 5.1) |
| `Jitter.HalfSpaceIsTight` | src/rtp/JitterBuffer.cpp:22-24 | Half the number space apart the comparison is wrong, for every number |
| `Jitter.PushRefines` | src/rtp/JitterBuffer.cpp:16-29 | On 16-bit numbers the scan does exactly what insertion into a strictly increasing sequence does on the unbounded ones |
| `Jitter.InsertedExtIsSet` | src/rtp/JitterBuffer.cpp:16-29 | That insertion keeps the sequence strictly increasing, adds exactly its number, and leaves the sequence alone exactly for a number that is held |
| `Jitter.NothingIsLost` | src/call/CallSession.cpp:83-108 | Over every run of push-then-pop: pushed packets are popped, held and dropped ones, as multisets |
| `Jitter.DroppedIsDuplicate` | src/rtp/JitterBuffer.cpp:19-20 | A push drops a packet only when one of the same number is held |
| `Jitter.SortsExactly` | src/rtp/JitterBuffer.cpp:16-48 | For every stream within the window, repetitions included, over any number of wraps: the popped stream is strictly increasing if and only if no new packet is overtaken by more than four later-numbered ones and no repetition by more than three |
| `Jitter.LateIsPlayedAgain` | src/rtp/JitterBuffer.cpp:16-48 | The first packet of such a stream to come too late, if it repeats a number: that number has been played out, and the packet is played out at once behind it |
| `Jitter.PlayedAgain` | src/rtp/JitterBuffer.cpp:16-48 | The numbers 1, 2, 3, 4, 5, 1 are such a stream, within the window and with too much overtaking: the packet 1 is popped twice in a row and 2 to 5 stay held |
| `Jitter.SortedStream` | src/rtp/JitterBuffer.cpp:44-48 | Then popped and held packets together are the whole stream in order, each number once, and exactly max(0, N - 4) of N different packets have come out |
| `Jitter.RunMap` | src/rtp/JitterBuffer.cpp:6-48 | Payloads never influence a run |
| `Jitter.StreamOfAnything` | src/call/CallSession.cpp:83-108 | The sorting theorem, both directions, for packets of any content |
| `Sessions.CallSession.OnRtpPacket` | src/call/CallSession.cpp:83-108 | A packet of the negotiated payload type makes one push and one pop of the jitter run, and the popped packet is what the pipeline gets; any other packet changes nothing |
| `Sessions.CallSession.StartPipeline` | src/call/CallSession.cpp:43-47 | The session takes the new port and payload type; the old port is overwritten and not given back |
| `Sessions.CallSession.Terminate` | src/call/CallSession.cpp:26-41 | A held port is released at the allocator and forgotten, so a second call releases nothing; the payload type stays |
| `Sessions.Instances.SetUpCall` | src/app/GatewayApp.cpp:129-162 | The steps on registry, allocator and session objects from the port allocation on are the abstract set-up, on each of its three outcomes; after a 200 the session takes packets of the negotiated payload type |
| `Sessions.Instances.EndSession` | src/call/CallSession.cpp:26-41 | Ending a session changes the shared state as the abstract terminate does |
| `Sessions.Instances.Destroy` | src/call/CallSession.cpp:18-18 | The destructor of an unreferenced session gives back its port and removes it, and nothing else changes |
| `Registry.CallRegistry.AddCall` | src/call/CallRegistry.cpp:8-15 | A known Call-ID is refused and changes nothing; otherwise exactly one call is added |
| `Registry.CallRegistry.RemoveCall` | src/call/CallRegistry.cpp:25-37 | The call, its port list, and exactly the ports of that list go |
| `Registry.CallRegistry.RegisterRtpPort` | src/call/CallRegistry.cpp:39-43 | The port joins its call's list and the port map |
| `Registry.CallRegistry.GetCallByPort` | src/call/CallRegistry.cpp:45-54 | The session of the call a port is mapped to, if that call is known |
| `Registry.MapsAreInverse` | src/call/CallRegistry.cpp:39-43 | In agreement, a port maps to a call exactly when it is in that call's list |
| `Registry.MappedPortsLead` | src/call/CallRegistry.cpp:45-54 | In agreement, looking up a port succeeds exactly for mapped ports and gives the session of the call that lists the port |
| `Registry.RemovedIsConsistent` | src/call/CallRegistry.cpp:25-37 | Removal keeps the agreement and unmaps exactly the ports mapped to that call |
| `Registry.RegisteredIsConsistent` | src/call/CallRegistry.cpp:39-43 | Registering keeps the agreement when the port is not mapped yet |
| `Registry.RegisteredTwice` | src/call/CallRegistry.cpp:39-43 | Registering a mapped port always breaks the agreement, so callers must only register fresh ports |
| `RtpPorts.RtpWorker.AllocatePort` | src/rtp/RtpWorker.cpp:42-84 | The loop is the linear search, including the entry that a failed epoll registration leaves behind |
| `RtpPorts.RtpWorker.ReleasePort` | src/rtp/RtpWorker.cpp:86-98 | Exactly the named port leaves the active ones |
| `RtpPorts.ScanFinds` | src/rtp/RtpWorker.cpp:42-84 | The search returns the least port of its range and parity that is not active and whose socket works, or -1 if there is none, and adds exactly that port and the failed registrations before it |
| `RtpPorts.RangesDisjoint` | src/rtp/RtpServer.cpp:25-44 | No port lies in two workers' ranges, for every range and every number of workers, more workers than ports included |
| `RtpPorts.RangesCover` | src/rtp/RtpServer.cpp:25-44 | Every even port of the configured range lies in some worker's range |
| `RtpPorts.EqualSlices` | src/rtp/RtpServer.cpp:25-44 | Every worker but the last has a slice of the same size, starting at its first even port; the last one has what remains |
| `RtpPorts.RtpServer.constructor` | src/rtp/RtpServer.cpp:10-45 | The init loop leaves the workers the partition describes, with the thread count falling back to the cores and then to four |
| `RtpPorts.RtpServer.AllocatePort` | src/rtp/RtpServer.cpp:47-61 | The do-while loop over the workers is the abstract round robin; the number of workers still to ask decreases to the turn's start |
| `RtpPorts.RtpServer.ReleasePort` | src/rtp/RtpServer.cpp:63-71 | The release goes to the first worker whose range holds the port |
| `RtpPorts.AllocateGrants` | src/rtp/RtpServer.cpp:47-61 | An allocation returns -1 or a fresh, even, positive port with a working socket, keeps the workers in order with their ranges, and adds nothing else but failed registrations |
| `RtpPorts.AllocateExactly` | src/rtp/RtpServer.cpp:47-61 | When every registration succeeds, exactly the returned port becomes active |
| `RtpPorts.AskFails` | src/rtp/RtpServer.cpp:47-61 | A round that fails has asked every worker it passed, and each had nothing left |
| `RtpPorts.GrantedInTurn` | src/rtp/RtpServer.cpp:47-61 | The granted port is the first free one that opens, the workers taken in their turn, and the turn is then the next worker's; an allocation that fails leaves the turn where it was |
| `RtpPorts.RefusesOnlyWhenFull` | src/rtp/RtpServer.cpp:47-61 | A refusal means that every even port of the whole configured range is active or has no working socket |
| `RtpPorts.FreshIsPartitioned` | src/rtp/RtpServer.cpp:25-44 | After start-up the workers have the ranges of the partition |
| `RtpPorts.PartitionIsKept` | src/rtp/RtpServer.cpp:47-71 | No allocation and no release changes a worker's range |
| `RtpPorts.ActiveInside` | src/rtp/RtpWorker.cpp:42-84 | Every port in use lies in the configured range |
| `RtpPorts.GrantsExactly` | src/rtp/RtpServer.cpp:47-61 | A port is granted if and only if some even port of the configured range is free and its socket works, and the granted one is such a port |
| `RtpPorts.StrandedExactly` | src/rtp/RtpWorker.cpp:63-66 | An allocation leaves an entry behind for exactly the ports that were not in use, whose registration fails, and before which the search meets no free port with a working socket, the workers taken in their turn |
| `RtpPorts.ReleaseFrees` | src/rtp/RtpServer.cpp:63-71 | A release frees exactly the named port, in whatever worker it is |
| `RtpPorts.Balanced` | src/rtp/RtpServer.cpp:47-61 | From an empty server, while every worker has room, after k allocations each of n workers has the floor or the ceiling of k/n ports, the ceiling going to the first k mod n |
| `Calls.EstablishKeeps` | src/app/GatewayApp.cpp:129-162 | However setting up a call ends, every active port stays owned by one session or spare, never both; only an accepted repeated INVITE and failed registrations add spare ports |
| `Calls.EnlistGranted` | src/app/GatewayApp.cpp:130-139 | The port an allocation grants is never mapped to a call already, so registering it keeps the registry's maps in agreement |
| `Calls.EstablishedExactly` | src/app/GatewayApp.cpp:129-162 | The outcome of setting up a call is known beforehand: 500 without a free working port, 488 when the best match does not exist or is payload type -1, 200 otherwise, and the call is registered afterwards exactly with a 200 |
| `Calls.NegativeLimit` | src/app/GatewayApp.cpp:105-105 | A negative limit is compared as a number near 2 to the 64, and so is not reached by any smaller number of calls |
| `Calls.AdoptKeeps` | src/call/CallSession.cpp:43-47 | Overwriting a session's port keeps all ownership, the old port becoming a spare one |
| `Calls.FreeKeeps` | src/rtp/RtpServer.cpp:63-71 | Giving back an unmapped spare port keeps all ownership |
| `Calls.PortIsUnmapped` | src/call/CallSession.cpp:26-41 | Once a session is out of the registry, no call is reached over the port it still holds |
| `Calls.TerminateKeeps` | src/call/CallSession.cpp:26-41 | Terminating a session outside the registry frees exactly its own port and keeps every other owner |
| `Calls.DestroyKeeps` | src/call/CallSession.cpp:18-18 | So does destroying it, however late, and it is the only session that goes |
| `Transactions.SipTransaction.SendResponse` | src/sip/SipTransaction.cpp:12-41 | The state machine of both transaction kinds on sending, state by state and code by code, with the response and the time remembered |
| `Transactions.SipTransaction.ReceiveRequest` | src/sip/SipTransaction.cpp:43-50 | An ACK makes a completed INVITE confirmed and no other request changes the state; every request refreshes the time |
| `Transactions.SipTransaction.ReceiveResponse` | src/sip/SipTransaction.cpp:52-68 | The client-side transitions on a status code; every response refreshes the time |
| `Transactions.SipTransaction.ShouldResendResponse` | src/sip/SipTransaction.cpp:70-81 | A resend needs the same branch and a proceeding or completed state |
| `Transactions.ProvisionalOnly` | src/sip/SipTransaction.cpp:12-41 | After provisional responses alone a transaction is proceeding and remembers the last of them |
| `Transactions.ConclusiveRests` | src/sip/SipTransaction.cpp:12-41 | After provisional responses and one final response a transaction is terminated for an accepted INVITE and completed otherwise, and remembers the final response |
| `Transactions.RestResends` | src/sip/SipTransaction.cpp:70-81 | At rest a repetition is answered exactly for the same branch, unless the transaction is an accepted INVITE or was acknowledged (RFC 3261 sections 17.2.1 to 17.2.3) |
| `Transactions.EventsKeepRest` | src/sip/SipTransaction.cpp:43-68 | ACKs never, and responses never outside INVITE transactions, unsettle a transaction at rest or its remembered response |
| `Transactions.RestStaleness` | src/app/GatewayApp.cpp:233-245 | At rest a transaction is stale exactly once 33 seconds have passed since its last activity, and without a final response once 65 have; times are in nanoseconds |
| `Transactions.KeyIsInjective` | src/app/GatewayApp.cpp:77-78 | Two requests whose branch and method have no colon share a key only if Call-ID, branch and method all agree |
| `Transactions.KeyIsAmbiguous` | src/app/GatewayApp.cpp:77-78 | Exactly the requests with a colon in branch or method share their key with some other, colon-free request |
| `GatewayApp.GatewayApp.constructor` | src/app/GatewayApp.cpp:22-53 | Start-up leaves the initial state of the transition system, one port worker a core |
| `GatewayApp.GatewayApp.IsSafe` | src/app/GatewayApp.cpp:71-266 | Whatever has happened to a gateway object, its history is a run of the transition system from start-up to its state, and this state satisfies the whole invariant |
| `GatewayApp.GatewayApp.HandleSipMessage` | src/app/GatewayApp.cpp:71-220 | The handler's steps on table, registry, allocator, sessions and transactions give the state and the sent messages of the abstract step, for every parsed message that does not make the description parser throw, and every outcome of the sockets; the arrival joins the object's history |
| `GatewayApp.GatewayApp.ServeInvite` | src/app/GatewayApp.cpp:103-171 | The INVITE branch, with the messages it sends in their order; the offer is parsed only behind the check of the limit |
| `GatewayApp.GatewayApp.ServeOther` | src/app/GatewayApp.cpp:173-207 | The BYE, CANCEL, REFER, OPTIONS and unknown branches take the abstract step, which `Requests.OtherIsAnswered` and `Requests.OtherDoes` spell out |
| `GatewayApp.GatewayApp.CleanupTransactions` | src/app/GatewayApp.cpp:222-247 | The timed erase loop gives the abstract sweep |
| `GatewayApp.GatewayApp.CutCall` | src/app/GatewayApp.cpp:263-266 | Cutting a call is the abstract cut |
| `GatewayApp.GatewayApp.LoseSession` | src/call/CallSession.cpp:18-18 | The last reference to an unregistered session going is the abstract destruction |
| `GatewayApp.GatewayApp.HandleRtpPacket` | src/app/GatewayApp.cpp:249-255 | A packet reaches the session its port leads to, as one push and one pop if it is of the payload type that session took last, and no other session's buffer changes |
| `Safety.StepIsOrderly` | src/app/GatewayApp.cpp:71-247 | Times only grow, registered sessions exist, and the turn stays in range, over every step |
| `Safety.ExecutedIsFiled` | src/app/GatewayApp.cpp:98-207 | Every request that is carried out ends with a final response which its transaction remembers, whatever the branch taken |
| `Safety.ResponsesReach` | src/app/GatewayApp.cpp:208-218 | A parsed response can only reach transactions whose method is empty or ends in a colon, never an INVITE |
| `Safety.StepKeepsTable` | src/app/GatewayApp.cpp:71-247 | Every step leaves every stored transaction at rest and filed under a key of its own branch and method |
| `Safety.InviteKeeps` | src/app/GatewayApp.cpp:103-171 | Serving an INVITE keeps ownership, service of all calls, and the limit on calls, whichever way it ends |
| `Safety.ByeKeeps` | src/app/GatewayApp.cpp:173-180 | BYE releases exactly its call's port although the call is still registered at that moment |
| `Safety.StepKeepsConfigured` | src/rtp/RtpServer.cpp:25-71 | No step of the whole system changes a worker's port range |
| `Safety.StepKeeps` | src/app/GatewayApp.cpp:71-247 | Every step of the whole system keeps the invariant, and adds to the spare ports exactly those it loses |
| `Guarantees.RunKeeps` | src/app/GatewayApp.cpp:71-266 | Every run keeps the invariant, the spare ports being exactly the ones lost along it |
| `Guarantees.PortsAreAccountedFor` | src/call/CallSession.cpp:43-47 | After every run the active ports are the disjoint union of the existing sessions' ports and the lost ones, and no two sessions share a port |
| `Guarantees.LeaksExactly` | src/call/CallSession.cpp:43-47 | Exactly the sessions' ports are active if and only if no INVITE of the run was for a registered call with a best match that exists and is not payload type -1 and with a free port left, and none met a failing registration before a working port: conditions on the state before it and on its input |
| `Guarantees.InviteLosesExactly` | src/app/GatewayApp.cpp:103-162 | The ports one INVITE costs are exactly the ones whose registration fails before a working port is found, and the port of its own call if that is registered, the best match exists and is not payload type -1, and there is a free port to replace it |
| `Scenarios.RepeatedInviteLosesAPort` | src/call/CallSession.cpp:43-47 | For every configuration with room for a call and two neighbouring even ports: two INVITEs for one call with negotiable offers lose a port |
| `Scenarios.LeakExample` | src/call/CallSession.cpp:43-47 | The same with every value given, down to the text of the offer |
| `Guarantees.NothingLeaks` | src/app/GatewayApp.cpp:103-162 | In runs without repeated INVITEs and with working registrations nothing leaks, and no port is active once the sessions are gone |
| `Guarantees.LostForEver` | src/call/CallSession.cpp:43-47 | A lost port stays active, and nobody's, over every continuation |
| `Guarantees.ReleaseIsByTheOwner` | src/call/CallSession.cpp:26-41 | Whenever a session gives back its port, however late, it still holds it alone and no other call is reached over it |
| `Guarantees.OnlyTheHolderReleases` | src/rtp/RtpWorker.cpp:86-98 | If a step takes a port out of use, it is the BYE of the call, or the last reference of the session, that holds this port |
| `Guarantees.RegistryAgrees` | src/call/CallRegistry.cpp:8-43 | After every run the port map and the port lists are inverse, every mapped port is active in exactly one worker and leads to a registered call, and a non-negative limit on calls holds |
| `Guarantees.MediaReachesItsCall` | src/call/CallRegistry.cpp:45-54 | Every registered call has a port that leads to its session; a port that leads to a session is that session's own or a lost one |
| `Guarantees.PortsLeadToTheirHolders` | src/call/CallRegistry.cpp:45-54 | After every run a port leads only to a session that held this port at some time of the run |
| `Guarantees.OtherCallsUntouched` | src/app/GatewayApp.cpp:71-266 | A step leaves every registered call but its own exactly as it was: its session, that session's port, and the ports leading to it |
| `Guarantees.InviteEndsExactly` | src/app/GatewayApp.cpp:103-171 | How an INVITE ends is known beforehand: 486 for a new call beyond the limit, 500 without a free working port, 488 when the best match does not exist or is payload type -1, 200 otherwise; its call is registered afterwards exactly with a 200, also when it was registered before |
| `Guarantees.CallSurvivesExactly` | src/app/GatewayApp.cpp:103-207 | A registered call survives a request of its own if and only if that is no BYE and no CANCEL and, for another INVITE, there is a free working port once more and the best match exists and is not payload type -1 |
| `Scenarios.RefusedInviteEndsTheCall` | src/app/GatewayApp.cpp:131-153 | For every such configuration: a second INVITE whose best match does not exist or is payload type -1 ends the call that the first one set up |
| `Scenarios.EndedExample` | src/app/GatewayApp.cpp:131-153 | The same with every value given, the second body being empty |
| `Guarantees.RepetitionIsAbsorbed` | src/app/GatewayApp.cpp:85-96 | A request other than an ACK under a known key changes nothing at all, and gets the remembered response exactly when the transaction is completed and the branch agrees, otherwise silence |
| `Guarantees.AtMostOnce` | src/app/GatewayApp.cpp:78-101 | After a request was carried out, whatever happens for less than 33 seconds, a request under its key changes nothing and gets the first one's final response or nothing (RFC 3261 sections 17.2.1 to 17.2.3) |
| `Guarantees.ActivityKeepsAlive` | src/app/GatewayApp.cpp:222-247 | For 33 seconds after its last activity no run forgets a transaction or its response |
| `Guarantees.SweepIsExact` | src/app/GatewayApp.cpp:232-246 | A sweep is due five seconds after the last one that ran, and removes exactly the transactions idle for 33 seconds or more; one that is not due, and the first one, removes nothing |
| `Requests.OtherIsAnswered` | src/app/GatewayApp.cpp:173-207 | Every new request but INVITE and ACK is answered by exactly one message: 200 OK for BYE, CANCEL and OPTIONS, 202 Accepted for REFER, 501 Not Implemented for any other method |
| `Requests.OtherDoes` | src/app/GatewayApp.cpp:173-207 | A BYE takes its call out of the registry and frees exactly its session's port; a CANCEL takes the call out and keeps session and port; nothing else, a BYE or CANCEL for an unknown call included, changes any call, port or session |
| `Requests.InviteIsAnswered` | src/app/GatewayApp.cpp:103-171 | Every new INVITE is answered by 486 Busy Here alone when its call is new and there are as many calls as configured; otherwise by 100 Trying and then 500 Internal Server Error (No Ports) without a free working port, 488 Not Acceptable Here without a negotiable offer, and 200 OK |
| `Requests.InviteIsAccepted` | src/app/GatewayApp.cpp:130-171 | Behind the 200 the call is registered with the session it had, or the new one; that session has a fresh active port and the negotiated payload type and is reached over the port; and the message has its content type, the gateway's contact, and the answer that names the port |
| `Requests.NoCallIdIsIgnored` | src/app/GatewayApp.cpp:71-75 | A message without a Call-ID changes nothing and is not answered |
| `Requests.ResponsesAreNotAnswered` | src/app/GatewayApp.cpp:208-218 | A response is never answered, and refreshes the time of the transaction of its key alone |
| `Requests.RepetitionIsAnswered` | src/sip/SipTransaction.cpp:43-81 | As long as its transaction stays in the table, a request repeated under its key and branch changes nothing and gets the final response again, unless that accepted an INVITE, or refused one and an ACK for it has arrived since: then it gets none |
| `Requests.StaysWhileRecent` | src/app/GatewayApp.cpp:222-247 | For 33 seconds after its last activity a transaction stays in the table all along |
| `Guarantees.RepliesEcho` | src/app/GatewayApp.cpp:106-206 | Every message sent for a request carries its Via stack, From, Call-ID and CSeq, and its To with a tag exactly where the rule asks for one |
| `Guarantees.RepliesDeliver` | src/app/GatewayApp.cpp:106-206 | Every message sent for a parsed request with trimmed values, printed and parsed, still echoes the request, with its code, its phrase and its whole body, when the contact address is one a header can carry |
| `Guarantees.AcceptedCallIsReachable` | src/app/GatewayApp.cpp:129-171 | An INVITE that is let in, with a free working port and a negotiable offer, gets a 200 whose description reads back as the gateway's address, the negotiated codec, and an active port over which RTP is led to exactly this call's session, which takes packets of that codec's payload type |
| `SipParser.TakeLine` | src/sip/SipParser.cpp:88-126 | One header line updates headers, last name and length as the header function says: fold, field, or neither |
| `SipParser.ReadHeaders` | src/sip/SipParser.cpp:84-127 | The line loop gives the headers, the length in force and the rest of the stream |
| `SipParser.ParseDatagram` | src/sip/SipParser.cpp:32-137 | The whole parse, with every way of failing |
| `SipMessage.InsertIsStable` | src/sip/SipMessage.cpp:5-9 | Inserting a header puts its value behind the equal keys and leaves every other key's values alone |
| `SipMessage.InsertKeepsSorted` | src/sip/SipMessage.cpp:5-9 | The header multimap stays in key order |
| `SipMessage.ToText` | src/sip/SipMessage.cpp:22-47 | The printing loop gives the printed message |
| `SipText.RequestIsRead` | src/sip/SipParser.cpp:32-137 | Every well-formed request text is read as what it says, whatever the case of its names, the blanks around colons and values, and the line ends: the method in upper case, URI, version, every header's values in the order of their lines, and as much of the body as the last Content-Length asks for |
| `SipText.StatusIsRead` | src/sip/SipParser.cpp:42-62 | The start line of a response gives its code and its phrase |
| `SipText.FoldIsRead` | src/sip/SipParser.cpp:92-109 | A line that starts with a blank joins the first value of the last field's name, behind one blank, and changes nothing else |
| `SipText.JunkIsPassedOver` | src/sip/SipParser.cpp:111-126 | A line without a colon that is no fold changes nothing |
| `SipText.CallIdIs` | src/sip/SipMessage.cpp:49-51 | The Call-ID of a message is the first value of that header, or empty |
| `SipText.BranchIs` | src/sip/SipMessage.cpp:110-121 | The branch is what follows the first "branch=" of the topmost Via up to the next semicolon or the end, and empty when there is none |
| `SipText.ResponseText` | src/sip/SipMessage.cpp:22-47 | The exact text of a response: start line, then Call-ID, CSeq, From, To, User-Agent and all Via values in the request's order, one line each, the length 0, and the empty line |
| `SipRoundTrip.ParsePrinted` | src/sip/SipMessage.cpp:22-47 | What any printable message reads back as, a start line that cannot be read included |
| `SipRoundTrip.ParseIsParsed` | src/sip/SipParser.cpp:32-137 | Every parsed message has a sorted multimap of safe headers, a start line that prints on one line, and a body no longer than its length header says |
| `SipRoundTrip.NormalForm` | src/sip/SipParser.cpp:32-137 | For every datagram that parses to p: printing p and parsing again gives p, with the missing length header in sorted place, if and only if p's values are trimmed and its method does not start like a status line |
| `SipRoundTrip.PrintParseIdempotent` | src/sip/SipMessage.cpp:22-47 | For every datagram: if its message can be printed and parsed at all, doing so a second time changes nothing (RFC 3261 sections 7.3.1 and 18.3) |
| `SipRoundTrip.CleanDatagram` | src/sip/SipParser.cpp:93-109 | A datagram without folds onto empty values and without blank folds has trimmed values, so the normal form applies |
| `SipResponse.CreateResponse` | src/sip/SipResponseBuilder.cpp:4-44 | The response is filled field by field, Via values by a loop; `SipText.ResponseText` is the text of the result |
| `SipResponse.TaggedFollowsRule` | src/sip/SipResponseBuilder.cpp:22-29 | The To value gets the tag exactly when the response is final and "tag=" occurs at no index of it; otherwise it is unchanged |
| `SipResponse.ResponseEchoes` | src/sip/SipResponseBuilder.cpp:12-38 | A response carries the request's Via values in order, From, Call-ID and CSeq (RFC 3261 section 8.2.6.2); its To is the request's, behind which a final response has ";tag=gen" and the clock's last six digits if "tag=" stands nowhere in it |
| `SipResponse.ViaStackPreserved` | src/sip/SipResponseBuilder.cpp:4-44 | All of this holds again after printing, sending and parsing the response, for every parsed request with trimmed values |
| `SipResponse.AnswerDelivered` | src/app/GatewayApp.cpp:164-171 | The accepting 200 survives the wire as well, with its whole body |
| `SipResponse.RequestAnswered` | src/sip/SipParser.cpp:32-137 | From the request datagram to the parsed response in one statement |
| `Sdp.ParseDescription` | src/sdp/SdpParser.cpp:13-70 | The line loop fills the session; a number that std::stoi rejects is an exception |
| `SdpText.OfferIsRead` | src/sdp/SdpParser.cpp:13-70 | Every offer of the usual form is read as what its lines say, in any number and order and with either line end: connection address, audio streams with all their payload types, names of payload types, and lines that say nothing |
| `SdpText.PortTooBig` | src/sdp/SdpParser.cpp:42-50 | A port that is no int is read as the nearest int, and nothing behind it is |
| `Sdp.Negotiate` | src/sdp/SdpAnswer.cpp:11-46 | The nested loops stop at the first match in their order |
| `SdpRoundTrip.AudioIsFirst` | src/sdp/SdpAnswer.cpp:13-22 | The audio line that is negotiated is the offer's first one |
| `Sdp.PickIsLeast` | src/sdp/SdpAnswer.cpp:23-45 | The match found is lexicographically least in preference index and offer index, and none is found exactly when there is none (RFC 3264 section 6.1) |
| `Sdp.Generate` | src/sdp/SdpAnswer.cpp:5-68 | The answer text and the negotiated codec together |
| `SdpText.AnswerText` | src/sdp/SdpAnswer.cpp:53-67 | The exact text of an answer, line by line |
| `SdpRoundTrip.AnswerIsBest` | src/sdp/SdpAnswer.cpp:11-51 | The answer uses the best match, a payload type going by the name it is mapped to, or by PCMU and PCMA for unmapped 0 and 8; it is empty exactly without an audio line, without a match, or when the best match has payload type -1 |
| `SdpRoundTrip.MinusOneIsRefused` | src/sdp/SdpAnswer.cpp:38-51 | An offer of payload type -1 mapped to a preferred codec has a match and is still refused |
| `SdpRoundTrip.AnswerRoundTrip` | src/sdp/SdpParser.cpp:13-70 | An answer parses to its address, one audio line with its port and payload type, and its codec name if and only if the address is not empty, has no space and no newline, and does not end in a blank; no other address is read back (RFC 4566 section 5) |
| `SdpRoundTrip.OfferAnswered` | src/sdp/SdpParser.cpp:13-70 | The same equivalence for the answer to any parsed offer, whatever its text, the parser's own guarantees supplying the other conditions |
| `SdpRoundTrip.EmptyAddressMisread` | src/sdp/SdpParser.cpp:34-41 | Every answer made with an empty local address is read back with the address type as its address, and everything else intact |
| `G711.EncodeULaw` | src/util/G711Utils.h:84-89 | The array loop encodes every sample |
| `G711.DecodeALaw` | src/util/G711Utils.h:77-82 | The array loop decodes every byte |
| `G711.ApplyGain` | src/media/stages/AudioSocketStage.cpp:20-25 | The gain loop makes each sample the 16-bit value nearest to three times it, in place |
| `G711.GainIsNearest` | src/media/stages/AudioSocketStage.cpp:20-25 | No 16-bit value is nearer to three times the sample |
| `G711.ULawTable` | src/util/G711Utils.h:8-13 | The decoder's table: from code 0xFF down the levels rise by 8 within the first segment, by 12 into the next, and by twice as much in every further one; with `ULawZero` and `ULawOpposite` this gives every level |
| `G711.ULawOpposite` | src/util/G711Utils.h:8-13 | The codes below 128 have the negative levels |
| `G711.ULawIntervals` | src/util/G711Utils.h:24-42 | The encoder's decision values: the level of the code is less than half a gap below the sample and at most half a gap above it; louder samples than 32635 get code 0x80; a negative sample gets the code of its magnitude with the sign changed |
| `G711.ToggleInverts` | src/util/G711Utils.h:15-68 | The exclusive or with 0x55 inverts exactly the bits with an even number |
| `G711.ALawTable` | src/util/G711Utils.h:15-22 | The decoder's table behind the inverted bits: the levels rise by 16 in the first two segments, by 24 into the next, and by twice as much in every further one |
| `G711.ALawOpposite` | src/util/G711Utils.h:15-22 | It starts at 8, and the codes below 128 have the negative levels |
| `G711.ALawIntervals` | src/util/G711Utils.h:44-68 | The encoder's decision values and signs, as for mu-law |
| `G711.ULawBound` | src/util/G711Utils.h:24-42 | Mu-law error is at most 2 to the power of the segment plus 2, for magnitudes to 32635 (ITU-T G.711 section 3) |
| `G711.ULawIsClose` | src/util/G711Utils.h:24-42 | Over all samples the mu-law error stays within 643 if and only if the sample is not -32768 |
| `G711.ULawMonotone` | src/util/G711Utils.h:8-42 | Above -32768 mu-law companding keeps the order of samples |
| `G711.ULawCodeRoundTrip` | src/util/G711Utils.h:8-42 | Encoding a decoded mu-law code gives it back, only 0x7F becoming 0xFF |
| `G711.ULawMostNegative` | src/util/G711Utils.h:26-28 | -32768 stays negative under negation and becomes the code of negative zero |
| `G711.ALawBound` | src/util/G711Utils.h:44-68 | A-law error is at most half a step, between 8 and 512, for every sample but -32768 |
| `G711.ALawIsClose` | src/util/G711Utils.h:44-68 | Over all samples the A-law error stays within 512 if and only if the sample is not -32768 |
| `G711.ALawMonotone` | src/util/G711Utils.h:15-68 | Above -32768 A-law companding keeps the order of samples |
| `G711.ALawCodeRoundTrip` | src/util/G711Utils.h:15-68 | Encoding a decoded A-law code gives it back, for all 256 |
| `G711.ALawMostNegative` | src/util/G711Utils.h:46-52 | -32768 becomes code 0x55, the smallest negative level |
| `G711.FrameIsClose` | src/media/stages/AudioSocketStage.cpp:19-32 | A whole gained and companded frame sounds close to the gained one exactly when no sample is -10923 or below |
| `Downlink.StreamIsCut` | src/media/stages/AudioSocketStage.cpp:34-41 | Over every interleaving of arrivals and frame requests: what left and what is held is exactly what came in, in order, the buffer never exceeds 16000, and every frame has 160 bytes |
| `Downlink.BytesConserved` | src/media/stages/GrpcBridgeStage.cpp:9-32 | Bytes received are bytes emitted, dropped and held |
| `Downlink.AskExactly` | src/media/stages/AudioSocketStage.cpp:71-78 | A frame call takes exactly the oldest 160 bytes that have not left yet, and nothing when there are fewer |
| `Downlink.DataExactly` | src/media/stages/AudioSocketStage.cpp:34-41 | Arriving bytes push out exactly the oldest ones beyond 16000 |
| `Downlink.FramesAreSlices` | src/media/stages/AudioSocketStage.cpp:71-78 | Every frame, the first included, and every dropped stretch is the slice of the received bytes at its offset |
| `Downlink.SlicesAreDisjoint` | src/media/stages/AudioSocketStage.cpp:71-78 | A later slice starts where no earlier one reaches |
| `Downlink.DroppedOnlyWhenFull` | src/media/stages/AudioSocketStage.cpp:37-40 | Bytes are dropped if and only if at some arrival the backlog passes 16000 |
| `Downlink.FramesWhenNeverFull` | src/media/stages/GrpcBridgeStage.cpp:25-32 | Then frame k is bytes 160k to 160k + 159 of the stream |
| `MediaStages.AudioSocketStage.OnAudioSocketData` | src/media/stages/AudioSocketStage.cpp:12-41 | Socket data is one arrival of its gained, companded bytes in the abstract stream |
| `MediaStages.SocketSample` | src/media/stages/AudioSocketStage.cpp:12-32 | Byte i sent to the caller is the code of the 16-bit value nearest to three times the little-endian sample i of the socket data |
| `MediaStages.AudioSocketStage.ProcessDownlink` | src/media/stages/AudioSocketStage.cpp:71-78 | A frame call is one request of the abstract stream and replaces the audio exactly when a frame is there |
| `MediaStages.AudioSocketStage.ProcessUplink` | src/media/stages/AudioSocketStage.cpp:43-69 | Call audio goes out decoded, gained, as little-endian samples; nothing for none |
| `MediaStages.CallSample` | src/media/stages/AudioSocketStage.cpp:43-69 | Bytes 2i and 2i + 1 sent to the socket are the 16-bit value nearest to three times the decoded sample i, the low byte first |
| `MediaStages.GrpcBridgeStage.OnBotAudio` | src/media/stages/GrpcBridgeStage.cpp:9-17 | The second stage makes the same arrival of the same abstract stream |
| `MediaStages.GrpcBridgeStage.ProcessDownlink` | src/media/stages/GrpcBridgeStage.cpp:25-32 | And the same request |
| `MediaStages.GrpcBridgeStage.ProcessUplink` | src/media/stages/GrpcBridgeStage.cpp:19-23 | Non-empty chunks go out under consecutive numbers |
| `Pcm.BytesRoundTrip` | src/media/stages/AudioSocketStage.cpp:16-17 | Copying samples out as bytes and back is the identity |
| `Pcm.BytesOfSample` | src/media/stages/AudioSocketStage.cpp:63-64 | Sample i is bytes 2i and 2i + 1, the low one first |
| `AudioSocket.Client.SendAll` | src/audiosocket/AudioSocketClient.cpp:121-129 | Under every schedule of partial sends the wire gets all of the data, or a proper prefix on failure |
| `AudioSocket.Client.SendAudio` | src/audiosocket/AudioSocketClient.cpp:105-119 | Under every schedule of partial sends the wire gets 16, the length of the payload (65535 at most) in two bytes with the high one first, and the payload, also after the reader loop has ended; the payload follows even if the header could not be sent; nothing for an empty payload, whatever the sockets do, and nothing for a closed socket |
| `AudioSocket.Client.SendUuid` | src/audiosocket/AudioSocketClient.cpp:67-103 | The wire gets 1, 0, 32 and the last 10, 7 and 15 characters of dialer, epoch and dialed, filled up on the left with the digit zero |
| `AudioSocket.Client.Stop` | src/audiosocket/AudioSocketClient.cpp:49-65 | A running client with an open socket sends the terminate frame and closes, and the reader thread is joined exactly when the client was running; once the reader loop has ended a stop does nothing, leaves the socket open, and leaves the thread joinable |
| `AudioSocket.HearOut` | src/audiosocket/AudioSocketClient.cpp:49-158 | A connection that ends by itself and is stopped afterwards: what was sent is heard, nothing more is sent, the socket stays open and the thread is not joined |
| `AudioSocket.Client.ReaderLoop` | src/audiosocket/AudioSocketClient.cpp:131-158 | The loop delivers the audio payloads of its stream in order and then is no longer running |
| `AudioSocket.ReaderReads` | src/audiosocket/AudioSocketClient.cpp:131-158 | By the bytes of a frame, the length with its high byte first: type 16 with a payload is delivered, type 0 ends the loop, a frame that is cut off ends it too, and anything else is passed over |
| `AudioSocket.FramingRoundTrip` | src/audiosocket/AudioSocketClient.cpp:67-158 | The frames of any list of payloads are delivered as exactly the non-empty ones, each cut to 65535 bytes, in order, and nothing after the terminate frame |
| `AudioSocket.Converse` | src/audiosocket/AudioSocketClient.cpp:49-158 | Two ends of a connection: what one client sends from its identification to its stop, under every schedule of partial sends, the other one's reader loop hears: exactly the non-empty payloads, capped, in order; and then it ends |
| `Mixer.Conserved` | src/media/stages/RecorderStage.cpp:103-135 | Over every run the file is its log of mixed and flushed stretches, and each direction's stream is what the log used of it and what waits; one side is empty and neither is above 8000 |
| `Mixer.TakeWrites` | src/media/stages/RecorderStage.cpp:103-135 | One chunk writes the common part of what waits, every sample the 16-bit value nearest to the sum of the two, and then what one side has beyond it if that is more than 8000 samples; otherwise that stays |
| `Mixer.MixesExactly` | src/media/stages/RecorderStage.cpp:109-135 | At every chunk boundary the file is the clamped sum of the common part of the streams if and only if no side is ever more than 8000 samples ahead |
| `Mixer.OrderIndependent` | src/media/stages/RecorderStage.cpp:93-135 | Runs over the same two streams that never get that far apart end in the same file and buffers, whatever the chunks and their interleaving |
| `Recorder.FirstInFirstOut` | src/media/stages/RecorderStage.cpp:63-93 | Over every interleaving of producers and worker chunks are finished once each, in push order, and all of them before the worker returns |
| `Recorder.WorkerReturns` | src/media/stages/RecorderStage.cpp:79-91 | After the stop the worker always has a step to take, and every step it can take brings its return closer |
| `Recorder.EndedRunsAgree` | src/media/stages/RecorderStage.cpp:63-93 | Runs that push the same chunks and have ended leave the mixer in the same state, whatever their interleaving |
| `Recorder.MixLoop` | src/media/stages/RecorderStage.cpp:112-121 | The mixing loop makes every sample the 16-bit value nearest to the sum of the two |
| `Recorder.MixedFile.Take` | src/media/stages/RecorderStage.cpp:96-135 | Decoded samples, mixing, flushing and file writes are one step of the mixer |
| `Recorder.RecorderStage.Queue` | src/media/stages/RecorderStage.cpp:63-77 | A non-empty chunk is one push of the protocol, whatever the worker is doing |
| `Recorder.RecorderStage.EverythingIsMixed` | src/media/stages/RecorderStage.cpp:79-136 | Once the worker has returned, by whatever interleaving of the stage's steps, exactly the pushed chunks have been mixed, in push order |
| `Recorder.RecorderStage.Close` | src/media/stages/RecorderStage.cpp:42-61 | When the destructor is done every chunk ever pushed has been mixed in push order and the file has its sizes |
| `Wav.File.WriteHeader` | src/util/WavWriter.h:10-30 | The thirteen writes give the 44-byte header with empty sizes |
| `Wav.File.UpdateHeader` | src/util/WavWriter.h:32-42 | Exactly the two size fields change, and the position returns to the end |
| `Wav.UpdatedHeader` | src/util/WavWriter.h:32-42 | A finished file is a header with the sizes of its data, then the data |
| `Wav.FileLayout` | src/util/WavWriter.h:10-42 | The text and the sizes of a finished file, byte by byte: RIFF, the size of the rest, WAVE, the format chunk for plain samples, data, the size of the data, and the data |
| `Wav.FormatLayout` | src/util/WavWriter.h:19-27 | The numbers of the format, lowest byte first: channels, samples a second, bytes a second, bytes a frame, bits |
| `Wav.DataSizeField` | src/util/WavWriter.h:35-40 | The data size field is the number of data bytes if and only if that is below 4 GiB |

## Left out

- Sockets, epoll, poll, gRPC, files and threads: outcomes are parameters, bytes are sequences, and what the code does under a mutex is one atomic step.
- `Gateway.Step`: a handler run, a sweep, a cut, and a session's end are atomic with respect to each other, and one handler run happens at one instant; RTP packets change no signalling state and are steps of their own.
- Exceptions out of `std::stoi` in the description parser: `Sdp.Parse` is `None` for them, and an INVITE whose offer is parsed and causes one is not an event of the transition system, since the exception is not caught and ends the process.
- `Sessions.CallSession.OnRtpPacket`: the push and the pop of one packet follow each other; two RTP threads of the same session interleaving between them (after a repeated INVITE has left it two ports) are not modelled.
- `Sessions.CallSession.StartPipeline`: the remote address, the symmetric-RTP lock, the pipeline's stages and the outgoing counters are not modelled.
- `Sessions.CallSession.Terminate`: stopping the bot and socket clients and dropping the pipeline are not modelled; the session's port and payload type are.
- `AudioSocket.Client.ReaderLoop`: every read is full or finds the end of the stream; short reads at the end of a stream are not modelled.
- `AudioSocket.Client.SendAudio`: concurrent sends are serialised, and a stop during a send is not modelled.
- `Recorder.RecorderStage.Close`: the two raw files of the other recording mode and a recording file that cannot be opened are not modelled; the interleavings of producers and worker are those of `Recorder.FirstInFirstOut`.
- `SipParser.TakeLine`: a fold goes to the first header of the last name; the standard library may pick any of several equal keys.
- `Mixer.OrderIndependent`: for runs in which a side gets more than a second ahead the file depends on the interleaving, and only conservation is proved.
- Locale effects in the case conversions: ASCII is meant.
- Configuration, logging, signals, the command loop but for its cut, the dialog and call-state classes, the object pool, the echo stage, the pipeline's list of stages, and the RTP header accessors: they would add only easy members.
- The Python servers and the generated protocol code.
