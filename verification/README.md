# NearLink framework: data transfer, worker thread, discovery and codecs in Dafny

This project models the framework half of OpenHarmony's NearLink stack and proves what
its state-keeping and encoding parts promise over whole runs and for all inputs. Every
`.dfy` file verifies together with the others; `dafny verify dfyconfig.toml` covers the
project.

## What is modelled

**Data-transfer channel.** `LittleEndian` and `FrameCodec` hold the frame format and its
reader and writer. `Link` is one direction of a socket pair, a byte queue between
`OutputStream::Write` and `ReceivedData`. `TransferTables` is the state machine of the three
linked tables and the descriptors they own. `Channel` joins both: one machine with the tables of
both ends and a queue per socket pair, in which calls, service events, sends and reads interleave.
`TransferHistory` and `ChannelHistory` say what tables, sockets and queues hold from the list of past
calls, events, sends and reads alone, without the machines' steps, and prove that the machines hold
exactly that. `TransferClient` is `SleDataTransfer` with its socket manager as an updating object, each
method proved to take one step of the tables' machine.

**Port worker.** `WorkerProtocol` interleaves any number of connect handlers and destroy
calls with the worker thread, one shared access per step: callback table, `running`, control
mutex, thread handle and wake socket. `WorkerThread` is the same object with every
handler taken as one call.

The machines of the other parts carry the same kind of law inside their modules: what they hold after
any run is told by the moves of the run.

**SSAP client.** `Discovery` is the monitor behind service discovery for any number of
threads. `ServiceLinking` is the two-pass construction of the service cache.

**Codecs.** `ServiceParcel` and `ParcelIO` are the nested service parcel, as functions and as
loops over a parcel object. `Uuid` and `UuidText` are the byte, 64-bit, 16-bit and text
forms of the two UUID classes and their order.

**Indexes.** `ConnectedDevices`, `Advertisers` and `Observers` are the server's device list, the
advertiser's handle map and the observer adapter list. The last two interleave any number of
threads, one locked access per step, because the calls lock their maps and lists piecewise.

`Common` holds two small types used everywhere.

## Findings

Each of these is a proved lemma, with the exact condition where there is one.

- A read is never refused exactly when the send buffer has between 1 and 52712 bytes
  (`Link.SafeBufferSizes`). Above that, or with a non-positive size, a single frame of 51201
  bytes is admitted and the first read cuts it.
- `Write` reports success for any positive `send`; one short `send` makes the next read refuse
  the whole batch, earlier frames included (`Link.ShortSendPoisonsBatch`).
- `WriteData` reports success without writing exactly when the socket entry is missing
  (`TransferClient.SleDataTransfer.WriteData`).
- A second CONNECTED event for the same port and address closes the old descriptor but leaves its
  listener in the worker's table (`TransferTables.ReconnectKeepsStaleListener`). It stays until that
  descriptor number is stored again (`TransferTables.StaleListenerStays`) and the entry that then
  owns it is erased (`TransferTables.ListenerLeavesExactly`).
- A destroy call that overtakes the connect handler's `RunThread` leaves a worker running with an
  empty table (`WorkerProtocol.IdleWorkerIsReachable`). Once all calls have returned, flag and table
  disagree exactly when the table is empty and the last call to take the control mutex was a
  `RunThread` (`WorkerProtocol.RunningExactly`).
- Everything read is delivered exactly when no read finds records for a callback that has died
  (`Channel.DeliveredExactly`); such records are taken off the socket and dropped.
- `FindStructureStart` leaves `isFinding` set with nobody to clear it exactly when it returns for
  lack of a registration or a proxy (`Discovery.AbandonedExactly`); until a completion or
  disconnect arrives nothing else gets through (`Discovery.StuckUntilCompletion`).
- Completions are not matched with starts: a refused request can claim a discovery opened later by
  another thread (`Discovery.RefusalClaimsAnotherDiscovery`). It claims its own exactly when nobody
  claimed a completion since it opened it (`Discovery.OwnDiscoveryExactly`).
- `GetServices` drops the code of its fetch: a failed one still makes the cache count as fetched and
  returns success (`Discovery.FailedFetchIsReachable`, `Discovery.SsapClient.GetServicesBody`). A fetched
  cache holds an answer throughout a run exactly when no fetch of the run failed
  (`Discovery.FetchedIsAnswered`); after a failed one every call succeeds at once with the empty or
  partial cache, exactly until the next completion is claimed (`Discovery.FailedFetchSticks`).
- A lookup by uuid that overlaps a discovery can store an answer from before its completion into a
  cache that counts as fetched (`Discovery.StaleLookupIsReachable`). The cache is fresh throughout a
  run exactly when the run has no such store (`Discovery.WholeCacheIsFresh`).
- List sizes of a service parcel are compared after being stored in a `uint32_t`: a list of 2^32
  elements is written under count 0 (`ServiceParcel.WrappedCountBreaksRoundTrip`); apart from
  that the round trip is exact (`ServiceParcel.RoundTrip`).
- Services that went through the parcel have no includes, so the second pass of `BuildServiceList`
  links nothing for them (`ServiceLinking.ParcelledServicesAreUnlinked`).
- The two UUID classes read the same text differently unless the first twenty digits are
  hexadecimal, because a failed parse keeps the rest of two different defaults
  (`UuidText.ClassesAgreeExactly`).
- Two overlapping starts of one advertise callback give it two handles
  (`Advertisers.TwoHandlesAreReachable`); this can happen exactly when a start begins while another one
  of the callback is between its lookup and its insertion (`Advertisers.OverlapDecides`).
- `StartAdvertising` succeeds without the callback having a handle exactly when the callback is new and
  the service grants the request with 0xFF, its answer when no handle is left
  (`Advertisers.SleAdvertiser.StartAdvertising`).
- The public handle lookup accepts a null callback and answers with the handle of some dead one
  (`Advertisers.SleAdvertiser.GetAdvHandle`).
- A start can take the handle of another live callback, even by erasing after it failed; this can
  happen exactly when the service hands out a handle still in use for another callback
  (`Advertisers.ReuseDecides`).
- Observers are erased by identity, not by adapter: a registration that returned success can be undone by
  a deregistration that began before it (`Observers.UndoneRegistrationIsReachable`). A call can take
  another call's adapter off the list exactly when the observer gets a new adapter while another call
  for it is on its way (`Observers.RaceDecides`).
- The cache built from a list with repeated handles depends on the order among services of one handle,
  and on nothing else of the order (`ServiceLinking.DuplicateHandlesDependOnOrder`,
  `ServiceLinking.SameGroupsSameCache`).

## Assumptions

- `size_t` is eight bytes, stored least significant byte first; lengths add up without overflowing it.
- `memcpy_s` refuses an empty destination and a source longer than the destination, as its
  library documents; its upper limit on copy sizes is not reached.
- The kernel socket is a byte queue: size queries report its exact content, and one `recv` takes
  everything up to the buffer size.
- In `TransferTables` and `Channel` each call and each service event is one step. The service passes the
  framework's end of a socket pair on once, for the port the pair was made for.
- Over runs the transfer object, a process-wide singleton, exists; only a request that arrives after it is
  gone would leave a descriptor unclosed (`TransferTables.StubConserves`). Its state-off handler needs the
  service's remote object; that this is there whenever the tables are not empty is proved, not assumed: it is
  cached from the first `CreatePort` until the service stops
  (frameworks/native/base/nearlink_base_sa_manager.cpp:85-127).
- A descriptor that arrives has a number different from those that are open, as the kernel guarantees.
  That descriptors come only with CONNECTED is not assumed: the callback stub
  (frameworks/ipc/src/nearlink_sle_datatransfer_callback_stub.cpp:70-79) reads one only then, and is
  part of the model.
- A parcel is a sequence of typed values; primitive writes succeed, and a nested object is written in place.
- Answers of the remote service (ports, handles, discovery results, error codes) are inputs. Where a
  result needs one of them to be well behaved, the lemma says so in its `requires`.
- Identities of callbacks and observers are not reused while a weak pointer to them exists.
- In `Advertisers` and `Observers` a thread keeps the callback or observer of its own call alive. The base
  host answers truthfully: it holds an adapter exactly if it accepted it.

## Model

| member | source | states |
|---|---|---|
| FrameCodec.CopyChecked | socket/nearlink_datatransfer_parcel.cpp:31-39 | a bounded copy is refused for an empty or too small destination and then changes nothing |
| FrameCodec.WriteLengthAndData | socket/nearlink_datatransfer_parcel.cpp:24-43 | appends length word and content; fails exactly on an empty string |
| FrameCodec.SerializeData | socket/nearlink_datatransfer_parcel.cpp:45-100 | the in-place buffer equals the frame; no buffer exactly for an empty address or uuid |
| FrameCodec.DeserializeData | socket/nearlink_datatransfer_parcel.cpp:145-184 | succeeds exactly on the body of a record with payload at most 65535, reading only inside the buffer |
| FrameCodec.DeserializeDataList | socket/nearlink_datatransfer_parcel.cpp:102-143 | on arbitrary bytes ends, stays in bounds, returns the records of which the buffer is the concatenation, or nothing; at most length/34 records |
| FrameCodec.BodyExact | socket/nearlink_datatransfer_parcel.cpp:145-184 | a body decodes to a record if and only if it is that record's encoding |
| FrameCodec.FrameExact | socket/nearlink_datatransfer_parcel.cpp:110-138 | a buffer starts with a frame if and only if it starts with that frame's encoding |
| FrameCodec.FrameInBytes | socket/nearlink_datatransfer_parcel.cpp:45-100 | one frame byte by byte: order of the fields, width and byte order of every number |
| FrameCodec.StreamGrammar | socket/nearlink_datatransfer_parcel.cpp:24-184 | a buffer decodes to a list if and only if it is the concatenation of the list's encodings within the payload limit |
| FrameCodec.UniqueDecoding | socket/nearlink_datatransfer_parcel.cpp:24-184 | one byte stream has at most one reading |
| FrameCodec.CutInsideFrameRejects | socket/nearlink_datatransfer_parcel.cpp:110-136 | a prefix of a stream is accepted if and only if the cut lies between frames, and then gives exactly the frames before it |
| Link.Socket.Write | socket/nearlink_socket_outputstream.cpp:48-85 | cache-full exactly if the report shows room but less than the frame and 1512 bytes; the queue grows by what `send` took, for every answer of it |
| Link.Socket.SendPacket | services/service/src/datatransfer/nearlink_sle_datatransfer_service.cpp:1448-1471 | frames a record and queues it exactly when admitted; success without a queued record if and only if the entry is missing |
| Link.Socket.ReceivedData | frameworks/native/nearlink_sle_datatransfer.cpp:439-476 | takes one read off the queue and dispatches its records in order until a port without callback; succeeds exactly if the batch decodes, every port is registered and a long read was reported to the service |
| Link.Socket.DispatchRecords | frameworks/native/nearlink_sle_datatransfer.cpp:453-467 | the loop hands on exactly the records in front of the first unregistered port that have a live callback |
| Link.DispatchSnoc | frameworks/native/nearlink_sle_datatransfer.cpp:453-467 | a further record is handed on if and only if its port and all before it are registered and its callback locks |
| Link.EndToEndDelivery | socket/nearlink_socket_outputstream.cpp:48-85 | over every interleaving: accepted == consumed ++ queued in order, delivered == consumed with live callbacks, the unchecked branch of `Write` unreached, no read refused |
| Link.SafeBufferSizes | socket/nearlink_socket_outputstream.cpp:52-70 | no run has a refused read if and only if 0 < buffer size <= 52712 |
| Link.CutReadLosesAll | frameworks/native/nearlink_sle_datatransfer.cpp:443-452 | a read that ends inside a frame delivers nothing and drops what it took |
| Link.ShortSendPoisonsBatch | socket/nearlink_socket_outputstream.cpp:73-84 | a short `send` reported as success makes the next read refuse the batch |
| TransferTables.CreateKeepsAgreement | frameworks/native/nearlink_sle_datatransfer.cpp:266-279 | creating a port keeps the tables in agreement if and only if the answered port is unused |
| TransferTables.StepKeepsAgreement | frameworks/native/nearlink_sle_datatransfer.cpp:253-302 | every call and event keeps at most 120 ports, an injective uuid map whose values are the callback keys, and sockets only for registered ports |
| TransferTables.EmptiedTables | frameworks/native/nearlink_sle_datatransfer.cpp:172-193 | state-off and service-stopped empty all three tables, and the early return of the first without a proxy never meets a non-empty table |
| TransferTables.ConnectConservesExactly | frameworks/native/nearlink_sle_datatransfer.cpp:82-121 | the handler by itself conserves descriptors if and only if none comes, or its owner exists and it is not for a live callback with another state than CONNECTED |
| TransferTables.StubConserves | frameworks/ipc/src/nearlink_sle_datatransfer_callback_stub.cpp:64-81 | behind the stub a request conserves descriptors if and only if it brings none or the handler's owner exists |
| TransferTables.TablesAndDescriptors | socket/nearlink_socket_manager.cpp:161-228 | over every run: agreement, each descriptor closed once or owned once, open descriptors are exactly those in the socket table |
| TransferTables.StateOffClosesEverything | frameworks/native/nearlink_sle_datatransfer.cpp:172-183 | after a state-off, with or without the proxy at hand, every descriptor ever received has been closed |
| TransferTables.ReconnectKeepsStaleListener | socket/nearlink_socket_manager.cpp:161-178 | after a CONNECTED event listeners equal owned descriptors if and only if no entry was overwritten |
| TransferTables.StepListeners | socket/nearlink_socket_manager.cpp:161-228 | every event keeps listeners equal to owned descriptors if and only if it does not overwrite an entry |
| TransferTables.ListenersFollowSockets | socket/nearlink_socket_manager.cpp:161-228 | over every run without overwriting, the worker listens on exactly the sockets in the table |
| TransferTables.ListenerLeavesExactly | socket/nearlink_socket_manager.cpp:199-228 | a listener goes if and only if the entry owning its descriptor is erased, not when it is overwritten |
| TransferTables.StaleListenerStays | socket/nearlink_socket_manager.cpp:161-178 | over every run, the listener of an overwritten descriptor stays as long as its number is not stored again |
| TransferHistory.TablesAreHistory | frameworks/native/nearlink_sle_datatransfer.cpp:82-302 | after every expected run: a uuid is registered, with its port and callback, if and only if its last successful create was not undone; a socket entry exists, with its descriptor and mtu, if and only if the last event that concerned it stored it |
| TransferHistory.DisconnectedRemoves | frameworks/native/nearlink_sle_datatransfer.cpp:110-114 | a DISCONNECTED for a live callback removes exactly the peer's entry and listener and closes exactly its descriptor |
| TransferHistory.DestroyRemoves | frameworks/native/nearlink_sle_datatransfer.cpp:297-301 | a destroy removes exactly the uuid, its port's callback and the port's sockets, closing exactly their descriptors |
| Channel.DeliveryOnPairs | socket/nearlink_socket_manager.cpp:121-158 | over every run of calls, events, sends and reads, each socket pair whose framework end is open or on its way has accepted == read ++ queued in order, all for its port, and no read refused |
| Channel.DeliveryThroughTables | frameworks/native/nearlink_sle_datatransfer.cpp:439-476 | every entry of the framework's table has such a pair of its own, made for its port |
| Channel.ReadDelivers | frameworks/native/nearlink_sle_datatransfer.cpp:453-467 | at any point of a run, a read empties the queue, data sent before the descriptor was stored included, and hands all of it to the live callback of the entry's port, or nothing if that died |
| Channel.DeliveredExactly | frameworks/native/nearlink_sle_datatransfer.cpp:453-467 | over every run, everything read was delivered on every pair if and only if no read met a dead callback |
| Channel.NextHanded | frameworks/native/nearlink_sle_datatransfer.cpp:453-467 | every action keeps that, except exactly a read that meets a dead callback |
| Channel.ClosingDropsItsOwnQueue | socket/nearlink_socket_manager.h:50-73 | a call drops the queue of a pair if and only if its stored end leaves the socket table or its arriving end is not stored; every other queue is untouched |
| Channel.NextInv | socket/nearlink_socket_manager.cpp:161-228 | every action keeps one pair per owned descriptor, each sound and for the port both tables use it for |
| ChannelHistory.TrafficIsHistory | services/service/src/datatransfer/nearlink_sle_datatransfer_service.cpp:1448-1471 | after every fair run, the records accepted on a pair are exactly the sends to it that found it open, with non-empty address and uuid, room for frame and allowance and a positive `send`, in order; the queue holds those since the last read; delivered are those read while the callback locked; open pairs are those whose end is on its way or stored |
| ChannelHistory.SentIsDelivered | frameworks/native/nearlink_sle_datatransfer.cpp:439-476 | such a send is accepted, and the next read of the pair's socket delivers it after everything sent before |
| ChannelHistory.EverythingTold | socket/nearlink_socket_manager.cpp:121-178 | tables, the service's entries, descriptors and pairs are what the list of actions tells |
| TransferClient.SleDataTransfer.CreatePort | frameworks/native/nearlink_sle_datatransfer.cpp:253-280 | exactly when each code is returned; on success uuid and callback are stored under the answered port and nothing else changes |
| TransferClient.SleDataTransfer.DestroyPort | frameworks/native/nearlink_sle_datatransfer.cpp:282-302 | exactly when each code is returned; on success uuid, callback and every socket of the port are gone and all others unchanged |
| TransferClient.SleDataTransfer.OnConnectionStateChangedInner | frameworks/ipc/src/nearlink_sle_datatransfer_callback_stub.cpp:64-81 | takes a descriptor only with CONNECTED, fails exactly if that is unreadable, has the handler's effect otherwise, loses a descriptor exactly if the owner is gone |
| TransferClient.SleDataTransfer.OnConnectionStateChanged | frameworks/native/nearlink_sle_datatransfer.cpp:82-121 | a CONNECTED with a descriptor stores the peer's entry, a DISCONNECTED removes exactly it with listener and descriptor, if the callback is live; otherwise no entry changes and the descriptor is closed |
| TransferClient.SleDataTransfer.EraseSockets | socket/nearlink_socket_manager.cpp:199-228 | one pass in any order removes exactly the matching entries, their listeners and descriptors |
| TransferClient.SleDataTransfer.SetSocketEntry | socket/nearlink_socket_manager.cpp:161-178 | closed and owned descriptors grow by exactly the new one, and single ownership is kept |
| TransferClient.SleDataTransfer.OnStateOff | frameworks/native/nearlink_sle_datatransfer.cpp:172-183 | returns at once without a proxy; from agreeing tables the result is always empty tables |
| TransferClient.SleDataTransfer.RemovePorts | frameworks/native/nearlink_sle_datatransfer.cpp:177-182 | the loop over the uuid table, in any order, erases exactly the sockets and callbacks of its ports |
| TransferClient.SleDataTransfer.OnServiceStopped | frameworks/native/nearlink_sle_datatransfer.cpp:185-193 | sockets first, then both tables |
| TransferClient.SleDataTransfer.WriteData | frameworks/native/nearlink_sle_datatransfer.cpp:383-415 | which descriptor gets which frame; exactly when each error code is returned; success without a write if and only if the entry is missing |
| WorkerProtocol.NoStartIsLost | socket/nearlink_socket_manager.cpp:304-333 | in every interleaving, once all calls returned, a non-empty table implies `running` and a worker in its loop |
| WorkerProtocol.OneWorkerCleanWake | socket/nearlink_socket_manager.cpp:270-376 | at most one live worker, the join in `Start` never has a thread, the wake socket holds at most one byte and only during a stop |
| WorkerProtocol.RunningExactly | socket/nearlink_socket_manager.cpp:294-333 | in every interleaving, once all calls returned, `running` holds if and only if the table is non-empty or a `RunThread` was the last to take the control mutex |
| WorkerProtocol.RunningExactlyWhenNeeded | socket/nearlink_socket_manager.cpp:294-333 | hence, if no descriptor is destroyed under its own connect handler, `running` holds exactly when the table is non-empty |
| WorkerProtocol.IdleWorkerIsReachable | socket/nearlink_socket_manager.cpp:199-228 | without that, a run ends with a worker and an empty table |
| WorkerProtocol.StepInv | socket/nearlink_socket_manager.cpp:304-356 | every step keeps mutual exclusion, worker lifecycle, wake socket and pending starts consistent |
| WorkerProtocol.EveryCallReturns | socket/nearlink_socket_manager.cpp:270-376 | from every reachable state, under every schedule, without new calls only boundedly many steps remain, and when none is left every call has returned: no deadlock, no join that waits for ever |
| WorkerProtocol.NoDeadlock | socket/nearlink_socket_manager.cpp:304-356 | while a call is in progress, a call or the worker it waits for can go on |
| WorkerProtocol.TableIsHistory | socket/nearlink_socket_manager.cpp:199-228 | the callback table holds exactly the descriptors whose last call was a connect handler |
| WorkerProtocol.WakeByteWaits | socket/nearlink_socket_manager.cpp:335-356 | the byte a stop writes stays until the worker polls, and a poll takes it |
| WorkerThread.Worker.Join | socket/nearlink_socket_manager.cpp:347-351 | joining never waits for a worker whose flag is set |
| WorkerThread.Worker.Start | socket/nearlink_socket_manager.cpp:270-281 | starts one worker; an earlier thread must have ended |
| WorkerThread.Worker.ClearData | socket/nearlink_socket_manager.cpp:358-367 | the loop drains the wake socket |
| WorkerThread.Worker.Stop | socket/nearlink_socket_manager.cpp:335-356 | ends the worker and leaves an empty wake socket whether or not the byte was written or consumed |
| WorkerThread.Worker.RunThread | socket/nearlink_socket_manager.cpp:304-313 | a worker runs afterwards |
| WorkerThread.Worker.StopThread | socket/nearlink_socket_manager.cpp:315-323 | stops the worker exactly when the table is empty |
| WorkerThread.Worker.Connect | frameworks/native/nearlink_sle_datatransfer.cpp:102-120 | as one call: `running` exactly when the table is non-empty |
| WorkerThread.Worker.Destroy | socket/nearlink_socket_manager.cpp:199-212 | as one call: `running` exactly when the table is non-empty |
| Discovery.DiscoveryConservation | frameworks/native/nearlink_ssap_client.cpp:512-614 | for any number of threads: starts == claims + (1 if finding), claims == reports + pending reports |
| Discovery.DisconnectCloses | frameworks/native/nearlink_ssap_client.cpp:106-108 | a disconnect closes and claims exactly the discovery that is open |
| Discovery.GetServicesIsFresh | frameworks/native/nearlink_ssap_client.cpp:709-738 | when `GetServices` succeeds nothing is in flight, the fetch was requested after every completion, no handle it brought was lost, and it was answered if and only if the last fetch of the run was |
| Discovery.FetchedIsAnswered | frameworks/native/nearlink_ssap_client.cpp:733-737 | for every run, a cache that counts as fetched holds an answer in all states if and only if no fetch of the run failed |
| Discovery.StepBacked | frameworks/native/nearlink_ssap_client.cpp:733-737 | every move keeps that, except exactly a failed fetch |
| Discovery.FailedFetchSticks | frameworks/native/nearlink_ssap_client.cpp:723-737 | after a failed fetch the cache counts as fetched and `GetServices` succeeds at once, if and only if no completion was claimed since |
| Discovery.FailedFetchIsReachable | frameworks/native/nearlink_ssap_client.cpp:733-737 | a run for every failing reply |
| Discovery.AnsweredIsComplete | frameworks/ipc/src/nearlink_ssap_client_proxy.cpp:341-355 | a fetch is answered if and only if the service agreed and all announced services were read |
| Discovery.ReadServices | frameworks/ipc/src/nearlink_ssap_client_proxy.cpp:341-355 | the loop leaves the services in front of the first unreadable one and fails exactly if the fetch is not answered |
| Discovery.WholeCacheIsFresh | frameworks/native/nearlink_ssap_client.cpp:841-908 | for every run, the entries of a fetched cache postdate the last completion in all states if and only if the run has no stale store |
| Discovery.StepFreshness | frameworks/native/nearlink_ssap_client.cpp:866-870 | every move keeps the fetched cache fresh, except exactly a lookup that stores an answer older than the last completion |
| Discovery.StaleLookupIsReachable | frameworks/native/nearlink_ssap_client.cpp:841-871 | a run in which such a store puts a stale entry into a fetched cache |
| Discovery.OpenDiscoveriesAreAttended | frameworks/native/nearlink_ssap_client.cpp:512-570 | if no start is abandoned, every open discovery is in the hands of a caller or the service |
| Discovery.AbandonedExactly | frameworks/native/nearlink_ssap_client.cpp:530-539 | the opening call leaves it attended if and only if registered and the proxy is present |
| Discovery.RefusalClaimsAnotherDiscovery | frameworks/native/nearlink_ssap_client.cpp:535-592 | a run in which a refused request claims a later discovery of another thread that the service is working on |
| Discovery.RefusalClaims | frameworks/native/nearlink_ssap_client.cpp:535-592 | in every run a refused request claims its own discovery, a later one or nothing, and exactly when its own |
| Discovery.OwnDiscoveryExactly | frameworks/native/nearlink_ssap_client.cpp:518-583 | it claims the discovery it opened if and only if no completion was claimed since it opened it |
| Discovery.StuckUntilCompletion | frameworks/native/nearlink_ssap_client.cpp:518-528 | while open, no start, fetch or lookup gets through until a completion |
| Discovery.MonitorIsHistory | frameworks/native/nearlink_ssap_client.cpp:512-908 | after every run the flags, the counts and the place of every thread are what the moves tell |
| Discovery.StepCache | frameworks/native/nearlink_ssap_client.cpp:723-737 | which move changes a cached entry, and the fields and includes it gets |
| Discovery.LookupStoresEverything | frameworks/native/nearlink_ssap_client.cpp:841-908 | a lookup stores every service of its answer in order, whatever other threads do |
| Discovery.SsapClient.TryStart | frameworks/native/nearlink_ssap_client.cpp:518-528 | passes exactly if every discovery opened was claimed, leaves exactly one in flight, keeps the counts and the cache invariant |
| Discovery.SsapClient.FindComplete | frameworks/native/nearlink_ssap_client.cpp:572-583 | leaves nothing in flight, claims exactly the first completion of a discovery, outdates the fetch, keeps the invariant |
| Discovery.SsapClient.GetServicesBody | frameworks/native/nearlink_ssap_client.cpp:723-737 | cache, flag and code for every path; success without an answer if and only if this fetch fails or an earlier failed one still counts |
| Discovery.SsapClient.Fetch | frameworks/native/nearlink_ssap_client.cpp:733-737 | whatever the reply left is linked into the cache, which then counts as fetched |
| Discovery.SsapClient.StoreService | frameworks/native/nearlink_ssap_client.cpp:866-870 | loses no cached handle, changes only its own entry, and keeps the cache invariant |
| ServiceLinking.BuildListAt | frameworks/native/nearlink_ssap_client.cpp:616-692 | for any cache and list: the entry of a handle has the fields of its last service, a stub for each of its includes and then a link at its place for every include, of any service with that handle, whose start handle is cached; other entries stay |
| ServiceLinking.BuildListLinks | frameworks/native/nearlink_ssap_client.cpp:616-692 | distinct handles: each service once, field by field, a stub for every include followed by a link at its place for exactly the includes whose start handle is in the list |
| ServiceLinking.OrderIndependent | frameworks/native/nearlink_ssap_client.cpp:666-692 | every permutation of the list gives the same cache |
| ServiceLinking.DuplicateHandlesDependOnOrder | frameworks/native/nearlink_ssap_client.cpp:666-692 | two lists of the same handles give the same cache if and only if the services of each handle leave the same entry |
| ServiceLinking.SameGroupsSameCache | frameworks/native/nearlink_ssap_client.cpp:666-692 | only the order among services of one handle matters |
| ServiceLinking.ParcelledServicesAreUnlinked | frameworks/native/nearlink_ssap_client.cpp:676-691 | services that came through the parcel end up without included services |
| ServiceLinking.ServiceCache.BuildServiceList | frameworks/native/nearlink_ssap_client.cpp:666-692 | the two loops compute the two passes, from any cache |
| ServiceLinking.ResolveIncludes | frameworks/native/nearlink_ssap_client.cpp:683-690 | the resolvable includes in order |
| ServiceParcel.TakeExact | ipc_parcel/parcel/nearlink_ssap_service_parcel.cpp:79-85 | reading n elements inverts writing n elements, for any element codec |
| ServiceParcel.VectorExact | ipc_parcel/parcel/nearlink_ssap_service_parcel.cpp:72-119 | a counted list is read if and only if it was written and is within the limit |
| ServiceParcel.UuidExact | ipc_parcel/parcel/nearlink_uuid_parcel.cpp:22-57 | the two words are read back as the same UUID |
| ServiceParcel.DescriptorExact | ipc_parcel/parcel/nearlink_ssap_descriptor_parcel.cpp:23-92 | descriptor reader and writer are inverse within the limit, suffix untouched |
| ServiceParcel.EventExact | ipc_parcel/parcel/nearlink_ssap_event_parcel.cpp:24-85 | likewise for events |
| ServiceParcel.MethodExact | ipc_parcel/parcel/nearlink_ssap_method_parcel.cpp:24-118 | likewise for methods |
| ServiceParcel.PropertyExact | ipc_parcel/parcel/nearlink_ssap_property_parcel.cpp:26-120 | likewise for properties with nested descriptors |
| ServiceParcel.ServiceExact | ipc_parcel/parcel/nearlink_ssap_service_parcel.cpp:27-191 | the service reader accepts exactly encodings within every limit, returns no includes and leaves the suffix |
| ServiceParcel.Layout | ipc_parcel/parcel/nearlink_ssap_property_parcel.cpp:26-60 | order and width of every value of a descriptor, event, method and property |
| ServiceParcel.ServiceLayout | ipc_parcel/parcel/nearlink_ssap_service_parcel.cpp:27-147 | order of every value of a service with one member of each kind; no includes |
| ServiceParcel.LimitsMatch | ipc_parcel/parcel/nearlink_ssap_service_parcel.cpp:26-120 | up to wrapping counts the writer's limits are the reader's at every level |
| ServiceParcel.LimitsInNumbers | ipc_parcel/parcel/nearlink_ssap_service_parcel.cpp:26-120 | every limit of the reader as a number |
| ServiceParcel.RoundTrip | ipc_parcel/parcel/nearlink_ssap_service_parcel.cpp:27-191 | for a writable service, reading returns it without includes, suffix untouched, if and only if no list count wraps |
| ServiceParcel.WrappedCountBreaksRoundTrip | ipc_parcel/parcel/nearlink_ssap_service_parcel.cpp:49-58 | a service whose event count wraps is written and not read back |
| ParcelIO.Parcel.WriteBytes | ipc_parcel/parcel/nearlink_ssap_descriptor_parcel.cpp:31-38 | count and bytes are pushed exactly when within the limit |
| ParcelIO.Parcel.ReadBytes | ipc_parcel/parcel/nearlink_ssap_descriptor_parcel.cpp:71-84 | the loop reads exactly the counted bytes |
| ParcelIO.Parcel.WriteUuid | ipc_parcel/parcel/nearlink_uuid_parcel.cpp:22-41 | pushes the two words |
| ParcelIO.Parcel.ReadUuid | ipc_parcel/parcel/nearlink_uuid_parcel.cpp:43-57 | reads them back |
| ParcelIO.Parcel.WriteDescriptor | ipc_parcel/parcel/nearlink_ssap_descriptor_parcel.cpp:23-46 | fails exactly above the limit, otherwise appends the encoding |
| ParcelIO.Parcel.ReadDescriptor | ipc_parcel/parcel/nearlink_ssap_descriptor_parcel.cpp:63-92 | reads one descriptor, cursor right after it |
| ParcelIO.Parcel.WriteEvent | ipc_parcel/parcel/nearlink_ssap_event_parcel.cpp:24-43 | fails exactly above the limit, otherwise appends the encoding |
| ParcelIO.Parcel.ReadEvent | ipc_parcel/parcel/nearlink_ssap_event_parcel.cpp:60-85 | reads one event, cursor right after it |
| ParcelIO.Parcel.WriteMethod | ipc_parcel/parcel/nearlink_ssap_method_parcel.cpp:24-55 | fails exactly above either limit, otherwise appends the encoding |
| ParcelIO.Parcel.ReadMethod | ipc_parcel/parcel/nearlink_ssap_method_parcel.cpp:72-118 | reads one method, cursor right after it |
| ParcelIO.Parcel.WriteProperty | ipc_parcel/parcel/nearlink_ssap_property_parcel.cpp:26-60 | fails exactly when some limit is exceeded, otherwise appends the encoding |
| ParcelIO.Parcel.ReadProperty | ipc_parcel/parcel/nearlink_ssap_property_parcel.cpp:77-120 | reads one property, cursor right after it |
| ParcelIO.Parcel.WriteService | ipc_parcel/parcel/nearlink_ssap_service_parcel.cpp:122-147 | fails exactly when some limit is exceeded, otherwise appends the encoding |
| ParcelIO.Parcel.ReadService | ipc_parcel/parcel/nearlink_ssap_service_parcel.cpp:164-191 | succeeds exactly on an encoding within the limits and stops right after it |
| ParcelIO.Parcel.ReadMembers | ipc_parcel/parcel/nearlink_ssap_service_parcel.cpp:72-120 | the four member lists in order |
| Uuid.HalvesRoundTrip | utils/src/sle_uuid.cpp:80-94 | bytes and 64-bit halves determine each other |
| Uuid.MaskingIsShifting | frameworks/native/nearlink_uuid.cpp:53-88 | mask-then-shift of the constructor yields the shift-then-mask bytes |
| Uuid.FromLongs | frameworks/native/nearlink_uuid.cpp:53-88 | the constructor from two 64-bit words builds the UUID whose halves they are |
| Uuid.SignificantBits | utils/include/sle_uuid.h:219-241 | the accumulate loops equal the parcel's or-of-shifts |
| Uuid.ConvertFromMostAndLeastBit | utils/src/sle_uuid.cpp:80-94 | the filling loops invert the halves |
| Uuid.GetUuidType | utils/src/sle_uuid.cpp:146-154 | 2 if and only if the UUID equals its 16-bit form expanded again |
| Uuid.SixteenRoundTrip | utils/src/sle_uuid.cpp:58-64 | sixteen-bit identifiers survive expansion |
| Uuid.SixteenBytes | utils/src/sle_uuid.cpp:58-64 | a sixteen-bit identifier replaces the last two bytes of the base UUID, high byte first |
| Uuid.BaseHalves | utils/src/sle_uuid.cpp:80-94 | the two 64-bit words of the base UUID |
| UuidText.TextRoundTrip | frameworks/native/nearlink_uuid.cpp:100-157 | reading the written text returns the UUID for either class |
| UuidText.BaseText | frameworks/native/nearlink_uuid.cpp:141-157 | the text of the base UUID |
| UuidText.CanonicalText | frameworks/native/nearlink_uuid.cpp:100-157 | 32 hex digits with dashes anywhere are written back as canonical upper-case 8-4-4-4-12 text |
| UuidText.ValidTextRoundTrip | utils/src/nearlink_utils.cpp:47-90 | on valid text reading and writing back is upper-casing |
| UuidText.ClassesAgreeExactly | utils/src/sle_uuid.cpp:33-56 | both classes read the same UUID if and only if there are 32 digits of which the first twenty are hexadecimal |
| UuidText.OrderIsByteOrder | frameworks/native/nearlink_uuid.cpp:159-173 | text comparison is byte-wise order, a strict total order whose ties are the equal UUIDs |
| UuidText.Less | utils/include/sle_uuid.h:268-276 | the loop of `operator<` and `Equals` agree with `CompareTo` |
| UuidText.FromString | frameworks/native/nearlink_uuid.cpp:100-125 | dash removal and pair loop compute the reader, partial results included |
| UuidText.ToString | frameworks/native/nearlink_uuid.cpp:141-157 | the digit loop computes the canonical text |
| UuidText.IsValidUuid | utils/src/nearlink_utils.cpp:47-69 | accepts exactly dashed 32-digit text |
| UuidText.ConvertUuidToUpperCase | utils/src/nearlink_utils.cpp:81-90 | upper-cases in place |
| ConnectedDevices.ErasedForgets | utils/include/nearlink_safe_list.h:71-82 | one erase forgets an element if and only if it was listed at most once |
| ConnectedDevices.ListIsHistory | frameworks/native/nearlink_ssap_server.cpp:76-92 | after any events: no duplicates, and listed if and only if the last relevant event was CONNECTED |
| ConnectedDevices.SafeList.Insert | utils/include/nearlink_safe_list.h:38-47 | appends exactly a missing element, no duplicates arise |
| ConnectedDevices.SafeList.Erase | utils/include/nearlink_safe_list.h:71-82 | removes the first match |
| ConnectedDevices.SafeList.Find | utils/include/nearlink_safe_list.h:119-133 | finds exactly the listed elements |
| ConnectedDevices.SsapServer.OnConnectionStateChanged | frameworks/native/nearlink_ssap_server.cpp:76-92 | the list follows the event history; without a user callback events are ignored |
| ConnectedDevices.SsapServer.FindConnectedDevice | frameworks/native/nearlink_ssap_server.cpp:340-355 | succeeds if and only if the server has a user callback and the device's last relevant event was CONNECTED |
| Advertisers.OneHandlePerCallback | frameworks/native/nearlink_sle_advertiser.cpp:72-132 | over every interleaving 0xFF is no key; if no two starts of a callback overlap, a live callback has at most one handle |
| Advertisers.StepOneHandle | frameworks/native/nearlink_sle_advertiser.cpp:319-346 | every locked step keeps one handle per live callback, except exactly an insertion for a callback that already has another |
| Advertisers.OverlapDecides | frameworks/native/nearlink_sle_advertiser.cpp:376-391 | when a start begins, all continuations keep one handle per callback if and only if no other start of it is between lookup and insertion |
| Advertisers.TwoHandlesAreReachable | frameworks/native/nearlink_sle_advertiser.cpp:319-346 | a run of two overlapping starts ends with two handles for one callback |
| Advertisers.DisplacesExactly | frameworks/native/nearlink_sle_advertiser.cpp:334-342 | a start's insertion or erasure takes another live callback's handle if and only if the entry under its own handle is that callback's |
| Advertisers.UnusedHandlesDisplaceNobody | frameworks/native/nearlink_sle_advertiser.cpp:325-342 | over every interleaving, if no handle in use for another callback is handed out, no start takes another live callback's handle |
| Advertisers.ReuseDecides | frameworks/native/nearlink_sle_advertiser.cpp:325-342 | when a handle is handed out, all continuations leave other live callbacks their handles if and only if it is not in use for another callback |
| Advertisers.WholeCall | frameworks/native/nearlink_sle_advertiser.cpp:319-346 | the moves of one start with the given answers and nothing in between: a known callback starts under its handle, a new one gets the answer and keeps it if and only if the start succeeds |
| Advertisers.MapIsHistory | frameworks/native/nearlink_sle_advertiser.cpp:72-132 | after every interleaving each thread is where its moves put it, and the map holds for each handle the callback last inserted and not erased by its own failed start, an event or a service stop since |
| Advertisers.SleAdvertiser.GetAdvHandleImp | frameworks/native/nearlink_sle_advertiser.cpp:305-317 | lookup by a live callback inverts lookup by handle; a null callback finds exactly the handles of dead ones |
| Advertisers.SleAdvertiser.GetAdvHandle | frameworks/native/nearlink_sle_advertiser.cpp:447-456 | succeeds exactly if a matching handle, narrowed to eight bits, is not 0xFF; a null callback gets a dead one's |
| Advertisers.SleAdvertiser.StartAdvertising | frameworks/native/nearlink_sle_advertiser.cpp:319-346 | succeeds exactly if a known callback's start does, or a new one is granted 0xFF or its start succeeds; a new callback has the answered handle afterwards if and only if usable and started; other handles keep their owners |
| Observers.ListedExactlyWhenRegistered | frameworks/native/nearlink_host.cpp:31-57 | over every interleaving, once calls and notifications are done, any observer, dead or alive, is listed if and only if the base host can still reach an adapter of it, and it has one adapter |
| Observers.NotifiesExactlyTheListed | utils/include/nearlink_safe_weak_list.h:96-119 | a notification then reaches exactly the listed adapters |
| Observers.DeadAdapterExpires | frameworks/native/nearlink_observer_adapter.cpp:224-233 | the first notification that calls a dead observer's adapter takes it off the list, and it stays reachable only while some thread holds it |
| Observers.RunBacked | frameworks/native/nearlink_host.cpp:31-57 | in every state of every interleaving, one adapter per observer, and a listed adapter is registered or some call is about to settle it |
| Observers.ListIsHistory | frameworks/native/nearlink_observer_adapter.cpp:274-311 | after every interleaving the list holds exactly the adapters that the moves tell, and each thread is where its own moves put it |
| Observers.BaseIsHistory | frameworks/native/base/nearlink_base_host.cpp:637-653 | of the adapters that still lock, the base host has exactly those it accepted and did not let go since |
| Observers.NotifiesEachOnce | utils/include/nearlink_safe_weak_list.h:96-119 | a notification calls each collected adapter at most once, and exactly once when none remains |
| Observers.TakesAnotherExactly | frameworks/native/nearlink_observer_adapter.cpp:302-311 | a call's erasure takes an adapter not its own if and only if the listed adapter of its observer is another one |
| Observers.OwnAdaptersOnly | frameworks/native/nearlink_host.cpp:31-57 | over every interleaving, if no observer gets a new adapter while a call for it is on its way, calls take only their own adapters off the list |
| Observers.RaceDecides | frameworks/native/nearlink_host.cpp:31-57 | when an observer gets a new adapter, all continuations take only own adapters if and only if no other call for it is on its way |
| Observers.UndoneRegistrationIsReachable | frameworks/native/nearlink_host.cpp:44-57 | a run in which an older deregistration undoes a registration that returned success |
| Observers.ObserverAdapterList.Insert | frameworks/native/nearlink_observer_adapter.cpp:274-285 | inserts exactly if the observer has no adapter |
| Observers.ObserverAdapterList.Find | frameworks/native/nearlink_observer_adapter.cpp:288-300 | the first adapter of the observer |
| Observers.ObserverAdapterList.Erase | frameworks/native/nearlink_observer_adapter.cpp:302-311 | removes the first adapter of the observer |
| Observers.NearlinkHost.RegisterObserver | frameworks/native/nearlink_host.cpp:31-42 | registered afterwards exactly if it was before or the base host accepted; a refusal leaves the list as it was; the code for every path |
| Observers.NearlinkHost.DeregisterObserver | frameworks/native/nearlink_host.cpp:44-57 | unlists exactly if supported and accepted, touches nobody else; the code for every path |

## Left out

- Kernel sockets, epoll, fcntl, fdsan tags and timing: only a byte queue, a listener table and descriptor counts remain.
- IPC proxies, stubs other than the connection callback stub, and the byte layout of a parcel: the library is not part of this model.
- User callbacks that re-enter the API or destroy ports from the worker thread, and the destructors of the socket manager.
- TransferClient.SleDataTransfer.WriteData: addresses above the copy limit of `memcpy_s` are excluded by its `requires`.
- ServiceLinking.ServiceCache.BuildServiceList: a shared pointer to a cached service is modelled by its handle, so later replacement of that entry is not followed.
- The `Run` loop of the worker appears as its shared accesses; the dispatch of user callbacks inside it does not.
- The service-side reader of the other socket direction, which takes one frame per read.
- Waiting and timeouts in discovery are nondeterministic: a waiting call may wake or time out at any moment.
- `SocketConnectionParams` ordering, setters, getters, flat parcels, scan and advertise settings: easy members.
- Host, controller, TWS, VCP, HID, ASC and CDSM forwarding methods, ranging, plugins and logging.
