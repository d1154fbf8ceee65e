# A verified model of the chat server's session engine

This project models, in Dafny, the parts of the chat system where concurrency, state and
arithmetic decide whether it behaves: the per-connection reader and writer, the registry of
online users, the worker that dispatches requests behind an authorisation gate, the handlers
whose replies must keep to a byte limit, message submission and push, the mail-code scripts in
Redis, and the wire validators. `dafny verify dfyconfig.toml` checks all of it.

## How it is built

| files | part of the system |
|---|---|
| `Framing.dfy`, `MsgNode.dfy` | the frame format, a reference parser for whole byte streams, and the message buffers |
| `PacketBudget.dfy`, `SessionReader.dfy`, `SessionFeed.dfy` | the token bucket, the reading half of `CSession` with partial reads, close flag and deadlines, and whole conversations with it |
| `SendStream.dfy`, `OffStrandSends.dfy` | the writing half of `CSession`: bounded queue, one write in flight, the counter for sends from other threads |
| `Registry.dfy` | `UserMgr`, `CServer` and the close flag, under every interleaving of login, close and cleanup |
| `Dispatcher.dfy`, `AuthGate.dfy` | `LogicSystem`'s queue and condition variable, and the gate in front of its handlers |
| `Numbers.dfy`, `JsonText.dfy`, `ChatWire.dfy` | decimal text, compact JSON text and its size, ids and limits |
| `FriendPaging.dfy`, `FriendScan.dfy` | the friend-list page packer, and the client that follows it page by page |
| `Cursors.dfy`, `ChatSync.dfy` | 64-bit cursors and the synchronisation handler |
| `MessageStore.dfy`, `TextDelivery.dfy` | the stored messages, submission, and pushes on this server or by RPC |
| `Redis.dfy`, `Reservation.dfy`, `ReservationSteps.dfy` | expiring keys, the two mail-code scripts, their runs |
| `ReservationBounds.dfy`, `ReservationRates.dfy`, `ReservationGuesses.dfy` | which code is stored, how fast codes are granted, how often one can be tried |
| `PrivateChatWire.dfy`, `PrivateChatRequests.dfy`, `Base64.dfy` | the private-chat request schema, the requests it accepts, and which ciphertexts that pass its check are base64 |
| `Common.dfy` | options, bytes, session ids and error codes |
| `Composition.dfy` | results across parts: replies on the wire, pushes through the registry |

Objects the program updates in place are classes whose methods carry out the same steps
(`SessionReader.Session`, `SendStream.SendQueue`, `Registry.UserMgr`, `Registry.CServer`,
`Dispatcher.LogicQueue`, `AuthGate.LogicWorker`, `Reservation.Database`, `MessageNodes.MsgNode`).
Where threads race, the same operations are also cut at every point where another thread can
come between, as an `Event` type with `Enabled` and `Step`; what each step does is stated on its
own, and an invariant is proved for every step and so for every sequence of events.

## Assumptions

- Asio: the handlers of one strand never overlap; a write completes without error only when the
  whole frame was sent; a timer that completes without error has expired. `steady_clock` never
  goes back.
- Session ids, which are random uuids, are unique.
- A Redis script or command is one atomic step, and a key is dead at its expiry instant.
  `DeleteIfEqual` compares and deletes in one step. Redis time never goes back.
- jsoncpp: an object has no name twice; compact text has no whitespace and uses the escapes
  written out in `JsonText.Escaped`. jsoncpp sorts members by name; the model keeps the order in
  which they are given, which no length depends on. A JSON number is an integer; jsoncpp's
  `isInt` also takes a real with an integral value, which the model reads as that integer.
- jsoncpp comments: the parser attaches a comment to the value it stands before, or behind on the
  same line; copying a value copies its comments, and the writer prints those of an object's
  members, before the name as they are and behind the value after a space. Requests are modelled
  without their comments, which come beside them as a parameter.
- MySQL compares message ids by the collation of their column, `utf8mb4_0900_ai_ci`: of the
  characters a uuid can have, it holds capital and small letters equal and nothing else.
- `GetFriendPage` answers with the first ten friends above the cursor, ascending, and says there
  are more exactly when an eleventh exists. `StoreTextMessage` and `StoredText` work on one table
  of records by sender and client message id; whether a new message is admitted, and the numbers
  it gets, are parameters; so is whether the store can read a message back after committing it.
- Every database call answers `ChatSync` with a JSON object, as the persistence layer does; the
  type of `Sync`'s database parameter says so.
- The bucket's doubles are exact reals, and token digests are opaque values.

## What the proofs found

- **Logout may not revoke.** The logout callback ignores what `DeleteIfEqual` returns. If Redis is
  not reached, the session closes and the token stays good. `AuthGate.LogoutRevokesIff` gives the
  exact condition and `AuthGate.LogoutMayNotRevoke` a run in which it happens;
  `AuthGate.LogoutIsFinal` is about logouts that did reach Redis. Even those do not stop a message
  that another chat server had already checked.
- **A comment can break the body limit.** The friend list copies the request id with its
  comments, and a reply without friends is not measured before it is sent. A request of 1800
  bytes can get a reply of 1862. `FriendPaging.RepliesFitIff` gives the exact condition,
  `FriendPaging.CommentBreaksLimit` the input; every reply still fits a frame.
- **An acknowledgement may carry another id.** The message-id column ignores case. A message sent
  again with its id in other letters gets error 0 and the first record, with the first spelling.
  `MessageStore.StoreCommits` and `TextDelivery.DealChatTextMsg` say exactly when the id comes back
  as sent; `MessageStore.SpellingMayDiffer` is an input where it does not.
- **A failed submission may be stored.** The store commits and then reads the record back. If that
  fails, the sender gets error 1104 for a message that is in the table, and nobody gets a push.
  `MessageStore.StoredIff` and `TextDelivery.DealChatTextMsg` give the exact condition for error 0,
  `MessageStore.FailureMayHaveCommitted` an input, and `MessageStore.ResubmissionRecovers` shows
  that sending the same message again always gets its record.
- **Mail codes need keys that do not alias.** The scripts derive `key:cooldown` and
  `key:attempts` by appending to the caller's key, and an address may end in either. The promises
  fail one by one, each with its exact condition:
  - the stored code is the last one granted exactly when no key is another's derived key or the
    global counter (`ReservationBounds.RightIffNoAlias`);
  - grants for one key are 60 s apart, over any keys, as long as codes are only reserved. Tried on
    another key's cooldown key, the sixth wrong code deletes the cooldown, and the next code is
    granted a second after the last (`ReservationRates.LooksEndCooldown`). So with both scripts
    they are always spaced exactly when no key is another's cooldown key
    (`ReservationRates.SpacedIff`);
  - a code is compared at most five times exactly when no key is another's attempts key
    (`ReservationGuesses.FiveIff`); otherwise six tries on that key delete the count, and a sixth
    guess can match (`ReservationGuesses.SixthGuess`). Both runs keep to five tries a minute;
  - the global rate needs only that nobody uses the counter's own key (`ReservationRates.RateIff`),
    which the services' prefix `code_` rules out.
- **The ciphertext check is not a base64 check.** Every encoding of 1 to 65538 bytes passes, and
  none of another length, but so does `====`, which encodes nothing.
  `Base64.PassingIsEncodingIff` says exactly which texts that pass are encodings.
- **A friend too large for a page stops paging.** The client then has everyone before that friend
  and an error. `FriendScan.ClientGetsAll` gives the exact condition for a complete scan, and
  `FriendScan.LargeIconStopsPaging` a friend who breaks it.

## Model

| member | source | states |
|---|---|---|
| `MessageNodes.New` | ChatServer/src/MsgNode.cpp:8-12 | Exactly a non-positive length throws; otherwise the buffer is zeroed and one byte longer than its length. |
| `MessageNodes.MsgNode.constructor` | ChatServer/src/MsgNode.cpp:8-12 | A new node has its length, id, no bytes counted, and zeroes everywhere. |
| `MessageNodes.MsgNode.Clear` | ChatServer/src/MsgNode.cpp:19-22 | Clearing zeroes every byte but the closing one and resets the count. |
| `MessageNodes.SendNode` | ChatServer/src/MsgNode.cpp:30-39 | An outgoing node holds the id and the length of its message, high byte first, then the body and a closing zero byte; it throws exactly when body plus header leave the short range. |
| `MessageNodes.FillFrame` | ChatServer/src/MsgNode.cpp:33-38 | The three copies leave exactly the frame in the buffer, and nothing behind it changes. |
| `Framing.LoginFrame` | ChatServer/src/MsgNode.cpp:33-38 | A login frame byte for byte: id and length in network order, written and read. |
| `Framing.ParseFrame` | ChatServer/src/CSession.cpp:125-215 | A readable frame at the head of any stream is read back whole, and the rest is read as if it stood alone. |
| `Framing.ParseEncoded` | ChatServer/src/CSession.cpp:125-215 | Reading undoes encoding for every list of readable messages, whatever bytes follow. |
| `Framing.EncodeParsed` | ChatServer/src/CSession.cpp:125-215 | Encoding undoes reading: every byte stream is the encoding of the messages read from it, followed by the unread rest. |
| `Framing.ParseAppend` | ChatServer/src/CSession.cpp:233-251 | What later bytes mean depends on earlier ones only through the unread rest. |
| `Framing.FrameRoundTrip` | ChatServer/src/CSession.cpp:154-173 | Of all frames the sender may emit, exactly those with id 1 to 32767 and body 1 to 2048 come back; every other is refused at its header. |
| `PacketBudget.AdmitsAllLaw` | ChatServer/src/CSession.cpp:74-81 | From any fill level, a bucket admits a whole arrival sequence if and only if no window of it outruns the capacity plus refill and its start fits what was in the bucket. |
| `PacketBudget.BucketIsWindowLaw` | docs/SECURITY_IMPLEMENTATION.md:30 | A session's bucket admits all packets if and only if every window i to j holds at most 80 + 40 * (t_j - t_i) of them. |
| `PacketBudget.BudgetBounded` | ChatServer/include/CSession.h:48-49 | The budget stays in [0, 80] over every arrival sequence, through refusals too. |
| `SessionReader.Session.constructor` | ChatServer/include/CSession.h:47-62 | A session starts open, with a full budget and no read under way, and satisfies the invariant. |
| `SessionReader.Session.Close` | ChatServer/src/CSession.cpp:54-55 | The close flag goes up once; later callers change nothing. |
| `SessionReader.Session.ArmReadDeadline` | ChatServer/src/CSession.cpp:66-72 | Each arming gets the next generation, counted modulo 2^64. |
| `SessionReader.Session.OnReadDeadline` | ChatServer/src/CSession.cpp:69-71 | However late a timer completes, it closes only the phase it was armed for and only after that phase has lasted its full 120 s or 15 s, unless 2^64 armings came between. |
| `SessionReader.Session.AcceptPacket` | ChatServer/src/CSession.cpp:74-81 | A packet is accepted if and only if no window of the session's arrivals breaks the law; otherwise the session closes. |
| `SessionReader.Session.Start` | ChatServer/src/CSession.cpp:41-52 | An open session arms its login deadline and begins reading a header under the 120 s deadline; a closed one does nothing. |
| `SessionReader.Session.OnLoginDeadline` | ChatServer/src/CSession.cpp:47-50 | The login timer closes exactly a session without a user, and only 15 s after its start. |
| `SessionReader.Session.AsyncReadHead` | ChatServer/src/CSession.cpp:125-129 | The next frame is read from its first byte, under a new 120 s deadline, unless the session was closed. |
| `SessionReader.Session.AsyncReadBody` | ChatServer/src/CSession.cpp:183-187 | Exactly the announced number of body bytes is asked for, under a new 15 s deadline, unless the session was closed. |
| `SessionReader.Session.AsyncReadFull` | ChatServer/src/CSession.cpp:222-230 | A read starts at the front of the buffer and within it, and exactly the lengths 0 and above 2048 are refused with nothing changed. |
| `SessionReader.Session.OnReadError` | ChatServer/src/CSession.cpp:131-136 | A failed read closes the session and posts nothing. |
| `SessionReader.Session.OnReadSome` | ChatServer/src/CSession.cpp:233-251 | Whatever part of the requested bytes arrives: every index stays in the buffer, the invariant holds, a frame is posted exactly when it is complete, the session open, the budget kept and the queue not full, and a fragment that completes no phase prolongs no deadline. |
| `SessionReader.Session.OnReadFull` | ChatServer/src/CSession.cpp:243-246 | Once all bytes asked for are there, the phase's handler runs to the same effect. |
| `SessionReader.Session.HandleHead` | ChatServer/src/CSession.cpp:129-180 | A header is refused exactly when its id or length is out of range; a good one leads to its body, whose deadline starts now; nothing is posted. |
| `SessionReader.Session.ReadHead` | ChatServer/src/CSession.cpp:148-173 | The id is 256 times the first byte plus the second, the length 256 times the third plus the fourth; a header is good exactly when both are in range. |
| `SessionReader.Session.HandleBody` | ChatServer/src/CSession.cpp:187-214 | A complete frame is posted once, or closes the session because of budget or queue; a closed session posts nothing. |
| `SessionReader.Session.Offer` | ChatServer/src/CSession.cpp:208-209 | A complete packet is posted if and only if the budget admits it and the queue has room; otherwise the session closes for that reason. |
| `SessionReader.PostsAreTheStream` | ChatServer/src/CSession.cpp:125-251 | In every reachable state the posts are a prefix of the messages in the received bytes: all of them while open or after a bad header, all but the last after a refusal. |
| `SessionReader.FramingRoundTrip` | ChatServer/src/CSession.cpp:125-251 | When the frames of any list of readable messages have arrived, in whatever pieces, an open session has posted exactly that list; one refused packet costs exactly the last. |
| `SessionReader.FragmentationInvisible` | ChatServer/src/CSession.cpp:233-251 | Two open sessions that received the same bytes in different pieces have posted the same. |
| `SessionFeed.Feed` | ChatServer/src/CSession.cpp:125-251 | The frames of any list of readable messages, delivered in pieces of any size at any times: an open session ends with exactly that list posted; a closed one posted a prefix and was closed by another thread, by a full queue, or for its rate, the last exactly when its arrivals broke the window law. |
| `SessionFeed.FeedUndisturbed` | ChatServer/src/CSession.cpp:125-251 | With room in the queue and nobody closing, the session is closed if and only if its arrivals broke the window law, and otherwise has posted exactly what was sent. |
| `SessionFeed.PrefixIsGood` | ChatServer/src/CSession.cpp:154-173 | No part of a well-formed stream, cut anywhere, reads as a bad header. |
| `SessionReader.BudgetClosesByLaw` | docs/SECURITY_IMPLEMENTATION.md:30 | A session is closed for its packet rate if and only if its arrivals broke the window law. |
| `SendStream.SendQueue.Send` | ChatServer/src/CSession.cpp:83-114 | A sendable message joins the back of the queue if there is room; an empty or too long one, or a full queue, closes the session and queues nothing. |
| `SendStream.SendSays` | ChatServer/src/CSession.cpp:83-114 | A send that is taken puts its frame at the back of the queue, and any other leaves the queue and closes the session. |
| `SendStream.SendQueue.HandleWrite` | ChatServer/src/CSession.cpp:253-271 | Exactly the front frame leaves, only after a successful write and never after a close; while open, a write is in flight if and only if the queue is not empty. |
| `SendStream.WriteSomeSays` | ChatServer/src/CSession.cpp:258-262 | The socket moves the next bytes of the front frame to the wire and changes nothing else. |
| `SendStream.SendKeeps` | ChatServer/src/CSession.cpp:83-114 | Every send keeps the writer's invariant, whoever closes the session meanwhile. |
| `SendStream.HandleWriteKeeps` | ChatServer/src/CSession.cpp:253-271 | Every completed or failed write keeps it. |
| `SendStream.Conservation` | ChatServer/src/CSession.cpp:83-114 | Bytes on the wire, then the rest of the frame in flight, then the queued frames, are the frames of the accepted sends in order. |
| `SendStream.WireReadsBack` | ChatServer/src/CSession.cpp:253-271 | The peer reads from the wire a prefix of the accepted sends, unaltered, and all of them once the queue is empty. |
| `OffStrandSends.StepCounts` | ChatServer/src/CSession.cpp:89-100 | Each atomic step of any thread keeps the counter equal to the dispatched sends plus the threads inside the protocol, and the dispatched at most 1000. |
| `OffStrandSends.StepWrites` | ChatServer/src/CSession.cpp:83-114 | Each of those steps keeps the writer's invariant. |
| `OffStrandSends.SendsBounded` | docs/SECURITY_IMPLEMENTATION.md:31 | For any number of threads and any interleaving: at most 1000 sends wait for the strand, at most 1000 frames are queued, and the wire with what is still queued is the accepted sends byte for byte. |
| `OffStrandSends.DispatchedAreSent` | ChatServer/src/CSession.cpp:89-100 | On every interleaving, what lambdas have handed to the writer, the one running and those waiting are the dispatched messages in order; the writer has taken a prefix of what it was handed, and all of it while the session is open. |
| `OffStrandSends.EachStepDoes` | ChatServer/src/CSession.cpp:83-114 | What every step does: a thread gets a slot exactly while fewer than 1000 are taken and otherwise rolls back and closes; a lambda's message joins the back of the queue exactly when the session is open, the message sendable and room left, and otherwise the session ends closed. |
| `OffStrandSends.NobodyIsStuck` | ChatServer/src/CSession.cpp:83-114 | Every thread and lambda that has begun can go on, and any idle thread may begin. |
| `OffStrandSends.InFlightStays` | ChatServer/src/CSession.cpp:253-260 | No step of any thread takes a frame out of the queue before all of it is on the wire, nor after a close. |
| `Registry.UserMgr.SetUserSession` | ChatServer/src/UserMgr.cpp:31-43 | An open session takes its user's entry and the previous one is handed back to be closed; a closed session changes nothing; and that is what the two steps of a login's end do. |
| `Registry.UserMgr.RmvUserSession` | ChatServer/src/UserMgr.cpp:45-60 | The entry goes if and only if it is still this session's. |
| `Registry.UserMgr.GetSession` | ChatServer/src/UserMgr.cpp:13-29 | A session is handed out if and only if it is mapped and Redis holds the digest it logged in with; otherwise a mapped one is to be closed. |
| `Registry.CServer.HandleAccept` | ChatServer/src/CServer.cpp:26-44 | Below 4096 listed sessions a new one is listed and started, at the limit it is closed unlisted; and so does the step `Accept`. |
| `Registry.CServer.ClearSession` | ChatServer/src/CServer.cpp:16-24 | Cleanup removes the session from the table, and from the map only its own entry; and so do the cleanup's steps in a row. |
| `Registry.StepKeeps` | ChatServer/src/UserMgr.cpp:31-60 | Every step of login, close, accept and cleanup, in any order, keeps the registry invariant, also when a cleanup has read uid 0 just before the login stored it. What the steps do is in the five rows below. |
| `Registry.CloseCloses` | ChatServer/src/CSession.cpp:54-64 | A close by anybody, in any state, leaves the session closed, with its cleanup owed if it was open, and changes nothing else. |
| `Registry.WorkerCloses` | ChatServer/src/UserMgr.cpp:40-42 | The worker closes a predecessor, and the session of a login that throws, exactly as anybody closes one. |
| `Registry.AcceptLists` | ChatServer/src/CServer.cpp:26-44 | A new connection is listed and open exactly below 4096 listed sessions; otherwise it is closed, unlisted, with its cleanup owed; nobody else is touched. |
| `Registry.LoginLists` | ChatServer/src/LogicSystem.cpp:152-159 | A login stores the user in the session, makes an open session that user's entry, and leaves exactly another session it replaces to be closed. |
| `Registry.CleanupClears` | ChatServer/src/CServer.cpp:16-24 | A cleanup takes its session, and no other, out of the table and the map. |
| `Registry.MapIsSafe` | ChatServer/src/UserMgr.cpp:31-43 | On every interleaving a mapped session has the user id it is mapped under, and is open or still has a cleanup that has not passed its removal. |
| `Registry.OneOnlineSession` | ChatServer/src/LogicSystem.cpp:152-159 | Between requests, every open logged-in session is the one mapped for its user, so there is at most one per user. |
| `Registry.CleanedNeverReturns` | ChatServer/src/CServer.cpp:16-24 | Once a cleanup has passed its removal, the session is in no later map. |
| `Registry.UidIsFinal` | ChatServer/src/LogicSystem.cpp:63-68 | A session's user id is stored at most once. |
| `Registry.EntryGoesOnlyBy` | ChatServer/src/UserMgr.cpp:54-57 | An entry disappears only through its own closed session's cleanup or a newer login that then closes the old session; a kicked predecessor's cleanup never takes its successor's entry. |
| `Registry.NothingLeaks` | ChatServer/src/CSession.cpp:54-64 | When all dispatched cleanups have finished, the table holds exactly the open sessions and the map points only into it. |
| `Registry.EverythingSettles` | ChatServer/src/CSession.cpp:54-64 | From every reachable state, in whatever order the owed cleanups and the login under way go on, no lock leaves them stuck, they end within a known number of steps, and then the table is exactly the open sessions and the map exactly the open logged-in ones. |
| `Dispatcher.LogicQueue.PostMsgToQue` | ChatServer/src/LogicSystem.cpp:225-237 | A post is refused, closing its session, exactly after a stop or with 10000 waiting; otherwise it goes to the back, and is signalled exactly when the queue was empty. |
| `Dispatcher.LogicQueue.DealMsg` | ChatServer/src/LogicSystem.cpp:52-60 | The worker's loop deals with every accepted node once and in order, accepts of what is posted between its turns exactly what finds room, and leaves only after the stop with the queue empty. |
| `Dispatcher.RoomTakesAll` | ChatServer/src/LogicSystem.cpp:225-237 | Posts that never find 10000 waiting are all accepted. |
| `Dispatcher.StepKeeps` | ChatServer/src/LogicSystem.cpp:52-60 | Every step of posters, worker and destructor keeps the queue invariant, loses no accepted node, and accepts none once the worker has left. |
| `Dispatcher.EachStepDoes` | ChatServer/src/LogicSystem.cpp:52-60 | What every step does to queue, signals and worker: a post joins the back unless there is a stop or 10000 wait, a signal wakes a sleeper, the worker takes the first node, sleeps while there is none, and leaves only after a stop. |
| `Dispatcher.ExactlyOnceInOrder` | ChatServer/src/LogicSystem.cpp:225-237 | Handled nodes followed by waiting ones are the accepted nodes, in order, each once; at most 10000 wait. |
| `Dispatcher.NoLostWakeUp` | ChatServer/src/LogicSystem.cpp:233-236 | A worker blocked with work waiting, or with a stop to obey, always has a notification on its way that wakes it. |
| `Dispatcher.DrainedAtExit` | ChatServer/src/LogicSystem.cpp:55-56 | The worker leaves only after a stop with everything accepted handled, and this stays so. |
| `Dispatcher.StopTerminates` | ChatServer/src/LogicSystem.cpp:219-223 | After a stop the system is never stuck and each step leaves fewer to do, so the destructor's join returns. |
| `Dispatcher.StopIsBounded` | ChatServer/src/LogicSystem.cpp:219-223 | Every run of steps after a stop is bounded by the work left, and can go on until the worker has left. |
| `AuthGate.LogicWorker.DealMsg` | ChatServer/src/LogicSystem.cpp:61-84 | A handler is called exactly for a known id of an eligible session, open unless this is its logout, and but for a login only if Redis confirms its digest. From the inputs alone: who the session is afterwards, whether it is closed, which token is gone and what was logged; nothing else changes, and the turn is a sequence of the gate's events. |
| `AuthGate.LogicWorker.LoginHandler` | ChatServer/src/LogicSystem.cpp:87-159 | The session gets user and digest of the request exactly when the id is positive, Redis answered, the stored digest is the request's and the profile is found; otherwise it keeps uid 0, and closes exactly when the request is malformed; no other session and no token changes. |
| `AuthGate.LogicWorker.Logout` | ChatServer/src/LogicSystem.cpp:31-34 | A logout deletes the token key only if it holds the session's digest, and closes the session in any case. |
| `AuthGate.StepKeeps` | ChatServer/src/LogicSystem.cpp:61-84 | Every step of the workers of any number of servers, of closers and token writers, keeps the gate's invariant. |
| `AuthGate.OthersDo` | ChatServer/src/CSession.cpp:54-55 | A new session is open and nobody's; a close closes; a token written or gone is what every later check sees; nothing else changes. |
| `AuthGate.WorkerDoes` | ChatServer/src/LogicSystem.cpp:61-79 | Which message is skipped, which session is closed and which goes on, and that a passed check is logged exactly when the stored digest is the session's or the login's. |
| `AuthGate.WorkerActs` | ChatServer/src/LogicSystem.cpp:152-153 | A checked login gives its session what was checked; a handled request changes nothing here but a logout, which closes its session and takes exactly its own digest out of Redis if that is reached. |
| `AuthGate.HandledOnlyThroughGate` | ChatServer/src/LogicSystem.cpp:70-79 | Before each handled request and each completed login lies that server's own check that found this digest stored for this user, with nothing else of its worker's between; the user id is above 0. |
| `AuthGate.LogoutIsFinal` | ChatServer/src/LogicSystem.cpp:31-34 | After a logout that reached Redis, no check on any server finds its digest, and no handler or login acts on it, until it is written to the user's token key anew; only another server may finish the one message it had checked before. |
| `AuthGate.LogoutRevokesIff` | Common/src/RedisMgr.cpp:208-217 | A logout leaves the digest unusable if and only if Redis was reached or held another digest already; the session closes in either case and other users' tokens stay. |
| `AuthGate.LogoutMayNotRevoke` | ChatServer/src/LogicSystem.cpp:31-34 | A run from the start in which a logout is handled, the session closes, and the token stays good because Redis was not reached. |
| `AuthGate.LoginIsFinal` | ChatServer/src/LogicSystem.cpp:152-153 | A session's user and digest, once stored, never change. |
| `Numbers.ValueOfDigits` | ChatServer/src/LogicSystem.cpp:608-614 | Decimal text denotes the number it was printed from. |
| `Numbers.FirstDigitCounts` | ChatServer/src/LogicSystem.cpp:612 | A digit string denotes its first digit times the power of ten of its length, plus the rest. |
| `Numbers.UInt64Length` | ChatServer/src/LogicSystem.cpp:611 | Twenty digits hold every 64-bit value. |
| `JsonText.ObjectSize` | Common/include/ChatWire.h:16-21 | The length of an object's compact text, member by member. |
| `JsonText.CompactSamples` | Common/include/ChatWire.h:16-21 | Texts of an array and an object, written out. |
| `JsonText.EscapeSamples` | Common/include/ChatWire.h:16-21 | Which characters a string escapes, and how. |
| `JsonText.NotedMember` | Common/include/ChatWire.h:16-21 | A member's comments stand before its name and behind its comma. |
| `JsonText.LookupPut` | ChatServer/src/LogicSystem.cpp:571-573 | Setting a member changes that member and no other. |
| `ChatWire.Uuid` | Common/include/ChatWire.h:23-36 | The loop accepts exactly the 8-4-4-4-12 hexadecimal ids. |
| `ChatWire.UuidLength` | Common/include/ChatWire.h:23-36 | An accepted id always takes 38 bytes as JSON, so echoing it is safe. |
| `FriendPaging.DecodeRequest` | ChatServer/src/LogicSystem.cpp:497-504 | A request is decoded exactly when it is short enough, an object, and has a uuid and an int cursor. |
| `FriendPaging.GetFriendList` | ChatServer/src/LogicSystem.cpp:486-541 | The reply on every path, whose contents are in `ErrorsAre` and `PageIsGreedy`. It is at most 1800 bytes if it lists friends or the request id carries no comment, or one that leaves room, and always short enough for a frame, for all requests, page contents and profile policies. |
| `FriendPaging.ErrorsAre` | ChatServer/src/LogicSystem.cpp:489-515 | Error 1103 exactly for a malformed request, a caller without uid, a cursor below 0 or a first friend that does not fit; 1104 exactly when the page failed; otherwise 0; what each reply echoes; and an error comes without friends. |
| `FriendPaging.ReplySays` | ChatServer/src/LogicSystem.cpp:489-540 | The JSON a reader gets has each field of the reply under its name. |
| `FriendPaging.ItemSays` | ChatServer/src/LogicSystem.cpp:519-526 | And each entry has the friend's uid, name and remark, and the rest exactly if the profile is open. |
| `FriendPaging.RepliesFitIff` | ChatServer/src/LogicSystem.cpp:505-515 | All replies to a request are at most 1800 bytes if and only if the comments at its id leave room for the few fields of a reply without friends. |
| `FriendPaging.CommentBreaksLimit` | ChatServer/src/LogicSystem.cpp:505-509 | A request of 1800 bytes, 1732 of them a comment, whose reply takes 1862. |
| `FriendPaging.ReplySize` | ChatServer/src/LogicSystem.cpp:489-540 | Every reply either is within the limit or has no friends and a size known from its fields and comments. |
| `FriendPaging.FillPage` | ChatServer/src/LogicSystem.cpp:516-540 | The packing loop is the greedy packing of the page; a page with friends is within the limit, also after the late change of has_more. |
| `FriendScan.PageIsGreedy` | ChatServer/src/LogicSystem.cpp:517-540 | A page lists the first friends of the database's as long as the reply keeps to 1800 bytes: each prefix did and one more would not; has_more is set exactly when friends are left. |
| `FriendPaging.EchoedSize` | ChatServer/src/LogicSystem.cpp:489-507 | The exact size of a reply from its parts, comments included. |
| `FriendScan.PageAdvances` | ChatServer/src/LogicSystem.cpp:528-540 | has_more implies that next_uid has strictly grown and fewer friends lie beyond it, for every list, cursor and size test: following it ends. |
| `FriendScan.BehindFitsAlone` | ChatServer/src/LogicSystem.cpp:531-538 | A friend that fits behind others on a page also fits a page of its own. |
| `FriendScan.PagingIsFullScan` | ChatServer/src/LogicSystem.cpp:504-540 | Starting at 0 and following next_uid while has_more gives exactly the friend list in uid order, without an error, if and only if each friend fits a page alone. |
| `FriendScan.PagingStopsAtMisfit` | ChatServer/src/LogicSystem.cpp:531-536 | Otherwise the client gets every friend before the first that does not fit, and an error. |
| `FriendScan.ClientGetsAll` | ChatServer/src/LogicSystem.cpp:486-541 | Through the handler, request by request: a client that asks from 0 on and follows next_uid in the JSON it gets collects exactly the entries of the whole list, without an error, if and only if each friend's entry and the two cursors beside it take at most 1678 bytes. |
| `FriendScan.ClientGets` | ChatServer/src/LogicSystem.cpp:486-541 | And otherwise exactly the entries before the first friend without that room, and an error. |
| `FriendScan.LargeIconIsMisfit` | ChatServer/src/LogicSystem.cpp:531-533 | A friend whose visible icon takes up the body limit fits no page. |
| `FriendScan.LargeIconStopsPaging` | database/schema.sql:59 | An icon the schema allows does so: the client gets nothing but an error from the handler. |
| `Cursors.FromChars` | ChatServer/src/LogicSystem.cpp:612 | The longest digit prefix is consumed; the result is its value, or says that there is none or that it exceeds 64 bits. |
| `Cursors.Number` | ChatServer/src/LogicSystem.cpp:608-614 | The parser accepts exactly the strings of 1 to 20 digits below 2^64, and returns their value. |
| `Cursors.CursorRoundTrip` | ChatServer/src/LogicSystem.cpp:608-614 | Printing a number and parsing it gives it back if and only if it has 64 bits. |
| `ChatSync.IdList` | ChatServer/src/LogicSystem.cpp:639-644 | A status request's list is accepted exactly when it has 1 to 4 strings of 1 to 64 bytes, and is passed on in order. |
| `ChatSync.Decide` | ChatServer/src/LogicSystem.cpp:617-646 | Which database call each request leads to, and with which arguments; malformed ones lead to none. |
| `ChatSync.QueriesAreSound` | ChatServer/src/LogicSystem.cpp:617-646 | However malformed the request, a database call is made only for the caller, with 64-bit cursors, non-zero message ids, a positive peer who is not the caller, and 1 to 4 ids of 1 to 64 bytes. |
| `ChatSync.EveryQueryHasItsRequest` | ChatServer/src/LogicSystem.cpp:617-646 | And each such call, with every argument it may take, can be asked for. |
| `ChatSync.QueryIff` | ChatServer/src/LogicSystem.cpp:617-646 | A request leads to a database call if and only if it carries that call, id, fields and values, and the call keeps to these bounds. |
| `ChatSync.StampedSays` | ChatServer/src/LogicSystem.cpp:622-647 | An answer holds the request's id, the fields its kind repeats with their comments, and otherwise what the database said. |
| `ChatSync.Sync` | ChatServer/src/LogicSystem.cpp:597-651 | Whatever object the database answers with, the reply is at most 1800 bytes and carries the id of a request that had one; an answer that fits is sent whole; one that would be longer, like a request without a call, becomes error 1103. |
| `MessageStore.StoreCommits` | Common/src/ChatPersistence.cpp:70-135 | A successful store can be read back with the sender, receiver and text asked for and the same id but for its letter case, and the very id exactly when the sender has not used it in another spelling; a failed one changes nothing, or added exactly this message and could not read it back; no store disturbs another record. |
| `MessageStore.StoredIff` | Common/src/ChatPersistence.cpp:76-134 | A store succeeds if and only if the message is well formed, the table then holds it, and the database answered; and, from the inputs alone, exactly when it succeeds and exactly when it fails with the message committed. |
| `MessageStore.StoreSays` | Common/src/ChatPersistence.cpp:70-135 | From the inputs: which record a success hands out, a new one with its numbers, and which error each failure carries. |
| `MessageStore.FailureMayHaveCommitted` | Common/src/ChatPersistence.cpp:127-132 | An input whose store commits and yet reports a failure. |
| `MessageStore.SpellingsMeet` | Common/src/ChatPersistence.cpp:54-59 | A stored message sent again under another spelling of its id succeeds with the first record and adds none. |
| `MessageStore.FoldsMeet` | database/schema.sql:209-229 | Two ids meet exactly when they differ in the case of letters at most. |
| `MessageStore.SpellingMayDiffer` | database/schema.sql:209-229 | An input where the acknowledged id is not the one sent. |
| `MessageStore.ResubmissionRecovers` | Common/src/ChatPersistence.cpp:76-82 | Once a message is committed, whatever the first answer was, submitting it again succeeds with its record and changes nothing, whatever the friendship is by then. |
| `MessageStore.RecordSize` | Common/src/ChatPersistence.cpp:38-53 | A record without its content takes at most 324 bytes of JSON. |
| `MessageStore.RecordSays` | Common/src/ChatPersistence.cpp:38-53 | Each name of a record's JSON holds the field it names: sender and receiver, ids and times as text, status and content. |
| `TextDelivery.DealChatTextMsg` | ChatServer/src/LogicSystem.cpp:543-595 | Exactly one response, first and within the limit; error 0 if and only if the message is committed and the database answered, then with the submitted id exactly when it was not used in another spelling; a failure leaves the table alone or, exactly when an admitted message was not read back, has added it and says error 1104; which error each failure carries, from the inputs; every local push carries a stored record to a session of its receiver. |
| `TextDelivery.DecodeIff` | ChatServer/src/LogicSystem.cpp:553-564 | A request is read as a submission exactly when it has one text with id and content and a 32-bit receiver, and then as that one. |
| `TextDelivery.TextMessageIsRead` | ChatServer/src/LogicSystem.cpp:553-564 | The request a client builds for a text is read as that text. |
| `TextDelivery.Submit` | ChatServer/src/LogicSystem.cpp:560-595 | The same from the decoded values on. |
| `TextDelivery.PushOnline` | ChatServer/src/LogicSystem.cpp:575-594 | Exactly one push if Redis names this server and the receiver's checked session is here, exactly one RPC with the submitted values if it names another, and nothing otherwise; a push goes to the session mapped for the record's receiver. |
| `TextDelivery.NotifyTextChatMsg` | ChatServer/src/ChatServiceImpl.cpp:66-104 | An RPC pushes only a record read back from the store under this id, in any spelling, whose receiver and text match, to a session of that receiver; it answers success if and only if it pushed, pushes whenever its conditions hold, and each error exactly under its own. |
| `TextDelivery.NotificationFits` | ChatServer/src/LogicSystem.cpp:564-579 | Content within the 850-byte encoded bound makes every push at most 1800 bytes. |
| `TextDelivery.AcknowledgementFits` | ChatServer/src/LogicSystem.cpp:571-574 | So does every acknowledgement. |
| `TextDelivery.AcknowledgementSays` | ChatServer/src/LogicSystem.cpp:571-573 | An acknowledgement shows every field of the record but its content, and says error 0. |
| `TextDelivery.NotificationSays` | ChatServer/src/LogicSystem.cpp:577-579 | A push shows every field of the record, and error 0. |
| `TextDelivery.RpcPushesWhatWasSubmitted` | ChatServer/src/ChatServiceImpl.cpp:89-100 | The record of an accepted submission matches the other server's check of it unless it was erased since, and fits. |
| `Composition.ReplyGetsThrough` | ChatServer/src/CSession.cpp:83-88 | A reply of up to 2048 bytes is never refused for its size, and its frame is read back whole. |
| `Composition.SendsArePosted` | ChatServer/src/CSession.cpp:125-271 | Whatever part of a writer's wire has reached a session, in any pieces, the session posted a prefix of the accepted sends, unaltered; and all of them once everything has arrived at an open session. |
| `Composition.AnySendsArePosted` | ChatServer/src/CSession.cpp:83-271 | After any interleaving of sends from any threads, writes and closes, the peer has posted a prefix of what was handed over on the strand, unaltered; and all of it once the queue is empty and everything has arrived, with both sessions open. |
| `Composition.PushReachesReceiver` | ChatServer/src/UserMgr.cpp:13-29 | After any interleaving of logins, closes and cleanups, a push goes to a session whose user is the receiver stored with the message. |
| `Reservation.Database.ReserveCode` | VarifyServer/redis.js:87-93 | The script command by command has the stated effect as a whole (`ReserveSays`); a refusal leaves the global window's end where it was. |
| `Reservation.ReserveSays` | VarifyServer/redis.js:88-92 | A code is granted exactly without a cooldown and with fewer than 100 in the window; it then lives 180 s, the cooldown 60 s, with no attempts counted; a refusal changes at most the counter. |
| `Reservation.Database.ConsumeCode` | Common/src/RedisMgr.cpp:173-176 | Likewise (`ConsumeSays`); success means the code was the stored one and is gone. |
| `Reservation.ConsumeSays` | Common/src/RedisMgr.cpp:173-176 | A look at a live code is counted, for 180 s from the first; up to the fifth it is compared, and a match deletes the code; the sixth deletes it unseen; nothing else changes. |
| `Redis.OneValuePerText` | Common/src/RedisMgr.cpp:173-176 | Two codes are equal exactly when their texts are, so that the scripts' comparison of strings is the comparison of the modelled values. |
| `Reservation.StepKeeps` | VarifyServer/redis.js:87-93 | Every reservation and consumption keeps the store in step with the grants made. |
| `Reservation.RunKeeps` | VarifyServer/redis.js:87-93 | And so does every timed sequence of them. |
| `ReservationRates.SameKeySpacing` | VarifyServer/redis.js:88-90 | Two grants for one key are at least 60 s apart, on every run of reservations over any keys, and with consumptions too if none is tried on another key's cooldown key. |
| `ReservationRates.SpacedIff` | docs/SECURITY_IMPLEMENTATION.md:49 | Over all runs of both scripts, grants are always spaced if and only if no key is another's cooldown key. |
| `ReservationRates.LooksEndCooldown` | Common/src/RedisMgr.cpp:173-176 | For each such pair of keys, a run with never more than five tries a minute whose third code is granted one second after its second. |
| `ReservationRates.GlobalRate` | VarifyServer/redis.js:89-90 | Any half-open interval of T holds at most 100 * (ceil(T / 60 s) + 1) grants over all keys, whatever they are but for the counter's own. |
| `ReservationRates.RateIff` | VarifyServer/redis.js:89-92 | These keys keep the rate together with any others in use if and only if the counter's own key is not among them. |
| `ReservationRates.CounterKeyBreaksRate` | VarifyServer/redis.js:89-92 | With the counter's own key and 300 others in use, 299 codes can be granted within two milliseconds. |
| `ReservationBounds.RefusalsChangeLittle` | VarifyServer/redis.js:88-90 | A refused reservation never prolongs the global window and touches no other key. |
| `ReservationBounds.CodeIsLatestGrant` | VarifyServer/redis.js:90-91 | At every moment the live code under a key is that of its latest grant, for exactly 180 s unless an earlier look matched it or was the sixth, and a fresh grant starts with no attempts counted. |
| `ReservationBounds.ConsumptionIff` | Common/src/RedisMgr.cpp:173-176 | A consumption succeeds if and only if its code is that of the key's latest grant, within 180 s, not matched before and looked at fewer than five times. |
| `ReservationBounds.CooldownAliasBreaks` | VarifyServer/redis.js:92 | A key that is another's cooldown key reads as that marker although nothing was granted for it. |
| `ReservationBounds.AttemptsAliasBreaks` | VarifyServer/redis.js:91-92 | A key that is another's attempts key loses its code to the other's grant. |
| `ReservationBounds.GlobalAliasBreaks` | VarifyServer/redis.js:89-92 | The global counter used as a key has its code counted up. |
| `ReservationBounds.RightIffNoAlias` | VarifyServer/redis.js:87-93 | The store holds the latest codes on every sequence of reservations of six-digit codes over a set of keys if and only if no key is another's cooldown or attempts key or the global one. |
| `ReservationGuesses.FiveGuesses` | docs/SECURITY_IMPLEMENTATION.md:49 | The code of each grant is compared at most five times on every run, whatever happens on whatever other keys, if no code is tried on its key's attempts key. |
| `ReservationGuesses.FiveIff` | Common/src/RedisMgr.cpp:173-177 | No code is ever compared more than five times if and only if no key is another's attempts key. |
| `ReservationGuesses.SixthGuess` | Common/src/RedisMgr.cpp:173-177 | For each such pair of keys, a run with never more than five tries a minute on either in which a sixth guess is compared and matches. |
| `ReservationGuesses.OneMatch` | Common/src/RedisMgr.cpp:176 | The code of each grant matches at most once on every run, under a key that is no other's derived key. |
| `ReservationGuesses.MatchSucceeds` | Common/src/RedisMgr.cpp:176 | A comparison matches exactly when the consumption succeeds. |
| `PrivateChatWire.Bytes` | Common/include/PrivateChatWire.h:16-20 | Accepts exactly the arrays of the given length with values 0 to 255. |
| `PrivateChatWire.EightWithinAreAll` | Common/include/PrivateChatWire.h:23-24 | Eight distinct names among the eight bundle fields are all of them. |
| `PrivateChatWire.Bundle` | Common/include/PrivateChatWire.h:21-28 | Accepts exactly the objects with all eight fields, no other, and well-formed values. |
| `PrivateChatWire.Cipher` | Common/include/PrivateChatWire.h:46-48 | Accepts exactly the texts of 4 to 87384 bytes, in fours, over the base64 letters and the padding sign. |
| `PrivateChatWire.WellFormedIsComplete` | Common/include/PrivateChatWire.h:39-51 | Names within an operation's fields and well-formed values leave no field out. |
| `PrivateChatWire.Valid` | Common/include/PrivateChatWire.h:29-53 | Accepts exactly the schema: a known operation, its field set with nothing missing or extra, and each value well formed. |
| `PrivateChatRequests.RequestPasses` | Common/include/PrivateChatWire.h:29-53 | A request of any of the seven kinds, built from its values, passes if and only if every value is good. |
| `PrivateChatRequests.PassingIsRequest` | Common/include/PrivateChatWire.h:29-53 | Whatever passes is such a request with good values, member by member. |
| `Base64.EncodingsPass` | Common/include/PrivateChatWire.h:47-48 | An encoding by section 4 of RFC 4648 passes if and only if it encodes 1 to 65538 bytes. |
| `Base64.EncodingVectors` | Common/include/PrivateChatWire.h:47-48 | The encodings of section 10 of RFC 4648. |
| `Base64.DecodeEncoded` | Common/include/PrivateChatWire.h:47-48 | Decoding undoes encoding for every byte string whose encoding passes. |
| `Base64.EncodeDecoded` | Common/include/PrivateChatWire.h:47-48 | Encoding undoes decoding for every canonical text that passes. |
| `Base64.PassingIsEncodingIff` | Common/include/PrivateChatWire.h:47-48 | A text that passes is an encoding if and only if padding stands only at its end and the unused bits before it are zero; it then encodes one byte string only. |
| `Base64.PassingIsNotEncoding` | Common/include/PrivateChatWire.h:47-48 | A text that passes and is no encoding of anything. |

## Left out

- AuthGate.LogicWorker.DealMsg: one turn with nothing coming between its steps, on one server; interleavings are in the events of `AuthGate`. A handler that throws is a close like any other; a login throws when its server's login count in Redis is no number.
- AuthGate.LogicWorker.LoginHandler: of the login, only what decides the session's user and digest; the reply and the counters are not modelled.
- Dispatcher.LogicQueue.DealMsg: sleeping is one turn of the loop, and posts arrive between turns; the signals themselves are in the events of `Dispatcher`.
- SendStream.SendQueue.Send: queued frames are held as the bytes `SendNode` fills in, since nothing changes them afterwards; sends from other threads are in `OffStrandSends`.
- SessionReader.Session.OnReadSome: reader and writer share only the close flag and are two classes. A close by another thread can come between completions or inside a handler after its first test of the flag; inside, it counts as coming just before the next read. Failing allocations are not modelled.
- SessionReader.Session.OnReadDeadline: says nothing about a completion that 2^64 or more armings outlive.
- SessionReader.FragmentationInvisible: compares open sessions only; a closed one is covered by `PostsAreTheStream`.
- SessionFeed.Feed: no deadline passes and no read fails meanwhile; those are `OnReadDeadline`, `OnLoginDeadline` and `OnReadError`.
- Reservation.Database.ConsumeCode: the length test and the connection failures before the script.
- MessageStore.StoreCommits: the retry loop, threads, sequence numbers and expiry inside the store are a verdict given as a parameter. Later erasure is a record whose status is not 0.
- `DealChatTextMsg` would also answer error 0 without a record if the store reported success without a message object; no code deletes message rows, so the store as modelled never does.
- PrivateChatWire.Valid: reads a real with an integral value as that integer, while jsoncpp's `==` keeps them apart; a bundle whose identity is spelled 3.0 where the request's says 3 is refused by the code.
- MessageStore.StoredIff: of the collation, only what it does to uuids.
- Comments on the items of an array, which no modelled reply contains.
- ReservationGuesses.OneMatch: says nothing of a key that is another's derived key or the global counter, whose entry other scripts write.
- FriendPaging.ReplySize: counts the bytes of an echoed comment and does not read the reply back. A comment that begins with `//` hides the rest of the one-line reply from a reader; one in `/* */` does not.
- The `char*` overload of `Send`, which checks its length and calls the modelled one.
- Overflow of the atomic send counter and of Redis's 64-bit INCR.
- The contents of the login reply, and the handlers for search, friend applications and privacy commands.
- The notification RPCs for friend applications, which push without re-reading anything.
- The history, conversation and deletion queries of the database, whose answers are a parameter of `ChatSync.Sync`.
- The other services, gRPC and TLS plumbing, start-up, logging and connection pools.
