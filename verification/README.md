# openchimed, verified

A Dafny model of the parts of the openchime daemon that are hardest to get right, and
proofs of what they promise. Each module follows one part of the daemon in its own form:
tables and loops changed in place are classes, arrays and methods with invariants; the
interleaved parts (the blob cache, the pool of password checks) are machines of atomic
steps; readers and writers of formats are functions held against a definition of the format.

| module | what it models | main results |
|---|---|---|
| `IdMaps` | the open-addressing table of ids, with backward-shift deletion | for every hash, any sequence of operations is a plain finite map's |
| `CallLists`, `RelayTables`, `Relays` | the media relay's table of participants, its three indexes and the linked list of each call | the indexes, the lists and the table always agree; no index insert can fail; a packet reaches exactly the rest of its call |
| `BlobCache` | the blob directory as a write-back cache of an object store | no acknowledged blob is lost, in any interleaving with crashes anywhere |
| `CacheUpkeep` | eviction and retry pacing of that cache | least recently read first and no more than needed; the wait is exact although its product may wrap |
| `Migrate` | schema migration over two databases | any schedule of crashes and reruns ends as one uninterrupted run, and no identity row is lost |
| `AuthPool` | the pool of password checks under its mutex | every check comes back exactly once, first in first out |
| `FrameBufs`, `WebSockets`, `OutputQueue`, `IoMachine`, `IoRuns`, `IoFrames`, `IoLoop` | a connection: frames in, chunks out, events to the loop | what is queued and reported over a run is exactly what its operations add, in order; output is a prefix of it under any partial writes; a WebSocket's peer reads the loop's sends and the loop is told the frames of the bytes read; CLOSED is last |
| `Cbor`, `JsonText`, `JsonRfc`, `Base64Url` | three wire formats | what each reader takes, told exactly against its format, with what it takes besides; decoding undoes encoding |
| `RateLimit` | the bounded fixed-window limiter | it answers as an unbounded counter for every key it has not evicted |
| `DeviceCodes`, `Devices`, `DeviceRuns` | device codes of RFC 8628 | a token is heard once, and only after the grant of that request's own code; when the limit per source holds, and a run in which it does not |

`Basics` holds optional values and big-endian numbers. The proofs use `hide` to keep each
obligation small. `dafny verify dfyconfig.toml` covers the whole project.

What comes from outside is a parameter: clocks, random bytes, digests, what sockets and the
TLS layer answer, what the HTTP parser makes of bytes, the
order a library sort gives, the free space of a disk, the moment of a crash. Nothing is
assumed of these beyond what a contract says in its `requires` and the last section lists.

## Model

| member | source | states |
|---|---|---|
| IdMaps.ProbeMiss | daemon/idmap.c:28-34 | an empty slot met on the way from a key's home proves the key is nowhere in the table |
| IdMaps.PutKeeps | daemon/idmap.c:36-48 | filling the slot a probe stopped at leaves every key reachable from its home without a gap |
| IdMaps.ShiftSkip | daemon/idmap.c:59-71 | a key whose home lies between the hole and itself, going round the end, may stay where it is |
| IdMaps.ShiftMove | daemon/idmap.c:59-71 | any other key of the cluster can be moved into the hole, and stays reachable there |
| IdMaps.ShiftEnd | daemon/idmap.c:59-71 | once an empty slot is met the hole may be emptied: no key is cut off from its home, wrapped or not |
| IdMaps.EmptySlot | daemon/idmap.c:28-48 | a table with fewer keys than slots has an empty slot, at which every probe ends |
| IdMaps.ProbeStop | daemon/idmap.c:28-48 | where a probe stops is the key's own slot if the key is in the map, else a slot it can be put in |
| IdMaps.CarryEnd | daemon/idmap.c:50-72 | after the shift the slots hold exactly the other keys, each with its own value |
| IdMaps.IdMap.constructor | daemon/idmap.c:13-21 | a capacity that is not a power of two of at least 2 leaves a map that never holds anything |
| IdMaps.IdMap.Probe | daemon/idmap.c:28-48 | the probe loop ends, for every hash, at the key or at the slot that proves it absent |
| IdMaps.IdMap.Get | daemon/idmap.c:28-34 | the value the map has for the key; a missing key answers as a stored null |
| IdMaps.IdMap.Put | daemon/idmap.c:36-48 | insert or replace, refused exactly for key 0, an unusable map, and a new key when half the slots are taken; a refusal changes nothing |
| IdMaps.IdMap.CloseHole | daemon/idmap.c:59-71 | the in-place shift turns a table with a hole back into one where every key is found |
| IdMaps.IdMap.Del | daemon/idmap.c:50-72 | the map without the key, and nothing else changed |
| IdMaps.Run | daemon/idmap.c:28-72 | every sequence of put, get and del answers as a finite map limited to half the slots, for every hash |
| CallLists.UnlinkKeeps | daemon/relay.c:83-89 | taking a participant out of its list leaves every call's list acyclic, linked both ways, headed by its index entry and holding exactly the other members |
| CallLists.LinkKeeps | daemon/relay.c:91-98 | putting a participant at the head of its call's list keeps all of that and adds just it |
| RelayTables.TokenKey | daemon/relay.c:71-75 | a token's index key is never 0, the key the index refuses |
| RelayTables.CallsFit | daemon/relay.c:91-98 | calls in the index are fewer than slots in the table while a live participant is in none |
| RelayTables.ConnsFit | daemon/relay.c:161-191 | so are connections, while none leads to a live participant |
| RelayTables.TokensFit | daemon/relay.c:161-191 | and tokens, while a slot is free |
| RelayTables.WalkReaches | daemon/relay.c:250-280 | short of the limit on datagrams a walk of the list misses nobody and reaches each by its own transport |
| RelayTables.WalkOnce | daemon/relay.c:250-280 | and reaches nobody twice, whatever the limit |
| RelayTables.PacketReachesCall | daemon/relay.c:250-280 | in a call of at most 32 a packet goes to every other live participant of the call that can be reached, once, and to nobody else |
| Relays.Relay.constructor | daemon/relay.c:109-141 | an empty relay whose indexes have twice the table's slots |
| Relays.Relay.FindToken | daemon/relay.c:77-81 | the live participant with exactly this token; none only if there is none |
| Relays.Relay.CallUnlink | daemon/relay.c:83-89 | the linked lists without the participant, nothing but links changed |
| Relays.Relay.CallLink | daemon/relay.c:91-98 | never fails, and leaves every live participant in the list of its call |
| Relays.Relay.Drop | daemon/relay.c:100-107 | the participant is gone from the table, its list and all three indexes, and nobody else is touched |
| Relays.Relay.Seat | daemon/relay.c:161-191 | a slot is found exactly when the token's key is free and the table is not full, and the insert into the index cannot fail |
| Relays.Relay.Place | daemon/relay.c:161-191 | list and connection index lead to the participant again, in its new call |
| Relays.Relay.Authorize | daemon/relay.c:161-191 | refuses exactly for a bad or mismatched token length, call 0, a key clash or a full table, and then changes nothing; otherwise registers or moves exactly that participant, all indexes agreeing |
| Relays.Relay.Revoke | daemon/relay.c:193-197 | drops the participant with this token if there is one, and no other |
| Relays.Relay.Sweep | daemon/relay.c:355-378 | drops exactly those silent for longer than the interval, and names exactly their tokens in slot order |
| Relays.Relay.Forward | daemon/relay.c:250-280 | who is sent the packet and by which transport, and the datagram's bytes; an empty payload echoes to its sender |
| Relays.Relay.Gather | daemon/relay.c:250-280 | following the links of the table walks the call's list to its end or to the limit |
| Relays.Relay.FromTcp | daemon/relay.c:282-289 | the participant of that connection, now on the connection transport, is the sender; any other connection has no effect |
| Relays.Relay.Recognise | daemon/relay.c:293-344 | the one participant whose token leads the datagram and who may send from that address, if any |
| Relays.Relay.OnDatagram | daemon/relay.c:293-344 | the first packet binds the address and it is never learned again; from elsewhere nothing changes and nothing is sent |
| BlobCache.WriterMoveOk | daemon/blob_cache.c:148-220 | each step of a transfer keeps its key safe, whatever the uploader and the readers are in the middle of |
| BlobCache.DeleteMoveOk | daemon/blob_cache.c:316-325 | so does each step of a delete |
| BlobCache.SendMoveOk | daemon/blob_cache.c:381-415 | so does each step of sending: the put entry goes only when it is the entry that was sent |
| BlobCache.RemoveMoveOk | daemon/blob_cache.c:448-484 | so does each step of removing an object from the store |
| BlobCache.EvictMoveOk | daemon/blob_cache.c:495-546 | so does each step of eviction |
| BlobCache.ReadMoveOk | daemon/blob_cache.c:244-302 | so does each step of a read that fetches |
| BlobCache.RunOk | daemon/blob_cache.c:148-782 | every state reached by any interleaving, with crashes and restarts anywhere, keeps the invariant |
| BlobCache.AcknowledgedBlobsSurvive | daemon/blob_cache.c:192-213 | a blob whose commit returned 0 and that was not deleted or swept is in the store with its bytes, or in the directory with its bytes and its put entry queued (while a store is being adopted, about to be) |
| BlobCache.NothingToSendIsTrue | daemon/blob_cache.c:381-415 | "nothing to send" is answered only for a blob never published, or deleted or swept since |
| BlobCache.ReadsAreTrue | daemon/blob_cache.c:244-302 | a read begun after publication gets the published bytes, and is told there is no such blob only if it was deleted or swept |
| BlobCache.HistoryLasts | daemon/blobstore.c:91-108 | what was published under a key never changes over a run, and no acknowledgement is taken back |
| CacheUpkeep.Budget | daemon/blob_cache.c:495-546 | the budget never exceeds the room above the floor, and there is none to keep when free space cannot be measured |
| CacheUpkeep.EvictionPass | daemon/blob_cache.c:495-546 | what goes is a least-recently-read prefix of the unqueued blobs, no longer than needed; the pass ends within budget or with nothing left that could go |
| CacheUpkeep.EvictsLeastRecent | daemon/blob_cache.c:495-546 | nothing queued is evicted, and nothing left that could have gone was read before anything that went |
| CacheUpkeep.BackoffExact | daemon/blob_cache.c:417-423 | the wait is min(base·f², cap) for every base, cap and failure count, even when the 64-bit product wraps |
| CacheUpkeep.Jittered | daemon/blob_cache.c:424-427 | the jittered wait is within a fifth either way, as long as that fits 64 bits |
| CacheUpkeep.Retry.NoteFailure | daemon/blob_cache.c:417-435 | the next attempt is a fifth either side of the wait for the failures in a row |
| CacheUpkeep.Retry.Note | daemon/blob_cache.c:417-445 | over any history of attempts the pace depends on the failures since the last success alone |
| Migrate.SchemaVersion | daemon/migrate.c:1628-1640 | the highest version recorded, 0 for none |
| Migrate.TakeTwice | daemon/migrate.c:1472-1482 | taking rows overwrites and loses none; taking again changes nothing, and no later taking touches a row already there |
| Migrate.MakeTables | daemon/migrate.c:1672-1730 | making the identity tables loses no row, wherever it is cut short |
| Migrate.TakeIdentity | daemon/migrate.c:1672-1730 | the copy before step 64 commits all rows or none, and fails only where a moved table is missing |
| Migrate.TakeReached | daemon/migrate.c:1494-1500 | repeating the copy after a crash changes nothing that was due |
| Migrate.StepReached | daemon/migrate.c:1672-1730 | a committed step puts the data one step further in the set |
| Migrate.Step | daemon/migrate.c:1672-1730 | whatever write of a step a crash follows, data, record and identity agree that it ran whole or not at all |
| Migrate.Run | daemon/migrate.c:1672-1730 | a run from any reached state goes on from there; it fails only at a step whose SQL fails, and ends early otherwise only by a crash |
| Migrate.RunDefault | daemon/migrate.c:1732-1739 | a database a newer daemon wrote is refused, and nothing is written |
| Migrate.RunAll | daemon/migrate.c:1672-1730 | for every schedule of crashes and reruns the data is the set's fold to some step, and to its end once a run is not cut short |
| Migrate.EndsAlike | daemon/migrate.c:1672-1730 | two boxes that began alike and are done are alike, however either was interrupted |
| Migrate.IdentityIsKept | daemon/migrate.c:1472-1500 | past step 64 each identity table has the row it had before, else the row the data had; no row is lost although main commits first |
| AuthPool.SubmitOk | daemon/authpool.c:71-85 | a check joins the tail of the linked queue, or is given straight back to its submitter when the pool is stopping |
| AuthPool.StartOk | daemon/authpool.c:24-49 | a worker takes the head of the queue and nobody else has it |
| AuthPool.FinishOk | daemon/authpool.c:24-49 | the worker's check is called back and the worker is free |
| AuthPool.StopOk | daemon/authpool.c:101-119 | stopping takes the whole queue at once, losing none of it |
| AuthPool.GiveBackOk | daemon/authpool.c:101-119 | each check left over is called back as never checked |
| AuthPool.RunOk | daemon/authpool.c:24-119 | every state reached by any interleaving of submitters, workers, hold and stop keeps the queue linked and every check in exactly one place |
| AuthPool.ExactlyOnce | daemon/authpool.c:24-119 | a check is called back at most once, and when the pool is freed every check is back but one its own submitter is just returning; it is answered as never checked exactly if no worker took it |
| AuthPool.FirstInFirstOut | daemon/authpool.c:24-99 | checks start in the order they were queued, and the count of those waiting is the length of the linked queue |
| AuthPool.BackStaysBack | daemon/authpool.h:9-12 | a check that is back stays back with the answer it got |
| AuthPool.NeverStuck | daemon/authpool.c:24-49 | whatever a worker or stop is about to follow in the list is there |
| WebSockets.MaskedTwice | daemon/ioloop.c:423-463 | masking undoes itself |
| WebSockets.Parse | daemon/http.c:289-316 | the byte-by-byte parser gives the verdict defined on whole lengths |
| WebSockets.ParseEncode | daemon/http.c:289-316 | every client frame within the limit, of any opcode and with its length in any of the three forms, is recognised whatever follows it, and its payload comes out unmasked |
| WebSockets.ParseIsEncode | daemon/http.c:289-316 | and whatever is recognised is spelled as such a frame |
| WebSockets.EncodeInjective | daemon/http.c:289-316 | a frame is told by its bytes |
| WebSockets.RecognisedIsStrict | daemon/http.c:289-316 | what is recognised is a frame of section 5.2 of RFC 6455 if and only if its opcode is not reserved and its length is in the shortest form with its top bit 0 |
| WebSockets.RecognisedBeyond | daemon/http.c:289-316 | two inputs that are recognised and are no such frames: a longer length form, and a reserved opcode |
| WebSockets.ParseStable | daemon/http.c:289-316 | a verdict other than "more" stands on every extension of the input |
| WebSockets.ParsePrefix | daemon/http.c:289-316 | every strict prefix of a frame within the limit asks for more |
| WebSockets.DeframedTwice | daemon/ioloop.c:423-463 | bytes taken in two goes come to the same as in one |
| WebSockets.ChunkingDoesNotMatter | daemon/ioloop.c:423-463 | however bytes are cut into reads the same payloads come out, and the connection ends, or not, at the same one |
| WebSockets.FramesComeOut | daemon/ioloop.c:423-463 | frames a browser sends come out payload by payload as it sent them if and only if the frame buffer takes each payload; the first it does not take ends the connection |
| WebSockets.Receiver.Grow | daemon/ioloop.c:423-463 | for what one read can bring, the limit on the gathering buffer's growth is never reached |
| WebSockets.Receiver.Unmask | daemon/ioloop.c:423-463 | the next payload is unmasked where it lies and nothing after it is touched |
| WebSockets.Receiver.Receive | daemon/ioloop.c:423-463 | the gathering buffer, emptied frame by frame, yields what the whole stream deframes to |
| OutputQueue.HeaderReads | daemon/ioloop.c:315-322 | a server's frame header is read back as its opcode and length, in each of the three forms |
| OutputQueue.PeerReadsFrames | daemon/ioloop.c:315-329 | of any written part of the frames the peer reads the whole ones, in order, as sent; of all of it, all of them |
| IoMachine.AccountWrite | daemon/ioloop.c:551-561 | a partial write moves the bytes taken from the queue to the wire, keeps the books exact and drops a chunk only when it is out |
| IoMachine.AccountMeans | daemon/ioloop.c:545-567 | output is a prefix of what was queued, in order; `queued` is exactly what is left; `written` exactly the bytes out that are not the transport's |
| IoRuns.DrainedKeeps | daemon/ioloop.c:545-561 | for any answers of the socket nothing queued is lost, repeated or reordered |
| IoRuns.FlushedAdds | daemon/ioloop.c:545-567 | a flush adds nothing to what is queued, and reports only WRITTEN and CLOSED |
| IoRuns.FlushTells | daemon/ioloop.c:545-567 | a flush reports WRITTEN if and only if it emptied the queue or brought it down to the soft limit, always with the true count, and ends the connection only on an error or once a closing answer is out |
| IoRuns.DeliveredAdds | daemon/ioloop.c:423-463 | the items of a stream become frame events and pongs, in order, none left out |
| IoRuns.WsTakenAdds | daemon/ioloop.c:423-463 | a read of a WebSocket adds what its stream yields, and ends the connection exactly when the stream does |
| IoRuns.UpgradedAdds | daemon/ioloop.c:376-417 | at the upgrade the books begin with what was queued before it and its answer, and no frame |
| IoRuns.TakenAdds | daemon/ioloop.c:584-592 | each read adds what it means to a connection of its kind, whatever its queue and its socket |
| IoRuns.ReadAllAdds | daemon/ioloop.c:571-595 | a turn's reads add what they mean one after another |
| IoRuns.ReadsUntil | daemon/ioloop.c:571-595 | a turn reads until nothing is there, the loop has paused it, its budget is spent or the connection is over, and makes no read once the budget is spent |
| IoRuns.ReadsFeed | daemon/ioloop.c:423-463 | the reads of a WebSocket, up to one that ends it, mean what their bytes, fed to its stream one by one, yield |
| IoRuns.ReportsDoNotDependOnCuts | daemon/ioloop.c:423-463 | however the same bytes are cut into reads, and whether or not they end the stream, the loop is told the same frames and the peer is answered the same pongs |
| IoRuns.ReadsWithin | daemon/ioloop.c:571-595 | no turn reads past the end of a stream, and a stream that ends ends the connection |
| IoRuns.ServedAdds | daemon/ioloop.c:597-655 | a turn adds the forwarder's header, or the opening and what is then read, or what an open connection reads |
| IoRuns.SentOutAdds | daemon/ioloop.c:711-723 | a send adds one binary frame on a WebSocket, its bytes elsewhere, and nothing once the connection is over |
| IoRuns.DidAdds | daemon/ioloop.c:597-740 | every operation adds exactly its own, behind all that is queued and reported; a connection that is over reports nothing more |
| IoRuns.RunAdds | daemon/ioloop.c:597-740 | over every run what is queued and what is reported is what the operations add, one after another, and nothing is taken back |
| IoRuns.RunMeans | daemon/ioloop.c:257-273 | over every run CLOSED is reported at most once and last, and output is a prefix of the sends, answers and frames queued, with both counters exact |
| IoRuns.RunOpen | daemon/ioloop.c:657-668 | the descriptor is closed by the loop's CLOSE or not at all |
| IoRuns.FramesCarrySends | daemon/ioloop.c:325-329 | the binary frames queued on a WebSocket are the data of the loop's non-empty sends since the upgrade, in order |
| IoRuns.RunBegins | daemon/ioloop.c:376-417 | a connection becomes a WebSocket only by a read that asks for it, and its books stand from then on as they began there |
| IoRuns.OutputPrefix | daemon/ioloop.c:545-567 | of whatever part of a WebSocket's output is written, the peer reads the first of the frames queued, whole |
| IoRuns.WebSocketOutput | daemon/ioloop.c:325-329 | over every run the peer reads back the first of the loop's sends since the upgrade, and all of them once all is written; `written` then counts just those if and only if no answered ping carried a payload |
| FrameBufs.FramesComeBack | shared/framebuf.c:42-58 | protocol frames sent one after another are yielded as they were sent |
| FrameBufs.FramesAreBytes | shared/framebuf.c:42-58 | whatever is yielded are frames within the limits, and they and what is left are the bytes pushed |
| FrameBufs.FramesTwice | shared/framebuf.c:34-58 | bytes that come in two goes yield what they yield in one, up to the first that can be no frame |
| FrameBufs.RoomForARead | shared/framebuf.h:17-20 | drained, the buffer always has room for one more read |
| FrameBufs.FrameBuf.Compact | shared/framebuf.c:26-32 | sliding the rest to the front, over itself, keeps every byte of it |
| FrameBufs.FrameBuf.Push | shared/framebuf.c:34-40 | refused exactly when the bytes do not fit behind what is left, and then nothing is lost |
| FrameBufs.FrameBuf.Take | shared/framebuf.c:42-58 | the frame at the front, or that more is needed, or that there can be none |
| FrameBufs.FrameBuf.Drain | shared/framebuf.c:42-58 | every whole frame there is, in order, and then what is left |
| FrameBufs.FrameBuf.Feed | shared/framebuf.h:33-36 | a caller that drains after each read never overflows, and has had the frames of all the bytes so far |
| IoFrames.MeansSplit | daemon/ioloop.c:477-536 | a connection that becomes a WebSocket in a turn reports so, and then what its stream yields |
| IoFrames.NewReadsWithin | daemon/ioloop.c:571-595 | no turn reads past the end of a stream that begins in it |
| IoFrames.WebSocketReports | daemon/ioloop.c:423-463 | over every run the reports after the upgrade are the frames completed by the items of all the bytes read since, across turns and whatever is sent in between |
| IoFrames.TakesExactly | daemon/ioloop.c:447-452 | a payload is refused exactly when what is left plus its length exceeds the buffer's 82944 bytes, or the bytes can be no frame |
| IoFrames.CompletedAreFrames | daemon/ioloop.c:441-452 | however payloads cut the protocol's stream, the frames reported are those of all its bytes |
| IoFrames.WebSocketFrames | daemon/ioloop.c:423-463 | over every run with the daemon's frame buffer the loop has been told, after the upgrade, exactly the protocol frames in the payloads of all the bytes read since, but for a last payload there was no room for |
| IoLoop.Conn.constructor | daemon/ioloop.c:670-708 | an adopted connection begins open, at its forwarder's header or at the handshake, or already reported closed |
| IoLoop.Conn.WsQueue | daemon/ioloop.c:325-329 | one whole frame joins the queue, its header the transport's own |
| IoLoop.Conn.WriteSome | daemon/ioloop.c:551-561 | one partial write, in place, keeps the books exact |
| IoLoop.Conn.DrainQueue | daemon/ioloop.c:548-561 | the loop over writes does what the socket's answers allow and tells whether it failed |
| IoLoop.Conn.Flush | daemon/ioloop.c:545-567 | the whole flush: what is written, what is reported and whether the connection ends |
| IoLoop.Conn.Deliver | daemon/ioloop.c:423-463 | the loop over a stream's items reports frames and answers pings as the machine does |
| IoLoop.Conn.WsBytes | daemon/ioloop.c:423-463 | the gathering buffer, emptied in place, leaves the connection as its stream says |
| IoLoop.Conn.HttpBytes | daemon/ioloop.c:477-536 | each outcome of the parser has its one effect, and after one request none has any |
| IoLoop.Conn.OpenWs | daemon/ioloop.c:376-417 | the answer is queued as the transport's own, the loop is told, and the books begin |
| IoLoop.Conn.AnswerHttp | daemon/ioloop.c:333-345 | the answer is queued whole, once, and the connection closes after it |
| IoLoop.Conn.TakeIn | daemon/ioloop.c:584-592 | one read's bytes go to the deframer, the HTTP parser or the frame buffer, and the connection is left valid |
| IoLoop.Conn.ReadSome | daemon/ioloop.c:571-595 | the loop over reads, with its budget, does what the machine's turn does |
| IoLoop.Conn.Service | daemon/ioloop.c:597-655 | how each state of a connection goes on, adding exactly the turn's reports and answers behind what is there |
| IoLoop.Conn.SendOut | daemon/ioloop.c:711-723 | a send joins the queue behind all that is there and is written as far as the socket takes it |
| IoLoop.Conn.Apply | daemon/ioloop.c:709-740 | every command's exact effect, adding its data behind what is queued; only CLOSE closes the descriptor |
| IoLoop.Conn.Perform | daemon/ioloop.c:597-777 | every operation adds exactly its own to what is queued and reported, a late request's answer among them; a closed connection answers none |
| IoLoop.Run | daemon/ioloop.c:257-273 | any run of operations, performed in place: the history is what they add in order, output is a prefix of it with exact counters, CLOSED is last, and only CLOSE closes the descriptor |
| Cbor.Cursor.Read | daemon/cbor.c:7-20 | the loop over argument bytes reads the head as its big-endian value |
| Cbor.Cursor.Skip | daemon/cbor.c:22-43 | the recursive skip ends for any 64-bit count and stops where the definition of skipping says |
| Cbor.HeadIsBytes | daemon/cbor.c:7-20 | a head that is read is spelled by exactly the bytes consumed |
| Cbor.SkipsItem | daemon/cbor.c:22-43 | every item is skipped whole, or refused when it is nested deeper than eight |
| Cbor.SkippedIsItem | daemon/cbor.c:22-43 | whatever is skipped is one item of definite length |
| Cbor.SkipIsExact | daemon/cbor.c:22-43 | skipping succeeds if and only if the input begins with an item nested at most eight deep, and consumes exactly it |
| Cbor.IntAt | daemon/cbor.c:55-61 | only integers that fit 64 bits with their sign are given |
| Cbor.HitIsKey | daemon/cbor.c:63-84 | a key matches exactly if it is the text or the integer wanted |
| Cbor.MapGet | daemon/cbor.c:63-84 | the loop over entries ends for any count and answers as the recursive lookup |
| Cbor.MapGetFindsFirst | daemon/cbor.c:63-84 | on every map the lookup lands on the value of the first equal key, or says there is none, or gives up exactly where a member too deep to skip comes first |
| JsonText.Utf8IsExact | daemon/json.c:67-119 | the bytes written for a code point are its UTF-8 by section 3 of RFC 3629, for every scalar value |
| JsonText.Next | daemon/json.c:67-119 | one turn of the loop reads the token that is there, or refuses |
| JsonText.Unescape | daemon/json.c:67-119 | succeeds exactly when the decoded text and its NUL fit, and never truncates |
| JsonText.ReadsToken | daemon/json.c:56-119 | every spelling of a character that the reader takes is read as that character, whatever surrounds it |
| JsonText.DecodedIsExact | daemon/json.c:56-119 | a string is read if and only if it is made of the spellings the reader takes (raw bytes but NUL and backslash, and escapes of anything but NUL, surrogates in pairs), and as what they mean |
| JsonRfc.ReadsString | daemon/json.c:67-119 | a string of section 7 of RFC 8259 is read if and only if it has no NUL and no lone surrogate, and then as the text it stands for |
| JsonRfc.ReadIsStringIfClean | daemon/json.c:73-78 | what is read is such a string if and only if its bytes are UTF-8 with no control character and no quotation mark but behind a backslash |
| JsonRfc.ReadBeyondFormat | daemon/json.c:73-78 | three inputs that are read and are no such strings: a control character, a quotation mark, a byte that is no UTF-8 |
| JsonRfc.Utf8Back | daemon/json.c:67-119 | a stretch of UTF-8 is what is written for its code point, and for no other |
| JsonText.UnescapeUndoesEscape | daemon/invite_mail.c:47-69 | unescaping gives back every NUL-free address the body escapes |
| JsonText.BuildBody | daemon/invite_mail.c:47-69 | the whole escaped body with its NUL, or nothing if it does not fit |
| Base64Url.EncodedLength | daemon/jwt.c:273-287 | the length formula is exact |
| Base64Url.Encode | daemon/jwt.c:273-287 | the loop over groups writes the encoding of section 5 of RFC 4648 |
| Base64Url.Decode | daemon/jwt.c:27-43 | the whole text decoded, or refused for a foreign symbol or a buffer too small |
| Base64Url.ShiftLow | daemon/jwt.c:27-43 | bits that fall off the 32-bit accumulator never matter to a byte still to come |
| Base64Url.GroupDecodes | daemon/jwt.c:27-43 | a group decodes to its bytes whatever the accumulator held |
| Base64Url.DecodeUndoesEncode | daemon/jwt.c:27-43 | decoding undoes encoding for every byte string of every length |
| Base64Url.DecodesAlphabet | daemon/jwt.c:18-43 | decoding succeeds if and only if every symbol is of the alphabet |
| Base64Url.EncodesBack | daemon/jwt.c:27-43 | encoding gives a decoded text back if and only if its length is not one more than a multiple of four and its last symbol holds no bits beyond the bytes |
| Base64Url.OtherSpellings | daemon/jwt.c:27-43 | two texts that are decoded and are no encodings |
| RateLimit.PresentTouch | daemon/ratelimit.c:51-65 | rolling a slot is rolling that key's window in the unbounded counter |
| RateLimit.PresentRecord | daemon/ratelimit.c:93-97 | counting in a slot is counting in the unbounded counter |
| RateLimit.AbsentRecord | daemon/ratelimit.c:68-84 | claiming a slot costs only the key that was in it; keys stay unique among slots |
| RateLimit.FullMeansTooMany | daemon/ratelimit.c:68-84 | a new key finds the table full only if the unbounded counter then holds more keys than there are slots |
| RateLimit.Displaces | daemon/ratelimit.c:72-84 | a new key displaces nobody while a slot is free, else a key touched no later than any other |
| RateLimit.CountsItsWindow | daemon/ratelimit.c:51-97 | each count is exactly the events since the operation that opened the current window, which no later one outlasted |
| RateLimit.Limiter.constructor | daemon/ratelimit.c:25-35 | an empty table that agrees with an empty counter |
| RateLimit.Limiter.Find | daemon/ratelimit.c:51-65 | the slot of the key, or that it has none |
| RateLimit.Limiter.Victim | daemon/ratelimit.c:72-77 | a free slot if there is one, else one last touched no later than any other |
| RateLimit.Limiter.Claim | daemon/ratelimit.c:68-84 | the key lost, if any, was touched no later than any other in a full table |
| RateLimit.Limiter.Blocked | daemon/ratelimit.c:86-91 | answers as the unbounded counter does about every key not evicted since its last reset |
| RateLimit.Limiter.Record | daemon/ratelimit.c:93-97 | counts as the unbounded counter does, and evicts only for a new key in a full table |
| RateLimit.Limiter.Reset | daemon/ratelimit.c:99-108 | forgets the key in both, so that they agree about it again even if it had been evicted |
| RateLimit.Limiter.Run | daemon/ratelimit.c:86-108 | over any run answers are the unbounded counter's for every key not evicted since its last reset; which keys are there and which were evicted is told step by step: only a new key in a full table evicts, and a least recently touched one; none at all while the counter fits the table |
| DeviceCodes.SweepKeeps | daemon/devicecodes.c:55-58 | sweeping the slots is dropping exactly the expired requests |
| DeviceCodes.LongSourceUncounted | daemon/devicecodes.c:86-90 | requests of a source name of 46 bytes or more are never found by the count |
| DeviceCodes.FairAfter | daemon/devicecodes.c:86-110 | a new request keeps every source within its share if and only if the name it is filed under held less than that |
| DeviceCodes.Normalise | daemon/devicecodes.c:60-72 | accepts exactly the eight letters of a code, in either case and however dashed or spaced |
| DeviceCodes.SpelledIsCode | daemon/devicecodes.c:94-101 | every code the table gives out is typed back as itself |
| Devices.Table.constructor | daemon/devicecodes.c:38-51 | an empty table with its defaults |
| Devices.Table.Sweep | daemon/devicecodes.c:55-58 | expired requests are gone whatever their state, and no other |
| Devices.Table.ByUser | daemon/devicecodes.c:74-78 | the live request with this code, or that there is none |
| Devices.Table.Pick | daemon/devicecodes.c:94-101 | the first of at most eight drawn codes that no live request has |
| Devices.Table.Begin | daemon/devicecodes.c:80-116 | exactly when a request is begun, refused for its source or fails; live codes stay distinct; every source stays within five if and only if the stored name held fewer, which the check ensures for names that fit their field |
| Devices.Table.PollFor | daemon/devicecodes.c:118-137 | a verdict ends the request; a poll too soon lengthens only that request's interval |
| Devices.Table.Find | daemon/devicecodes.c:139-150 | shows the pending request whose code was typed, if there is one |
| Devices.Table.Approve | daemon/devicecodes.c:152-158 | exactly the pending, unexpired request of that code is granted the token; refused only if there is none |
| Devices.Table.Deny | daemon/devicecodes.c:160-166 | exactly the pending, unexpired request of that code is refused |
| DeviceRuns.OverStaysOver | daemon/devicecodes.c:118-137 | a request that is over is never live again under its secret |
| DeviceRuns.HeardOnce | daemon/devicecodes.c:118-137 | over any run a token or a refusal is heard at most once: every later poll by that secret finds nothing |
| DeviceRuns.TokenWasGranted | daemon/devicecodes.c:118-158 | a token goes only to the secret of a request that was begun, then granted that very token under the code given out with it, all before its deadline |
| DeviceRuns.ShrinksOnlyByWrap | daemon/devicecodes.c:132-135 | a poll shortens the interval if and only if five more seconds overflow 32 bits |
| DeviceRuns.IntervalShrinksOnlyByWrap | daemon/devicecodes.c:130-136 | over every run a request's interval shrinks only across a poll that is too soon and overflows its 32 bits |
| DeviceRuns.IntervalWraps | daemon/devicecodes.c:130-136 | a run in which it does: with the largest interval, the second of two polls in a row is told to wait four seconds |
| DeviceRuns.Run | daemon/devicecodes.c:80-166 | every sequence of operations on a new table is such a run, ending, as each of its prefixes does, with distinct live codes and no short-named source above five |
| DeviceRuns.SixFromOneName | daemon/devicecodes.c:86-116 | from any source name of 46 bytes or more six requests with different codes and secrets are all begun, and the name then holds six, so the limit does not hold for such names |

## Left out

- TLS, sockets, epoll, HTTP parsing and routing and all other foreign calls: their answers are parameters. The connection's machine takes any frame buffer; `IoFrames` gives it the daemon's.
- SQL other than step 64's move of the identity: each migration is an arbitrary function of the data, which may fail.
- Hashing, signatures, randomness and token verification: parameters. Device secrets are taken never to repeat under their digest.
- Allocation failure, null handles and logging.
- BlobCache.AcknowledgedBlobsSurvive: takes keys as never reused, renames and queue entries as durable once made, a store that keeps what it acknowledged, and every entry that adopting a store adds as added: the source does not look whether that failed.
- BlobCache.ReadsAreTrue: speaks only of reads begun after publication; a fetch that races a delete of its key may re-create the file, which is outside the contract on distinct keys.
- That every delete reaches the store in the end, the sweep's choice of objects, and the cache's statistics.
- CacheUpkeep.EvictionPass: file sizes are summed without a 64-bit bound, and the library sort is any order by last read.
- CacheUpkeep.Retry.NoteFailure: the count of failures is unbounded, where the source's has 32 bits.
- Migrate.Run: the identity database is an attached file; one attached in memory is not modelled.
- AuthPool.ExactlyOnce: does not claim that a held or starved pool makes progress; it speaks of states, and of the state in which stop has returned.
- IoLoop.Run: one connection at a time; the threads' command queues, the wake-ups, the order of a turn across connections and the shutdown that closes every descriptor are not modelled.
- IoLoop.Conn.HttpBytes: gathering, parsing and routing a request and its size limit are a parameter, of which every outcome is covered.
- Relays.Relay.Forward: the connection hook is taken to be set, and what the kernel does with a gathered datagram is not modelled; in a call of more than 32 the walk may stop before its end.
- Relays.Relay.FindToken: tokens shorter than 16 bytes are never registered, so their lookup is not claimed.
- JsonText.Unescape: a buffer of no bytes at all is not modelled.
- JsonText.BuildBody: the body's fixed text, with the id and the time in it, is a parameter.
- Cbor.SkipIsExact: as in the source, section 3.3 of RFC 8949's rule on two-byte simple values below 32 is not checked.
- RateLimit.Limiter.constructor: a capacity of 0, for which the source makes no limiter, is not modelled.
- The JSON tokeniser, the mail worker's queue, configuration, roles, join rules, certificates and push: wiring or easy predicates that would add only simple members.
