# Player message core, modelled in Dafny

This project models the message-passing core of the Player robot server, along with a few of the codecs and request handlers around that core.

- **Messages** (`message.dfy`) models `libplayercore/message.cc`.
  - A `Message` is a handle on a shared `MessageStore`. The store holds the header bytes followed by the payload, together with the reference count that all copies of the handle share.
  - A `MessageQueue` is a bounded, doubly-linked FIFO of `MessageQueueElement`s. It is a class with `head`, `tail`, `Length`, `Maxlen` and `Replace` fields, and its elements have real `prev`, `next` and `msg` fields.
  - The ghost `spine` (the elements in order) and `Contents` (their messages) are the abstract view. `Valid()` ties that view to the pointers.
- **Drivers** (`driver.dfy`) models `server/driver.cc`.
  - `Driver` covers the subscription counter, with `Setup` and `Shutdown` taken as result parameters.
  - `PutMsg` does a tolerant device-table lookup. The device table is a map and the client manager is an append-only log of sent messages.
  - `ProcessMessages` drains the inbound queue. The handler is a function parameter.
- **XdrFunctionTable** (`functiontable.dfy`) models `libplayerxdr/functiontable.c`. This is the append-only (interface, type, subtype) → pack-function table and its first-match lookup, exactly as written. That includes the assignment in its condition.
- **Blackboard** (`blackboard.dfy`) models `client_libs/libplayerc/dev_blackboard.c`: the builders, readers and tag tests for string, int and double entries.
- **Laserbeacon** (`laserbeacon.dfy`) models `client_libs/c++/laserbeaconproxy.cc`.
  - It decodes the network-order beacon list into the bounded `beacons` array.
  - It covers configuration get and set through a request log. The request result and the reply are parameters.
- **WriteLogDriver** (`writelog.dfy`) models `server/drivers/shell/writelog.cc`. It covers the constructor's options and device list, `Setup`'s enable flag, the `PutConfig` request handler, and one pass of `Main`'s enable and timestamp logic.
  - The comment at `writelog.cc:94-95` gives `autorecord` a default of 0, but the code at `writelog.cc:303` reads it with a default of 1. `EnableDefault` follows the code.
- **Wire** and **Protocol** (`wire.dfy`, `protocol.dfy`) are shared support modules.
  - They provide bytes, big- and little-endian 16/32-bit codecs and two's-complement reinterpretation.
  - They also hold the message types and the header layout.

## Environment as parameters

Every external effect is an explicit input:

- the result of `Setup`, `Shutdown`, `OpenFile` and `client->Request`;
- the message handler;
- the current time (`now`);
- whether `Setup` found its devices;
- the byte beyond the end of a too-short request (`stray`).

Calls that only have effects outside the model are recorded in ghost counters or logs: `DataAvailable` broadcasts, warnings, replies and written records.

## Constants

`player.h`, `playerc.h`, `message.h` and `laserbeaconproxy.h` are not part of this model, so the model chooses these:

- the message type codes (DATA=1 … RESP_NACK=6);
- the interface codes;
- the blackboard tags;
- the 20-byte header layout;
- the 2 + 32·7-byte beacon list and the 8-byte beacon configuration.

The proofs rely only on the codes being distinct and on the sizes as stated.

## Model

| member | source | states |
|---|---|---|
| Messages.MessageStore.constructor | libplayercore/message.cc:54-74 | the shared buffer is the encoded header followed by the payload, the header decodes back from it, and the count is 1 |
| Messages.Message.constructor | libplayercore/message.cc:54-74 | Size is the header size plus data_size; the buffer is the header bytes followed by the first data_size payload bytes; the new store's count is 1 and it is live |
| Messages.Message.Copy | libplayercore/message.cc:76-92 | the copy aliases the same store, size and queue, and raises the shared count by exactly one |
| Messages.Message.DecRef | libplayercore/message.cc:110-126 | the shared count drops by one, and the storage is marked released exactly when it reaches zero |
| Messages.CompareEquivalence | libplayercore/message.cc:99-108 | Compare is reflexive, symmetric and transitive |
| Messages.CompareIgnoresTimeAndPayload | libplayercore/message.cc:99-108 | Compare holds iff type, subtype, device and device index agree; headers that differ only in timestamps or size compare equal |
| Messages.RefCountReleasesOnce | libplayercore/message.cc:76-92 | over any run of copies and releases on a live message, the storage is released at most once, it is released iff the count reaches 0, and the final count is the initial one plus copies minus releases |
| Messages.LastMatch | libplayercore/message.cc:200-209 | the scan from the tail finds the Compare-equal element nearest the tail, or -1 when none is equal |
| Messages.KeptRemovesAtMostOne | libplayercore/message.cc:200-215 | the replace step removes at most one element, the one nearest the tail; without Replace, for a type other than DATA or CMD, or when no element is equal, it removes nothing |
| Messages.CountKindZero | libplayercore/message.cc:200-215 | a queue with no Compare-equal element holds zero messages of that kind |
| Messages.CountKindConcat | libplayercore/message.cc:200-215 | counting messages of a kind distributes over concatenation |
| Messages.CountKindRemoveLast | libplayercore/message.cc:200-215 | removing the last match lowers the count of that kind by one |
| Messages.CountKindAppend | libplayercore/message.cc:224-242 | appending raises the count of a kind by one iff the new message is of that kind |
| Messages.ReplaceKeepsNewestOnly | libplayercore/message.cc:192-242 | in a replace-mode queue that holds at most one message of each replaceable kind, a push leaves none of the old ones and exactly the new one |
| Messages.MessageQueueElement.constructor | libplayercore/message.cc:128-132 | a new element holds no message and has no neighbours |
| Messages.MessageQueue.constructor | libplayercore/message.cc:138-147 | a new queue is empty, with the given Replace and Maxlen |
| Messages.MessageQueue.Empty | libplayercore/message.cc:164-168 | true iff the contents are empty |
| Messages.MessageQueue.Wait | libplayercore/message.cc:159-179 | the non-blocking path is taken iff the queue holds a message |
| Messages.MessageQueue.DataAvailable | libplayercore/message.cc:184-190 | one more broadcast, and the queue is otherwise untouched |
| Messages.MessageQueue.Remove | libplayercore/message.cc:266-278 | head, tail, prev and next describe the old sequence minus the removed element, and Length drops by one |
| Messages.MessageQueue.DropLastMatch | libplayercore/message.cc:200-215 | the contents become Kept: the old contents minus the Compare-equal message nearest the tail, in replace mode, for DATA or CMD |
| Messages.MessageQueue.Append | libplayercore/message.cc:224-242 | a fresh element holding a new copy of the message is linked at the tail, and the shared count rises by one |
| Messages.MessageQueue.Push | libplayercore/message.cc:192-244 | after the replace step, a full queue (Length ≥ Maxlen) returns NULL and appends nothing; otherwise the contents become the kept ones followed by the message and Length rises by one; Length never exceeds Maxlen; one broadcast |
| Messages.MessageQueue.Pop | libplayercore/message.cc:246-264 | an empty queue returns NULL and is unchanged; otherwise it returns the head message, keeps the rest in order and Length drops by one |
| Messages.MessageQueue.Clear | libplayercore/message.cc:149-156 | the queue ends up empty, as the destructor's walk leaves it |
| Drivers.DeviceTable.AddDevice | server/driver.cc:108-127 | a new id is added with this driver and access, a present id is refused with -1 and no change |
| Drivers.DeviceTable.GetDevice | server/driver.cc:444-453 | the entry is found iff the id is in the table, and it is that entry |
| Drivers.Delivery | server/driver.cc:438-458 | at most one message is forwarded; none iff the id is absent from the table; otherwise it carries the type, the id's code and index, the payload and client, and the supplied timestamp or else the current time |
| Drivers.ReplyFor | server/driver.cc:660-676 | a handler result ≤ 0 sends nothing; a positive result sends the reply to the message's own device, with that result as its type |
| Drivers.PumpAtMostOnePerMessage | server/driver.cc:660-676 | draining the queue sends at most one reply per message, and none when every handler result is ≤ 0 |
| Drivers.PumpAnswersEveryMessage | server/driver.cc:660-676 | when every handler result is positive and every reply device is in the table, each message gets exactly one reply, in queue order, typed with its handler's result (as an unsigned short) |
| Drivers.StepsKeepSubInv | server/driver.cc:546-587 | each subscribe or unsubscribe step keeps the count non-negative and the driver set up (one more successful Setup than Shutdown) exactly while the count is positive, calls Setup only from 0 and Shutdown only from 1, and moves the count by at most one |
| Drivers.RunKeepsSubInv | server/driver.cc:546-587 | over any sequence of calls the count never goes below 0 and the driver is set up exactly while it is positive |
| Drivers.TwoClientsOneSetup | server/driver.cc:546-587 | two subscribes and two unsubscribes (all succeeding) call Setup once and Shutdown once and end at count 0 |
| Drivers.Driver.constructor | server/driver.cc:58-83 | with no provided interface, or when AddInterface fails, error is -1 and nothing else is initialised; otherwise the interface is registered, error is 0, subscriptions and entries are 0, and alwayson is false |
| Drivers.Driver.Multi | server/driver.cc:88-100 | the device id's code is INT_MAX, subscriptions and entries are 0, and alwayson is false |
| Drivers.Driver.AddInterface | server/driver.cc:108-127 | registers this driver under the id, or returns -1 when the id is taken, leaving the table untouched |
| Drivers.Driver.DataAvailable | server/driver.cc:732-744 | one more broadcast |
| Drivers.Driver.Subscribe | server/driver.cc:546-563 | from 0, Setup is called once, the count rises only if it returns 0, and its result is returned; from above 0, the count rises, Setup is not called, and 0 is returned |
| Drivers.Driver.Unsubscribe | server/driver.cc:565-587 | from 0, it returns -1 and changes nothing; from 1, Shutdown is called, DataAvailable always follows, and the count drops only if Shutdown returned 0; above 1, the count drops, 0 is returned and Shutdown is not called |
| Drivers.Driver.PutMsg | server/driver.cc:428-464 | always returns 0, and the sent log grows by exactly the delivery of this message |
| Drivers.Driver.PutMsgTo | server/driver.cc:466-505 | the same as PutMsg, with the id built from the header's device and index and the client's port |
| Drivers.Driver.ProcessOne | server/driver.cc:662-675 | one message sends its reply (if any) and adds its warnings |
| Drivers.Driver.ProcessMessages | server/driver.cc:654-677 | the inbound queue ends empty; the replies sent and the warnings are those of every queued message in order |
| XdrFunctionTable.TestAsWritten | libplayerxdr/functiontable.c:124-128 | a match implies equal interface and subtype; the loop's type afterwards is either the query type or RESP_ACK |
| XdrFunctionTable.FindFrom | libplayerxdr/functiontable.c:119-131 | any entry found lies in the table and has the queried interface and subtype |
| XdrFunctionTable.FindIntendedFrom | libplayerxdr/functiontable.c:122-123 | the intended rule: the lowest-index entry with equal interface and subtype whose type equals the query or is REQ for a RESP_ACK query, or none exists |
| XdrFunctionTable.AsWrittenAgreesOnReqAndAck | libplayerxdr/functiontable.c:119-131 | for a RESP_ACK query the code as written and the intended rule find the same entry |
| XdrFunctionTable.ReqAnswersRespAck | libplayerxdr/functiontable.c:122-127 | a registered REQ entry answers a RESP_ACK query with the same interface and subtype, at or before its index |
| XdrFunctionTable.AsWrittenReqMatchesAnyType | libplayerxdr/functiontable.c:127 | as written, a matching REQ entry answers a query of any type |
| XdrFunctionTable.AsWrittenOverwritesType | libplayerxdr/functiontable.c:127 | testing a REQ entry of the right interface turns the loop's type into RESP_ACK |
| XdrFunctionTable.ExactTypeMatches | libplayerxdr/functiontable.c:124-126 | an entry whose type equals the query, with interface and subtype equal, is found at or before its index, provided no REQ entry of that interface precedes it (unless the query itself is REQ) |
| XdrFunctionTable.AddKeepsEarlierAnswers | libplayerxdr/functiontable.c:103-111 | appending an entry never changes an answer the table already gave, as written or intended |
| XdrFunctionTable.AsWrittenAnswersWrongType | libplayerxdr/functiontable.c:124-127 | a table holding only a sonar REQ entry answers a sonar DATA query as written; the intended rule answers nothing |
| XdrFunctionTable.AsWrittenMissesLaterEntry | libplayerxdr/functiontable.c:124-127 | a sonar REQ entry with another subtype before a matching sonar DATA entry hides that entry as written; the intended rule finds it |
| XdrFunctionTable.FunctionTable.constructor | libplayerxdr/functiontable.c:85-86 | the table starts empty |
| XdrFunctionTable.FunctionTable.Init | libplayerxdr/functiontable.c:46-101 | copies exactly the built-in entries before the first NULL-func sentinel, and ftable_len is their count (13) |
| XdrFunctionTable.FunctionTable.Add | libplayerxdr/functiontable.c:103-111 | the entry goes at index ftable_len, the length rises by one, and earlier entries are unchanged |
| XdrFunctionTable.FunctionTable.GetFunc | libplayerxdr/functiontable.c:113-132 | returns the func of the first entry the as-written condition accepts, type overwrite included, or NULL |
| XdrFunctionTable.FunctionTable.GetFuncIntended | libplayerxdr/functiontable.c:122-123 | returns the func of the first entry accepted by the rule the comment states, or NULL |
| Blackboard.Strlen | client_libs/libplayerc/dev_blackboard.c:75-85 | the index of the first NUL |
| Blackboard.PackString | client_libs/libplayerc/dev_blackboard.c:68-92 | COMPLEX/STRING tags and group id; key and data are the key's and the string's bytes up to and including the first NUL, counts strlen + 1; timestamp is now |
| Blackboard.PackInt | client_libs/libplayerc/dev_blackboard.c:94-117 | SIMPLE/INT tags and group id, key with its NUL, data_count sizeof(int), and the data is the int's four host-order bytes |
| Blackboard.PackDouble | client_libs/libplayerc/dev_blackboard.c:119-142 | SIMPLE/DOUBLE tags and group id, key with its NUL, data exactly the double's eight bytes |
| Blackboard.UnpackString | client_libs/libplayerc/dev_blackboard.c:144-154 | with the STRING tags, the result is a copy of the data bytes |
| Blackboard.UnpackInt | client_libs/libplayerc/dev_blackboard.c:155-164 | with the INT tags and at most four bytes, the data is copied over an int that starts at 0: no data reads 0, and four bytes of data are exactly the result's host-order bytes |
| Blackboard.UnpackDouble | client_libs/libplayerc/dev_blackboard.c:166-175 | with the DOUBLE tags, the data bytes are copied over a zero double and the rest stay zero |
| Blackboard.CheckIsString | client_libs/libplayerc/dev_blackboard.c:178-188 | 0 iff the entry is non-NULL and tagged COMPLEX/STRING, else -1 |
| Blackboard.CheckIsInt | client_libs/libplayerc/dev_blackboard.c:190-200 | 0 iff the entry is non-NULL and tagged SIMPLE/INT, else -1 |
| Blackboard.CheckIsDouble | client_libs/libplayerc/dev_blackboard.c:202-212 | 0 iff the entry is non-NULL and tagged SIMPLE/DOUBLE, else -1 |
| Blackboard.StringRoundTrip | client_libs/libplayerc/dev_blackboard.c:75-85 | unpacking a packed string gives the string's bytes followed by its NUL |
| Blackboard.IntRoundTrip | client_libs/libplayerc/dev_blackboard.c:101-111 | unpacking a packed int gives the int |
| Blackboard.DoubleRoundTrip | client_libs/libplayerc/dev_blackboard.c:127-137 | unpacking a packed double gives the same eight bytes |
| Blackboard.ChecksDiscriminate | client_libs/libplayerc/dev_blackboard.c:178-212 | each builder's entry passes its own tag test and fails the other two; NULL passes none |
| Blackboard.ChecksExclusive | client_libs/libplayerc/dev_blackboard.c:178-212 | no entry passes two tag tests |
| Laserbeacon.ItemRoundTrip | client_libs/c++/laserbeaconproxy.cc:99-102 | decoding an encoded beacon gives it back: raw id, range by ntohs, bearing and orient as signed ntohs |
| Laserbeacon.EncodeItemsAt | client_libs/c++/laserbeaconproxy.cc:99-102 | the i-th seven bytes of the encoded list are the i-th beacon's encoding |
| Laserbeacon.ItemAtFields | client_libs/c++/laserbeaconproxy.cc:99-102 | the i-th decoded beacon's fields are read from the i-th item's bytes of the buffer |
| Laserbeacon.DataRoundTrip | client_libs/c++/laserbeaconproxy.cc:94-103 | decoding an encoded beacon list gives back the count and every beacon |
| Laserbeacon.ConfigRoundTrip | client_libs/c++/laserbeaconproxy.cc:130-138 | decoding an encoded configuration gives it back (ntohs of htons) |
| Laserbeacon.ConfigBytesRoundTrip | client_libs/c++/laserbeaconproxy.cc:130-138 | re-encoding a decoded configuration gives the same bytes |
| Laserbeacon.PlayerClient.Send | client_libs/c++/laserbeaconproxy.cc:45-53 | the request is logged and its result returned |
| Laserbeacon.LaserbeaconProxy.constructor | client_libs/c++/laserbeaconproxy.cc:29 | model scaffolding: the constructor is in laserbeaconproxy.h, which is not part of this model; the model starts a proxy with count 0 and every beacon slot zero |
| Laserbeacon.LaserbeaconProxy.FillData | client_libs/c++/laserbeaconproxy.cc:82-104 | count is ntohs of the wire count; slots below min(count, PLAYER_MAX_LASERBEACONS) hold the decoded beacons and all others are zero; a header size mismatch only warns and decoding still proceeds |
| Laserbeacon.LaserbeaconProxy.ClearBeacons | client_libs/c++/laserbeaconproxy.cc:95 | every beacon slot is zero |
| Laserbeacon.LaserbeaconProxy.DecodeBeacons | client_libs/c++/laserbeaconproxy.cc:94-103 | every slot is what FillData leaves there |
| Laserbeacon.LaserbeaconProxy.GetConfig | client_libs/c++/laserbeaconproxy.cc:123-141 | one GET_CONFIG request is sent; on failure -1 is returned and the fields are untouched; on success 0 is returned and the fields are the ntohs-decoded reply |
| Laserbeacon.LaserbeaconProxy.SetBits | client_libs/c++/laserbeaconproxy.cc:37-57 | with no client, or when GetConfig fails, -1 is returned without sending; otherwise it sends the new bit count and size with the thresholds just read, in htons form, and returns the request's result |
| Laserbeacon.LaserbeaconProxy.SetThresh | client_libs/c++/laserbeaconproxy.cc:60-80 | with no client, or when GetConfig fails, -1 is returned without sending; otherwise it sends the new thresholds with the bit fields just read, in htons form, and returns the request's result |
| Laserbeacon.SetBitsSendsWhatItMeans | client_libs/c++/laserbeaconproxy.cc:49-53 | the set request decodes to the new bit fields with the old thresholds |
| WriteLogDriver.EnableDefault | server/drivers/shell/writelog.cc:303-306 | true iff the autorecord option is > 0, defaulting to 1 when absent (so logging is on by default) |
| WriteLogDriver.ReadableCount | server/drivers/shell/writelog.cc:311-328 | the number of leading device entries that parse; the next one does not |
| WriteLogDriver.AnswerAckIff | server/drivers/shell/writelog.cc:499-589 | ACK iff: SET_WRITE_STATE of the exact size; GET_STATE of the exact size (type WRITE, state 1 iff enable); or SET_FILENAME within bounds, while disabled, with the reopen succeeding; NACK otherwise, unknown subtypes included |
| WriteLogDriver.EnableChangesOnlyByWriteState | server/drivers/shell/writelog.cc:499-563 | enable changes only through a well-sized SET_WRITE_STATE, to state != 0; while enabled no filename is accepted |
| WriteLogDriver.StrncpyByte | server/drivers/shell/writelog.cc:564-567 | strncpy copies the source byte until the first NUL and pads with NUL after it |
| WriteLogDriver.StrncpyKeepsName | server/drivers/shell/writelog.cc:564-567 | a name without NUL in the first k bytes is copied as is; the bytes from k on are NUL |
| WriteLogDriver.FreshReadings | server/drivers/shell/writelog.cc:623-639 | only devices whose new timestamp differs from the stored one are written, with that timestamp |
| WriteLogDriver.FreshReadingsComplete | server/drivers/shell/writelog.cc:623-639 | every device whose timestamp changed is written |
| WriteLogDriver.RepeatedReadingsWriteNothing | server/drivers/shell/writelog.cc:623-639 | when no timestamp changed nothing is written |
| WriteLogDriver.ReadableCountStops | server/drivers/shell/writelog.cc:311-328 | the device list stops at the first entry that does not parse |
| WriteLogDriver.ReadableCountAtLeast | server/drivers/shell/writelog.cc:311-321 | when the first k tuples all read, at least k are counted, so a write into the device array happens only below the count the caller bounds |
| WriteLogDriver.ReadableCountAll | server/drivers/shell/writelog.cc:311-328 | when every entry parses all are read |
| WriteLogDriver.WriteLog.constructor | server/drivers/shell/writelog.cc:276-333 | the filename is copied with its NUL, the file is closed, enable keeps whatever value it held (a parameter: the constructor never assigns it), enable_default as stated, the devices read up to the first bad entry, and error -1 exactly when one was bad |
| WriteLogDriver.WriteLog.CopyName | server/drivers/shell/writelog.cc:299-300 | the filename buffer holds the name followed by NUL |
| WriteLogDriver.WriteLog.ReadDevices | server/drivers/shell/writelog.cc:311-328 | the stored devices are the leading parsable entries, with zero times, and error reports a bad entry |
| WriteLogDriver.WriteLog.Setup | server/drivers/shell/writelog.cc:346-419 | if device lookup fails -1; if opening the file fails -1 with enable unchanged; otherwise 0 with the file open and enable := enable_default |
| WriteLogDriver.WriteLog.OpenFile | server/drivers/shell/writelog.cc:448-464 | -1 and closed when the open fails, else 0 and open |
| WriteLogDriver.WriteLog.CloseFile | server/drivers/shell/writelog.cc:466-475 | the file is closed |
| WriteLogDriver.WriteLog.PutReply | server/drivers/shell/writelog.cc:499-589 | the reply is logged |
| WriteLogDriver.WriteLog.Strncpy | server/drivers/shell/writelog.cc:564-567 | the first n buffer bytes are strncpy's result, the rest are unchanged |
| WriteLogDriver.WriteLog.PutConfig | server/drivers/shell/writelog.cc:479-590 | returns 0; replies with the short-request NACK (processing continues) followed by the answer; enable and filename change exactly as the request's subtype, size and the enable guard allow, and a new filename ends in NUL |
| WriteLogDriver.WriteLog.MainPass | server/drivers/shell/writelog.cc:618-639 | while disabled nothing is written or changed; while enabled exactly the fresh readings are written and each device's stored time becomes its reading |
| Protocol.DecodeEncodeHeader | libplayercore/message.cc:54-74 | the header read back from a message buffer is the header written into it |
| Wire.NtohsHtons | client_libs/c++/laserbeaconproxy.cc:130-138 | ntohs(htons(x)) == x |
| Wire.HtonsNtohs | client_libs/c++/laserbeaconproxy.cc:130-138 | htons(ntohs(b)) == b for two bytes |
| Wire.Le32RoundTrip | client_libs/libplayerc/dev_blackboard.c:101-111 | reading back the four host-order bytes of a word gives the word |
| Wire.FromLe32Bytes | client_libs/libplayerc/dev_blackboard.c:155-164 | any four bytes are the host-order image of the word they read as |
| Wire.IntRoundTrip | client_libs/libplayerc/dev_blackboard.c:101-111 | reinterpreting an int as unsigned and back gives the int |
| Wire.ShortRoundTrip | client_libs/c++/laserbeaconproxy.cc:99-102 | reinterpreting a short as unsigned and back gives the short |

## Left out

- Threads, mutexes and condition variables: `StartThread`, `StopThread`, `DummyMain`, `Lock`/`Unlock`, `pthread_testcancel`, and the blocking half of `MessageQueue::Wait`. Every operation is modelled as one sequential step. `DataAvailable` is a broadcast counter.
- The replace step deletes the removed queue element, but the element's destructor does not release the message it holds (`libplayercore/message.cc:134-136`). The model therefore states nothing about that message's reference count.
- Reference counts are unbounded naturals, so counter wrap-around is not modelled.
- `ProcessMessages` pops `MessageQueueElement*` while `MessageQueue::Pop` returns `Message*`. Each file is modelled against its own text: the driver's inbound queue is a sequence of queued (client, header, payload) triples.
- `ProcessMessage` (the base handler) and `PLAYER_WARN` formatting are not modelled. The handler is a parameter, and warnings are recorded only as their kind.
- `Drivers.Driver.ProcessMessages`: the reply buffer's `PLAYER_MAX_MESSAGE_SIZE` bound is not modelled. The reply length is the handler's.
- The device table and client manager are abstract: a map from device ids and a log of sent messages. `devicetable.cc` and `clientmanager.cc` are not part of this model.
- `GlobalTime->GetTime` is the parameter `now`.
- In writelog.cc:
  - `Write` and all `Write*` formatters, `fprintf`, `WriteCameraImage` and `EncodeHex` are left out, because they are floating-point formatting and file output. A written record is the pair (device, timestamp).
  - The file system is an open-result parameter.
  - `Setup`'s device lookup and subscription are one success parameter. `Shutdown` is left out.
  - The synchronisation heartbeat in `Main` and its loop and sleep are left out. One pass of the loop is `MainPass`.
- `WriteLogDriver.WriteLog.PutConfig`: a request shorter than the subtype field reads one byte beyond the request. That byte is the parameter `stray`, not unspecified memory.
- `PutReply` failures are only logged by the source and are not modelled.
- In dev_blackboard.c, the network paths are left out: `set_*`, `subscribe_to_key`, `unsubscribe_from_key`, `putmsg`, create and destroy.
- Blackboard doubles are opaque blocks of eight bytes, and no floating-point value is interpreted.
- `Blackboard.UnpackInt`: the source copies `data_count` bytes into an int, which overruns it for more than four bytes. The model requires at most four.
- `Blackboard.UnpackDouble`: the source copies `data_count` bytes into a double, which overruns it for more than eight bytes. The model requires at most eight.
- `Laserbeacon.LaserbeaconProxy.GetConfig`: the source dereferences `client` without a check (`laserbeaconproxy.cc:130`), unlike `SetBits` and `SetThresh`. The model requires a client.
- `WriteLogDriver.WriteLog.constructor`: `strcpy` into the 1024-byte filename buffer (`writelog.cc:299-300`) overflows for a longer configured name. The model requires the name, taken as the string's bytes before its NUL, to fit with its NUL. More than 1024 readable `requires` tuples trip the assert at `writelog.cc:320`, so the model requires at most 1024 of them; a bad tuple among the first 1024 is modelled (error -1).
- Blackboard allocation sizes (`malloc` of `count` ints for the data, `memset` of a pointer's size) do not affect the bytes the builders fill, so they are not modelled.
- `WriteLogDriver.WriteLog.constructor`: the source leaves `enable` unassigned until `Setup` or `PutConfig`, so a `PutConfig` before `Setup` reads an uninitialised flag. The model takes that value as the parameter `unsetEnable` and promises nothing about it.
- `Laserbeacon.LaserbeaconProxy.constructor`: the proxy's constructor is in `laserbeaconproxy.h`, which is not part of this model. The initial state (count 0, zero slots, no size warnings) is the model's choice.
- `LaserbeaconProxy::Print` and the body of `client->Request` are left out. A request is logged and its result and reply are parameters.
- The XDR pack functions in the dispatch table are names only (their bodies are not part of this model), and so is the table's `realloc` growth.

## Findings

| source | as written | input that shows it | evidently intended | confidence | as-written member | corrected member |
|---|---|---|---|---|---|---|
| libplayerxdr/functiontable.c:124-127 | `(curr->type == PLAYER_MSGTYPE_REQ) && (type = PLAYER_MSGTYPE_RESP_ACK)` assigns instead of compares. A REQ entry with matching interface therefore matches any query type, and from then on the loop compares later entries against RESP_ACK. | Table [(sonar, REQ, 1), (sonar, DATA, 2)], query (sonar, DATA, 2): the code returns NULL although entry 1 matches. Table [(sonar, REQ, 1)], query (sonar, DATA, 1): the code returns the REQ entry's function. | `type == PLAYER_MSGTYPE_RESP_ACK`: a REQ entry also answers a RESP_ACK query, as the comment at lines 122-123 says | not executed | XdrFunctionTable.AsWrittenMissesLaterEntry | XdrFunctionTable.FunctionTable.GetFuncIntended |
