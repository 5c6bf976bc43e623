# A verified model of the softphone's cores

This project models the parts of the softphone that keep state, and proves what they keep.

- **Voice.** A jitter buffer (`ajitter.dfy`) is a bit mask, packet headers, a block of bytes and a chunk under
  construction. `pool.dfy` says what it holds as a value and shows that value to be a first-in first-out stream of
  bytes; `jitter_runs.dfy` follows it over every interleaving of producer and consumer. `g711.dfy` is the companding
  arithmetic (section 3 of ITU-T Recommendation G.711), `rtp_pcmu.dfy` the sender and receiver of PCMU packets
  (section 4.5.14 of RFC 3551) between two jitter buffers, and `voice_link.dfy` one direction of a call end to end.
- **Store.** `store.dfy` is the append-only table with its SQL statements as operations on a sequence of rows,
  `affinity.dfy` says how its index column compares numerals, and `codec.dfy` is the blobs, msgpack token by token. `history.dfy` (a write-through cache), `tcmessage.dfy` (a
  delivery protocol) and `contacts.dfy` (bundles cut on a linked list, and paging) are its clients.
- **Calls and uplinks.** `tcsipcall.dfy` is the flag machine of one call, `tcuplinks.dfy` the difference reports
  that a client mirrors.

Objects whose C functions update them in place are classes here. Each of their methods is proved equal to a
function of the old state, and what the program is for is proved about those functions, over whole runs.

## Premises

- Times given to a jitter buffer are positive; RTP number 0 is time zero, and `JitterRuns.ZeroTimeIsExposed` says when
  that matters. Times increase, and reserved slots are always committed, only where a theorem about order says so:
  RTP numbers wrap after 65535, packets may be reordered, and a sound driver commits whole seconds and gives a slot up
  when it has nothing to put in it. The chunk size of one buffer never changes, because the partial chunk outlives a call.
- A store key is greater than the keys of the client's current rows of the same index (`Fresh`), or than all of the
  client's keys (`KeysAhead`). `Store.ClockKeepsKeysAhead` says which clock readings give that. The program does not
  guarantee it: `Store.LaterKeyCanBeLess` gives two times whose keys are in the wrong order.
- Indexes of rows compare as text. sqlite gives a column declared `string` numeric affinity, so among the contacts,
  whose indexes are logins, logins that are numerals can merge or change places in paging. `Affinity.LoginsMergeExactly`
  and `Affinity.NumeralsPageByLength` say which; the theorems on contacts are about the others.
- `list_sort` gives a sorted permutation, `hash_lookup` searches one bucket and finds nothing in a null table, and
  `sip_addr_decode` keeps the address it is given.

## Where the code does not do what one would expect

- Reserving twice after an overflow brings the bytes of slot 0 back to life (`JitterRuns.AbandonedReservation`,
  `JitterRuns.GivenUpReservation`).
- Packets with one time are read higher slot first, whichever came first (`PacketPool.EqualTimesReadHigherSlotFirst`).
- The length check of the PCMU receiver compares samples with bytes, so a payload longer than half a slot is written
  past its slot (`RtpPcmu.WritesStayInSlot`, `RtpPcmu.LongPayload`).
- Above 32734 the mu-law encoder loses the sign and the loudness of a sample, and A-law turns -32768 into -1
  (`G711.PastTheDomain`, `G711.AClips`).
- Keys print the microseconds unpadded, so a later write can fail to supersede an earlier one (`Store.LaterKeyCanBeLess`).
- A message sent to oneself, and no other, is marked as delivered without any reply (`TcMessage.DeliveredMeansReply`).
- `flush` is not always the number of requests in flight: a submit does not count, a flush with something in flight
  starts the count again, and a refused resend counts (`TcMessage.RunCounts`, `TcMessage.SubmitDrifts`,
  `TcMessage.FlushDrifts`).
- An event dated no later than all of the row it joins leaves that row under an index it no longer reports: the date of
  an incoming call is the peer's (`History.AddKeepsExactly`, `History.EarlierEventMisleads`).
- A downloaded contact with an empty login, name or phone is parsed to a null pointer, which the sort or the writer then
  follows (`Contacts.DownloadIsListedExactly`).
- A download leaves the contact cursor at its first bundle, and bundles are cut in order of name but paged in order
  of login, so some bundles may not be handed out (`Contacts.DownloadedBundlesAreHandedOut`).
- A failed SDP offer sets the error bit in a local variable, not in the call (`TcSipCall.FailedOfferCanBeRetried`).
- A URI whose hash bucket is still occupied is never reported as gone (`Uplinks.ClientIsExactIff`).

## Model

| member | source | states |
|---|---|---|
| BitMask.SetOnlyOne | src/jitter/ajitter.c:27 | `bset` turns on the one bit it names and leaves the other 31 alone |
| BitMask.DropOnlyOne | src/jitter/ajitter.c:28 | `bdrop` turns off the one bit it names and leaves the other 31 alone, set or not |
| BitMask.OnlyBitZero | src/jitter/ajitter.c:86 | the mask an overflow leaves marks slot 0 and no other |
| PacketPool.NextIsUnique | src/jitter/ajitter.c:113-138 | the slot to read is the live one of least time not past the last commit, the highest index on ties; there is only one such slot |
| PacketPool.DrainedIn | src/jitter/ajitter.c:156-158 | freeing a live slot lowers the number of live slots by one: the measure that ends the retry loop |
| PacketPool.TakeKeepsStream | src/jitter/ajitter.c:150-160 | one turn of the copy loop moves bytes from the pool to the partial chunk without changing their order or touching a slot it may not read |
| PacketPool.CopyChunkReadsStream | src/jitter/ajitter.c:140-169 | a chunk call succeeds exactly when the partial chunk and all readable slots hold enough bytes; it then returns the first of them and keeps the rest, and otherwise has drained every readable slot into the partial chunk |
| PacketPool.BacklogIsInTimeOrder | src/jitter/ajitter.c:113-138 | what can be read is the bytes of the readable slots, each once, in order of time for any order of commits |
| PacketPool.ChunkTime | src/jitter/ajitter.c:145-164 | a chunk call reads the first slots of that order, no more than it needs, and reports the time of the last one it read |
| PacketPool.Truncate | src/jitter/ajitter.c:155 | the time reported is what is left of the slot's time without its fraction, towards zero |
| PacketPool.NumberIsReported | src/jitter/ajitter.c:155 | a packet put with a whole number for its time is reported with that number |
| PacketPool.PutAppends | src/jitter/ajitter.c:98-106 | a commit appends its payload to the stream when every live packet is earlier, or as early and in a higher slot |
| PacketPool.CommitOpens | src/jitter/ajitter.c:98-102 | after a commit the consumer can read that slot, and of the others exactly the live ones that are not later; no other slot changes |
| PacketPool.CopyChunkIgnoresTheRest | src/jitter/ajitter.c:113-169 | a chunk call returns the same and leaves the same readable slots whatever the other slots hold |
| PacketPool.EqualTimesReadHigherSlotFirst | src/jitter/ajitter.c:126-129 | in any pool with no later packet, a new packet is read last exactly if its slot is below every live slot of the same time; its payload then ends the stream |
| PacketPool.TwoPacketsOfOneTime | src/jitter/ajitter.c:126-129 | the stream of two packets of one time, for both arrangements of their slots |
| PacketPool.CopyChunkMovesBytes | src/jitter/ajitter.c:140-169 | for any times, a chunk call moves bytes between slots, partial chunk and output and makes or loses none |
| JitterRuns.ReserveKeeps | src/jitter/ajitter.c:74-96 | a reservation keeps the invariant of runs; one that overflows leaves nothing readable and accounts for all that was |
| JitterRuns.CommitKeeps | src/jitter/ajitter.c:98-106 | a commit keeps the invariant of runs |
| JitterRuns.ChunkKeeps | src/jitter/ajitter.c:140-177 | a chunk call keeps the invariant of runs, whether or not a slot is reserved |
| JitterRuns.BytesAreConserved | src/jitter/ajitter.c:74-177 | over every run from a fresh buffer with increasing times in which every reserved slot is committed: what was delivered, then the partial chunk, then the live slots in time order is all that was committed, minus what was cut out at each overflow, at the place where it was; and what an overflow cuts out is exactly the bytes of all live slots in order of time |
| JitterRuns.BytesAreCounted | src/jitter/ajitter.c:74-177 | over every run with positive times in any order, reservations given up included: what was delivered, the partial chunk and all live slots hold as many of each byte as were committed, minus those live at overflows |
| JitterRuns.StepKeepsSafe | src/jitter/ajitter.c:74-177 | every step of such a run, a second reservation included, keeps the reserved slot out of the consumer's reach, and a chunk call leaves it alone |
| JitterRuns.ReservationIsSafe | src/jitter/ajitter.c:84-132 | after any such run that leaves a slot reserved, any number of chunk calls leave the slot as it was and deliver the same whatever the producer has written there |
| JitterRuns.AbandonedReservation | src/jitter/ajitter.c:84-101 | two reservations before a commit, for any positive times: the stream is that of a single reservation exactly when the pool had room, or slot 0 was empty or later than the commit |
| JitterRuns.GivenUpReservation | src/sound/linux/asound.c:48-68 | a run with increasing times that fills the pool, after which a second reservation makes a difference whatever is committed |
| JitterRuns.ZeroTimeIsExposed | src/jitter/ajitter.c:84-88 | with times that may be zero, the slot an overflow reserves is within the consumer's reach exactly if its packet had time zero |
| Jitter.Packets.constructor | src/jitter/ajitter.c:53-64 | the slots own disjoint stretches of one block and start empty |
| Jitter.Packets.Consume | src/jitter/ajitter.c:152-154 | the copy out of a slot appends its first unread bytes to the output and leaves the rest unread, and no other slot changes |
| Jitter.Packets.Poke | src/rtp/rtp_pcmu.c:106 | a write through the producer's pointer changes one byte of the block, or one past its end |
| Jitter.Packets.PouredIntoSlot | src/jitter/ajitter.c:53-64 | bytes that fit a slot, written from its start, leave what the other slots hold |
| Jitter.AJitter.constructor | src/jitter/ajitter.c:31-72 | a fresh buffer holds the empty pool |
| Jitter.AJitter.PutPtr | src/jitter/ajitter.c:74-96 | the scan over the mask returns the first free slot, and resets the pool when there is none |
| Jitter.AJitter.PutDone | src/jitter/ajitter.c:98-106 | the commit of a slot in the mask, the times and `last` |
| Jitter.AJitter.GetDone | src/jitter/ajitter.c:108-111 | the slot becomes free and no other slot changes |
| Jitter.AJitter.GetPtr | src/jitter/ajitter.c:113-138 | the scan over mask and times returns the slot `PacketPool.Next` defines, -1 exactly when there is none |
| Jitter.AJitter.CopyChunk | src/jitter/ajitter.c:140-169 | the retry loop over the real layout ends, and leaves mask, headers, data, partial chunk and output as `PacketPool.CopyChunk` says |
| Jitter.AJitter.GetChunk | src/jitter/ajitter.c:170-177 | the same into the buffer's own output |
| G711.ScanDown | src/g711/g711.c:72-73 | the mask loop stops at the top set bit, or at 4 |
| G711.MuLaw_Encode | src/g711/g711.c:54-76 | the encoder with its 16-bit wrap-around computes the code whose properties follow |
| G711.ALaw_Encode | src/g711/g711.c:9-28 | the same for A-law |
| G711.MuErrorBound | src/g711/g711.c:54-93 | decoding an encoded sample is off by at most a thirty-second of its biased magnitude up to 8158, and gives 8031 with its sign beyond, as far as 32734 |
| G711.MuIsOdd | src/g711/g711.c:54-93 | mu-law treats a sample and its negation alike |
| G711.MuIsMonotone | src/g711/g711.c:54-93 | a louder sample never comes out quieter |
| G711.MuIsIdempotent | src/g711/g711.c:54-93 | coding a second time loses nothing more |
| G711.MuCodesSurvive | src/g711/g711.c:54-93 | every code comes back from decoding and encoding, except that 0x7F becomes 0xFF |
| G711.MuClipsExactlyInDomain | src/g711/g711.c:67-71 | a loud positive sample clips to 8031 exactly if it is at most 32734 |
| G711.PastTheDomain | src/g711/g711.c:62-76 | what comes out for every sample beyond 32734 on either side, where the 16-bit sum wraps: one of sixteen negative values, or silence |
| G711.MuCodesInOrder | src/g711/g711.c:74-92 | mu-law codes decode in strict order within each sign, so the code of a sample is fixed by its decoded value |
| G711.MuFrameRoundTrip | src/rtp/rtp_pcmu.c:68-73 | a frame of any length comes back sample by sample |
| G711.AErrorBound | src/g711/g711.c:9-52 | A-law is off by at most 1 below 32 and at most half a cell of the sample's segment up to 4095 |
| G711.AIsMonotone | src/g711/g711.c:9-52 | a larger sample never comes out smaller, above -32768 |
| G711.AClips | src/g711/g711.c:16-24 | A-law clips at 4032 on both sides, and sends -32768 to -1 |
| G711.ACodesSurvive | src/g711/g711.c:9-52 | every A-law code comes back from decoding and encoding |
| G711.ACodesInOrder | src/g711/g711.c:26-51 | A-law codes, once toggled, decode in strict order within each sign |
| G711.ToggleIsXor | src/g711/g711.c:27 | toggling is an exclusive or with 0x55 |
| RtpPcmu.SamplesOfPcm | src/rtp/rtp_pcmu.c:103-109 | samples stored as little-endian bytes read back as the same samples |
| RtpPcmu.Sender.constructor | src/rtp/rtp_pcmu.c:121-132 | a new sender sends frames of 320 bytes, and its packet buffer has room for them |
| RtpPcmu.Sender.EncodeFrame | src/rtp/rtp_pcmu.c:60-73 | the sample loop writes the coded frame behind the RTP header |
| RtpPcmu.Sender.SendOne | src/rtp/rtp_pcmu.c:54-82 | one turn of the restart loop sends one packet for one whole chunk, or finds none |
| RtpPcmu.Sender.Send | src/rtp/rtp_pcmu.c:44-86 | the restart loop ends, having sent every whole frame the record buffer held, in order; a context of another codec sends nothing |
| RtpPcmu.Receiver.FillSlot | src/rtp/rtp_pcmu.c:103-109 | the sample loop writes the decoded samples, for a payload of any length, to consecutive addresses from the start of the slot, within the block and past it |
| RtpPcmu.Receiver.Recv | src/rtp/rtp_pcmu.c:88-119 | a packet that does not unpack or has more samples than a slot has bytes changes nothing; any other is written from the start of the reserved slot with its length and number in the header; if its samples fit the slot, it is put and no other slot changes |
| RtpPcmu.WritesStayInSlot | src/rtp/rtp_pcmu.c:97-109 | of the payloads that pass the length check, for every slot size and slot, exactly those of at most half a slot are written within their slot |
| RtpPcmu.LongPayload | src/rtp/rtp_pcmu.c:97-109 | 161 octets and slots of 320 bytes: the packet is let through, and its last sample goes into the next slot, or past the block from the last one |
| VoiceLink.SendAllDrains | src/rtp/rtp_pcmu.c:54-85 | the packets carry exactly the coded bytes taken out of the record buffer, and less than a frame stays behind |
| VoiceLink.SendAllNumbers | src/rtp/rtp_pcmu.c:54-85 | those packets carry a frame each under consecutive 16-bit numbers, across the wrap |
| VoiceLink.RecordKeeps | src/rtp/rtp_pcmu.c:44-86 | a recorded packet of any length keeps the link invariant |
| VoiceLink.RecordTimeIsSent | src/rtp/rtp_pcmu.c:55-75 | the packets sent for a recorded packet carry the time it was recorded with |
| VoiceLink.DeliverKeeps | src/rtp/rtp_pcmu.c:88-119 | a delivered packet keeps the link invariant |
| VoiceLink.NumberIsPlayed | src/rtp/rtp_pcmu.c:114 | a packet received alone is reported to the player under its number |
| VoiceLink.PlayKeeps | src/jitter/ajitter.c:140-177 | playing a chunk of any size keeps the link invariant |
| VoiceLink.VoiceArrives | src/rtp/rtp_pcmu.c:44-119 | after any run that sends no packet past number 65535 and finds a free slot for each, with slots that hold a frame: what was heard, what waits to be played and what is on the wire is the recording, each sample through Encode and Decode, up to the last partial frame |
| VoiceLink.FrameGetsThrough | src/rtp/rtp_pcmu.c:44-119 | one recorded frame of any samples, sent, delivered and played, is heard as its coded self, from any first RTP number |
| VoiceLink.VoiceIsClose | src/g711/g711.c:54-93 | and each such sample of moderate loudness is within a thirty-second of what was recorded |
| Codec.UnpackTokens | src/store/store.c:261-275 | unpacking the tokens of any object gives the object and leaves what follows it |
| Codec.StoreBlobParse | src/store/store.c:249-292 | the parse loop gives the records of a blob in order, and an empty list for a blob that does not unpack |
| Codec.WriteHistoryEl | src/ipc/tcreport.c:164-177 | the writer appends the tokens of one event, with "" for a null name |
| Codec.WriteHistory | src/store/history.c:225-226 | the list writer produces one array of the events in order |
| Codec.HistRoundTrip | src/store/history.c:104-134 | what the list writer wrote parses to the same events in order, empty strings as null |
| Codec.HistRoundTripIsExact | src/store/history.c:104-134 | and to the same list exactly when no string in it is empty |
| Codec.WriteContactEl | src/ipc/tcreport.c:206-213 | the writer appends the tokens of one contact |
| Codec.ElTokens | src/ipc/tcreport.c:164-213 | the tokens of an event and of a contact, field by field |
| Codec.ElFields | src/store/history.c:126-131 | the fields of an event and of a contact that the parsers read from each place |
| Codec.ContactRoundTrip | src/store/contacts.c:296-322 | a contact list parses back unchanged exactly when no string in it is empty |
| Codec.MsgRoundTrip | src/tcsip/tcmessage.c:273-323 | a stored message parses back with its time, address and text, and with the index of its row |
| Store.FetchBelow | src/store/store.c:15-39 | the four SELECT statements: a row that matches and that no match precedes, or none exactly when nothing matches |
| Store.AddUpdatesView | src/store/store.c:139-190 | with a fresh key, a write is one map update in the client's view of current rows |
| Store.AddLeavesOthers | src/store/store.c:166-190 | a write leaves the view of every other client as it was, whatever its key |
| Store.AddKeepsUniqueIffFresh | src/store/store.c:139-190 | one current row for each index survives a write exactly when its key is fresh |
| Store.TableRefinesLatest | src/store/store.c:139-190 | after any writes of any clients, a client's current rows are the map of its latest writes |
| Store.KeysStayAhead | src/store/store.c:192-205 | with increasing keys every write is fresh, and the keys to come stay ahead |
| Store.KeysWithinSecond | src/store/store.c:199 | within a second, keys are in order exactly when their microseconds are in order as text |
| Store.AKey | src/store/store.c:199 | a key, written out |
| Store.KeysAcrossSeconds | src/store/store.c:199 | for seconds of one length, keys are in order exactly when the seconds are, or within one second the microseconds as text |
| Store.ClockKeepsKeysAhead | src/store/store.c:192-205 | the premise on keys holds of a sequence of clock readings exactly when each is in a later second than the one before, or its microseconds are later as text |
| Store.LaterKeyCanBeLess | src/store/store.c:199 | from 9 to 10 microseconds the later write leaves the earlier row current beside it |
| Affinity.LoginsMergeExactly | src/store/store.c:47 | two logins are one index exactly if they are the same, or are made of digits and differ in leading zeros only |
| Affinity.NumeralsPageByLength | src/store/store.c:28-33 | logins made of digits are paged shorter first, leading zeros aside, and as text only among those of one length |
| Affinity.OthersCompareAsText | src/store/store.c:28-33 | logins of which at most one is made of digits compare as text, except that the numeral is first |
| Affinity.LoginsOutOfOrder | src/store/store.c:47 | 9 is paged before 10, and 7 and 007 are one index |
| Store.LettersAreApart | src/store/store.c:233-235 | clients of one login with different letters own different keys |
| Store.PagesAreTheMatches | src/store/store.c:299-347 | repeated fetches visit exactly the matching rows, each once, in strict order of index, ascending or descending |
| Store.PagingIsComplete | src/store/store.c:299-347 | from a null start that is every current row of the state, and then nothing |
| Store.StoreClient.constructor | src/store/store.c:224-241 | the prefix and the glob of a client |
| Store.StoreClient.StoreObsolete | src/store/store.c:166-190 | with a fresh key, the index leaves the client's view of current rows and nothing else does; no other client's view changes |
| Store.StoreClient.StoreAddState | src/store/store.c:139-164 | inserts the row, then flags the older ones |
| Store.StoreClient.StoreFetchState | src/store/store.c:299-347 | the parsed blob of the next row, or nothing |
| History.HistoryLog.HistoryReset | src/store/history.c:69-78 | forgets the cached row and the cursor |
| History.HistoryLog.HistoryFetch | src/store/history.c:152-178 | the next row from any start, its events in descending order of time; moves the cursor, and caches the row only if none is cached |
| History.HistoryLog.HistoryNext | src/store/history.c:80-83 | the same from the cursor |
| History.HistoryLog.HistoryAdd | src/store/history.c:180-249 | appends the event to the cached row, or starts a row under the event's key, and writes the row through |
| History.AddKeeps | src/store/history.c:180-249 | an added event goes into exactly one current row and takes no other event out of its row |
| History.AddKeepsExactly | src/store/history.c:180-249 | for any times, an add conserves the history exactly if its event starts a row or is later than the earliest event of the row it joins |
| History.EarlierEventMisleads | src/store/history.c:136-150 | a row joined by an event earlier than all of it is reported under that event's key, which is not its index |
| History.FetchedKeyIsIdx | src/store/history.c:136-167 | the index a fetch reports, the key of the last event after sorting, is the index of the row it read |
| History.NextKeeps | src/store/history.c:152-178 | a fetch keeps the invariant, the cache included |
| History.FetchKeepsCache | src/store/history.c:172-175 | a fetch with a row cached leaves the cache alone |
| History.FirstFetchCachesNewest | src/store/history.c:172-175 | the first fetch after a reset caches the row with the greatest index |
| History.CacheIsNewest | src/store/history.c:152-249 | over every run from an empty cache and a null cursor that starts with a fetch and has no reset, the cached row is the one with the greatest index |
| History.AddJoinsCache | src/store/history.c:195-231 | an event added with a row cached is in that row and in no other |
| History.EventsAreConserved | src/store/history.c:69-249 | over every run of adds, fetches and resets with distinct keys, where each event is later than the earliest of the row it joins: each added event is in exactly one current row, each row is indexed by the key of its earliest event, and the cached list is a permutation of its row |
| History.HistoryIsConserved | src/store/history.c:69-249 | the same for every run from an empty store |
| History.BrowseIsPaging | src/store/history.c:80-83 | repeated fetches return the rows past the cursor, each once, in descending order of index |
| History.BrowseShowsEverything | src/store/history.c:69-83 | after a reset they show an event exactly if it was added |
| History.ResetShowsEverything | src/store/history.c:69-83 | a reset keeps the rows and forgets the rest, and repeated fetches then show an event exactly if it was added |
| TcMessage.Messages.Message | src/tcsip/tcmessage.c:238-271 | a submitted message is sent and stored as pending |
| TcMessage.Messages.StoreMessage | src/tcsip/tcmessage.c:201-230 | the row `write_db` adds, token by token |
| TcMessage.Messages.MessageFlush | src/tcsip/tcmessage.c:339-358 | the first pending message is sent again and `flush` counts it |
| TcMessage.Messages.SendBulk | src/tcsip/tcmessage.c:325-336 | each message of the row is sent and counted |
| TcMessage.Messages.MessageResponse | src/tcsip/tcmessage.c:48-79 | provisional, final and failed responses |
| TcMessage.Messages.MessageIncoming | src/tcsip/tcmessage.c:81-100 | a received message is stored as delivered |
| TcMessage.RepliesBySort | src/tcsip/tcmessage.c:52-75 | a code below 200 changes nothing; any other end of a request takes it off and counts it, writes nothing unless it is a 200, and goes on to a flush only without an error and at the last |
| TcMessage.IndexesInOrder | src/tcsip/tcmessage.c:155 | for seconds of one length, indexes are in order as text when their times are, whatever the addresses |
| TcMessage.AnIndex | src/tcsip/tcmessage.c:155 | an index, written out |
| TcMessage.WriteKeeps | src/tcsip/tcmessage.c:201-230 | a pending or delivered row keeps the invariant and moves no message back |
| TcMessage.FlushKeeps | src/tcsip/tcmessage.c:273-358 | a resent message is the one its row parses to and has the index of that row, so its delivery supersedes the row; flushing writes nothing |
| TcMessage.AnsweredKeeps | src/tcsip/tcmessage.c:56-63 | a final response keeps the invariant before it sets off a flush |
| TcMessage.ResponseKeeps | src/tcsip/tcmessage.c:48-79 | a response marks a message as delivered only if it is a 200 |
| TcMessage.DeliveryIsSafe | src/tcsip/tcmessage.c:48-358 | over every interleaving, a message goes from absent to pending to delivered and never back, a submitted message always has a current row, and the delivered rows are exactly those whose index got a 200 or came in |
| TcMessage.MessagesAreKept | src/tcsip/tcmessage.c:201-336 | over every run from an empty outbox: the row of a submitted message parses to its time, address and text, as long as nothing of its index came in; every pending row does; and every request in flight, first or resent, has the time, address and text that were submitted |
| TcMessage.FlushKept | src/tcsip/tcmessage.c:325-358 | what a flush sends again is the message submitted under the index of the row |
| TcMessage.AnsweredKept | src/tcsip/tcmessage.c:232-235 | the row a 200 writes holds the message that was sent |
| TcMessage.IncomingIsStored | src/tcsip/tcmessage.c:94 | an incoming message is stored with its time and text, under the address it came to |
| TcMessage.DeliveredFrom | src/tcsip/tcmessage.c:48-358 | from any outbox, over every run: an index is delivered exactly if it was before, its request got a 200 or a message of that index came in |
| TcMessage.DeliveredExactly | src/tcsip/tcmessage.c:48-358 | from an empty outbox, over every run: an index is delivered exactly if its request got a 200 or a message of that index came in |
| TcMessage.DeliveredMeansReply | src/tcsip/tcmessage.c:48-358 | for addresses without ">": a message is delivered only by a 200 to its own request, in every run from an empty outbox, if and only if it is not to oneself; it is then delivered exactly when it got one |
| TcMessage.OwnMessageConfirmsItself | src/tcsip/tcmessage.c:94 | a message to oneself is marked as delivered while its request is still in flight |
| TcMessage.OwnMessageRun | src/tcsip/tcmessage.c:94 | a run from an empty outbox that submits a message to oneself and delivers it without any reply |
| TcMessage.FlushIsBounded | src/tcsip/tcmessage.c:56-73 | over every run `flush` is at most 1, and no further below zero than there were final responses |
| TcMessage.SubmitDrifts | src/tcsip/tcmessage.c:57 | one message submitted and answered by a 200 leaves nothing in flight and `flush` at -1 |
| TcMessage.StepCounts | src/tcsip/tcmessage.c:56-73 | when `flush` is the number of requests in flight, a step keeps it so exactly if it is not an accepted submit, nor a flush with something in flight (or, if its resend is refused, with other than one request in flight), nor a reply to the last request whose resend is refused |
| TcMessage.RunCounts | src/tcsip/tcmessage.c:48-358 | over every run, `flush` is the number of requests in flight after every event exactly if no event is one of those |
| TcMessage.FlushDrifts | src/tcsip/tcmessage.c:349 | two flushes in a row leave two requests in flight under a count of 1, and a refused one leaves none |
| TcMessage.RoundAdvances | src/tcsip/tcmessage.c:56-73 | a 200 takes exactly the first pending message off the pages and puts the next one in flight; `flush` stays equal to the number in flight |
| TcMessage.RoundsDrain | src/tcsip/tcmessage.c:56-73 | with every response a 200, each pending row's message is sent once, in order of index, and none is left |
| TcMessage.FlushDrains | src/tcsip/tcmessage.c:339-358 | a flush of an idle outbox sends each pending message exactly once in ascending order of index, and stops |
| TcMessage.FlushSendsSubmitted | src/tcsip/tcmessage.c:339-358 | and each message it sends has the time, address and text submitted under its index |
| Contacts.SortHandler | src/store/contacts.c:118-139 | the comparison loop is the strict order of C strings |
| Text.LessIsTotal | src/store/contacts.c:118-139 | that order decides between any two different names |
| Text.LessIsTransitive | src/store/contacts.c:118-139 | and is transitive |
| Contacts.DoSlice | src/store/contacts.c:193-204 | the cut leaves two well-linked forward chains |
| Contacts.ListSlice | src/store/contacts.c:207-220 | at most 29 nodes stay and the others go to the second list, in order; true exactly if there were any |
| Contacts.WriteContacts | src/store/contacts.c:159-160 | walking the nodes writes the blob of their contacts |
| Contacts.BundlesPartition | src/store/contacts.c:256-272 | the bundles put together are the list, 29 contacts in each but the last, none empty |
| Contacts.DownloadIsListedExactly | src/store/contacts.c:296-322 | the parsed list of a download has no null pointer exactly if every contact has a login, a name and a phone that are not empty |
| Contacts.ContactBook.constructor | src/store/contacts.c:37-58 | contacts are paged in ascending order, from a null cursor |
| Contacts.ContactBook.StoreContacts | src/store/contacts.c:141-176 | one row for a bundle, indexed by the login of its first contact; an empty list is refused |
| Contacts.ContactBook.TakeBundle | src/store/contacts.c:259-271 | one turn of the loop stores the first bundle, shows it the first time, and goes on with the rest of the chain |
| Contacts.ContactBook.StoreDownload | src/store/contacts.c:256-272 | the loop over the real nodes ends, having stored every bundle of the list in order and shown the first |
| Contacts.ContactBook.HttpCtDone | src/store/contacts.c:237-277 | a download with code 200 is stored bundle by bundle in order and its first bundle shown; any other code changes nothing |
| Contacts.ContactBook.ContactsFetch | src/store/contacts.c:324-345 | the next bundle of the store, or a request to the network exactly when the cursor is null and the store has none |
| Contacts.ContactBook.CurIdx | src/store/contacts.c:222-235 | the cursor becomes the login of the first contact of a list that has one |
| Contacts.BundlesAreStored | src/store/contacts.c:256-272 | every bundle becomes the current row of its first login, and no other current row changes |
| Contacts.HandedOutIsPaging | src/store/contacts.c:324-345 | repeated fetches hand out the rows past the cursor, because a bundle's first login is its row's index |
| Contacts.FetchAtTheEnd | src/store/contacts.c:328-345 | the network is asked exactly from a null cursor with no current row; a fetch that finds a row moves the cursor past where it was, and any other leaves it |
| Contacts.BundleIsHandedOut | src/store/contacts.c:324-345 | a stored bundle is handed out exactly if its first login is past the cursor |
| Contacts.DownloadedBundlesAreHandedOut | src/store/contacts.c:256-345 | after a download a null cursor reaches every bundle, and the cursor the download leaves reaches exactly those past the first bundle's login |
| TcSipCall.SipCall.Out | src/tcsip/tcsipcall.c:129-145 | the state of a new outgoing call |
| TcSipCall.SipCall.In | src/tcsip/tcsipcall.c:153-174 | the state of a new incoming call, with its session |
| TcSipCall.SipCall.Handler | src/tcsip/tcsip.c:545-582 | a change is reported, and a call that is no longer alive is recorded |
| TcSipCall.SipCall.TcActivate | src/tcsip/tcsipcall.c:185-206 | the state after media starts or fails to; `ActivateEstablishes` says what that is |
| TcSipCall.SipCall.TcHangup | src/tcsip/tcsipcall.c:208-233 | the flags and the reason at the end of a call |
| TcSipCall.SipCall.ControlAccept | src/tcsip/tcsipcall.c:263-306 | the user's accept, before and after ICE |
| TcSipCall.SipCall.ControlBye | src/tcsip/tcsipcall.c:308-329 | the user's reject, cancel or bye |
| TcSipCall.SipCall.TcSend | src/tcsip/tcsipcall.c:335-378 | the INVITE and its flags |
| TcSipCall.SipCall.MediaIceOk | src/tcsip/tcsipcall.c:380-396 | what the end of ICE sets off |
| TcSipCall.AcceptKeeps | src/tcsip/tcsipcall.c:263-306 | an accept keeps the invariant of calls, and answers at most once in a call's life |
| TcSipCall.ActivateKeeps | src/tcsip/tcsipcall.c:185-206 | an activation establishes the call, whatever it was doing, and records nothing |
| TcSipCall.ActivateEstablishes | src/tcsip/tcsipcall.c:185-206 | a call without flow and media gets EST, loses RING and is reported, with flow and media if they start and ERR if they do not; any other call is left alone |
| TcSipCall.AcceptAnswers | src/tcsip/tcsipcall.c:263-306 | an accept sends a 200 exactly for an incoming call with ICE done, no error and an offer that succeeds; a call with an error is left alone |
| TcSipCall.SendInvites | src/tcsip/tcsipcall.c:359-371 | a successful connect sends an INVITE and rings, a failed one sets ERR |
| TcSipCall.IceGoesOn | src/tcsip/tcsipcall.c:384-396 | the end of ICE sends an outgoing call, answers an accepted one, and lets a ringing one ring |
| TcSipCall.ByeEnds | src/tcsip/tcsipcall.c:308-329 | a ringing call is rejected with a 486; the call ends as OK if established, as cancelled if it rang out and as hung up otherwise, and is recorded so |
| TcSipCall.CloseEnds | src/tcsip/tcsipcall.c:208-233 | the same when the other end or the timer hangs up |
| TcSipCall.NewCallsStart | src/tcsip/tcsipcall.c:129-251 | the flags, the session and the error of a new call |
| TcSipCall.IceKeeps | src/tcsip/tcsipcall.c:380-396 | so does the end of ICE |
| TcSipCall.HangupRecords | src/tcsip/tcsipcall.c:208-233 | a hangup makes the call's one record, marked OK exactly if the call was established |
| TcSipCall.ByeKeeps | src/tcsip/tcsipcall.c:308-329 | so does a reject, cancel or bye, though it clears the flag before the hangup looks at it |
| TcSipCall.CallIsSafe | src/tcsip/tcsipcall.c:185-404 | over every run a call never rings while established, is answered at most once if incoming, sends at most one INVITE if outgoing, and is recorded exactly once, when it ends, as OK exactly if SIP reported media or a session in the run or the call sent a 200; it ends as cancelled only if an INVITE was sent and neither happened |
| TcSipCall.NewCallsAreGood | src/tcsip/tcsipcall.c:129-174 | runs may start from any new call, failed media included |
| TcSipCall.AcceptAndIceCommute | src/tcsip/tcsipcall.c:263-306 | accepting before or after the end of ICE leads to one state, also when the offer fails |
| TcSipCall.FailedOfferCanBeRetried | src/tcsip/tcsipcall.c:276-281 | a failed offer does not mark the call as failed, and a second accept answers as the first would have |
| Uplinks.TcUplinks.OneAdd | src/tcsip/tcuplinks.c:86-114 | an uplink goes into the new table and is reported as known exactly if its bucket of the old table is occupied |
| Uplinks.TcUplinks.OneRm | src/tcsip/tcuplinks.c:138-147 | an old uplink is reported as gone exactly if its bucket of the new table is empty |
| Uplinks.TcUplinks.Upd | src/tcsip/tcuplinks.c:116-124 | the reports of one update, in order |
| Uplinks.TcUplinks.UplinkUpd | src/tcsip/tcuplinks.c:61-136 | and the new table replaces the old |
| Uplinks.ReportsAre | src/tcsip/tcuplinks.c:86-147 | the reports of an update: each uplink of the list as it is, known (2) if the list before had a URI in its bucket and new (1) otherwise; then, as gone (0), the uplinks of the list before, as often as they were there, whose bucket no URI of the list is in |
| Uplinks.MirrorUpdate | src/tcsip/tcuplinks.c:83-147 | what a client holds after an update, whatever it held before |
| Uplinks.MirrorIsExactIff | src/tcsip/tcuplinks.c:83-147 | a client in step stays in step exactly when no URI that left shares a bucket with one that is there |
| Uplinks.ClientMirrors | src/tcsip/tcuplinks.c:61-147 | after any updates a client holds at least the latest list, and exactly it when distinct URIs are in distinct buckets |
| Uplinks.ClientHolds | src/tcsip/tcuplinks.c:61-147 | after any updates, a client holds a URI exactly if the latest list has it, or the update after the last list that had it covered its bucket |
| Uplinks.ClientIsExactIff | src/tcsip/tcuplinks.c:61-147 | so it holds exactly the latest list if and only if no URI was missed in that way; a missed one stays until it is listed again |

## Left out

Weaker contracts:

- RtpPcmu.Receiver.Recv: after a payload longer than half a slot only the memory and the header are stated, because the C code has then left its block or a neighbour's bytes; writes past the block are kept in a map.
- Jitter.AJitter.CopyChunk: asks that the chunk fits the output buffer, as its callers ensure, and that one chunk size is used throughout.
- Jitter.AJitter.PutDone: the handler it calls last is not part of the contract; the sender is modelled as running next.
- PacketPool.ChunkTime: the time is an unbounded integer; the C conversion is undefined beyond 31 bits.
- VoiceLink.VoiceArrives: supposes a lossless channel in order, a free slot for each packet and SRTP that changes nothing.
- Store.FetchBelow: leaves open which of several matches of one index is found, as the SQL text does.
- Codec.StoreBlobParse: a record of another shape reads as zeros and nulls; the C code does not look at types or lengths there.
- TcMessage.DeliveredMeansReply: says nothing of addresses with ">" in them, where two indexes can be one text.
- TcMessage.RoundsDrain: nothing is said of final responses other than 200, which the code answers by sending the message again at once.
- Contacts.ListSlice: speaks of heads and forward and backward links; tails go stale because a cut reads them from the list a node was first put in.
- Contacts.ContactBook.HttpCtDone: the list of a 200 arrives parsed and sorted; the order of equal names is left to `list_sort`.
- Contacts.SortHandler: characters compare as unsigned, as in SQL text; a C `char` may be signed for names outside ASCII.
- Contacts.DownloadedBundlesAreHandedOut: starts from an empty store and supposes that the first logins of the bundles differ.
- Uplinks.ClientMirrors: supposes that a handler is set.

Granularity and data:

- A producer step and a chunk call are atomic. Bytes written between them are covered, the interleaving inside a scan is not.
- The put-done handler of a record buffer is a sender that runs after the commit, not inside it.
- `struct ajitter` is a class, its packet data one array, its headers and times sequences; a time is a real number.
- The exclusive-or forms of `bset` and `bdrop` on Apple systems.
- Times of slots start at zero; the C code clears only half of that array, and no slot is read before it has a time.
- Samples are little-endian. RTP header fields other than number and timestamp, the clock and the socket are parameters or absent.
- `GLOB` metacharacters in logins. Of numeric affinity, numerals with a sign, a point, an exponent or spaces, and those of
  more than 18 digits.
- A producer that gives a slot up has left its length alone, as the sound driver does.
- Strings hold no NUL, as C strings; a blob's string is cut at its first NUL.
- A list handed to a caller of the history is a copy here; in C the caller shares it with the cache and sees later appends.
- Allocation failure, sqlite failure and reference counts: every step succeeds, and an ended call is released.
- The keep-alive timer of a call is an event that hangs it up once; a second hangup is excluded.
- The hash of a URI is any function; letter case is its business.

Not modelled:

- SIP registration, TLS, DNS, ICE and STUN set-up, and the media object behind a call: network plumbing with shallow state.
- HTTP login and signup, certificates, paths, dates, the command line and the dispatch of IPC commands: I/O and wrappers.
- Speex, Opus and sound drivers: foreign code, or copies of the PCMU loops.
- The reports to the user interface, and the history callback of an added event: output with no effect on the state.
- The message state for "at the server": no code uses it.
- Nearest-codeword claims for G.711: the code does not give nearest values at segment boundaries.
