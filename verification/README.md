# A verified model of BEHIND

BEHIND is a caching DNS forwarder. This project models its hard cores in Dafny and proves what they
promise: that messages survive encoding, compression and truncation; that the UDP fan-out, coalescing
and retirement protocol keeps its tables in step and answers nobody twice; that TCP messages are
reassembled whatever the chunks; that TCP descriptors have one owner and answers reach whoever asked;
that the cache is a recency list with honest TTLs; and four smaller cores: the rate limiter, the
domain filter, the log queue and the configuration reader.

Imperative code is modelled imperatively. Buffers, maps, lists and tables are fields of classes whose
methods carry the program's loops and branches, and each method is proved equal to a specification
function; the results are then proved about those functions, over all inputs, all histories or all
runs. Concurrency (the log queue) and event loops (UDP, TCP) are state machines over their steps. What
the outside world decides is an input to a step: random draws, results of sends and reads, new
descriptors, the clock, the order in which a hash table is walked.

| files | subject |
|---|---|
| Bytes, Names, NameCodec, WireNames | octets, names, compression |
| Messages, RecordCodec, RecordRoundTrip, MessageCodec, MessageRoundTrip, Truncation, Rewriting | records, messages and their round trip |
| WireRecords, WireMessages, WireReplies | what stands on the wire, octet by octet |
| PacketWriter, PacketReader | the imperative writer and parser |
| Txids | the transaction ids in use |
| CoalescingKeys, UdpState, UdpInvariants, UdpRuns, UdpResults, UdpOutcomes, UdpChannels, UdpTxids, UdpExamples, UdpForwarder | the UDP protocol |
| CacheModel, CacheResults, CacheQuestions, Cache | the answer cache |
| TcpFraming, TcpStreams | reading and writing over TCP |
| TcpTasks, TcpResults, TcpOutcomes, TcpLeaks, TcpTxids, TcpServer, LocalReplies, TcpExamples | TCP tasks and descriptors |
| Capacity, SharedTxids, SharedExamples | the UDP and the TCP side together |
| RateLimit, RateOutcomes | the token buckets |
| FilterRules, FilterKeys, FilterResults, FilterOutcomes, DomainFilter | the domain filter |
| Logger, LoggerOutcomes | the log queue |
| ConfigLines, ConfigResults, LineReader | the configuration reader |

`dafny verify dfyconfig.toml` checks everything. Method bodies begin with `hide` statements where a
proof goes through the lemmas about a function rather than its definition.

## Where the code differs from what is said of it

- src/Behind.cpp:968-969 says that backward pointers make cycles impossible. They do not; the jump
  limit ends the loop (`NameCodec.BackwardPointersCanCycle`).
- All questions are written while the count is clamped to 100, and a refused question name leaves its
  type and class behind (src/Behind.cpp:2219-2230, 1012-1017). `MessageRoundTrip.RoundTripExactly`
  gives the exact condition under which a message survives.
- Line 303 of BEHIND's own README.md says that failures are answered with SERVFAIL. A waiter whose
  reply cannot be sent is dropped silently in the cases `UdpResults.DeliverOutcome` characterizes;
  `UdpExamples.ClientsCanBeDropped` is a run in which it happens.
- The transaction-id sweep goes by age alone and may free an id that is in use. UDP queries and TCP
  tasks draw from and release to one set, so that after such a sweep two of them can have one id and
  either can release it under the other. `SharedTxids.RunsStayHeldExactly` says exactly which runs are
  spared; `UdpExamples.SweepCanConfuseQueries` and `SharedExamples.TcpTaskCanReleaseQuerysId` are runs
  that are not, the second although its one sweep comes while there is no query.
- A cached record whose own TTL is shorter than its entry's lifetime is returned with TTL 0 after its
  own time (`CacheResults.HandedOutInTime`, `CacheResults.ShortRecordsCanOutliveThemselves`); answers
  of positive entries never are (`CacheResults.PositiveAnswersAgree`).
- The per-client token bucket has the global bucket's rate and burst and can never refuse anything
  (`RateLimit.ClientBucketNeverRefuses`); each client is held only to the global bound. This is proved
  of real numbers: the code adds doubles to the two buckets at different moments, and what rounding
  does to them is not covered.
- Descriptors can be lost on two paths (`TcpLeaks.StepLosesExactly`): a new upstream socket when every
  draw of an id is taken (`TcpExamples.MissingTxidCanLoseSocket`), and a client of whose local reply no
  packet can be made. Such replies have at least two sources. The hosts file's test of a name lets a final
  dot through (one is taken off before the test, so that the file has two) and the encoder does not, so
  that the answer to a reverse look-up cannot be written
  (src/Behind.cpp:3916-3921, 2960-2981, `TcpExamples.LocalReplyCanLoseClient`). And upstream failures
  are cached whatever records they hold (src/Behind.cpp:3374-3378, `Rewriting.SomeRepliesAreNotWritten`).
- Single-label filter rules are not found for longer names (`FilterResults.HiddenExactly`).
- Starting the logger again discards the count of refused lines not yet reported (src/Logger.cpp:206);
  the model keeps that count as `forgotten`.

## Model

| member | source | states |
|---|---|---|
| NameCodec.WriteLabel | src/Behind.cpp:933-940 | the suffix is filed under the position at which its first label is then written, and that label is all that is added |
| NameCodec.ByteBuffer.PutU16 | src/Behind.cpp:1129-1132 | patching the data length overwrites two octets in place and nothing else |
| NameCodec.CheckName | src/Behind.cpp:903-918 | the first pass accepts exactly the names that have a wire form: labels of 1 to 63 allowed octets, 255 octets in all, no trailing dot |
| NameCodec.WriteName | src/Behind.cpp:892-944 | succeeds exactly for encodable names, appends exactly the compressed form and files exactly its suffixes; on refusal changes nothing |
| NameCodec.ReadNameAt | src/Behind.cpp:946-998 | the cursor loop computes the decoding that follows labels and pointers, for every buffer and position, and terminates |
| NameCodec.DecodeNameBounds | src/Behind.cpp:946-998 | a decoded name is one the encoder accepts and consumes between 1 octet and all that are left |
| NameCodec.DecodableNames | src/Behind.cpp:903-998 | the names the decoder can return are exactly the names the encoder accepts |
| NameCodec.FaithfulIsStable | src/Behind.cpp:920-942 | every entry of the compression map still decodes to its key in every later extension of the buffer |
| NameCodec.WriteNameReadsBack | src/Behind.cpp:892-998 | from a faithful map, writing a name leaves the map faithful, and the name reads back from where it was written with no more jumps than labels and consumes exactly the octets written |
| NameCodec.DecodeInvertsEncode | src/Behind.cpp:892-998 | decoding undoes encoding for every encodable name, however it was compressed and whatever follows it |
| NameCodec.JumpBudgetSuffices | src/Behind.cpp:920-975 | 127 jumps are enough for anything the encoder writes, under the decoder's limit of 128 |
| NameCodec.BackwardPointersCanCycle | src/Behind.cpp:962-975 | backward pointers alone do not rule out cycles; without the jump budget the loop on these four octets would not end |
| WireNames.EncodableExactly | src/Behind.cpp:897-918 | the names with a wire form are those of labels of 1 to 63 octets without control characters, whose wire form is at most 255 octets |
| WireNames.FreshNameOnWire | src/Behind.cpp:920-943 | with nothing to point back to a name is its labels, each behind its length, and a zero octet |
| WireNames.RepeatedNameIsPointer | src/Behind.cpp:925-934 | once written within the first 16384 octets a name is, wherever it is repeated, two octets with the top two bits set that hold the place where it was first written |
| WireNames.NewLabelCostsItself | src/Behind.cpp:925-940 | a new label in front of a name already written costs that label, its length and two octets |
| WireNames.SuffixesAreFiled | src/Behind.cpp:933-934 | what follows any label of a name just written is filed too |
| WireNames.ReadByOctet | src/Behind.cpp:955-994 | by its first octet a name ends, goes on with a label of that length, jumps back, or is none |
| WireNames.NameEndsWhereItStands | src/Behind.cpp:962-975 | what a name takes up ends at its zero octet or with its first pointer |
| WireNames.PointersAreCounted | src/Behind.cpp:962-975 | a chain of pointers back to a zero octet is followed if and only if it has at most 128 |
| RecordRoundTrip.RdataInMessage | src/Behind.cpp:1046-1133 | the type-specific data of every record type reads back as itself, names in lower case, with unknown data flagged exactly if they look compressed where they were written; the map stays faithful |
| RecordRoundTrip.RecordInMessage | src/Behind.cpp:1032-1133 | a record written from a faithful map is parsed back as exactly its canonical form (spelling, recomputed cacheable flag) and ends where it ended |
| PacketWriter.WriteRdata | src/Behind.cpp:1046-1130 | the branches on the record type write exactly the specified octets, or fail exactly when the specification does |
| PacketWriter.WriteRecord | src/Behind.cpp:1032-1133 | a record is appended with its data length patched in, or removed from the buffer without trace on failure |
| PacketWriter.WriteQuestion | src/Behind.cpp:1012-1017 | the question is written even when its name is refused, leaving only type and class |
| PacketReader.ParseRecordAt | src/Behind.cpp:1789-1919 | one record is read, or refused, exactly as specified: bounds, type-specific checks, OPT placement, opaque data with backward pointers marked uncacheable |
| PacketReader.ParseQuestionAt | src/Behind.cpp:1135-1149 | one question is read, or refused when its name or four octets are missing |
| PacketReader.ParseDnsMessage | src/Behind.cpp:1754-1927 | the cursor loops over the four sections compute the specified parse, including the section limits and the demand that nothing is left over |
| WireRecords.OptionsExactly | src/Behind.cpp:1888-1901 | EDNS data are accepted if and only if they are a list of options, each its code, the length of its data and its data |
| WireRecords.ParamsExactly | src/Behind.cpp:1865-1880 | HTTPS parameters are accepted if and only if they are a list of such entries with strictly rising keys |
| WireRecords.StringsExactly | src/Behind.cpp:1881-1888 | TXT data are accepted if and only if they are a list of strings behind their lengths |
| WireRecords.RdataExactly | src/Behind.cpp:1813-1917 | for every type, the data are accepted if and only if what their type demands stands in them, and that is what is reported |
| WireMessages.OptionsAreAccepted | src/Behind.cpp:1888-1901 | an OPT record under the root with any list of options is taken among the additional records |
| WireMessages.RecordExactly | src/Behind.cpp:1789-1919 | a record is accepted if and only if owner, type, class, TTL, length and data stand there and OPT is allowed, and it is the one reported |
| WireMessages.ParsedExactly | src/Behind.cpp:1754-1927 | the parser returns a message if and only if that message stands in the buffer: header, sections of the counted sizes, nothing else, an OPT record once at most and only in additionals |
| WireReplies.HeaderOnWire | src/Behind.cpp:2211-2237 | id, flags and counts of at most 100 fill the first twelve octets |
| WireReplies.WholeIfItFits | src/Behind.cpp:2272-2281 | over UDP a message that fits into the limit, or into 512 octets, goes out whole |
| WireReplies.CutSetsOneBit | src/Behind.cpp:2279-2303 | one that does not has the second bit of its third octet set, and the rest of id and flags as they were |
| WireReplies.OwnerOnWire | src/Behind.cpp:2238-2245 | an owner equal to the question up to case takes the question's spelling, any other lower case |
| WireReplies.AnswerPointsAtQuestion | src/Behind.cpp:920-937 | the first answer to a question has c0 0c for its owner |
| MessageRoundTrip.RoundTrip | src/Behind.cpp:1754-1927 | a well-placed message (at most 100 entries a section, encodable question names, one OPT at most and only in additionals) that can be written is parsed back as exactly its canonical form |
| MessageRoundTrip.RoundTripExactly | src/Behind.cpp:2205-2270 | a message that can be written survives the round trip if and only if it respects those rules |
| MessageRoundTrip.ParsedMessagesAreRoundTrippable | src/Behind.cpp:1771-1927 | whatever the parser accepts respects the rules |
| Rewriting.ParsedMessagesSurvive | src/Behind.cpp:1754-2322 | a message the parser accepted can be written again if and only if its unknown data do not look compressed and every HTTPS record's data fit their length field with the name written out; and then it parses to its canonical form (owners respelled, lower-case names, recomputed cacheable flag) |
| Rewriting.RecordIsWritable | src/Behind.cpp:1032-1133 | a record from the parser is refused by the writer exactly when it fails one of these two guards |
| Rewriting.ShortParamsFit | src/Behind.cpp:1076-1090 | parameters of up to 65278 octets always fit |
| Rewriting.QueriesAreWritten | src/Behind.cpp:2807-2810 | making the packet of a query, one question and no records, cannot fail |
| Rewriting.SomeRepliesAreNotWritten | src/Behind.cpp:1902-1917 | an answer of unknown type with data c0 00 is accepted and cannot be written again |
| MessageRoundTrip.SpellingKeepsName | src/Behind.cpp:2241 | an owner is the same name up to case, whether it takes the question's spelling or lower case |
| MessageRoundTrip.TcpPacketIsFramed | src/Behind.cpp:2210-2277 | a TCP packet is the message behind a length that counts it exactly |
| PacketWriter.WriteSection | src/Behind.cpp:2238-2271 | a section is written record by record up to the first failure, and the end of every record is noted |
| PacketWriter.CutPoint | src/Behind.cpp:2279-2294 | the three loops find the end of the last record within the limit, or the end of the questions |
| PacketWriter.Recount | src/Behind.cpp:2297-2317 | TC is set and each section's count becomes the number of its records before the cut |
| PacketWriter.MakeDnsPacket | src/Behind.cpp:2205-2322 | the imperative writer produces exactly the specified packet for every message, both transports and every limit |
| Truncation.FittingIsMaximal | src/Behind.cpp:2280-2294 | the records kept fit the limit, and one more would not |
| Truncation.CutIsShorterMessage | src/Behind.cpp:2295-2317 | cutting the octets and rewriting the header gives exactly the encoding of the message with fewer records |
| Truncation.TruncationKeepsMeaning | src/Behind.cpp:2279-2318 | a cut packet still parses: TC set, same questions, a prefix of answers, authorities and additionals with matching counts, no dangling pointer |
| Truncation.TruncationIsTight | src/Behind.cpp:2279-2295 | with at most one question the cut packet is within max(512, limit), and keeping one more record would not be |
| CoalescingKeys.PendingKeyInjective | src/Behind.cpp:525-533 | two questions share a coalescing key exactly when they agree up to case, with the same type and class |
| CoalescingKeys.RandomizedNameIsSameName | src/Behind.cpp:2670-2688 | randomizing case keeps the name up to case |
| CoalescingKeys.SpellingsExactly | src/Behind.cpp:2670-2688 | the names that randomizing can make of a name are exactly its spellings in upper and lower case |
| Txids.FirstFreeExactly | src/Behind.cpp:1220-1230 | an id that is handed out was free for the upstream address, and none is handed out if and only if all hundred draws are taken |
| Txids.HundredDraws | src/Behind.cpp:1220-1230 | of a hundred draws the first that is not in use is handed out, and nothing if there is none |
| Txids.DrawFree | src/Behind.cpp:1220-1230 | the loop over the draws yields the first that is free, or none after a hundred |
| UdpForwarder.Forwarder.AllocateTxid | src/Behind.cpp:1213-1231 | the id drawn is filed with the time |
| UdpForwarder.Forwarder.FinishQuery | src/Behind.cpp:1522-1556 | retiring a query takes it out of both tables, off its channel's count, releases its id, and drops the coalescing entry exactly with the last sibling |
| UdpForwarder.Forwarder.FinishTransaction | src/Behind.cpp:1561-1571 | retiring the siblings one by one equals retiring them all at once |
| UdpForwarder.Forwarder.GetOrCreateChannel | src/Behind.cpp:2607-2661 | a socket is opened while fewer than four channels serve the endpoint; from then on the loop's choice is used |
| UdpForwarder.Forwarder.ChooseChannel | src/Behind.cpp:2586-2596 | the loop over all channels computes the specified choice |
| UdpChannels.LeastActiveExactly | src/Behind.cpp:2586-2596 | the channel chosen is the earliest opened among the least active of the endpoint, and none only if there is none |
| UdpChannels.PoolIsBounded | src/Behind.cpp:2607-2661 | in every run an endpoint has at most four channels, and once it has four every query to it goes, without a new socket, to the earliest of the least active |
| UdpForwarder.Forwarder.ForwardUdp | src/Behind.cpp:2690-2755 | one attempt at one forwarder: capacity test, choice of channel, transaction id, send, and registration in both tables only if it was sent |
| UdpForwarder.Forwarder.ProcessQuery | src/Behind.cpp:3048-3112 | a client query joins a transaction, opens one or is refused, and keeps the invariant |
| UdpForwarder.Forwarder.ReplyToClients | src/Behind.cpp:3238-3278 | one reply per waiter, in the waiter's id and spelling; true exactly when one could be sent |
| UdpForwarder.Forwarder.ProcessDatagram | src/Behind.cpp:3331-3390 | an upstream datagram is ignored, retried without EDNS or delivered, and the invariant kept |
| UdpForwarder.Forwarder.ExpireOverdue | src/Behind.cpp:1654-1692 | the time-out phase, for any order of the table, equals retiring the overdue transactions in turn |
| UdpForwarder.NoneLeftOverdue | src/Behind.cpp:1654-1692 | a time-out phase that visits every overdue query leaves none overdue |
| UdpRuns.StepKeepsInvariant | src/Behind.cpp:3048-3391 | every step of the UDP side keeps the table, coalescing and reply invariants |
| UdpRuns.InvariantHolds | src/Behind.cpp:3048-3391 | the invariant holds in every state of every run |
| UdpResults.TablesAgree | src/Behind.cpp:1522-1556 | in every run both tables list exactly the live queries, once each, under the current transaction and (socket, id), also after an EDNS retry, and each channel counts its live queries |
| UdpResults.NoOrphans | src/Behind.cpp:1548-1553 | in every run a coalescing entry exists for a question exactly while a live query asks it, and live queries for the same question are siblings |
| UdpResults.AtMostOneReply | src/Behind.cpp:3238-3278 | over any run each client query gets at most one reply that was sent, and every reply carries its own id and its own spelling of its question |
| UdpResults.EveryClientIsAccountedFor | src/Behind.cpp:3048-3112 | no client query is forgotten: it waits, or a reply to it was at least attempted |
| UdpResults.DeliverOutcome | src/Behind.cpp:3380-3389 | after an upstream answer a waiter is answered exactly if its own write succeeded and goes on waiting exactly if no write did while a sibling is out; otherwise it is dropped silently |
| UdpResults.ExpiryCompletes | src/Behind.cpp:1662-1691 | a time-out completes the whole transaction: no sibling stays, the entry is gone, every waiter was written to |
| UdpResults.DeadlinesAreRefreshedOnce | src/Behind.cpp:3346-3371 | in any stretch of any run a query's deadline is refreshed at most once, by its EDNS retry |
| UdpResults.StepRespectsCapacity | src/Behind.cpp:2555-2562 | whatever the UDP side does, tasks never exceed max-tasks, or what they already were |
| UdpOutcomes.OnlyAnswersCount | src/Behind.cpp:2129-2150 | a datagram changes something if and only if it is a response of opcode 0 that comes in on a live query's socket under its id and repeats its question as sent |
| UdpOutcomes.ReceiveOutcome | src/Behind.cpp:3331-3390 | an answer that refuses EDNS to a query that used it is one retry under a free id if the send works; every other answer goes to all waiters, in their ids and spellings, and retires the query, and its siblings if a waiter was reached |
| UdpOutcomes.RepliesComeFromAnswers | src/Behind.cpp:3331-3390 | in every run whatever is written because of a datagram is written because of one that answers a live query, and to clients whose question it repeats up to case |
| UdpOutcomes.AskOutcome | src/Behind.cpp:3048-3112 | a question joins the transaction in which it is asked already unless 200 clients wait there, is refused without a forwarder, and is forwarded otherwise |
| UdpOutcomes.NewQuestionIsForwarded | src/Behind.cpp:3048-3112 | the forwarders tried are as many as the load allows, in order; the client waits exactly if one was reached |
| UdpOutcomes.ForwardOutcome | src/Behind.cpp:2690-2755 | an attempt adds one live query on the chosen channel under a free id exactly if there is room, a channel, an id, and the send works |
| UdpOutcomes.ExpireOutcome | src/Behind.cpp:1654-1692 | a query that has waited out its time takes its transaction with it; any other is left alone |
| UdpTxids.SweepExactly | src/Behind.cpp:1693-1700 | the id sweep keeps every live query's id, and every id the other side goes by, if and only if none of these ids has reached the time-out |
| UdpTxids.LookupIsUnambiguous | src/Behind.cpp:3334-3339 | while ids are held, a socket and an id name at most one live query |
| TcpTxids.StepKeepsHeld | src/Behind.cpp:1717-1735 | whatever happens on the TCP side, every forwarding task keeps an id of its own, and no id of the UDP side is taken or freed |
| SharedTxids.RunsStayHeldExactly | src/Behind.cpp:1213-1244 | in a run of both sides together, every live query and every forwarding task holds its own id in every state if and only if no sweep finds an id in use that has reached the time-out |
| SharedTxids.IdsAreUnambiguous | src/Behind.cpp:3334-3339 | while all ids are held, a socket and an id name one live query, and no TCP task has that id for that address |
| SharedExamples.TcpTaskCanReleaseQuerysId | src/Behind.cpp:1693-1733 | a concrete run in which the sweep frees the id of a TCP task while there is no query at all, a query draws it, and the task, on ending, releases it while the query is live |
| UdpExamples.ClientsCanBeDropped | src/Behind.cpp:3380-3389 | a concrete run after which a client has neither been answered nor waits |
| UdpExamples.SweepCanConfuseQueries | src/Behind.cpp:1654-1700 | a concrete run, with the two clean-up phases a hundred milliseconds apart, in which the sweep frees the ids of four live queries on four channels and a fifth gets the socket and the id of the first |
| CacheResults.RoomIsMadeFromTheEnd | src/Behind.cpp:434-436 | room is made by dropping the shortest least-recently-used suffix that suffices |
| CacheResults.CacheInvariant | src/Behind.cpp:403-441 | after any history of find, insert and insert_failure: byte and entry limits hold, every entry is the last accepted for its key, and entries stand in order of last use |
| CacheResults.AnswersAreTheLastAccepted | src/Behind.cpp:456-473 | find answers from the entry last accepted for the key, or not at all |
| CacheResults.WorkingSetIsKept | src/Behind.cpp:434-473 | an entry just used stays through any operations on other keys whose entries would fit the limits together with it |
| CacheResults.HandedOutInTime | src/Behind.cpp:409-473 | an entry is returned exactly before its lifetime is over, unchanged but for TTLs; a record's TTL stays within what it had left exactly while it had anything left |
| CacheResults.ShortRecordsCanOutliveThemselves | src/Behind.cpp:409-441 | a negative answer that still shows, after two seconds, a record that had one second to live |
| CacheResults.PositiveAnswersAgree | src/Behind.cpp:409-431 | all answers of a positive entry report one TTL, and none more than min(its own TTL, max-ttl) has left |
| CacheResults.TtlsOnlyShrink | src/Behind.cpp:409-416 | returned TTLs never increase while an entry lives |
| CacheResults.AnswersAreFresh | src/Behind.cpp:409-498 | over any history, whatever find returns is an honest copy of the value last accepted for the key, before that value's lifetime (for negatives the lesser of SOA TTL and minimum) has passed |
| CacheQuestions.KeysExactly | src/Behind.cpp:355-358 | two questions share an entry if and only if they are equal up to case with the same type and class |
| CacheQuestions.QuestionsGetTheirOwnAnswers | src/Behind.cpp:456-473 | after any history of questions asked and values offered, an answer comes from the value last taken for the same question, before its time is up |
| CacheQuestions.LearnedIsAnswered | src/Behind.cpp:417-473 | a value that is taken answers the same question, however spelled, until its time is up |
| CacheQuestions.AskingChangesNothing | src/Behind.cpp:456-473 | asking a question changes no answer, to it or to any other |
| CacheQuestions.AskedIsInFront | src/Behind.cpp:456-473 | a question that is answered is the most recently used, with the same entry |
| CacheQuestions.OthersAreKeptOrDropped | src/Behind.cpp:417-441 | what is offered for one question leaves the answer to another as it is, or, if taken, may take its room |
| CacheQuestions.NegativeLifetime | src/Behind.cpp:475-498 | a negative answer is kept for the lesser of the first SOA record's TTL and minimum, and not at all without one |
| CacheQuestions.PositiveLifetime | src/Behind.cpp:475-498 | a positive answer is kept for its least TTL, anything else not at all |
| CacheQuestions.EveryAnswerIsCharged | src/Behind.cpp:360-401 | every answer record adds its fixed size, its name, its raw data and its payload to the charge |
| CacheQuestions.EveryAuthorityIsCharged | src/Behind.cpp:360-401 | so does every authority record |
| CacheQuestions.EveryQuestionIsCharged | src/Behind.cpp:389-402 | so does every question; additional records do not |
| CacheQuestions.EntriesAllowed | src/Behind.cpp:445-451 | the entry limit is the byte limit over 512, but at least 4096 and at most a million |
| CacheStore.KeepFor | src/Behind.cpp:475-498 | the loops compute that lifetime, or zero when the response is not to be kept |
| CacheStore.Cache.Find | src/Behind.cpp:456-473 | list, index and byte count stay in agreement; the entry moves to the front or, expired, goes; the answer is the specified one |
| CacheStore.Cache.Erase | src/Behind.cpp:403-408 | an entry leaves list and index together and its charge leaves the byte count |
| CacheStore.Cache.InsertWithTtl | src/Behind.cpp:417-441 | stamping, charging, replacement and eviction leave exactly the recency list with the new entry in front |
| CacheStore.Cache.Insert | src/Behind.cpp:475-498 | an insertion is the specified step of the recency list |
| CacheStore.Cache.InsertFailure | src/Behind.cpp:501-504 | a failure is kept between one second and five minutes |
| TcpFraming.Reader.ReadMessage | src/Behind.cpp:3133-3187 | a call reports a result exactly at the end of a frame, of exactly that frame, takes nothing beyond it, and otherwise holds what it took; it waits only when the socket stalled and fails only when it died or the length is under 12 |
| TcpFraming.ReadsAreChunkIndependent | src/Behind.cpp:3133-3187 | any chain of calls, however the stream is cut and suspended, reports exactly the messages the octets taken hold, in order, and holds exactly what is left over |
| TcpFraming.Writer.WriteBuffer | src/Behind.cpp:3189-3207 | every octet is sent once and in order across suspensions; done exactly when all are sent |
| TcpFraming.PacketCrosses | src/Behind.cpp:3133-3207 | a packet written at one end and read in any chunks at the other is one result, and the canonical message if and only if the message respects the round-trip rules |
| TcpStreams.FramesExactly | src/Behind.cpp:3133-3187 | a frame is a message of 12 to 65535 octets behind its length, high octet first, and nothing else is |
| TcpStreams.StreamsAreDelivered | src/Behind.cpp:3133-3187 | of messages in frames one behind the other each is delivered, in order, and the rest is kept |
| TcpStreams.CallsReport | src/Behind.cpp:3133-3187 | a call reports a message, or octets that are none, if and only if what it held and took make up a frame, and asks for more if and only if something can complete one |
| TcpServer.Server.FinishTask | src/Behind.cpp:1717-1735 | a task leaves the table only if the table still has it; only open descriptors are closed |
| TcpServer.Server.SendReply | src/Behind.cpp:2341-2357 | a reply is started in place or in a new task if there is room |
| TcpServer.Server.ForwardTcp | src/Behind.cpp:2757-2850 | the set-up of an upstream connection leaves the task, the descriptors and the ids exactly as specified in each of its outcomes |
| TcpResults.RoutedKeeps | src/Behind.cpp:2757-2850 | however the set-up of an upstream connection goes, ownership, delivery and capacity hold afterwards |
| TcpLeaks.RoutedLoses | src/Behind.cpp:2796-2850 | a set-up loses the new socket exactly when a socket was opened and all hundred draws of an id for it are taken, and nothing else |
| TcpServer.Server.ProcessTcp | src/Behind.cpp:3764-3789 | a connection is admitted only within both limits and otherwise closed at once |
| TcpServer.Server.ProcessReceive | src/Behind.cpp:3393-3637 | every event on a descriptor makes exactly the specified step and keeps the invariant |
| TcpServer.Server.QueueTcpResponse | src/Behind.cpp:3405-3420 | the upstream descriptor is closed and the client's turned over to a reply, or closed |
| TcpServer.Server.CleanExpired | src/Behind.cpp:1619-1653 | the expiry loop over a snapshot of the table equals expiring the overdue tasks one by one |
| TcpResults.AnswerIs | src/Behind.cpp:3405-3420 | a reply to a forwarded question always finds room, because its upstream task has just made some |
| TcpResults.HandOverKeeps | src/Behind.cpp:3520-3527 | handing a client over to an upstream task keeps the invariant although both are in the table for a moment |
| TcpResults.ExpiryIsThorough | src/Behind.cpp:1619-1653 | one round of expiry leaves no task overdue |
| TcpResults.StepKeepsInvariant | src/Behind.cpp:3393-3637 | every step keeps ownership, delivery, serial numbers and capacity |
| TcpResults.RunKeepsInvariant | src/Behind.cpp:3764-3789 | in every run ownership, delivery and both limits hold, given a UDP side that counts TCP tasks before it adds its own |
| TcpResults.DescriptorsHaveOneOwner | src/Behind.cpp:1717-1752 | in every run the descriptors of two tasks are open and disjoint, and none belongs to a listener or UDP channel |
| TcpResults.AnswersReachTheirAskers | src/Behind.cpp:2341-2357 | in no run is a client sent an answer to another's question, or two answers, although descriptors are used again |
| TcpOutcomes.ReplyingOutcome | src/Behind.cpp:3566-3633 | when the upstream answer is complete, right or wrong, the upstream side is closed and the client's descriptor has a reply for who asked, or is closed if no packet can be made; a refusal of EDNS is one retry on the same connection |
| TcpOutcomes.ForwardingOutcome | src/Behind.cpp:3541-3564 | a question sent in full upstream waits for the answer; a failure is answered to the client |
| TcpOutcomes.WritingOutcome | src/Behind.cpp:3436-3440 | a reply written in full counts as the answer to who asked and ends the connection, as failure does |
| TcpOutcomes.ReadingOutcome | src/Behind.cpp:3442-3509 | part of a question changes nothing; garbage and refused questions are answered on the spot; a response ends the connection |
| TcpOutcomes.LocalOutcome | src/Behind.cpp:3520-3527 | a question answered on the spot has its reply started if a packet can be made of it |
| TcpOutcomes.UnroutableOutcome | src/Behind.cpp:3520-3538 | a question without a forwarder is refused |
| TcpOutcomes.RoutedOutcome | src/Behind.cpp:2757-2850 | a question to be forwarded gets a task with the client's descriptor and a free id, if a connection can be started |
| TcpOutcomes.UnroutedOutcome | src/Behind.cpp:2757-2850 | otherwise the client is told, and only a socket without an id stays open |
| TcpOutcomes.AcceptOutcome | src/Behind.cpp:3764-3789 | a connection is admitted if and only if its sender is allowed and both limits leave room |
| TcpOutcomes.ExpireOutcome | src/Behind.cpp:1619-1653 | a client that was forwarded is told of the time-out, any other is dismissed |
| TcpLeaks.StepLosesExactly | src/Behind.cpp:2796-2805 | a step loses track of a descriptor exactly when all draws of a transaction id for a new upstream socket are taken, or no packet can be made of a local reply |
| TcpLeaks.RunsLoseExactly | src/Behind.cpp:3520-3527 | a descriptor is lost in a run if and only if one of those steps lost it |
| TcpExamples.MissingTxidCanLoseSocket | src/Behind.cpp:2796-2805 | a run of four steps that loses an upstream socket: one query holds an id, and all hundred draws of the next repeat it |
| LocalReplies.PtrRepliesWritten | src/Behind.cpp:2960-2981 | a packet can be made of the answer to a reverse look-up if and only if the host's name has a wire form |
| LocalReplies.PtrRepliesAreRead | src/Behind.cpp:2960-2981 | whoever asked over TCP then reads exactly the one question and one PTR record with its name, class and TTL and the host's name in lower case |
| LocalReplies.HostAnswersWritten | src/Behind.cpp:2960-2981 | for a name the hosts file accepts, that is the case if and only if the name has no final dot |
| TcpExamples.LocalReplyCanLoseClient | src/Behind.cpp:2960-2981 | every such answer with a final dot, asked for over TCP, loses the client's descriptor in a run of two steps |
| Capacity.UdpStepsArePossible | src/Behind.cpp:2700-2703 | a step of the UDP side, given sockets that are not open, is one the TCP side allows for, and both go on agreeing on counts, ids and descriptors |
| Capacity.ChannelsAreTheirOwn | src/Behind.cpp:2607-2661 | in every run of both sides together the descriptor of a UDP channel is open, and no TCP task reads it, writes it or will close it |
| Capacity.TasksStayWithinLimits | src/Behind.cpp:2555-2562 | in every run of both sides together, TCP tasks plus UDP queries stay within max-tasks, and clients within theirs |
| RateLimit.Limiter.ConsumeRateLimit | src/Behind.cpp:2011-2065 | refill, global test, table limit and cleanup, client test and spending happen exactly as specified |
| RateLimit.StepKeepsInvariant | src/Behind.cpp:2011-2065 | buckets stay between empty and full, the table within its size; a query is accepted exactly when the global bucket holds a token and the table has room, and only then is one spent |
| RateLimit.ClientBucketNeverRefuses | src/Behind.cpp:2055-2061 | in no run does a client's own bucket refuse a query, for it is never emptier than the global one |
| RateLimit.RateIsBounded | src/Behind.cpp:2011-2065 | in any window of any run accepted queries are at most burst + qps times the seconds between first and last |
| RateOutcomes.VerdictExactly | src/Behind.cpp:2011-2065 | a query is refused if and only if it has no address, the global bucket is worth less than a token, or its client is new to a table of at least 1024 clients and four times max-tasks, even once swept |
| RateOutcomes.AcceptedOutcome | src/Behind.cpp:2049-2063 | an accepted query costs its client and the global bucket one token each, marks the client seen, and drops no client but by a sweep |
| RateOutcomes.RefusedOutcome | src/Behind.cpp:2028-2047 | a refused query changes no client's bucket and drops no client but by a sweep, at most one in a second |
| RateOutcomes.ClientsAreRemembered | src/Behind.cpp:2035-2047 | in every run a client whose query was accepted is in the table for the next minute |
| RateOutcomes.AcceptedAreCounted | src/Behind.cpp:2011-2065 | what the bound counts is the number of queries accepted |
| DomainFilter.DomainSuffixKey | src/DomainFilter.cpp:17-71 | the loops compute the last two labels (a star for a missing one), or the known suffix |
| DomainFilter.IsValidDomain | src/misc.cpp:181-209 | the scan accepts exactly labels of 1 to 63 allowed characters, not starting with a hyphen, 253 in all, with or without a final dot |
| DomainFilter.Filter.AddEntry | src/DomainFilter.cpp:156-249 | a rule is refused with the specified reason, or becomes the newest rule and is filed under its key |
| DomainFilter.Filter.Find | src/DomainFilter.cpp:82-154 | the lookup equals the index specification, and the plain scan when all suffix rules have two labels or are lan or local |
| FilterKeys.ReachedByName | src/DomainFilter.cpp:17-71 | a rule matching on label boundaries is filed under the name's own key exactly when it is specific or a star stands before it |
| FilterResults.LookupReaches | src/DomainFilter.cpp:85-105 | the first lookup yields the oldest rule that matches and is so reached |
| FilterResults.StarredIsOneInFront | src/DomainFilter.cpp:106-114 | if the first lookup found nothing, the starred one yields the oldest single-label rule with one label in front of it |
| FilterResults.PrefixesExactly | src/DomainFilter.cpp:73-80 | bucketing by first label hides no prefix rule |
| FilterResults.FoundExactly | src/DomainFilter.cpp:82-154 | for any rules and any name, what the index finds, said without keys |
| FilterResults.IndexAgreesWithScan | src/DomainFilter.cpp:82-154 | with specific suffix rules only, the index finds the first-inserted matching rule, suffix before prefix before middle before regex |
| FilterResults.HiddenExactly | src/DomainFilter.cpp:41-43 | a matching suffix rule is found if and only if it is specific, or the name is it or one label longer, or a star stands before it |
| FilterResults.SingleLabelRuleIsMissed | src/DomainFilter.cpp:106-114 | the rule com does not stop a.b.com |
| FilterOutcomes.DomainsExactly | src/misc.cpp:181-209 | a valid name is a dot, or labels of 1 to 63 letters, digits, hyphens and underscores, none starting with a hyphen, joined by dots, 253 octets at most, with or without a final dot |
| FilterOutcomes.RegexRules | src/DomainFilter.cpp:176-199 | what stands between slashes is a regular expression as given, 256 of them at most |
| FilterOutcomes.MiddleRules | src/DomainFilter.cpp:201-211 | what stands between stars is matched anywhere, in lower case |
| FilterOutcomes.PrefixRules | src/DomainFilter.cpp:213-233 | a valid name in front of a dot and a star is matched at the start |
| FilterOutcomes.SuffixRules | src/DomainFilter.cpp:235-256 | any other rule is a valid name, perhaps behind a star and a dot, matched at the end; the root alone is refused |
| FilterOutcomes.SuffixesMatch | src/DomainFilter.cpp:90-99 | a name matches if it is the rule or ends in a dot and the rule |
| FilterOutcomes.FilterDecides | src/DomainFilter.cpp:82-154 | with specific suffix rules only, the oldest matching suffix rule decides, or else the oldest prefix rule, middle rule, expression, in that order |
| FilterOutcomes.ReachedDecides | src/DomainFilter.cpp:85-105 | whatever the rules, the oldest that is reached under the name's own key decides the first lookup |
| Logger.StepKeepsInvariant | src/Logger.cpp:200-304 | every step of every thread keeps order, counts, flags and the absence of lost wake-ups |
| Logger.WrittenInOrder | src/Logger.cpp:211-243 | in every run what is on file is what was accepted, in order, as far as it goes |
| Logger.SleepersAreWoken | src/Logger.cpp:219-304 | a sleeping writer whose wait condition is false has a wake-up on its way |
| Logger.WriterLeavesNothing | src/Logger.cpp:219-225 | when the writer leaves, everything accepted is on file and every counted refusal has been reported |
| Logger.StopsMakeProgress | src/Logger.cpp:219-258 | during a stop some move is always possible and every move brings the writer nearer its end |
| Logger.StopsEnd | src/Logger.cpp:219-258 | however the threads are scheduled, a stop without further pushes ends within a bounded number of moves |
| LoggerOutcomes.EveryItemIsAccountedFor | src/Logger.cpp:286-304 | in every run each item offered was accepted or counted as refused |
| LoggerOutcomes.PushOutcome | src/Logger.cpp:286-304 | an item is queued while fewer than 100000 are, and only the one that ends the emptiness of a log not paused owes a wake-up |
| LoggerOutcomes.WriterNeverSpins | src/Logger.cpp:211-226 | a writer with the mutex sleeps, leaves or has work: it sleeps if and only if not stopped and paused or empty, leaves if and only if stopped and empty, and else takes all there is |
| LoggerOutcomes.RestartOutcome | src/Logger.cpp:200-226 | a log started again is neither paused nor stopped and its writer at once takes what was left over |
| LoggerOutcomes.StopOutcome | src/Logger.cpp:246-260 | a stop notifies, which wakes a sleeping writer, and returns exactly when there is no writer |
| LoggerOutcomes.StopsFlush | src/Logger.cpp:246-260 | when a stop of a running log returns, everything accepted before it is on file and no writer is left |
| ConfigLines.SplittingUndoesJoining | src/LineReader.cpp:40-107 | text joined from pieces with any mixture of CR, LF and CRLF splits into those pieces again |
| ConfigLines.LinesAreBreakFree | src/LineReader.cpp:40-107 | no line of any text holds a line break |
| ConfigResults.LinesExactly | src/LineReader.cpp:40-107 | CR, LF and the two together end a line, and nothing else does |
| ConfigResults.OuterBlanks | src/LineReader.cpp:209 | blanks around a line are of no account |
| ConfigResults.ControlsAreRefused | src/LineReader.cpp:210-215 | a line is refused for a control character if and only if it holds one other than tab between its blanks |
| ConfigResults.PlainExactly | src/LineReader.cpp:216 | a printable line is a directive if and only if it is the word include and a blank before something |
| ConfigResults.QuotedPath | src/LineReader.cpp:222-263 | a quoted path is taken as it stands between its quotes, whatever comment follows |
| ConfigResults.UnquotedPath | src/LineReader.cpp:222-264 | a path without quotes ends where a comment starts |
| ConfigResults.QuotedOtherwise | src/LineReader.cpp:250-268 | text behind a quoted path is an error, and so is an empty one |
| ConfigResults.UnclosedQuote | src/LineReader.cpp:236-239 | a quote that is not closed is an error |
| ConfigResults.PathsAreLocated | src/LineReader.cpp:270-282 | a path is absolute or taken from the directory of the including file |
| ConfigResults.IncludesAreSpliced | src/LineReader.cpp:205-294 | between plain lines an include directive is replaced by the lines of its file, expanded likewise |
| ConfigResults.ExpandedLinesArePlain | src/LineReader.cpp:205-294 | whatever is included from where, no directive and no line over a mebibyte is delivered |
| ConfigResults.OpeningExactly | src/LineReader.cpp:148-203 | a file is opened if and only if its path names a regular file that is not open already, at most 16 deep |
| LineReader.Reader.ReadLine | src/LineReader.cpp:40-107 | whatever the chunks, a call takes exactly the first line left in the file, or fails because a read failed, the total passes 64 MiB or the line 1 MiB |
| LineReader.Reader.Open | src/LineReader.cpp:148-203 | a file is refused for the specified reason (empty path, missing, count, depth, cycle, not regular) or becomes the top of the stack |
| LineReader.ParseDirective | src/LineReader.cpp:205-262 | trimming, comment and quote scanning yield the specified directive or error |
| LineReader.Reader.Getline | src/LineReader.cpp:205-294 | each call delivers the next line of the recursive expansion, its end or its error, unless a read fails or a limit is met |
| LineReader.Reader.ReadAll | src/ConfigParser.cpp:62-68 | reading ends without error only with exactly the recursive expansion of the main file, at most 10000 files of 64 MiB in all having been taken; an error is the expansion's own, a failed read, or one of these limits met, and the lines are in any case a beginning of the expansion |

## Left out

- UdpForwarder.Forwarder.ProcessQuery: starts where a question cannot be answered locally; filter, hosts and cache answers on the UDP path are not modelled.
- UdpForwarder.Forwarder.ReplyToClients: models the id and question of each reply, not its records, TTL adjustment or EDNS payload.
- UdpForwarder.Forwarder.GetOrCreateChannel: opening, connecting and watching a socket are one outcome, the descriptor or none.
- Txids.DrawFree: draws are an arbitrary sequence; the ChaCha20 generator is not modelled.
- The UDP and the TCP side are two machines run together, each with its own view of the one set of transaction ids; the clock stands still within an event.
- TcpServer.Server.ProcessReceive: the contents of messages, except of local replies, are reduced to what decides the branch taken.
- TcpServer.Server.ProcessTcp: pausing a listener after descriptor exhaustion is not modelled.
- CacheStore.MessageCharge: sizes are unbounded numbers, so the overflow guards of the size sum are not modelled; structure sizes are parameters.
- CacheStore.Cache.Find: list iterators are cell numbers.
- RateLimit.Limiter.ConsumeRateLimit: tokens are reals, so rounding of doubles is not modelled; nor is the logging of refusals.
- DomainFilter.Filter.Find: matching of regular expressions is a parameter that may match, fail or give up; names are taken to hold no NUL, which decoded names never do.
- TcpFraming.Reader.ReadMessage: a failing call ends the connection, so nothing is said of reading on after one.
- TcpFraming.Writer.WriteBuffer: the null-task test is not modelled.
- LineReader.Reader.ReadAll: files do not change while they are read; error texts and line numbers of errors are not modelled.
- Logger.StepKeepsInvariant: rotation, time stamps and opening the file are not modelled; writing an item always succeeds.
- Threads of the logger are steps of a state machine on values, each atomic between taking the mutex and releasing it.
- Local transaction numbers are unbounded; the program's 32-bit counter wraps.
- Shared objects are numbered instead of pointed to.
- Writing names without a compression map is used only by the self-test and not modelled.
- Sockets, epoll, signals, option parsing, reloading, hosts files, zone forwarding, uptime and the SELECT mode are not modelled.
- Exceptions and running out of memory are not modelled.
