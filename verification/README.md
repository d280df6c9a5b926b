# A verified model of the message broker

The broker is a leased message queue over sixteen SQLite shards, with an MQTT 3.1.1 front end and
a fenced leader election. This project models its hard core in Dafny and proves what that core is
for: nothing is lost, duplicated or acted on under a lease that has ended.

| file | models |
|---|---|
| `Topic.dfy` | topic filter matching against the recursive definition of section 4.7 of MQTT 3.1.1 |
| `MqttSyntax.dfy`, `MqttCodec.dfy` | the packet grammar, as a printer and a parser on values, and the codec that advances offsets and drains a buffer |
| `MqttWire.dfy`, `Utf8.dfy` | the bytes of every packet written out, and which text is UTF-8 |
| `MqttFraming.dfy` | the TCP and WebSocket read loops |
| `MqttSession.dfy` | packet identifiers and PUBACK |
| `ElectionStore.dfy` | the broker's lease rows and their terms |
| `ElectionProtocol.dfy` | the client handles, with calls and answers in flight and local deadlines |
| `Collections.dfy`, `Wrappers.dfy` | shared facts and types |
| `Sharding.dfy` | topic hashing and message ids |
| `MessageStore.dfy`, `MessageTable.dfy` | the life of a message row: the statements as a state machine, and the calls that issue them |
| `Batching.dfy`, `QueueBatch.dfy`, `ShardBatch.dfy`, `AckBatch.dfy`, `Writer.dfy` | batching by shard, batches of one shard, delivery records for any ids, reordering within a batch, retries and draining |
| `RecentIds.dfy`, `Admission.dfy` | the bounded memory of idempotency keys, alone and in front of the table |
| `WakeUp.dfy` | notification of waiting subscribers |
| `Claim.dfy` | claiming by topic and by wildcard filter, and its rotation |
| `SubscribeLoop.dfy` | prefetch permits and the fate of every claimed message |
| `Subscribers.dfy` | live subscriptions and whom a broadcast reaches |
| `BroadcastAck.dfy`, `BroadcastVerdict.dfy` | acknowledgement leases, the tasks that wait for them, and the call each task makes |
| `Counters.dfy` | per-topic counters between batches, buffer, flushes and table |

Conventions. Text is its UTF-8 bytes, one character per byte. Times are integers. UUIDs are values
chosen outside and assumed new where the code relies on that. One SQL statement is one atomic step,
and one transaction is all or nothing. What SQL leaves open (the order of a listing, which of two
equally old rows is picked) is a parameter, constrained only by what the query promises. Concurrency
is interleaving: a run is any sequence of enabled steps, and the theorems are about every run.
Code that updates fields or loops is a class or a method with a loop, proved against a function on
values; the lemmas are about those functions.

Some properties one might expect do not hold as they stand. Each is proved in the exact form in which
it does, with a run or an input that shows the failure:

- Two election handles exclude one another for all runs if and only if answers are acted on within
  one second of the broker measuring the remaining lifetime (`MarginIsExact`,
  `LateAnswerMakesTwoLeaders`).
- A term granted or renewed is open to no other candidate for its lifetime if and only if its holder neither
  resigns it nor renews it for less (`TermRunsItsTime`, `ShorterRenewalCuts`).
- Any 16 n consecutive wildcard claims serve the n matching topics of a shard if and only if no other
  topic is ready in that shard or at most one matches (`FairExactly`, `StrangerStarvesAMatch`);
  counting all ready topics of the shard, they always do (`EveryTopicGetsItsTurn`).
- An id told as new is stored if and only if its key was not in the table and it is the first told as
  new for it (`ToldNewIsStored`); an id given as the one duplicated is in the table if and only if it
  was there with that key or is the first so told (`AnsweredIsStored`). `ForgottenKeyIsNotStored` and
  `AnsweredThenAborted` are runs in which one is not.
- The counters at rest are exact if every batch that fails lies within one shard, and for publishes
  that is also what it takes (`AtRestExact`, `LosesNothingExactly`, `FailedBatchIsNotCounted`).
- A PUBACK completes its delivery while fewer than 65,535 are unanswered; with a full table the next
  delivery loses one (`PubAckCompletesItsDelivery`, `LatestDeliveryIsLost`).

## Model

| member | source | states |
|---|---|---|
| `Topic.FilterMatches` | src/topic.rs:2-27 | the index loop with its early returns decides exactly the standard's definition of matching, for every filter, valid or not, and every name |
| `Topic.MatchLevels` | src/topic.rs:11-26 | the two-index walk over levels agrees with matching up to the first `#` |
| `Topic.LevelsMatchRecursively` | src/topic.rs:11-26 | matching by levels is the recursive definition: one level at a time, `#` last and for all the rest (section 4.7.1 of MQTT 3.1.1) |
| `Topic.RootTest` | src/topic.rs:67-69 | the textual root test is the test on the first level, except for roots like `#x` |
| `Topic.DollarRejected` | src/topic.rs:6-8 | names starting with `$` are reached by a filter only through a literal first level (section 4.7.2 of MQTT 3.1.1) |
| `Topic.IsValidSubscribeFilter` | src/topic.rs:33-50 | accepts exactly the filters whose wildcards fill a level, with `#` only in the last one |
| `Topic.JoinSplit` | src/topic.rs:9-10 | splitting into levels loses nothing |
| `Topic.SplitInjective` | src/topic.rs:9-10 | two names with the same levels are the same name |
| `Topic.ExactFilter` | src/db.rs:1326-1328 | a non-empty filter without wildcards matches itself and nothing else, which makes the exact claim path complete |
| `Topic.SubtreeFilter` | src/topic.rs:2-27 | `p/#` with wildcard-free `p` matches exactly `p` and the names below it |
| `Topic.MultiLevelPrefixMeaning` | src/topic.rs:56-65 | a filter from which a prefix is extracted is valid and matches exactly what the prefix says, `#` alone excluding `$` names |
| `MqttSyntax.PrintThenParse` | src/mqtt/codec.rs:108-233 | every well-formed packet within the size limit is read back as itself, and the bytes behind it are left alone |
| `MqttSyntax.RoundTripExactly` | src/mqtt/codec.rs:108-405 | the round trip succeeds exactly for the well-formed packets that fit |
| `MqttSyntax.ParseAccepts` | src/mqtt/codec.rs:108-330 | whatever is accepted is well-formed, within the limit, and consumes at least one byte |
| `MqttSyntax.ParseThenPrint` | src/mqtt/codec.rs:108-405 | encoding an accepted packet and decoding that returns the same packet |
| `MqttSyntax.LengthRoundTrip` | src/mqtt/codec.rs:407-438 | the base-128 length is read back with the number of bytes it took (section 2.2.3 of MQTT 3.1.1) |
| `MqttSyntax.LengthStable` | src/mqtt/codec.rs:407-423 | more bytes never change a length already decided |
| `MqttSyntax.FrameRoundTrip` | src/mqtt/codec.rs:108-129 | first byte and body are recovered whatever follows |
| `MqttSyntax.ConnectRoundTrip` | src/mqtt/codec.rs:235-271 | CONNECT with both protocol names, flags and optional credentials is read back |
| `MqttSyntax.ConnectAccepted` | src/mqtt/codec.rs:235-271 | an accepted CONNECT is well-formed and prints no longer than it came, its will being dropped |
| `MqttSyntax.PublishRoundTrip` | src/mqtt/codec.rs:273-293 | PUBLISH flags, identifier and payload are read back |
| `MqttSyntax.PublishAccepted` | src/mqtt/codec.rs:273-293 | an accepted PUBLISH is well-formed and accounts for every byte |
| `MqttSyntax.SubscribeRoundTrip` | src/mqtt/codec.rs:295-314 | the filter list is read back in order |
| `MqttSyntax.UnsubscribeRoundTrip` | src/mqtt/codec.rs:316-330 | the topic list is read back in order |
| `MqttWire.FieldLayout` | src/mqtt/codec.rs:483-487 | a field is its length in two bytes, most significant first, and its bytes; longer ones are cut at 65,535 |
| `MqttWire.LengthLayout` | src/mqtt/codec.rs:425-438 | one to four digits of seven bits, the least significant first, the high bit on all but the last |
| `MqttWire.ShortLayout` | src/mqtt/codec.rs:131-152 | the literal bytes of CONNACK, PUBACK, PUBREC, PUBREL, PUBCOMP, UNSUBACK, PINGREQ, PINGRESP and DISCONNECT, for every identifier |
| `MqttWire.ConnectLayout` | src/mqtt/codec.rs:332-361 | the literal header of either protocol, the sum of the flags, keep alive, client id, username and password, in this order |
| `MqttWire.PublishLayout` | src/mqtt/codec.rs:363-381 | first byte with its flags, topic, identifier unless the quality of service is zero, payload |
| `MqttWire.ListLayout` | src/mqtt/codec.rs:383-398 | SUBSCRIBE, UNSUBSCRIBE and SUBACK: first byte, identifier, then every entry in order |
| `MqttWire.WrittenAs` | src/mqtt/codec.rs:332-381 | a protocol level other than three is written as four, a quality of service above two as two, and a missing identifier as one |
| `MqttWire.FilterWrittenAs` | src/mqtt/codec.rs:385-388 | the same for the quality of service of a filter |
| `MqttWire.ShortReads` | src/mqtt/codec.rs:163-231 | literal payloads of the short packets are read to their packets, whatever flags mean nothing |
| `MqttWire.Refusals` | src/mqtt/codec.rs:154-233 | what is refused for its type, its flags or its length |
| `MqttWire.ConnectReads` | src/mqtt/codec.rs:235-271 | literal header, flags and fields are read to the packet, the will being passed over and whatever lies behind ignored |
| `MqttWire.ConnectHeaders` | src/mqtt/codec.rs:235-250 | nothing is accepted under another protocol name or level, or with the reserved flag |
| `MqttWire.TextRefused` | src/mqtt/codec.rs:235-271 | a client id that is not UTF-8 is refused |
| `MqttWire.WillOrNameRefused` | src/mqtt/codec.rs:235-271 | so is a will topic or a username |
| `MqttWire.FrameVerdict` | src/mqtt/codec.rs:108-129 | a packet of more than 1,048,576 bytes is refused when its length is known; any other is waited for until it is there, then read |
| `MqttWire.FiveDigits` | src/mqtt/codec.rs:407-423 | four digits that go on are waited on, a fifth is refused |
| `MqttWire.WireExamples` | src/mqtt/codec.rs:131-152 | a CONNECT is read from its bytes, and PUBLISH, SUBSCRIBE, SUBACK and UNSUBSCRIBE are written as theirs |
| `Utf8.ValidExactly` | src/mqtt/codec.rs:474-477 | text is let through if and only if it encodes Unicode scalar values one after the other (section 3 of RFC 3629) |
| `MqttCodec.ReadU8` | src/mqtt/codec.rs:447-453 | reads at the offset what the grammar takes off the front, and stops where it stops |
| `MqttCodec.ReadU16` | src/mqtt/codec.rs:455-462 | the same for a big-endian word |
| `MqttCodec.ReadBytes` | src/mqtt/codec.rs:464-472 | the same for a length-prefixed field |
| `MqttCodec.ReadString` | src/mqtt/codec.rs:474-477 | the same, refusing text that is not UTF-8 |
| `MqttCodec.DecodeConnect` | src/mqtt/codec.rs:235-271 | the offset-driven decoder accepts what the grammar accepts, with the same packet |
| `MqttCodec.DecodePublish` | src/mqtt/codec.rs:273-293 | the same for PUBLISH, with the illegal flag combinations refused |
| `MqttCodec.FiltersOneMore` | src/mqtt/codec.rs:301-309 | one turn of the loop: a filter that is not there or illegal ends the list as refused, any other is added and the rest is shorter |
| `MqttCodec.TopicsOneMore` | src/mqtt/codec.rs:322-325 | the same for topics |
| `MqttCodec.DecodeFilter` | src/mqtt/codec.rs:302-308 | reads at the offset the filter the grammar takes off the front |
| `MqttCodec.DecodeFilters` | src/mqtt/codec.rs:301-309 | the loop collects exactly the filters of the grammar, to the end of the payload |
| `MqttCodec.DecodeTopics` | src/mqtt/codec.rs:322-325 | the loop collects exactly the topics of the grammar |
| `MqttCodec.DecodeSubscribe` | src/mqtt/codec.rs:295-314 | accepts what the grammar accepts |
| `MqttCodec.DecodeUnsubscribe` | src/mqtt/codec.rs:316-330 | accepts what the grammar accepts |
| `MqttCodec.RequirePacketId` | src/mqtt/codec.rs:440-445 | an identifier if and only if the payload is its two bytes |
| `MqttCodec.DecodePayload` | src/mqtt/codec.rs:154-233 | the dispatch by packet type and flags agrees with the grammar for every type |
| `MqttCodec.DecodeRemainingLength` | src/mqtt/codec.rs:407-423 | the shift loop computes the base-128 number, asks for more bytes only when the number may go on, and refuses a fifth byte |
| `MqttCodec.EncodeRemainingLength` | src/mqtt/codec.rs:425-438 | appends the base-128 digits of the number |
| `MqttCodec.Wrap` | src/mqtt/codec.rs:400-405 | header byte, length of the payload, payload |
| `MqttCodec.FlagsOfConnect` | src/mqtt/codec.rs:341-350 | the flags added one by one are those of the grammar |
| `MqttCodec.EncodeConnect` | src/mqtt/codec.rs:332-361 | the fields appended one by one are the bytes of the grammar |
| `MqttCodec.EncodePublish` | src/mqtt/codec.rs:363-381 | the same for PUBLISH, with its flags and the identifier only above quality of service zero |
| `MqttCodec.SubscribeBody` | src/mqtt/codec.rs:384-388 | identifier and every filter in order |
| `MqttCodec.UnsubscribeBody` | src/mqtt/codec.rs:393-396 | identifier and every topic in order |
| `MqttCodec.EncodePacket` | src/mqtt/codec.rs:131-152 | the dispatch by packet writes the bytes of the grammar for every packet |
| `MqttCodec.Encode` | src/mqtt/codec.rs:131-152 | the bytes of a well-formed packet that fits parse back to it whatever follows |
| `MqttCodec.Inbound.DecodeOne` | src/mqtt/codec.rs:108-129 | takes one packet off the buffer; when it needs more bytes the buffer is untouched and holds at most the packet limit plus four |
| `MqttFraming.ParseStable` | src/mqtt/codec.rs:108-129 | a packet or an error found at the front of a buffer stays so when bytes are appended |
| `MqttFraming.Drain` | src/mqtt/session.rs:89-99 | decodes everything complete, and hands over what the whole stream would have yielded |
| `MqttFraming.TcpReadLoop` | src/mqtt/session.rs:86-108 | for every way to cut the stream into reads, the packets sent are those of the whole stream, up to the first malformed one or to where the session stops listening |
| `MqttFraming.WsReadLoop` | src/mqtt/session.rs:110-139 | the same over WebSocket frames, pings and pongs changing nothing |
| `MqttFraming.ReceivedWhole` | src/mqtt/session.rs:103-106 | what is received is every read up to the first of length zero, so two cuts of one stream are received as the same bytes |
| `MqttFraming.ReceivedWsWhole` | src/mqtt/session.rs:129-137 | over WebSocket it is the data up to the closing event, binary and text alike; a ping or pong neither ends it nor adds to it |
| `MqttFraming.StreamRoundTrip` | src/mqtt/session.rs:86-108 | what a peer encodes, one packet after another, is what comes out |
| `MqttFraming.PacketsWellFormed` | src/mqtt/session.rs:86-108 | only well-formed packets are handed on |
| `MqttSession.AllocPacketId` | src/mqtt/session.rs:599-607 | the result is the first identifier of the rotation not in use, never zero, and free exactly while fewer than 65,535 are in use (section 2.3.1 of MQTT 3.1.1) |
| `MqttSession.FreeExists` | src/mqtt/session.rs:599-607 | a free identifier exists exactly while fewer than 65,535 are taken |
| `MqttSession.AllocatedIsFree` | src/mqtt/session.rs:599-607 | from any counter, the rotation finds it |
| `MqttSession.RunConsistent` | src/mqtt/session.rs:394-400 | over every session run, each unacknowledged identifier stands for the latest delivery issued under it |
| `MqttSession.PubAckCompletesItsDelivery` | src/mqtt/session.rs:394-400 | after every run that did not fill the table, a PUBACK completes exactly the delivery it was issued for, once |
| `MqttSession.FullTableLosesADelivery` | src/mqtt/session.rs:599-607 | with the table full, the next delivery takes over an identifier, and the delivery it stood for is not completed by any further events |
| `MqttSession.LatestDeliveryIsLost` | src/mqtt/session.rs:557-575 | the full table is reached by 65,535 unanswered deliveries; the next takes the identifier used last, and the delivery under it is lost for good |
| `MqttSession.GrantedQos` | src/mqtt/session.rs:589-597 | 1 exactly if some matching filter was granted at least 1, else 0 |
| `MqttSession.SessionState.QueueOutgoing` | src/mqtt/session.rs:534-576 | at QoS 0 nothing is filed; else the delivery is filed under the allocated identifier, and consistency is kept exactly while the table is not full |
| `MqttSession.SessionState.HandlePubAck` | src/mqtt/session.rs:394-400 | removes and returns the delivery filed under the identifier, if any |
| `ElectionStore.ElectionStore.Campaign` | src/election.rs:59-96 | a live lease is left as it is; an open one becomes exactly the candidate's, for its lifetime, with the term raised by one; no other name changes; won if the row is live and the candidate's |
| `ElectionStore.ElectionStore.Renew` | src/election.rs:98-126 | exactly when leader, term, lease and time fit, the row and the answer are that lease expiring a lifetime from now; no other name changes |
| `ElectionStore.ElectionStore.Resign` | src/election.rs:128-152 | exactly when leader, term, lease and time fit, the row is that lease expiring now; no other name changes |
| `ElectionStore.StepSound` | src/election.rs:59-152 | every command keeps the row equal to the last term granted and the terms ordered in time |
| `ElectionStore.TermIdentityForever` | src/election.rs:59-96 | over every run, a name and a term have one leader and one lease forever |
| `ElectionStore.TermsNeverOverlap` | src/election.rs:59-126 | over every run with a clock that does not go back, terms of one name never overlap, and the term is the number of grants |
| `ElectionStore.OverIsRefused` | src/election.rs:98-152 | an expired, resigned or superseded term is never renewed or resigned again, whatever lease is claimed |
| `ElectionStore.TermRunsItsTime` | src/election.rs:59-126 | a term granted or renewed is open to no other candidate for its lifetime, throughout every run, if and only if its holder neither resigns it nor renews it for less |
| `ElectionStore.ShorterRenewalCuts` | src/election.rs:108-116 | a term of an hour renewed for a second is another candidate's after that second |
| `ElectionStore.ResignedIsOpen` | src/election.rs:128-152 | a resigned term is the next candidate's at once, as the next term |
| `ElectionProtocol.SafetyIsOneSecond` | python/cangling_broker/client.py:852-854 | the margin is a third of the lifetime, at most a second: one second for every lifetime a handle accepts |
| `ElectionProtocol.ElectionHandle.ReportsLeader` | python/cangling_broker/client.py:766-769 | leadership is reported only before the local deadline |
| `ElectionProtocol.ElectionHandle.Lead` | java/src/main/java/cn/mapway/broker/ElectionHandle.java:120-138 | the local deadline is the remaining lifetime less the margin, or the handle follows |
| `ElectionProtocol.ElectionHandle.Follow` | java/src/main/java/cn/mapway/broker/ElectionHandle.java:140-152 | leadership is dropped and the deadline cleared |
| `ElectionProtocol.DeadlineWithinLease` | python/cangling_broker/client.py:852-866 | an answer acted on within the margin sets no deadline beyond the lease |
| `ElectionProtocol.DoKeeps` | python/cangling_broker/client.py:776-832 | every step of broker, network and handles keeps each leading handle inside a term of its own |
| `ElectionProtocol.RenewalLeadsOn` | python/cangling_broker/client.py:781-803 | a renewal that gets through leaves the row a lifetime from the broker's clock, and the handle leading until that less one second |
| `ElectionProtocol.CampaignWins` | python/cangling_broker/client.py:804-821 | a campaign that finds the election open leaves the candidate leading in the next term |
| `ElectionProtocol.CampaignLoses` | python/cangling_broker/client.py:804-823 | one that finds another leading leaves the candidate following it and the row as it was |
| `ElectionProtocol.FailureChangesNothing` | python/cangling_broker/client.py:825-831 | a failed call neither ends a leadership nor prolongs it |
| `ElectionProtocol.StoppedIsNoLeader` | python/cangling_broker/client.py:832 | a stopped handle reports no leadership any more |
| `ElectionProtocol.AtMostOneLeader` | python/cangling_broker/client.py:766-832 | in every run with answers acted on within one second, two handles with different ids never both report leadership |
| `ElectionProtocol.LateAnswerMakesTwoLeaders` | python/cangling_broker/client.py:852-866 | for every larger delay there is a run in which both report it |
| `ElectionProtocol.MarginIsExact` | python/cangling_broker/client.py:766-866 | exclusion over all runs holds if and only if the delay is at most one second |
| `Sharding.HashToShard` | src/db.rs:1692-1699 | the hash loop computes 64-bit FNV-1a reduced to a shard |
| `Sharding.HashOfA` | src/db.rs:1692-1699 | the hash of the name `a` is the published FNV-1a value |
| `Sharding.ShardByLowBits` | src/db.rs:1692-1699 | only the low four bits of each byte of a name decide its shard |
| `Sharding.IdRoutesToTopicShard` | src/db.rs:1701-1712 | the id made for a topic leads back to the topic's shard |
| `MessageStore.RowsPersist` | src/db.rs:1174-1581 | no statement removes a row or changes what was published, and a delivered, failed or dropped row never changes |
| `MessageStore.StepSound` | src/db.rs:1174-1581 | every statement keeps the invariant of rows, leases, attempts, keys and ended claims |
| `MessageStore.LeaseDiscipline` | src/db.rs:42-49 | after every run a row is processing exactly while it holds a lease, attempts count claims, keys are unique, and no claim was closed twice |
| `MessageStore.TerminalForever` | src/db.rs:1482-1581 | delivered, failed and dropped are final over every further run |
| `MessageStore.EndedClaimRefused` | src/db.rs:1361-1399 | once a claim has ended its lease is refused by every later call, over every run |
| `MessageStore.AttemptsWhileHeld` | src/db.rs:1533-1560 | while a claim is held its attempt count stands still, whatever else runs |
| `MessageStore.ClaimLasts` | src/db.rs:1238-1252 | until its deadline a claim stays with its holder, whatever else runs, short of its own calls and a restart |
| `MessageStore.BackoffDoubles` | src/db.rs:1561-1562 | the wait after a failure doubles from one second to 256 and stays there, so the cap of 300 is never reached |
| `MessageStore.PublishedIsKept` | src/db.rs:956-968 | a published message is ready at once with no attempt made, and its key, topic, payload and time are carried unchanged by every run |
| `MessageStore.FailureWaits` | src/db.rs:1555-1563 | a failure short of the last makes the message ready again exactly after the wait its attempts say; the last one fails it |
| `MessageTable.MessageTable.Insert` | src/db.rs:953-972 | exactly when neither its id nor its key is there, the item is stored as it came, pending and due now; else nothing changes |
| `MessageTable.MessageTable.FinishClaim` | src/db.rs:1435-1473 | exactly if still pending, a found message is processing under the lease until the deadline, with one attempt more; nothing else changes |
| `MessageTable.MessageTable.RenewClaim` | src/db.rs:1377-1399 | the deadline moves exactly while the lease is held and not yet over |
| `MessageTable.MessageTable.Release` | src/db.rs:1361-1375 | a held message becomes pending and due now, without lease and with its attempts kept; otherwise refused without effect |
| `MessageTable.MessageTable.ReportFailure` | src/db.rs:1533-1581 | with any statements between its select and its update, the call is refused exactly when the lease is gone; else the row is failed or pending by the attempts it then has, without lease, due after the wait they say |
| `MessageTable.MessageTable.DropClaim` | src/db.rs:1189-1220 | with any statements in between, drops exactly a message still held, and changes nothing else |
| `MessageTable.MessageTable.DropWaiting` | src/db.rs:1174-1187 | exactly the pending messages of the topic become dropped, and their number is returned |
| `MessageTable.MessageTable.ReclaimStale` | src/db.rs:1238-1252 | exactly the rows processing past their deadline become pending, without lease and ready now, everything else of them kept; their number is returned |
| `MessageTable.MessageTable.Reopen` | src/db.rs:1769-1773 | exactly the processing rows become pending, without lease |
| `Batching.ShardsIndependent` | src/db.rs:941-994 | running a batch in order over the shards leaves each shard, and answers each of its entries, as if only its own entries had run |
| `QueueBatch.ServeOne` | src/db.rs:953-991 | one command: inserted, duplicate with the id of the row that has the key, or refused for its id alone; delivered exactly when the lease is held |
| `QueueBatch.ServeMeans` | src/db.rs:953-991 | the same in the fields of the rows: what is stored, what is answered, and what delivery changes |
| `QueueBatch.Transact` | src/db.rs:951-993 | one shard's group takes effect in order, or fails exactly if some insert is refused |
| `QueueBatch.Database.ShardIndexForId` | src/db.rs:728-742 | the shard an id names, else the first that holds it, else none |
| `QueueBatch.Database.Group` | src/db.rs:941-946 | each shard's group is its commands, in order, with their indices |
| `QueueBatch.NowhereIsRefused` | src/db.rs:1490-1494 | records for ids that no shard holds are refused whichever shard they are asked of, so leaving them out of every transaction changes nothing |
| `QueueBatch.Database.Turns` | src/db.rs:949-994 | the loop over the shards commits those before the first that fails, and holds one reply for each of their commands, that of the in-order run |
| `QueueBatch.Database.Batch` | src/db.rs:937-1010 | a successful batch leaves the rows and per-index replies of running its commands one by one; a failed one has committed exactly the shards before the failing one, which had something to do |
| `QueueBatch.OneShardAtomic` | src/db.rs:947-994 | a batch within one shard that fails changed nothing |
| `QueueBatch.PutAckCommute` | src/writer.rs:314-322 | a publish and a delivery record may change places without changing rows or replies |
| `QueueBatch.PutsFirst` | src/writer.rs:314-393 | issuing all publishes of a batch before all its delivery records changes neither rows nor replies |
| `ShardBatch.IdsComeHome` | src/writer.rs:212-214 | the id made for a publish names the shard of its topic, so its delivery record goes to the same writer |
| `ShardBatch.HomeRun` | src/db.rs:941-994 | a batch at home in one shard runs as if that shard were all there is |
| `ShardBatch.HomeFailure` | src/db.rs:947-994 | if it fails, it was that shard that failed, and nothing changed |
| `ShardBatch.Attempt` | src/writer.rs:349-369 | one attempt with any set of shards failing: all of the batch takes effect with the replies of running it in order, or none of it does |
| `ShardBatch.PartialBatchIsStuck` | src/db.rs:973-985 | once part of a batch over several shards is in, a publish without a key among it makes every retry fail |
| `Writer.NeverConflicts` | src/db.rs:973-985 | with new ids, a publish is accepted or a duplicate, never an error, so retrying ends |
| `Writer.Publish` | src/writer.rs:347-370 | whichever shards fail at each attempt and whatever others do in between, the publishes end up in, once each |
| `Writer.Acknowledge` | src/writer.rs:372-393 | every waiting caller gets the true answer of its record, or the error of an attempt that recorded nothing |
| `AckBatch.AcksAnswered` | src/db.rs:1482-1531 | in a batch of records for any ids, each is answered true if and only if its lease holds the message and it is the first of its kind in the batch |
| `AckBatch.RecordAll` | src/writer.rs:372-393 | every caller is told that; or a shard failed, all are told so, and exactly the records of the shards before it were kept |
| `Writer.RunBatch` | src/writer.rs:314-393 | the history of a batch holds each publish once and the acknowledgements answered without error, others' statements between them |
| `Writer.RunWriter` | src/writer.rs:285-399 | at the shutdown reply every command ahead of it was committed once, recognised as a duplicate or answered, in batches of at most the batch size, for every pattern of shard failures and every interleaving with others; the table is that of replaying the history, and wake-ups were sent exactly for the messages inserted |
| `Writer.ChannelOrder` | src/writer.rs:314-393 | undisturbed, what the writer did is what its commands do one by one in channel order |
| `RecentIds.RecentIdStore.InsertKey` | src/writer.rs:59-71 | the eviction loop ends, and keeps order and map in step within the capacity |
| `RecentIds.RecentIdStore.RemoveKey` | src/writer.rs:73-76 | forgets one key and keeps the order of the others |
| `RecentIds.RecentIdStore.Admit` | src/writer.rs:215-222 | a remembered key is answered with its id as a duplicate, a new one is remembered |
| `RecentIds.InsertSound` | src/writer.rs:59-71 | insertion keeps the order free of repetitions, with exactly the keys of the map |
| `RecentIds.RememberedExactly` | src/writer.rs:59-71 | under publishes of any keys, this one among them, a key stays in the window exactly while fewer than the capacity of keys are younger |
| `RecentIds.RememberedAtLeast` | src/writer.rs:59-76 | with removals of other keys as well it stays at least that long |
| `RecentIds.FirstIdWins` | src/writer.rs:215-222 | along any run, as long as the key stays in the window, every publish of it gets the first id, as a duplicate |
| `RecentIds.OneIsNew` | src/writer.rs:215-222 | and exactly one of them is told it is new |
| `Admission.StepKeeps` | src/writer.rs:204-243 | window, queue and table together: every step keeps the table equal to the first publish of each key among those written |
| `Admission.LoadStarts` | src/writer.rs:138-143 | a window filled from rows of the table knows only keys with the ids of their rows |
| `Admission.ToldNewIsStored` | src/db.rs:953-991 | after every run from any table, an id told as new is in the table if and only if its key was not there at the beginning and its publish was the first with it to be told so |
| `Admission.AnsweredIsStored` | src/writer.rs:215-219 | after every run, an id answered from the window is in the table if and only if it was there with that key or is the first of the key told as new, and its row has the key |
| `Admission.ForgottenKeyIsNotStored` | src/writer.rs:59-71 | for every window size there is a run in which the last id told as new is never stored, the key having come round after the window had forgotten it, and a further publish of the key is given that id |
| `Admission.AnsweredThenAborted` | src/writer.rs:232-239 | a publish is given the id of another that then fails, and the id is in no table |
| `WakeUp.QueueNotifications.Subscribe` | src/writer.rs:86-100 | opens the channel the filter listens on, at its current generation, and disturbs no other |
| `WakeUp.QueueNotifications.Notify` | src/writer.rs:102-119 | every open channel the topic may concern moves on by one, no other does |
| `WakeUp.StepKeeps` | src/delivery.rs:190-243 | every step of committer, notifier and subscriber keeps the wake-up invariant, also in the middle of the sixteen-shard scan |
| `WakeUp.NoLostWakeUp` | src/delivery.rs:215-243 | in every interleaving a subscriber blocked while a matching message is committed and never claimed has a notification still to come |
| `WakeUp.PendingBumpUnblocks` | src/writer.rs:102-119 | that notification is free to come, after the topic's own bump where that is due first, and unblocks the subscriber |
| `WakeUp.NothingFoundSleeps` | src/delivery.rs:231-245 | a subscriber that finds nothing, in its topic or in one round of all shards, goes to sleep and changes nothing else |
| `WakeUp.WokenClaims` | src/delivery.rs:236-245 | a subscriber woken has seen the generation, and claims what is there |
| `Claim.SortCorrect` | src/db.rs:1298 | claimed messages are ordered by creation, then id, and none is lost |
| `Claim.TextOrder` | src/db.rs:1298 | ids are compared as texts: a beginning comes first, else the first difference decides |
| `Claim.SelectionIsOldest` | src/db.rs:42-49 | sorting the ready messages by creation and taking the first ones selects the oldest, with none older left, whatever order the scan met them in |
| `Claim.ScanExists` | src/db.rs:42-49 | there is such a scan for every table and topic |
| `Claim.ClaimTopic` | src/db.rs:1266-1306 | claims the oldest ready messages of the topic, as many as are ready and asked for, between one and 128; they are handed over oldest first with the data of their rows and the attempt counted, their rows are processing under the lease until the deadline, and no other row changes |
| `Claim.HowMany` | src/db.rs:1281 | how many that are |
| `Claim.Broker.ClaimBatchForTopic` | src/db.rs:1266-1306 | the same on the topic's shard, no other shard changing |
| `Claim.Broker.TryShard` | src/db.rs:1340-1356 | the loop over a shard's listing serves the first matching topic of the rotation |
| `Claim.Broker.ClaimRound` | src/db.rs:1329-1358 | the round over the shards serves what the rotation says, moves the counter by one, and returns nothing only if no ready message matches |
| `Claim.Broker.ClaimBatchForFilter` | src/db.rs:1320-1359 | returns nothing only if no ready message matches; otherwise the oldest ready messages of one matching topic, at most the limit |
| `Claim.NothingFound` | src/db.rs:1332-1358 | a full round without a match means no matching message was ready |
| `Claim.SelectsIsMatches` | src/db.rs:1326-1328 | the exact path and the wildcard path select by the same relation |
| `Claim.EveryTopicGetsItsTurn` | src/db.rs:1329-1356 | while a shard keeps the same n ready topics, any 16 n consecutive wildcard claims serve each one the filter matches |
| `Claim.FairExactly` | src/db.rs:1329-1356 | counting only the n matching topics of a shard, any 16 n consecutive claims serve each of them, whatever the other shards hold, if and only if all ready topics of the shard match or at most one does |
| `Claim.TooFewTurns` | src/db.rs:1345-1350 | with a stranger among two or more matching topics, some n sweeps leave one out |
| `Claim.StrangerStarvesAMatch` | src/db.rs:1345-1350 | three topics of shard 12, in the order of the index, two of which `+` matches: 32 claims in a row all serve the same one |
| `SubscribeLoop.PairingLosesNone` | src/delivery.rs:214-230 | a claim returns no more messages than permits reserved, so pairing them drops none |
| `SubscribeLoop.StepConserves` | src/delivery.rs:194-413 | every step conserves permits and keeps each claimed message in exactly one place |
| `SubscribeLoop.PrefetchIsABound` | src/delivery.rs:191-213 | in every run, buffered plus in flight never exceeds the prefetch limit |
| `SubscribeLoop.EveryClaimIsAccountedFor` | src/delivery.rs:246-413 | when the loop has ended, every claimed message was delivered, failed, dropped or released, or left to its lease for a shutdown or a failed call, and every permit is back |
| `SubscribeLoop.FateIsFinal` | src/delivery.rs:317-413 | no claim gets a second call |
| `SubscribeLoop.ErrorMeansFailedCall` | src/delivery.rs:317-403 | a claim is left to its lease for a database error only after the one call made for it had failed |
| `SubscribeLoop.SettledClaimIsOver` | src/delivery.rs:246-413 | with the table and everything else that runs on it: a claimed message that was delivered, failed, dropped or released is no longer held under its lease, and its lease changes nothing any more |
| `SubscribeLoop.SettledByItsStatement` | src/delivery.rs:246-413 | over every history, a claim delivered, dropped, failed or released was settled by exactly that statement under its id and lease; if it was still held then, a delivered or dropped message shows so ever after |
| `SubscribeLoop.StatementSettles` | src/delivery.rs:246-413 | whatever the loop issues besides claiming settles a claim that had no fate yet |
| `SubscribeLoop.BrokenOffForGood` | src/delivery.rs:194-198 | a loop that broke off claims nothing more |
| `SubscribeLoop.Subscription.Reserve` | src/delivery.rs:200-213 | takes permits up to the batch size, fewer only when none is left |
| `SubscribeLoop.Subscription.Refill` | src/delivery.rs:199-230 | the buffer is what was claimed, unused permits are back |
| `SubscribeLoop.Subscription.TakeTurn` | src/delivery.rs:246-358 | one turn: released if half the lease is over, else in a task if sent and to be acknowledged, delivered if sent on an ephemeral topic, dropped or failed if no stream took it, left to its lease if the call failed; the permit goes with it, and the loop ends only if no stream took it and its own is closed |
| `SubscribeLoop.Subscription.FinishTask` | src/delivery.rs:387-403 | delivered if and only if all acknowledged, failed if and only if not, neither on shutdown or if the call failed; the permit is back |
| `SubscribeLoop.Subscription.ReturnBuffered` | src/delivery.rs:405-413 | on the way out each buffered message is released once, or left to its lease if the call failed, and its permit is back |
| `Subscribers.RemoveUndoesAdd` | src/subscribers.rs:211-214 | a subscription that ends leaves the subscriptions as they were |
| `Subscribers.RemovedExactly` | src/subscribers.rs:66-74 | removal takes exactly one subscription away and keeps no empty filter |
| `Subscribers.TopicSubscribers.Add` | src/subscribers.rs:34-64 | adds exactly one subscription |
| `Subscribers.TopicSubscribers.Remove` | src/subscribers.rs:66-74 | removes exactly one subscription |
| `Subscribers.TopicSubscribers.Covers` | src/subscribers.rs:86-94 | true exactly if some session has a filter that matches |
| `Subscribers.TopicSubscribers.MatchingSenders` | src/subscribers.rs:130-142 | every session with a matching filter once and no other, on one of its own streams |
| `BroadcastAck.InflightAcks.Register` | src/subscribers.rs:159-166 | the lease waits for the message |
| `BroadcastAck.InflightAcks.Complete` | src/subscribers.rs:168-177 | an answer counts once, only with the right message and lease |
| `BroadcastAck.InflightAcks.Cancel` | src/subscribers.rs:179-181 | the lease waits no more |
| `BroadcastAck.InflightAcks.SendAll` | src/delivery.rs:286-313 | exactly the leases of accepted sends stay registered |
| `BroadcastAck.InflightAcks.CancelAll` | src/delivery.rs:388-390 | none of the leases stays registered |
| `BroadcastAck.AwaitAcks` | src/delivery.rs:358-402 | delivered is called if and only if every wait succeeded and no shutdown began, and nothing is called if and only if one did |
| `BroadcastAck.StepKeeps` | src/delivery.rs:286-403 | every step of any number of tasks and answers keeps leases with their owners and successes with true answers |
| `BroadcastAck.DeliveredMeansAcked` | src/delivery.rs:358-397 | in every run, on a persistent topic, a delivered call means every stream the message was sent on acknowledged it under its own lease |
| `BroadcastAck.RecordedMeansAcked` | src/db.rs:1503-1517 | over every history of tasks, writer queue and table, the call taking effect at any later time or never: a claim that a task turned to delivered was that task's own and still held, was acknowledged on every stream, and shows delivered ever since |
| `BroadcastAck.NoLeaseLeftBehind` | src/delivery.rs:317-320 | a task that has ended, on any path, has no lease registered |
| `BroadcastAck.AnswerIsFinal` | src/subscribers.rs:168-177 | no later answer replaces an earlier one |
| `BroadcastVerdict.CallIsRight` | src/delivery.rs:317-402 | in every run the call a task made is right for what its sends and waits came to: dropped or failed if no stream took the message, delivered at once on an ephemeral topic, else delivered if all waits succeeded, failed if not, none on shutdown |
| `BroadcastVerdict.ComesToItsCall` | src/delivery.rs:358-402 | left alone, a task that has sent its message waits for every stream and comes to that call |
| `BroadcastVerdict.ShutdownMeansNoCall` | src/delivery.rs:391-393 | after a shutdown began no task calls delivered or failed |
| `BroadcastVerdict.AnswerCounts` | src/subscribers.rs:168-177 | in every run, an answer to a lease a task still waits for is recorded unless it was answered before, and any other answer changes nothing |
| `BroadcastVerdict.SentExactly` | src/delivery.rs:300-312 | the leases a task waits for are exactly those of the streams that took the message |
| `Counters.TopicStats.Record` | src/db.rs:568-575 | adds the delta to the topic's entry in the buffer |
| `Counters.TopicStats.AddAll` | src/db.rs:690-712 | adds every pending entry once, in whatever order |
| `Counters.TopicStats.Flush` | src/db.rs:679-726 | a flush moves all of the buffer to the table or, failing, puts all of it back |
| `Counters.EventIsReply` | src/db.rs:973-993 | what is counted is what was answered: a publish told its id is new, one told another id, a record that counts |
| `Counters.RunGroup` | src/db.rs:951-993 | a shard's transaction adds to the notes exactly what happened to its rows, per topic |
| `Counters.RunShards` | src/db.rs:949-994 | over all sixteen shards: the notes of a batch that commits count exactly what it did, and the rows are those of running it one by one |
| `Counters.StepConserves` | src/db.rs:568-726 | every step conserves, per topic and counter, table plus buffer plus batches plus flushes under way |
| `Counters.NothingLost` | src/db.rs:679-726 | in every interleaving that sum is what was recorded |
| `Counters.GroupGrew` | src/db.rs:985-1005 | the events of a shard's part of a batch are the growth of the topic's rows and of its delivered rows |
| `Counters.PartialGrew` | src/db.rs:947-994 | what was committed of a batch before a shard failed is what the rows of all shards grew by |
| `Counters.EventsMatchRows` | src/db.rs:1514-1529 | in every run, insertions counted are the rows there are, deliveries counted the rows delivered |
| `Counters.AtRestCounters` | src/db.rs:679-726 | at rest the table equals rows inserted, duplicate publishes and rows delivered, plus what is counted directly, less what failed batches had committed |
| `Counters.AtRestExact` | src/db.rs:985-1005 | if every batch that fails lies within one shard, the counters at rest are exact |
| `Counters.HomeIsOneShard` | src/writer.rs:212-236 | what a writer issues lies within one shard |
| `Counters.LosesNothingExactly` | src/db.rs:947-1005 | for publishes with new ids, no failure can lose a count if and only if the batch lies within one shard |
| `Counters.FailOnSecond` | src/db.rs:947-994 | a batch of two publishes on shards 5 and 12, the latter failing: the database commits the first and reports the error |
| `Counters.FailedBatchIsNotCounted` | src/db.rs:947-1005 | after that run the first publish has a row and is in no counter |

## Left out

- SQLite itself, query plans, indices and the RFC 3339 form of times: times are integers, statements are atomic.
- gRPC, HTTP, WebSocket and TCP handlers, the dashboard, authentication, password policy, configuration, logging and metrics: plumbing.
- src/cache.rs, retention and purge loops, clearing of topics, consumer records, HTTP fallback delivery and the message trend: easier than the rest, or I/O. Without them rows are never deleted, which the counter and lifetime theorems use.
- Session metadata of `TopicSubscribers` and its listings for the dashboard.
- Message attributes, last error texts and delivery times of rows, and the reason texts of codec errors: carried along by the code, read by nothing modelled here.
- MqttCodec.DecodePayload: the error is malformed or too large, without the reason text.
- ElectionProtocol.AtMostOneLeader: covers the campaign and renew loop; `close()`, which resigns before the local state changes, and the callbacks are not steps, and a candidate id belongs to one handle with one lifetime.
- ElectionStore.TermsNeverOverlap: needs broker clock readings that do not go back, which the operating system does not promise.
- Writer.RunWriter: ids of publishes are taken to be new, as random ids are; a transaction whose commit reports an error is taken not to have happened; records for ids without a shard prefix, which the writer of shard 0 gets and which may lie elsewhere, are not on its channel (`AckBatch.RecordAll` states how they are answered); the waits between retries are not modelled.
- Admission.ToldNewIsStored: each shard has its own window and table, and ids are taken to be new.
- Admission.LoadStarts: which rows are read at start, and in what order, is left open.
- RecentIds.RecentIdStore.constructor: capacity at least one, where the broker always passes 64 or more (src/writer.rs:134); with zero the eviction loop of the code would not end.
- WakeUp.NoLostWakeUp: about committed messages never claimed yet; messages that become ready again by time, release or failure are found by the 30-second poll or their own notification, and generations do not wrap.
- Claim.Broker.ClaimBatchForFilter: no other claim runs between its statements; with others in between it may also return nothing because they were served.
- Claim.EveryTopicGetsItsTurn: the counter is not shared and does not wrap within the stretch.
- SubscribeLoop.Subscription.TakeTurn: what the sends and calls come to is given; the sends themselves are in `BroadcastAck`, the calls in `SettledClaimIsOver`.
- BroadcastAck.DeliveredMeansAcked: lease ids are taken to be new when drawn.
- Counters.NothingLost: a crash loses the buffer, as in the code; crashes are not steps of that machine.
