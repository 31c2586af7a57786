# n2kafka: a verified model

n2kafka takes byte streams from HTTP and sockets, cuts them into messages and hands them to librdkafka
from many threads. This project models its most intricate parts in Dafny and proves what they are for.

- **JSON splitter** (`JsonStream`, `JsonSplitter`, `JsonSession`, `JsonAttempts`,
  `JsonBuffers`, `HttpPost`). A POST body arrives in
  arbitrary chunks; every maximal `{...}` object becomes one message. `JsonStream` says what the messages
  of a byte stream are, without chunks; `JsonSplitter` is the code's state machine; `JsonSession` is the
  session object and its loops; `JsonBuffers` interleaves it with the batches of `Batch`. Main results:
  `ChunkInvariance`, `CarriedIsTheOpenObject`, `EveryBufferReleasedOnce`, `PostDependsOnBody`.
- **XML to JSON** (`YajlGen`, `XmlDoc`, `XmlTransducer`, `XmlCorrect`, `XmlTheorem`, `XmlStream`,
  `XmlMeaning`, `BitStack`, `XmlSession`, `MessageArray`). SAX callbacks with delayed closing and two bits
  per open element, against a plain recursive serializer, whose text a reader of JSON (`JsonReader`,
  `JsonValue`) reads back. Main results: `DocumentTheorem`, `MessageReadsBack`, `DocumentsTheorem`,
  `DepthLaw`, `PayloadsAreDocuments`.
- **Batch ownership** (`Batch`) and **topic cache** (`TopicDb`): interleavings of atomic steps, proved
  for every schedule.
- **Growable string and escaping** (`GrowString`, `JsonEscape`).
- **Accept-to-worker handoff** (`Handoff`) and **listener reload** (`Reload`).

yajl, expat and librdkafka are abstract machines. yajl's parser is any function from stream prefixes to
events that opens maps on `{`, closes on `}` and closes only open maps. expat delivers the callbacks of a
document, with text in arbitrary pieces, and none after it was stopped. librdkafka sets `err` on a
message it refuses and reports it never, and reports a message it accepts exactly once; which messages
it takes and how its reports interleave with a produce call is an arbitrary `Batch.Kafka`. A `char` stands
for one byte. Memory that may be missing, clocks and answers of librdkafka are parameters or
nondeterministic choices.

Code that updates objects is modelled by classes whose methods are proved against functions on values
(`JsonSession.Session` against `JsonSplitter`, `XmlSession.Session` against `XmlTransducer`, and so on);
the theorems are about those functions. Code shared between threads is modelled as atomic steps on one
state, because its properties are about schedules.

Where the code and its documentation differ, the model follows the code:

- `src/util/kafka_message_array.h:167` promises the number of messages queued; the code answers the batch
  size (`Batch.ReturnsBatchSize`, `Batch.RefusedBatchReturnsOne`).
- `src/decoder/zz_http2k/README.md:85-96` promises a `tail` after any child; with a second text run in an
  element the text goes elsewhere (`XmlTheorem.DocumentTheorem`, `XmlTheorem.MixedContentIsWrong`).
- `src/util/string.h:66` says that the escaper appends the quotes; it does not (`JsonEscape.NoQuotesAdded`).
- A second reload is expected to change nothing, but it makes a new listener for an entry that says port 0,
  or a port whose low 16 bits are 0 or not configured (`Reload.ReloadAgain`, `Reload.PortZeroIsRecreated`).
- A batch without payload buffer whose every message is refused has its block freed twice
  (`Batch.FreedExactlyOnce`); no caller in the repository makes one.

## Model

| member | source | states |
|---|---|---|
| JsonStream.MessagesAreTheMaximalObjects | src/decoder/zz_http2k/zz_http2k_parser_json.c:50-151 | The specified messages of a stream are exactly its maximal `{...}` slices: a slice is listed if and only if depth is 0 at both ends and above 0 between; they are in order, disjoint, and message k is the text of slice k, from `{` to `}` |
| JsonStream.StopsAtRefusedByte | src/decoder/zz_http2k/zz_http2k_parser_json.c:185-202 | After an accepted prefix, the accepted part of the stream ends right before the first refused byte, whatever follows |
| JsonStream.BraceEventsMeetContract | src/decoder/zz_http2k/zz_http2k_parser_json.c:50-61 | The contract asked of yajl can be met: a lexer that ignores braces inside strings (sections 4 and 7 of RFC 8259) meets it |
| JsonSplitter.CloseCarried | src/decoder/zz_http2k/zz_http2k_parser_json.c:100-151 | When the carried-over object closes, the batch of the chunk is still empty, so sending it from the callback keeps stream order; it is the stream from its open brace to this byte |
| JsonSplitter.CloseWhole | src/decoder/zz_http2k/zz_http2k_parser_json.c:63-94 | An object that began in this chunk is queued as the slice from its brace to this byte, and that slice is the next message of the stream |
| JsonSplitter.ParseKeepsInChunk | src/decoder/zz_http2k/zz_http2k_parser_json.c:184-202 | yajl_parse takes the whole chunk or stops at the first byte that no valid stream continues with; up to there the produced and queued messages are the messages of the bytes accepted |
| JsonSplitter.DecodeKeepsAgrees | src/decoder/zz_http2k/zz_http2k_parser_json.c:161-253 | One decode call takes a session that agrees with the stream so far to one that agrees with the stream plus the chunk: accepted bytes, depth, produce attempts, carried-over prefix |
| JsonSplitter.DecodeKeepsLedger | src/decoder/zz_http2k/zz_http2k_parser_json.c:161-253 | One decode call keeps the account of buffers: each allocated one left the session exactly once, freed, lent with a single message or given to a batch, except the one that is carried over |
| JsonSplitter.FeedAgrees | src/decoder/zz_http2k/zz_http2k_parser_json.c:161-253 | After any run of chunks, produce attempts and carry-over are functions of the concatenated bytes, and the account of buffers is in order |
| JsonSplitter.ChunkInvariance | src/decoder/zz_http2k/zz_http2k_parser_json.c:50-253 | Any two cuttings of the same bytes give the same messages in the same order, refuse alike, and carry the same prefix, whatever librdkafka does in either run; the messages are those of the accepted bytes |
| JsonSplitter.CarriedIsTheOpenObject | src/decoder/zz_http2k/zz_http2k_parser_json.c:204-230 | Between chunks `last_object` is nonempty if and only if `stack_pos > 0`, and then it is the stream from the open brace on |
| JsonSplitter.DecodeHandsOver | src/decoder/zz_http2k/zz_http2k_parser_json.c:239-245 | A decode call starts at most one batch, in the buffer of its chunk copy, and takes no lent buffer back |
| JsonAttempts.DecodeKeepsFates | src/decoder/zz_http2k/zz_http2k_parser_json.c:113-131 | Over a log of single produce calls with their answers: librdkafka has the buffer exactly if it took the message, and otherwise the session freed it; nothing else is ever lent |
| JsonAttempts.DecodeProduces | src/decoder/zz_http2k/zz_http2k_decoder.c:89-110 | A decode call produces the messages that left alone, in order, then those of its batch, and no others |
| JsonBuffers.EveryInterleaving | src/decoder/zz_http2k/zz_http2k_parser_json.c:239-245 | At every point of every interleaving of decode calls with delivery reports, a chunk copy or carried-over buffer has been freed exactly once if its last user is done with it, by the session, by librdkafka or by the last message of its batch, on success, parse error or produce failure, and never otherwise; each batch has one message for each text in its buffer, and is not touched after it was freed |
| JsonBuffers.EveryBufferReleasedOnce | src/decoder/zz_http2k/zz_http2k_parser_json.c:100-134 | When the session has ended and every message was reported, every buffer allocated was freed exactly once, and nothing else was |
| JsonBuffers.SingleMessages | src/decoder/zz_http2k/zz_http2k_parser_json.c:125-131 | In every interleaving, for every message produced alone: if librdkafka took it, the buffer is lent, the session never frees it and only the report does; if it refused, the session freed it once and nobody else does |
| JsonBuffers.EveryRunProduces | src/decoder/zz_http2k/zz_http2k_decoder.c:89-110 | In every interleaving the produce attempts are the messages of the bytes given so far, in stream order |
| JsonBuffers.StepKeepsInv | src/util/kafka_message_array.h:206-212 | A decode call, the end of the session and either kind of delivery report keep the invariant that ties the session's account to the batches in flight |
| JsonSession.Session.StartMap | src/decoder/zz_http2k/zz_http2k_parser_json.c:50-61 | The callback counts the map, and notes where an outermost one begins in the chunk |
| JsonSession.Session.EndMapSplit | src/decoder/zz_http2k/zz_http2k_parser_json.c:100-134 | The carried-over text plus the chunk up to here is attempted; by the answer, its buffer is lent to librdkafka or freed |
| JsonSession.Session.EndMap | src/decoder/zz_http2k/zz_http2k_parser_json.c:136-151 | The callback does to the session what JsonSplitter.OnClose says |
| JsonSession.Session.YajlParse | src/decoder/zz_http2k/zz_http2k_parser_json.c:184-187 | The loop over the bytes of the chunk is JsonSplitter.Parse, and it answers whether the stream is still valid |
| JsonSession.Session.SaveOpenObject | src/decoder/zz_http2k/zz_http2k_parser_json.c:204-230 | The object left open by the chunk is appended to the carry-over, from its brace or whole |
| JsonSession.Session.ParseAndSave | src/decoder/zz_http2k/zz_http2k_parser_json.c:161-237 | Up to its `err` label: chunk copied, parsed and the open object saved, with the error code of a refused byte |
| JsonSession.Session.ProduceBatch | src/decoder/zz_http2k/zz_http2k_decoder.c:96-110 | The queued slices are produced in order, the chunk copy becomes the batch's buffer, and the answer of the produce call is the number of slices, by the run of the batch |
| JsonSession.Session.Dispatch | src/decoder/zz_http2k/zz_http2k_parser_json.c:239-252 | A chunk copy that holds no message is freed, any other goes to a batch; the session forgets the chunk |
| JsonSession.Session.DecodeChunk | src/decoder/zz_http2k/zz_http2k_decoder.c:89-125 | One call from parse to produce is JsonSplitter.Decode; objects completed before an error are still produced |
| JsonSession.Session.Decode | src/decoder/zz_http2k/zz_http2k_decoder.c:70-125 | All cases of a call: wrong method, empty buffer, no memory for the copy, and the rest; the queue-full branch is never taken, because the produce call answers the batch size |
| JsonSession.Session.Free | src/decoder/zz_http2k/zz_http2k_parser_json.c:255-258 | A carried-over buffer is released at the end of the session |
| DecoderApi.HttpStatus | src/listener/http/http.c:593-620 | Only success gives 200; the sender's errors give 4xx and the server's 5xx; 404, 405, 413, 500 and 503 stand for exactly their errors, and any other error gives 400 |
| HttpPost.PostStopsAtFirstError | src/listener/http/http.c:631-728 | Over every POST the decoder sees exactly the uploads up to and including the first failing one, the queued code is the one of that error, and the session agrees with the bytes that reached the parser |
| HttpPost.PostDependsOnBody | src/listener/http/http.c:593-728 | For every POST: 400 if the parser refuses the bytes that could be copied, otherwise 500 if a chunk could not be copied and 200 if all could; produced is every object completed before the first refused byte; neither depends on the cutting nor on librdkafka |
| HttpPost.Connection.HandleChunk | src/listener/http/http.c:631-682 | After a queued error nothing reaches the decoder; otherwise the chunk does and its error is queued |
| HttpPost.Connection.HandleEnd | src/listener/http/http.c:690-728 | The answer is the queued error, or 200 |
| HttpPost.Connection.HandlePost | src/listener/http/http.c:631-728 | A whole request does what HttpPost.Post says, to which the two theorems above apply |
| YajlGen.EncAppend | src/decoder/zz_http2k/zz_http2k_parser_xml.c:788-810 | String escaping works byte by byte, so it commutes with concatenation |
| YajlGen.EncReads | src/decoder/zz_http2k/zz_http2k_parser_xml.c:788-810 | For every text, a strict reader of JSON strings takes all that is printed for it, so there is no bare quote, lone backslash or control character, and reads the text back |
| YajlGen.EncPlain | src/decoder/zz_http2k/zz_http2k_parser_xml.c:788-810 | Text that needs no escape is printed as it is |
| YajlGen.EscapesAre | src/decoder/zz_http2k/zz_http2k_parser_xml.c:788-810 | The escapes themselves: short ones where JSON has them, otherwise four upper-case hex digits |
| YajlGen.EmitDepth | src/decoder/zz_http2k/zz_http2k_parser_xml.c:455-462 | As long as no generator call fails, the generator's depth follows the brackets emitted and stays within 128 |
| YajlGen.KeyIsString | src/decoder/zz_http2k/zz_http2k_parser_xml.c:73-96 | The fixed keys print as the strings they are, so printing them unescaped is what yajl_gen_string does |
| XmlCorrect.EmitHead | src/decoder/zz_http2k/zz_http2k_parser_xml.c:558-604 | Brace, tag and attributes print as the object head of the serializer, or fail exactly when the generator is too deep for them |
| XmlCorrect.StartChild | src/decoder/zz_http2k/zz_http2k_parser_xml.c:512-604 | A start tag inside an open element closes the previous child or opens the children array, then prints the head; it fails exactly when that is too deep |
| XmlCorrect.EndChild | src/decoder/zz_http2k/zz_http2k_parser_xml.c:626-651 | The end tag of a child closes its own children but leaves its map open |
| XmlCorrect.EndRoot | src/decoder/zz_http2k/zz_http2k_parser_xml.c:653-677 | The end tag of the root closes every bracket, queues one message from the noted offset to the end of the text, and resets the generator |
| XmlCorrect.FirstPiece | src/decoder/zz_http2k/zz_http2k_parser_xml.c:740-769 | The first piece of text prints `text` or `tail` by whether children were printed, and sets the text bit |
| XmlCorrect.LaterPieces | src/decoder/zz_http2k/zz_http2k_parser_xml.c:771-810 | Later pieces extend the string at the end of the buffer by their escaped text |
| XmlCorrect.SplitRun | src/decoder/zz_http2k/zz_http2k_parser_xml.c:737-810 | A run of character data split over any number of callbacks prints the same bytes as in one callback |
| XmlCorrect.UnclosedAsPrinted | src/decoder/zz_http2k/README.md:38-96 | Delayed closing, brace by brace as printed, gives the recursive serializer's text of an element |
| XmlTheorem.RootPrints | src/decoder/zz_http2k/zz_http2k_parser_xml.c:498-816 | A document that fits leaves the generator reset, adds one message at the end of the buffer, and prints the serializer's JSON, ten bytes shorter for each extra text run |
| XmlTheorem.RootTooDeep | src/decoder/zz_http2k/zz_http2k_parser_xml.c:498-691 | A document that nests too deep queues an error and adds no message |
| XmlTheorem.DocumentTheorem | src/decoder/zz_http2k/zz_http2k_parser_xml.c:498-816 | Every document: error if and only if it nests too deep for the generator; otherwise one message, equal to the recursive serializer's JSON if and only if no element directly holds a second run of text |
| XmlMeaning.JsonReads | src/decoder/zz_http2k/README.md:38-96 | The serializer's text of every document is JSON, all of it, and a reader that knows nothing about XML reads it as the value that the transformation rules give: tag, attributes, text, children, and the tail of each child |
| XmlMeaning.MessageReadsBack | src/decoder/zz_http2k/zz_http2k_parser_xml.c:498-816 | The message of a document that fits and has no extra text run reads back as the value of the document |
| XmlMeaning.EachMessageReadsBack | src/decoder/zz_http2k/zz_http2k_parser_xml.c:660-677 | So does each message of several documents in one call |
| XmlMeaning.NestingLimit | src/decoder/zz_http2k/zz_http2k_parser_xml.c:512-565 | 64 nested elements without attributes are accepted; 65 and more are refused |
| JsonValue.PrintReads | src/decoder/zz_http2k/zz_http2k_parser_xml.c:558-604 | The compact text of every value of strings, objects and arrays reads back as that value, whatever follows it |
| XmlTheorem.MixedContentIsWrong | src/decoder/zz_http2k/zz_http2k_parser_xml.c:740-770 | A concrete document with two text runs in one element whose message is not its JSON |
| XmlTheorem.ElemEventsRun | src/decoder/zz_http2k/zz_http2k_parser_xml.c:498-816 | Running the callbacks over a document's events is the recursion over the document that the proofs use |
| XmlTheorem.ElemAfterError | src/decoder/zz_http2k/zz_http2k_parser_xml.c:505-508 | After a queued error a document changes nothing |
| XmlStream.DocumentsTheorem | src/decoder/zz_http2k/zz_http2k_parser_xml.c:498-691 | For any documents in one call, message i begins where message i-1 ends, and is the JSON of document i if and only if that has no extra text run; from the first too deep document on there are none |
| XmlStream.StepKeepsDepth | src/decoder/zz_http2k/zz_http2k_parser_xml.c:512-556 | Every callback keeps the law that without error the generator's depth is 2*stack_pos-1, plus 2 if the current frame has its children bit |
| XmlStream.DepthLaw | src/decoder/zz_http2k/zz_http2k_parser_xml.h:57-60 | In every run of callbacks, in any order, that law holds and every bit index is below 256 |
| MessageArray.PayloadsAreDocuments | src/decoder/zz_http2k/zz_http2k_parser_xml.c:660-677 | With the base address added, payload i is the JSON of document i if and only if that has no extra text run; payloads lie one behind the other from the base on and fill the buffer |
| MessageArray.Array.Add | src/util/kafka_message_array.c:64-87 | A message is appended and counted; the first one brings a header without payload buffer |
| MessageArray.Array.SetPayloadBuffer | src/util/kafka_message_array.c:46-62 | The loop adds the base address to every payload and changes no length, or nothing at all without `sum_offset` |
| BitStack.BitSet | src/decoder/zz_http2k/zz_http2k_parser_xml.c:117-119 | One bit is set and every other bit of the vector keeps its value |
| BitStack.BitClear | src/decoder/zz_http2k/zz_http2k_parser_xml.c:127-130 | One bit is cleared and every other bit of the vector keeps its value |
| BitStack.MaskShift | src/decoder/zz_http2k/zz_http2k_parser_xml.c:106-130 | The mask of a bit position is one shifted left by it |
| BitStack.BitsOfPosition | src/decoder/zz_http2k/zz_http2k_parser_xml.c:218-268 | The bits of a position are 2*pos and the next one, positions share none, and position 127 is the last that fits |
| BitStack.SetTopBit | src/decoder/zz_http2k/zz_http2k_parser_xml.c:228-231 | Setting a bit of the top position changes that half of the top pair only |
| BitStack.PushFrame | src/decoder/zz_http2k/zz_http2k_parser_xml.c:549-556 | Clearing both bits of the next position pushes a pair of false, whatever stale bits were there |
| BitStack.PopFrame | src/decoder/zz_http2k/zz_http2k_parser_xml.c:648-651 | Decrementing the position pops the top pair |
| XmlSession.Session.MakeRoom | src/decoder/zz_http2k/zz_http2k_parser_xml.c:512-547 | Over the packed vector: room for a value is made in the parent, as on the stack of pairs |
| XmlSession.Session.GenerateAttributes | src/decoder/zz_http2k/zz_http2k_parser_xml.c:570-604 | The attribute loop emits the tokens of the attribute object, and stops at the first failure |
| XmlSession.Session.StartElement | src/decoder/zz_http2k/zz_http2k_parser_xml.c:498-612 | The start callback over the packed vector is the one over the stack of pairs, touches no bit past 256 and keeps the depth law |
| XmlSession.Session.EndElement | src/decoder/zz_http2k/zz_http2k_parser_xml.c:614-691 | The end callback over the packed vector is the one over the stack of pairs |
| XmlSession.Session.CharacterData | src/decoder/zz_http2k/zz_http2k_parser_xml.c:720-816 | The text callback over the packed vector is the one over the stack of pairs |
| XmlSession.Session.Drive | src/decoder/zz_http2k/zz_http2k_parser_xml.c:498-816 | Any sequence of callbacks over the packed vector does what the run over pairs does, to which the theorems above apply |
| Batch.EveryInterleaving | src/util/kafka_message_array.c:103-162 | In every interleaving of delivery callbacks with the producer, `count` is the number of messages that still hold the block, no step touches the block after it was freed, and block and payload are freed together, exactly if nobody holds them |
| Batch.BlockIsAlive | src/util/kafka_message_array.c:136-161 | No step of the producer or of a delivery callback reads or writes a block that was freed |
| Batch.FreedExactlyOnce | src/util/kafka_message_array.h:206-212 | A complete run frees the payload once and the block at least once; the block exactly once if and only if a payload buffer was set or some message was accepted |
| Batch.RefusedWithoutPayload | src/util/kafka_message_array.c:103-162 | The exception: without payload buffer, a batch whose every message is refused has its block freed twice |
| Batch.ReturnsBatchSize | src/util/kafka_message_array.c:119-166 | The return value is always the batch size; it is the number of messages queued if and only if none was refused |
| Batch.RefusedBatchReturnsOne | src/util/kafka_message_array.c:119-166 | A concrete run with payload whose one message is refused: the answer is 1 with nothing queued |
| Batch.LaunchedIsInv | src/util/kafka_message_array.c:103-166 | Whatever librdkafka decides within its contract, a produce call returns the batch size and leaves a batch that satisfies the invariant, with its reports still to come |
| Batch.ObligingKafkaMeetsContract | src/util/kafka_message_array.c:119-127 | The contract asked of librdkafka can be met |
| Batch.StepKeepsInv | src/util/kafka.c:111-116 | Every step, of either thread, keeps the invariant that ties `count`, loop position and phases of the messages together |
| TopicDb.CacheRefinesMap | src/util/topic_database.c:201-255 | Whenever the lock is free, hash table and LRU list hold the same topics, no name has two entries, and the cache is the plain map after the calls served so far, by their own names and times: drop entries older than now-900s, then set name to now |
| TopicDb.CallsAreServed | src/util/topic_database.c:201-255 | From the actions alone: whoever holds the lock works on the name and time of its own latest call, and the plain map is that of the calls served, in the order in which they released the lock |
| TopicDb.ApplyIs | src/util/topic_database.c:174-199 | A served call drops exactly the other entries stamped before now-900, keeps the stamps of the rest, and stamps its own name |
| TopicDb.ListIsByAge | src/util/topic_database.c:178-182 | Whenever the lock is free the LRU list is ordered by use: nodes stand in the order in which their names were served last |
| TopicDb.CountsAreReferences | src/util/topic_database.c:86-91 | In every state of every interleaving a count is the number of references: database, handles, creator, lock holder; a topic is destroyed exactly at zero, so never while held or in the table |
| TopicDb.CallReturnsLiveTopic | src/util/topic_database.c:246-255 | A call returns a topic of the name that it was called with, stamped with its time, in the table, not destroyed and not purged by it, and the caller gets a handle on it |
| TopicDb.FreedForGood | src/util/topic_database.c:86-91 | No count rises again from zero |
| TopicDb.NothingFreedIsUsed | src/util/topic_database.c:183-255 | No step of any interleaving reads or counts a destroyed topic |
| TopicDb.StepKeepsInv | src/util/topic_database.c:183-255 | Each of the fourteen kinds of step keeps the invariant of table, list, counts, threads and purge loop |
| TopicDb.CreatedKeepsInv | src/util/topic_database.c:216-223 | A topic made while the lock is free belongs to its creator only |
| TopicDb.PurgeNodeKeepsInv | src/util/topic_database.c:183-199 | A round of the purge loop drops an old node from table and list alike, keeps a young one, and never meets the topic that the call returns |
| TopicDb.DropMineKeepsInv | src/util/topic_database.c:226-237 | The loser of a creation race gives its own topic back and uses the one in the table |
| TopicDb.CloseKeepsHeld | src/util/topic_database.c:257-262 | After topics_db_done on an idle cache a topic is alive if and only if a caller still holds it |
| TopicDb.CloseAfterRun | src/util/topic_database.c:257-262 | The same at the end of any interleaving in which no call is going on |
| GrowString.NextPow2IsSmallest | src/util/string.c:49-56 | next_pow2 gives a power of two that is the least one not below its argument |
| GrowString.CapacityIs | src/util/string.c:58-62 | The recomputed capacity is the least power of two that holds the text and is not below 4096 |
| GrowString.AllowedIs | src/util/string.c:49-56 | Nothing is asked of a caller but sizes up to 2^31, and a byte to pop |
| GrowString.RequestIsNeeded | src/util/string.c:58-81 | string_grow calls realloc if and only if there is no buffer or the text outgrows the recomputed capacity, and asks for the capacity recomputed from the new size |
| GrowString.AppendOrNothing | src/util/string.c:83-94 | string_append keeps the real buffer large enough, appends everything or changes nothing, and fails exactly when the data does not fit and the memory is not there |
| GrowString.PopKeepsSound | src/util/string.c:146-150 | A pop keeps the real capacity at least the recomputed one |
| GrowString.RunIsSound | src/util/string.c:49-150 | In every run of appends and pops, with memory or without, the real capacity is at least the recomputed one and the contents are those of a plain byte sequence |
| GrowString.ReallocDoubles | src/util/string.c:64-81 | Without pops the recomputed capacity is the real one and each reallocation at least doubles it |
| GrowString.ObtainedBelowTwice | src/util/string.c:64-81 | All that an append-only run obtains from realloc is at most twice the capacity gained |
| GrowString.AppendsAreAmortized | src/util/string.c:49-94 | From an empty string, append-only: total obtained is below twice the final capacity, and below four times the size once that exceeds 4096 |
| GrowString.String.Grow | src/util/string.c:64-81 | The buffer may move, or even shrink after pops, and the text stays; the answer is the capacity the code believes in |
| GrowString.String.Append | src/util/string.c:83-94 | In memory: the new contents, and -1 exactly when the data does not fit and realloc fails, with contents unchanged |
| GrowString.String.PopBack | src/util/string.c:146-150 | In memory: the last byte is gone and overwritten with NUL |
| JsonEscape.RoundTrip | src/util/string.c:152-268 | Escaping succeeds and unescaping (section 7 of RFC 8259) gives the input back if and only if the input is structurally UTF-8 (section 3 of RFC 3629) without NUL and without control bytes other than \b \f \n \r \t |
| JsonEscape.EscapedReads | src/util/string.c:152-268 | It succeeds if and only if there is no NUL; the text is then a legal JSON string if and only if no other control byte occurs, and stands for the input with a hint for each byte that is not UTF-8 |
| JsonEscape.DecimalIs | src/util/string.c:152-154 | The digits of a hint, read from the left in base 10, are the byte, without leading zeros |
| JsonEscape.RoundPrints | src/util/string.c:213-255 | The text printed for each kind of byte: five two-byte escapes, quote and backslash behind a backslash, the hint, and other ASCII as it is |
| JsonEscape.PlainTextIsKept | src/util/string.c:198-211 | UTF-8 text that needs no escape is printed as it is |
| JsonEscape.Utf8SizeIsCharacter | src/util/string.c:156-187 | The size found is that of the character at the front by the table of section 3 of RFC 3629, and 0 exactly if there is none |
| JsonEscape.AlwaysReadable | src/util/string.c:230-268 | For every input, also with control bytes or NUL and when the escaper fails, the text has no bare quote and no illegal escape: a reader that lets control bytes pass takes all of it, and reads the input with hints, up to the hint of the first NUL |
| JsonEscape.NoQuotesAdded | src/util/string.c:230-268 | The escaper adds no quotes: its text never begins with one, and is empty for an empty input |
| JsonEscape.ShownIsInput | src/util/string.c:156-187 | The hints leave the input as it is if and only if it is UTF-8 |
| JsonEscape.ReadRound | src/util/string.c:230-265 | What one round of the loop prints reads back as the bytes it consumed, or their hint; a control byte it leaves alone is illegal to a strict reader only |
| JsonEscape.StopsAtNul | src/util/string.c:233-239 | At a NUL the escaper prints a hint, fails and drops the rest of the input |
| JsonEscape.OneRound | src/util/string.c:232-265 | Each round consumes at least one byte and no more than there are |
| JsonEscape.Utf8Size | src/util/string.c:156-187 | A size is at most 4 and at most the bytes left, is 1 exactly for an ASCII byte, and a longer character has no ASCII byte in it |
| JsonEscape.PrintRound | src/util/string.c:232-265 | The body of the loop appends the text of its round and consumes what the round consumes |
| JsonEscape.AppendJsonString | src/util/string.c:230-268 | The loop over the growable string appends the escaped text and answers its return code |
| Handoff.Threads | src/listener/socket/socket.c:782-793 | The number of threads is the configured one from 1 to 256, 1 for 0, and 256 for more or for a negative one |
| Handoff.EveryInterleaving | src/listener/socket/socket.c:460-520 | In every interleaving each worker's connections, watched, popped, queued or in the acceptor's hand, are exactly those numbered with its index modulo the threads, each once and in order; a nonempty queue has a wake-up pending, to be sent, or a drain going on; the index is in range |
| Handoff.StepKeepsInv | src/listener/socket/socket.c:488-520 | Every step of the acceptor or of a worker keeps that |
| Handoff.ShareMembers | src/listener/socket/socket.c:460-478 | The share of a worker holds exactly the connections with its remainder, each once, in order of acceptance |
| Handoff.Balanced | src/listener/socket/socket.c:460-464 | In every run two workers differ by at most one connection |
| Handoff.EveryConnectionIsWatched | src/listener/socket/socket.c:488-520 | After the last connection only a bounded number of steps can follow in any schedule, and where none can, every connection is watched by its worker |
| Reload.Config.CheckAlreadyPresent | src/engine/global_config.c:486-520 | The in-place walk over the list keeps and reloads the listeners whose port is configured, with the first such entry, and shuts down each other one once |
| Reload.Config.CreateNewOnes | src/engine/global_config.c:523-557 | New listeners are put in front, one for each entry that finds none |
| Reload.Config.ReloadListeners | src/engine/global_config.c:559-578 | A reload is the first half, then the second |
| Reload.KeptOrClosed | src/engine/global_config.c:510-518 | Every listener is kept in place or shut down, never both |
| Reload.PortsAre16Bits | src/engine/global_config.c:530-542 | Port numbers from 0 to 65535 are kept; of any other one the upper half is lost |
| Reload.RunningPorts | src/engine/global_config.c:486-557 | A port runs after a reload if and only if a listener on it stayed or a usable entry asks for it |
| Reload.RunningIsConfigured | src/engine/global_config.c:486-557 | With usable entries on ports 1 to 65535, the running ports are exactly the configured ones, whatever ran before |
| Reload.ReloadNoDuplicates | src/engine/global_config.c:523-557 | A reload gives no port to a second listener |
| Reload.Survives | src/engine/global_config.c:510-518 | A running listener survives, on its port and not recreated, if and only if its port is configured and it can reload; it is shut down otherwise |
| Reload.ReloadAgain | src/engine/global_config.c:486-557 | Reloading the same configuration again changes no listener if and only if each usable entry's port, cut to 16 bits, is not 0 and is configured as such |
| Reload.PortZeroIsRecreated | src/engine/global_config.c:523-557 | An entry that says port 0 gets a new listener at the second reload |
| Reload.ProperPortsAreStable | src/engine/global_config.c:486-557 | With ports 0 to 65535 that condition is that no usable entry has port 0 |

## Left out

- The internals of yajl, expat, librdkafka, libev, tommyds, libmicrohttpd and zlib: only the contracts above.
- The restart loop of `process_xml_buffer` with its byte-index arithmetic, and XML documents that span several chunks: they depend on expat's offsets.
- Batch, TopicDb, Handoff: modelled as steps on values; the C structures in memory, and the hash table and list behind the topic cache, are a map, a set and a sequence.
- TopicDb.CloseKeepsHeld: the shutdown is modelled on an idle cache, since the code takes no lock there; TopicDb.CloseAfterRun is the same for runs.
- Handoff: shutdown, and the error event on which `async_cb` returns without draining.
- Memory failures in `kafka_msg_array_add`, in the escaper's appends and in the appends to `last_object` and `yajl_gen_buf`: allocation succeeds there. `string_append` itself is modelled with failures.
- JsonEscape.AppendJsonString: the printf of a hint is an append of its text; `string_printf` and its growth loop are not modelled.
- GrowString.String.Append: sizes above 2^31 are excluded, because `1u <<` is undefined there.
- JsonSession.Session.EndMapSplit: the branch in which the append to `last_object` finds no memory, and the object is dropped.
- JsonSession.Session.SaveOpenObject: the append to `last_object` finds memory.
- MessageArray.Array.Add: the append finds memory.
- XmlSession.Session.CharacterData: the temporary generator can be allocated.
- JsonEscape.PrintRound: every append finds memory, and the printf of a hint is an append of its text.
- HttpPost.Connection.HandleChunk: uncompressed uploads to a session decoder; `compressed_callback` and the buffering for decoders without session are left out.
- HttpPost.Connection.HandleEnd: the late decode for decoders without session.
- HttpPost.Connection.HandlePost: requests that the two methods above cover.
- JsonBuffers.EveryInterleaving: reports of older batches during a decode call stand before or after it, since they touch their own batch only.
- HttpPost.PostDependsOnBody: sessions of the JSON decoder, uncompressed.
- Reload: an entry with a known protocol but no port, or whose listener cannot be created, ends the process; there is nothing after it to model. The 32-bit store into the 16-bit port is taken to keep the low half.
- Handoff.Threads: the 32-bit store into the thread count is taken as on a little-endian machine.
- Texts of error responses, logging and the rate limit of warnings.
- Authentication, TLS, configuration parsing, the `dumb` and `meraki` decoders, URL topics, the UDP loop and the statistics callbacks.
