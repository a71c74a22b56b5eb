# Messages, names and queries: a verified model

NeoStats carries a copy of the MUSCLE MiniMessage library and of the adns resolver, and keeps an
index of which user is on which channel. This project models those three parts in Dafny and proves
what they are for.

`dafny verify dfyconfig.toml` checks everything.

## How it is laid out

*MUSCLE messages.* `Messages` and `Codec` define a message as a value, its image and its normal
form; `WireForm` says in numbers what is written, `RoundTrip` proves that reading inverts writing, and
`Relay` that a received message can be sent on. `CodecMethods` holds the loops over buffers, proved
against those functions. `Framing` and `Gateway` are the stream of frames and the gateway
with its buffers and positions; `Conversation` joins two gateways by a link that may cut the bytes
anywhere. `FieldList` is the doubly linked list of fields with the accounts of who owns what,
`MessageHeap` the tree of blocks that cloning and freeing walk, `MessageEquality` the comparison.

*The resolver.* `WireNames`, `TextNames` and `NameMethods` are the two forms of a domain name
(sections 2.3.4, 3.1, 4.1.4 and 5.1 of RFC 1035) and the code between them; `ResourceRecords` reads a
record of section 4.1.3. `AnswerSections` is what a reply holds for a query: the two passes over the
answers and the look at the authority section; `AnswerFacts` says what that is by the records as they lie.
`TcpStream` is the reassembly of section 4.2.2. `QueryTable` defines the query records, the four queues and the
consistency `src/adnscheck.c` asserts; `QueryEndings`, `QuerySending`, `QueryReplies` and
`QueryTimeouts` say what each kind of step makes of the table and prove what the steps have in
common. `QueryLists` is the intrusive list of `include/adnsdlist.h` and the iterator over all
queries. `Resolver` is the resolver itself: a class with the fields of `struct adns__state`, its
methods proved against those predicates. A set `busy` names the queries that are on no queue because
they are being processed. `SilentNetwork` follows one query that nobody answers, `ResolverRuns`
drives the resolver through every sequence of events and says what each does, `Shortfalls` holds the
runs that go wrong. `Arena` is the memory of an answer, `Timevals`
the arithmetic on `struct timeval`, `InsertionSort` the sort and its comparers.

*Channels.* `Channels` is the membership index, and the book of memberships its events amount to.

`Bytes` and `Sequences` hold what the parts share.

Reads, writes, the clock and what the parsers of single record types say are inputs, chosen freely: a
`Link`, a script of read events, a `RecordParser`. Which datagrams the system refuses as too big is a
function of their question, server and time, and how many bytes a write over TCP takes one of the server,
the message and the try. A result named `aborted` says that the code goes wrong: it runs into its own
assertion, reads past a text, writes past what it reserved, looks at what it freed, or never ends. Nothing
is claimed from there on.

## Main results

* The round trip of messages on any two hosts: `RoundTrip.UnflattenOfFlatten`, sent on by
  `Relay.SentOn`, through the loops over buffers by `CodecMethods.FlattenMessage` and
  `CodecMethods.UnflattenMessage`; what is written, `WireForm.ItemsOnWire`.
* Two gateways over any link, for every run: `Conversation.Converse`, from `Framing.DecodeAppend`,
  `Framing.DecodePrefix` and the turns `Gateway.MessageGateway.SendChunk` and `ReceiveChunk`.
* What the comparison of messages means: `MessageEquality.EqualIffSameMeaning`. Who owns what:
  `FieldList.FieldList.Put`, `MessageHeap.CloneMessage`, `MessageHeap.FreeMessage`.
* Names: `WireNames.WalkIsName`, `TextNames.QuotedRoundTrip`, `TextNames.StaysWithin`,
  `NameMethods.WireRoundTrip`; records: `ResourceRecords.FindRr`. What a reply holds:
  `AnswerSections.ReadReply`, `AnswerSections.PassesDisagree`, `AnswerFacts.NoDataIff`,
  `AnswerFacts.AliasIsThere`.
* The TCP stream: `TcpStream.TcpReceiver.ProcessReadable`.
* The resolver's life cycle: `Resolver.Resolver.QueryDone`, `Submit`, `Reply`, `TimeoutsQueue`,
  `ProcessTimeouts`, `FirstTimeout` and `Check`; over every run `ResolverRuns.Run` and
  `ResolverRuns.RunAndFinish`, with `QueryTable.ExactlyOnce` and `QueryTable.SomeoneWaits`.
* A query nobody answers: `SilentNetwork.AskInVain`.
* Memory of an answer: `Arena.QueryMemory.MakeFinal`, from `Arena.PieceByPiece`.
* Sorting: `InsertionSort.SortedIsPermutation`, `SortedIsSorted`, `SortedIsStable`.
* Channels, over every run: `Channels.Run`.

The other rows of the table are what these rest on.

## Where the code falls short of what it is for

* `JoinChannel` (`src/channels.c:488-505`) adds the user to the channel before it looks whether the
  user's own list is full. If it were, the two sides would disagree afterwards, and only then. Both lists
  are made with room for `ULONG_MAX` entries (`src/users.c:40`, `src/channels.c:42`, `include/list.h:66`),
  so it takes as many events (`Channels.Run`); `Channels.SecondJoinSplits` shows it for room for one.
* Bytes outside 33..126 are printed in octal (`src/adnsparse.c:44`) and read in decimal
  (`src/adnstransmit.c:110-112`). A quoted name comes back the same exactly if every byte is
  33..126 or below 8 and the name takes at most 255 octets on the wire.
* A reply of NXDOMAIN to a search over TCP goes on with the next name while the query's state is
  still tcpw, which `src/adnstransmit.c:288` asserts against. `Shortfalls.AssertionFails` gives such
  a run, and `Resolver.Resolver.Reply` the exact condition.
* `adns__mkquery` (`src/adnstransmit.c:104-122`) looks at up to three characters behind a backslash
  without asking where the text ends. A C string is followed by its NUL, but a search hands over its
  buffer (`src/adnsquery.c:188-200`), which has none and may hold the rest of an earlier name: if a name
  ends inside an escape, with quoting, the reader leaves it. `TextNames.StaysWithin` and
  `TextNames.AstrayIff` say when, `Shortfalls.NameStrays` gives a run.
* `adns__mkquery_frdgram` (`src/adnstransmit.c:157-192`) reserves as many bytes for a name as its
  datagram has. `NameMethods.MkQueryFrdgram` says when they suffice, `NameMethods.SharedLabelsOutgrow`
  gives a name they do not hold.
* `adns__procdgram` counts the records of an answer before it makes room for them, and compares owners
  with the name asked for until it meets an alias. When it stores them it compares all of them with the
  alias (`src/adnsreply.c:196-198`, `406-414`): records ahead of the alias that the alias owns are stored
  without having been counted. `AnswerSections.PassesDisagree` says exactly when, `Shortfalls.RecordsOverrun`
  gives a run.
* `adns__findlabel_next` (`src/adnsparse.c:85-106`) follows pointers without counting them.
  `WireNames.EndlessIffCircle` says exactly when it does not end.
* `adns__querysend_tcp` (`src/adnstransmit.c:254-258`) keeps the first bytes of a length of which some were
  not taken, instead of the last. `QuerySending.OneByteSpoils` says exactly when that spoils the stream.
* `adns__findlabel_next` limits a name to 255 characters of text, which are up to 257 octets on the
  wire (`NameMethods.WalkableFits`), where section 2.3.4 of RFC 1035 allows 255.
* The walk over queries whose connection broke (`src/adnsevent.c:279-287`) saves the next query before it
  fails one. `QueryEndings.SavedNextGone` says exactly when that one is freed by then,
  `Shortfalls.SavedNextFreed` gives a state.
* `adns_finish` cancels whatever heads a queue, children too. Between two of its steps a parent may
  be in childw without children, against `src/adnscheck.c:161`: exactly when its only child went first.
  `Shortfalls.ParentLeftWaiting` gives a run.
* `dip_hostaddr` (`src/adnstypes.c:609-610`) calls each of two different failures the later one. The
  records still come out with all successes first.
* `adns__makefinal_str` (`src/adnsquery.c:620-632`) measures by `strlen`. A TXT string is copied whole
  exactly if it has no zero byte, although its recorded length counts all of them.
* `MGDoOutput` and `MGDoInput` (`src/MiniMessageGateway.c:131-149`, `163-235`) keep turning over with
  zero-byte calls once their budget is used up, for as long as the link answers with zero. Such a turn
  is proved to change nothing, and when it comes to that is stated by the two methods.

## Model

| member | source | states |
|---|---|---|
| `Conversation.Converse` | src/MiniMessageGateway.c:93-238 | Over every run of queueing, partial writes and partial reads of any size: the bytes received, under way and still to be sent are together the frames of the messages queued, in order; the receiving side has been handed a prefix of their normal forms, and all of them once no byte is under way; and it has refused nothing. Sender and receiver may differ in byte order. |
| `RoundTrip.UnflattenOfFlatten` | src/MiniMessage.c:732-1008 | Flattening writes exactly the computed size, and unflattening the image followed by any bytes gives the message in normal form at every depth, for any pair of byte orders. |
| `Relay.SentOn` | src/MiniMessage.c:732-1008 | A message sent on by the host that received it arrives as if it had come from the first sender: what is received is well formed, and further hosts on the way change nothing. |
| `Relay.NormalMessage` | src/MiniMessage.c:815-1008 | The normal form of a well-formed message is well formed and as long on the wire, and taking it on one more host is taking it once. |
| `RoundTrip.UnflattenInverts` | src/MiniMessage.c:815-1008 | The same for an image found at the head of a longer buffer. |
| `RoundTrip.EntriesInvert` | src/MiniMessage.c:842-1006 | The entry loop reads back all flattenable fields, in order, after whatever the message already holds. |
| `RoundTrip.EntryInverts` | src/MiniMessage.c:849-1003 | Each kind of entry reads back as its field in normal form, wherever it lies. |
| `RoundTrip.SubmessagesInvert` | src/MiniMessage.c:879-946 | Sub-messages, counted only by the bytes they use, read back one for one; NULL comes back as the empty message. |
| `RoundTrip.BuffersInvert` | src/MiniMessage.c:956-996 | Byte buffers read back one for one; NULL comes back as the empty buffer. |
| `WireForm.ItemsOnWire` | src/MiniMessage.c:710-727 | The items of a field go out as little-endian numbers, those its host holds, whatever its byte order. |
| `WireForm.ItemsFromWire` | src/MiniMessage.c:849-877 | And come in as the numbers that were on the wire. |
| `WireForm.MessageHead` | src/MiniMessage.c:746-760 | An image begins with the version, the what code and the number of fields, little-endian, and goes on with the fields. |
| `WireForm.FieldHead` | src/MiniMessage.c:619-649 | A field is the length of its name, the name, its type, the length of its data, the data. |
| `WireForm.BuffersHead` | src/MiniMessage.c:692-707 | Buffers are behind their number. |
| `WireForm.BufferHead` | src/MiniMessage.c:701-707 | Each buffer is behind its length. |
| `WireForm.SubmessageHead` | src/MiniMessage.c:663-689 | Each sub-message is behind the length of its image, and NULL goes out as an empty message. |
| `WireForm.FrameHead` | src/MiniMessageGateway.c:93-116 | A frame is the length of the image, the encoding, the image. |
| `WireForm.HeaderSays` | src/MiniMessageGateway.c:213-218 | A frame is refused exactly for an empty body or a foreign encoding. |
| `WireForm.FieldsInTurn` | src/MiniMessage.c:753-760 | Fields go out one after the other, pointers not at all. |
| `WireForm.FixedTypes` | src/MiniMessage.c:376-386 | Which types have items of a fixed size. |
| `WireForm.PutFieldIs` | src/MiniMessage.c:410-465 | A field read takes the place of one of its name and stands at the end. |
| `WireForm.NumberOfWord` | src/MiniMessage.c:619-630 | A word is written as the little-endian number it is. |
| `WireForm.Widths` | src/MiniMessage.c:866-877 | The bytes of a scalar and of an item of each type. |
| `WireForm.Codes` | include/MuscleSupport.h:255-275 | The codes of types, version and encoding, as characters. |
| `WireForm.OneInteger` | src/MiniMessage.c:746-800 | The image of a message with one integer, byte for byte, from either host. |
| `Codec.FlatMessageSize` | src/MiniMessage.c:732-744 | The image is as long as MMGetFlattenedSize computes without looking at it. |
| `Codec.FlatFieldSize` | src/MiniMessage.c:574-599 | So is each field, with and without its headers. |
| `Codec.SwapUnitsTwice` | src/MiniMessage.c:601-617 | Swapping byte order is its own inverse. |
| `Codec.RehostKeepsNumbers` | src/MiniMessage.c:710-727 | The numbers a host reads out of a field are those the other host put in, whatever the two byte orders. |
| `CodecMethods.SwapCopy` | src/MiniMessage.c:601-617 | The nested loops over the bytes of an item fill the target with every item reversed and touch nothing else. |
| `CodecMethods.FlattenMessage` | src/MiniMessage.c:746-800 | The buffer-filling routine leaves exactly the image in the bytes it was given, the rest of the buffer alone, and the offset past the image; what the image is, in numbers, the rows of WireForm say. |
| `CodecMethods.FlattenField` | src/MiniMessage.c:619-730 | The same for one field with its headers. |
| `CodecMethods.FlattenData` | src/MiniMessage.c:650-727 | The same for the data of a field of each kind. |
| `CodecMethods.FlattenSlot` | src/MiniMessage.c:663-689 | A missing sub-message is written as an empty one. |
| `CodecMethods.UnflattenMessage` | src/MiniMessage.c:815-1008 | The reading loops accept, refuse and produce what the recursive specification says, on every input. |
| `CodecMethods.UnflattenEntry` | src/MiniMessage.c:842-1006 | The same for the switch on the type code. |
| `CodecMethods.UnflattenSubmessages` | src/MiniMessage.c:879-946 | The same for the list of sub-messages. |
| `CodecMethods.UnflattenBuffers` | src/MiniMessage.c:956-996 | The same for the array of buffers. |
| `Framing.DecodeAppend` | src/MiniMessageGateway.c:154-238 | Decoding a stream in two pieces is decoding it whole, wherever it is cut. |
| `Framing.DecodeFrames` | src/MiniMessageGateway.c:93-116 | A stream of frames decodes to the normal forms of its messages with nothing left over. |
| `Framing.DecodePrefix` | src/MiniMessageGateway.c:154-238 | What part of a stream of frames has arrived decodes to a prefix of the messages and is never refused. |
| `Gateway.MessageGateway.AddOutgoingMessage` | src/MiniMessageGateway.c:93-116 | The bytes to send grow by exactly the frame of the message. |
| `Gateway.MessageGateway.SendChunk` | src/MiniMessageGateway.c:128-148 | One turn of the output loop moves bytes from the head of the queue to the link, losing, repeating and reordering none; an error moves none; finished buffers leave the queue. |
| `Gateway.MessageGateway.DoOutput` | src/MiniMessageGateway.c:123-152 | On any budget the bytes are conserved and those moved are reported, unless the link fails; the call does not end exactly where the budget is used up, something is still queued and the link keeps answering zero, which a budget that covers the queue rules out. |
| `Gateway.MessageGateway.ReceiveChunk` | src/MiniMessageGateway.c:159-235 | One turn of the input loop keeps 0 <= _curInputPos <= _maxInputPos <= buffer size and takes bytes in order; a message appears exactly when its last byte arrives; a refused frame leaves the receiver answering -1 for good; a used-up budget changes nothing. |
| `Gateway.MessageGateway.FinishHeader` | src/MiniMessageGateway.c:213-232 | The header is refused exactly for an empty body or a foreign encoding; otherwise the buffer is large enough for the body and still holds the header. |
| `Gateway.MessageGateway.FinishBody` | src/MiniMessageGateway.c:174-212 | The body is parsed exactly when it is an image, and the receiver is ready for the next header, in a buffer of at most 64 KB if it had grown beyond. |
| `Gateway.MessageGateway.DoInput` | src/MiniMessageGateway.c:154-238 | On any budget the bytes are conserved and at most the next message is handed out; the call does not end exactly where the budget is used up and no message was handed out. |
| `Gateway.MessageGateway.DecodedSoFar` | src/MiniMessageGateway.c:154-238 | At any moment the messages parsed are what all bytes received so far decode to. |
| `MessageEquality.EqualIffSameMeaning` | src/MiniMessage.c:1337-1372 | The one-way comparison by count and look-up succeeds exactly when the two messages are the same map from names to typed contents, at every depth. |
| `MessageEquality.EqualIsEquivalence` | src/MiniMessage.c:1337-1372 | The comparison is reflexive, symmetric and transitive on messages with unique names. |
| `MessageEquality.OrderIgnored` | src/MiniMessage.c:1343-1369 | Permuting the fields of a message does not change what it equals. |
| `MessageEquality.AreMessagesEqual` | src/MiniMessage.c:1337-1372 | The loop decides the comparison. |
| `MessageHeap.CloneMessage` | src/MiniMessage.c:297-327 | The clone of a tree of messages has the same value, is itself a tree, and shares no block with the original, at any depth. |
| `MessageHeap.CloneField` | src/MiniMessage.c:199-259 | The same for one field. |
| `MessageHeap.CloneMessages` | src/MiniMessage.c:211-231 | The same for an array of sub-messages, NULL where the original has NULL. |
| `MessageHeap.CloneBuffers` | src/MiniMessage.c:232-252 | The same for an array of buffers. |
| `MessageHeap.ClonesAreEqual` | src/MiniMessage.c:297-327 | A message and its clone compare equal, either way round. |
| `MessageHeap.FreeMessage` | src/MiniMessage.c:329-360 | Every block a tree of messages owns is freed, and none twice. |
| `MessageHeap.FreeField` | src/MiniMessage.c:261-283 | The same for one field. |
| `FieldList.FieldList.Add` | src/MiniMessage.c:362-369 | The doubly linked list with its first, last and count grows by the field at its end. |
| `FieldList.FieldList.Detach` | src/MiniMessage.c:399-407 | The list loses exactly that field, from any position, and stays doubly linked. |
| `FieldList.FieldList.Lookup` | src/MiniMessage.c:388-397 | Finds the field of a name, and NULL exactly when there is none of an acceptable type. |
| `FieldList.FieldList.Put` | src/MiniMessage.c:410-465 | The field of that name, if any, is replaced by one at the end with the first min(old, new) items kept when asked to and the types agree, blanks after; the items not kept are freed; names stay unique and every owned block has one owner. |
| `FieldList.FieldList.MoveItems` | src/MiniMessage.c:419-430 | The items kept move: they are in the new array and no longer in the old one. |
| `FieldList.FieldList.Remove` | src/MiniMessage.c:467-477 | Drops the field of that name and frees what it owns, or says that there is none. |
| `FieldList.FieldList.Rename` | src/MiniMessage.c:1066-1110 | The field keeps its place and items under the new name, another field of that name is dropped and freed, whether or not the block had to move. |
| `FieldList.FieldList.Clear` | src/MiniMessage.c:348-360 | Everything the list owns is freed and the list is empty. |
| `FieldList.FieldList.Store` | src/MiniMessage.c:410-437 | A caller filling a slot a Put function returned keeps every block with one owner. |
| `FieldList.PutAccounts` | src/MiniMessage.c:410-437 | Replacing a field neither loses nor duplicates an owned block. |
| `WireNames.WalkIsName` | src/adnsparse.c:78-135 | On every datagram the label walk yields exactly the labels the name denotes after decompression, and only if they fit; the end reported is that of the uncompressed part. |
| `WireNames.NameAtUnique` | src/adnsparse.c:78-135 | A position of a datagram denotes at most one name. |
| `WireNames.NameFits` | src/adnsparse.c:78-135 | A name on which the walk succeeds lies inside the datagram, up to the end reported. |
| `WireNames.FindLabelState.Next` | src/adnsparse.c:78-135 | Advancing the cursor fields is one step of the walk, whatever pointers it follows; it says where the code would go on for ever. |
| `WireNames.EndlessIffCircle` | src/adnsparse.c:85-106 | A step of the walk does not end if and only if the pointers it meets go round in a circle. |
| `WireNames.PointerLeads` | src/adnsparse.c:93-103 | A pointer is two bits set and an offset in the other fourteen. |
| `WireNames.CompareOwner` | src/adnsparse.c:199-256 | The match flag is set exactly when the two names, each decompressed, are equal ignoring ASCII case; the end is that of the uncompressed part of the record owner. |
| `WireNames.SameButCase` | src/adnsparse.c:236-248 | Names compare equal exactly if they are the same but for the case of letters. |
| `ResourceRecords.FindRr` | src/adnsparse.c:199-284 | Reads the record at a position: its type, class, time to live (at most seven days), data and end are those of the one record whose wire form lies behind the owner name; it is cut off exactly if no record fits there; and the match flag says whether there is an expected name and the owner is it, ignoring case. |
| `ResourceRecords.ReadsOnly` | src/adnsparse.c:199-284 | Nothing else can be said of a record. |
| `ResourceRecords.FieldsAre` | src/adnsparse.c:257-275 | Reading the fields one by one is recognising the wire form of a record as a whole. |
| `ResourceRecords.HoldsUnique` | src/adnsparse.c:257-275 | A position holds at most one record. |
| `AnswerSections.FirstPass` | src/adnsreply.c:191-296 | The first loop over the answer section: records of another class or owner are passed over, the first alias changes the owner expected unless a record was wanted before it, a second one or a forbidden one ends it, and the records of the type asked for are counted. |
| `AnswerSections.LookAtAuthority` | src/adnsreply.c:310-337 | The authority section is read up to the first SOA. |
| `AnswerSections.SecondPass` | src/adnsreply.c:406-426 | The second loop stores the records of the type asked for whose owner is the name now expected, in order, until one is bad, and says where there are more of them than entries. |
| `AnswerSections.ReadReply` | src/adnsreply.c:186-428 | Together they are what the reply holds for the query; the rows of AnswerFacts say what that is, by the records as they lie. |
| `AnswerSections.SecondTakes` | src/adnsreply.c:191-428 | The second pass comes to the records the first wanted, and before them, where the reply gives an alias, to those ahead of the alias that the alias owns. |
| `AnswerSections.StoreOverruns` | src/adnsreply.c:406-427 | Storing comes to more records than entries exactly if there are more and the first are good. |
| `AnswerSections.PassesDisagree` | src/adnsreply.c:383-427 | The two passes disagree, against the assertion that follows them, if and only if the reply gives an alias, records of the type asked for that the alias owns stand before it, and none of those stored first is bad. |
| `AnswerFacts.NoDataIff` | src/adnsreply.c:304-352 | A reply without records of the type asked for says that there are none if and only if one of the readable authority records up to the first SOA is a SOA, or none is a NS, all of class IN. |
| `AnswerFacts.TruncationFlag` | src/adnsreply.c:54-66 | Where the truncation flag lies. |
| `AnswerFacts.AliasIsThere` | src/adnsreply.c:222-289 | An alias is taken only from a CNAME record of class IN of the name asked for, ahead of which no record of the type asked for is of that name, and only where aliases are allowed, CNAMEs are not what was asked for and none was known. |
| `AnswerFacts.AliasRefused` | src/adnsreply.c:224-241 | Where aliases are forbidden or one is known, such a record ends the query. |
| `AnswerFacts.OwnerUnreadable` | src/adnsreply.c:199-206 | What an owner name that cannot be walked means for the query. |
| `AnswerFacts.StoreIs` | src/adnsreply.c:406-428 | What storing comes to, by the first record that is not good, and the names asked for, in order. |
| `AnswerFacts.WhoAsks` | src/adnstypes.c:529-590 | Only types that name hosts ask for names, and only for readable ones. |
| `AnswerSections.SomethingExpected` | src/adnsparse.c:287-314 | A query that waits for an answer has a readable name to compare owners with, as the code asserts. |
| `NameMethods.ParseDomain` | src/adnsparse.c:150-197 | Prints the decompressed name: quoted, or plain exactly if every label is a strict host label; otherwise it says why not, and whether bytes are left in the buffer. |
| `NameMethods.ReadIsWalk` | src/adnsparse.c:150-197 | A name is read exactly when it can be walked and, without quoting, is a strict host name. |
| `NameMethods.ReadIsReadable` | src/adnstransmit.c:174-176 | A name read within a tighter limit can be walked again with the whole datagram as the limit, and is the same. |
| `NameMethods.AppendQuoted` | src/adnsparse.c:34-60 | Appends the quoted form of any bytes, through runs and escapes. |
| `NameMethods.MkQuery` | src/adnstransmit.c:83-155 | The packet is written within DNS_HDRSIZE + (ol+2) + 4 bytes, asks for the labels the text reads as, and is refused, or leaves the text, exactly when reading the text does. |
| `NameMethods.MkQueryFrdgram` | src/adnstransmit.c:157-192 | The packet for a name of a datagram asks for the labels the name decompresses to; they fit the bytes reserved if and only if they take no more octets than the datagram has, as they do in any datagram of 257 bytes or more. |
| `NameMethods.SharedLabelsOutgrow` | src/adnstransmit.c:157-192 | A name of 13 octets in 8 bytes, which the bytes reserved do not hold. |
| `NameMethods.WalkableFits` | src/adnsparse.c:110-114 | What the walk lets through takes up to 257 octets on the wire: it counts text, not length bytes. |
| `TextNames.StaysWithin` | src/adnstransmit.c:100-147 | Whatever follows the text in memory, the reader stays within it, and reads the same, if and only if it needs no byte from behind it. |
| `TextNames.AstrayIff` | src/adnstransmit.c:104-122 | It needs one exactly when, with quoting, the end of the text cuts an escape off and nothing before is refused. |
| `TextNames.StoppedRefused` | src/adnstransmit.c:104-122 | Behind a C string, or a name without its last dot, such an escape is refused. |
| `TextNames.CutEscapeStrays` | src/adnstransmit.c:104-122 | The text a\ followed by what an earlier search left in the buffer: the reader leaves the text. |
| `NameMethods.ScanLabel` | src/adnstransmit.c:102-136 | The inner loop reads one label with its escapes, from a text that any bytes may follow. |
| `NameMethods.PacketCarriesName` | src/adnstransmit.c:44-155 | Every reader of a query packet finds in it the labels of the text, ended by the root; labels are at most 63 and the name at most 255 octets, and the packet never exceeds what is reserved. |
| `TextNames.QuotedRoundTrip` | src/adnstransmit.c:100-147 | Text printed with quoting is read back as the same labels if and only if every byte is 33 to 126 or below 8 and the name takes at most 255 octets: other bytes are printed in octal and read in decimal. |
| `TextNames.FaithfulIff` | src/adnsparse.c:34-60 | A byte survives printing and reading exactly if it is 33 to 126 or below 8. |
| `TextNames.PrintedAsIs` | src/adnsparse.c:34-60 | Which bytes are printed as they are. |
| `TextNames.PlainRoundTrip` | src/adnstransmit.c:100-147 | A strict host name printed plainly is read back as the same labels if and only if it takes at most 255 octets. |
| `TextNames.AcceptedIsHost` | src/adnstransmit.c:123-132 | Without quoting only strict host names are accepted. |
| `TextNames.HostCharacters` | src/adnstransmit.c:123-132 | What a strict host label is, by its characters. |
| `TextNames.AcceptedSizes` | src/adnstransmit.c:133-143 | Whatever text is accepted, its labels are 1 to 63 octets and the name at most 255. |
| `TextNames.WireReadable` | src/adnstransmit.c:144-148 | The labels written are the name a walk finds there. |
| `NameMethods.WireRoundTrip` | src/adnsparse.c:150-197 | From a datagram to quoted text to a query: the query asks for the very same labels. |
| `TcpStream.TcpReceiver.ProcessReadable` | src/adnsevent.c:411-472 | Whatever the socket does, the bytes read are those it gave, none lost or repeated; what was handed to adns__procdgram are the payloads of the complete frames among them, in order; the buffer holds the incomplete rest; tcprecv_skip is zero on every exit. A call that leaves the connection up stops only where the socket has no more; the connection goes down exactly with the first message whose processing breaks it, or where the socket fails or ends once every complete message was handed on. |
| `TcpStream.SplitAppend` | src/adnsevent.c:415-470 | Splitting a stream into frames does not depend on how it arrives. |
| `TcpStream.SplitOfFramed` | src/adnsevent.c:416-430 | Payloads sent with their two length bytes come out as they went in. |
| `TcpStream.RestIsIncomplete` | src/adnsevent.c:433-442 | What is left over holds no complete frame. |
| `TcpStream.TcpReceiver.Compact` | src/adnsevent.c:438-442 | Moving the rest to the front of the buffer loses no byte. |
| `InsertionSort.Isort` | src/adnsgeneral.c:359-377 | The in-place sort leaves the insertion-sorted array. |
| `InsertionSort.SortedIsPermutation` | src/adnsgeneral.c:359-377 | It is a permutation, for any comparer. |
| `InsertionSort.SortedIsSorted` | src/adnsgeneral.c:359-377 | It is sorted for any order whose violations the comparer reports. |
| `InsertionSort.SortedIsStable` | src/adnsgeneral.c:359-377 | Elements the comparer does not tell apart keep their order. |
| `InsertionSort.CoversNetwork` | src/adnstypes.c:273-276 | A sortlist entry whose base lies within its mask covers the addresses that agree with it in the bits of the mask; a /24 as an example. |
| `InsertionSort.AddressesSorted` | src/adnstypes.c:268-290 | Addresses come out in sortlist order, ties as they came. |
| `InsertionSort.HostRecordsSorted` | src/adnstypes.c:606-619 | Records whose look-up succeeded precede all that failed, and are in sortlist order, for NS and, by preference, MX. |
| `InsertionSort.HostAfterNotAntisymmetric` | src/adnstypes.c:606-611 | Two different failures are each reported to come after the other. |
| `Channels.ChannelIndex.JoinChannel` | src/channels.c:454-517 | A join makes the user a member on both sides and changes no other membership, or nothing; the two sides still agree afterwards if and only if it was not a join of a channel with room by a user whose own list is full. Joining "0" parts from all. |
| `Channels.ChannelIndex.PartChannel` | src/channels.c:390-439 | Exactly that membership is gone on both sides; an empty channel is gone from the table. |
| `Channels.ChannelIndex.KickChannel` | src/channels.c:323-374 | The same for a kick, or nothing but a flag when the server sends a part as well. |
| `Channels.ChannelIndex.PartAllChannels` | src/channels.c:98-136 | The user is in no channel and every other membership is as before. |
| `Channels.ChannelIndex.Leave` | src/channels.c:246-308 | Removing from both sides keeps the counters: users is the length of the member list, channelcount the number of channels. |
| `Channels.Run` | src/channels.c:114-517 | Over every run the index is valid and says exactly which memberships, users and kicks the events so far amount to, up to the first join of a channel with room by a user whose own list is full, which takes more events than a list has room for. |
| `Channels.OverfullIsHalf` | src/channels.c:481-505 | That join is the one the events tell of: room in the channel, none in the sets of the user. |
| `Channels.FewChannels` | src/channels.c:454-517 | A user is on no more channels than there were events. |
| `Channels.SecondJoinSplits` | src/channels.c:488-505 | Were there room for one entry in a list, a second join would leave the channel listing the user and the user not listing the channel. |
| `ResolverRuns.Run` | src/adnscheck.c:78-204 | Over every run of submissions, replies, connection events, timeouts, checks and cancellations: each event takes the state before it to the state after as its operation promises; at every moment the whole consistency predicate holds and every query is accounted for; and the run stops early only where an event goes wrong. |
| `ResolverRuns.RunAndFinish` | src/adnssetup.c:768-782 | After any run adns_finish leaves no query: every one ever allocated, children included, was freed, and of those submitted in the run exactly the ones not returned were cancelled. |
| `ResolverRuns.Happen` | src/adnscheck.c:78-204 | Each event has the effect its operation promises, on queries, queues and accounts, and keeps consistency unless it goes wrong. |
| `Shortfalls.AssertionFails` | src/adnsreply.c:339-348 | A concrete run, a search over a TCP connection told that its first name does not exist, reaches the assertion at the head of adns__query_send from a consistent state. |
| `Shortfalls.NameStrays` | src/adnsquery.c:188-200 | A concrete run, a quoted search for a\ told that its first name does not exist, goes on with a name whose reader leaves the text. |
| `Shortfalls.ParentLeftWaiting` | src/adnsquery.c:483-511 | A concrete run, a reply with one host record and no address, after which cancelling the head of a queue, as adns_finish does, leaves a parent in childw without children. |
| `Shortfalls.HostReply` | src/adnsreply.c:191-437 | The record lies in that reply, and its reading asks for the one host. |
| `Shortfalls.RecordsOverrun` | src/adnsreply.c:406-427 | A concrete run, a reply with an address of the alias before the alias, on which the second pass comes to two records where the first counted one. |
| `Shortfalls.DoubledReading` | src/adnsreply.c:191-427 | That reading of that reply. |
| `Shortfalls.SavedNextFreed` | src/adnsevent.c:279-287 | A consistent state in which the walk over a broken connection frees the query it has saved as its next. |
| `QueryTable.ExactlyOnce` | src/adnsquery.c:483-611 | A submitted query is exactly one of waiting, ready on the output queue, returned and cancelled, and the numbers add up. |
| `QueryTable.SomeoneWaits` | src/adnscheck.c:155-169 | Whenever a query is not done, it or one of its children waits for the network. |
| `QueryTable.NothingLeft` | src/adnssetup.c:768-782 | With all four queues empty every query was freed and every submitted one returned or cancelled. |
| `QueryTable.ParentWaits` | src/adnscheck.c:161-164 | A child at rest has a parent waiting for it that lists it. |
| `QueryTable.ChildIsLeaf` | src/adnstypes.c:529-590 | Children are never parents, and never done while at rest. |
| `Resolver.Resolver.constructor` | src/adnssetup.c:742-765 | A new resolver is consistent. |
| `Resolver.Resolver.TakeOff` | src/adnsquery.c:491-506 | A query leaves exactly the queue its state names. |
| `Resolver.Resolver.PutOn` | include/adnsinternal.h:252-267 | A query joins the end of the queue its state names. |
| `Resolver.Resolver.Cancel` | src/adnsquery.c:483-511 | The query and its children are gone from table and queues and freed, its parent lists it no more, and everything else is as it was. |
| `Resolver.Resolver.CancelChildren` | src/adnsquery.c:448-456 | Exactly the children are gone. |
| `QueryEndings.GoneAwaited` | src/adnsquery.c:483-511 | Cancelling leaves a parent in childw without children if and only if it takes the only child of a waiting parent, as adns_finish may between two of its steps. |
| `QueryEndings.SavedNextGone` | src/adnsevent.c:279-287 | The query the walk over a broken connection has saved as its next is freed when one fails if and only if both are children of the same reverse look-up. |
| `Resolver.Resolver.CancelQuery` | src/adnsquery.c:483-511 | A user cancelling a query keeps consistency. |
| `Resolver.Resolver.QueryDone` | src/adnsquery.c:568-611 | A finished top-level query is last on the output queue with its status and no children. A finished child is freed; a reverse look-up fails as inconsistent unless an address of the child is the one looked up, with the failure of the child if that is another than that there is no such name or record; a query for hosts keeps its status; either is done once its last child is, and waits on before. Nothing else changes, and consistency holds. |
| `Resolver.Resolver.QueryFail` | src/adnsquery.c:613-618 | The same with a failure status. |
| `Resolver.Resolver.AnswerParent` | src/adnstypes.c:507-527 | The callback of a host address, and of a reverse look-up, decides what becomes of the parent, as the row above says. |
| `QueryEndings.ChildEnds` | src/adnstypes.c:806-837 | That decision, told by the table before and after. |
| `Resolver.Resolver.Unhook` | src/adnsquery.c:599-605 | The child is freed, the parent is off childw with one child less. |
| `QueryEndings.FinishedSettles` | src/adnsquery.c:568-611 | Finishing a query puts nothing on the network and touches only the query, its children, its parent and its siblings. |
| `QueryEndings.FinishedAfterChildless` | src/adnsquery.c:613-618 | Failing after cancelling the children is failing. |
| `Resolver.Resolver.TcpBroken` | src/adnsevent.c:54-74 | The next server is up, the buffers are empty; every query waiting for TCP has one more try counted exactly if the connection was still being made. |
| `Resolver.Resolver.TcpConnected` | src/adnsevent.c:76-91 | Queries waiting for TCP are sent in order, each counted once, until writing one of them breaks the connection. |
| `Resolver.Resolver.TryConnect` | src/adnsevent.c:93-160 | A closed connection is being made, with its time limit set. |
| `Resolver.Resolver.QuerySendTcp` | src/adnstransmit.c:194-270 | If connected, one more try is counted; the connection breaks exactly if nothing waited to be sent and the write fails; otherwise the bytes sent and those that wait are those from before and the message behind its length, but for one case. |
| `QuerySending.OneByteSpoils` | src/adnstransmit.c:254-263 | The case: exactly one byte was taken at once, and the two bytes of the length differ. |
| `Resolver.Resolver.PutOut` | src/adnstransmit.c:254-269 | What was taken at once and what is kept make up what goes out. |
| `Resolver.Resolver.UseTcp` | src/adnstransmit.c:272-280 | The query waits on tcpw with its time limit, sent if connected. |
| `Resolver.Resolver.QuerySend` | src/adnstransmit.c:282-325 | A query goes to TCP if asked to or if the datagram is refused as too big, to the next server in turn otherwise, or fails with a timeout after UDPMAXRETRIES; nothing else changes. |
| `QuerySending.UdpSentOk` | src/adnstransmit.c:300-323 | Servers are asked in rotation from the first, udpsent is exactly the set of servers asked, and indices stay in range. |
| `QuerySending.HeaderSays` | src/adnstransmit.c:44-73 | The message of a query carries its id, asks for recursion, has one question, of class IN, and no records. |
| `QuerySending.TypeBehind` | src/adnstransmit.c:75-85 | The type a message asks for is behind its name. |
| `QuerySending.OneQuestion` | src/adnstransmit.c:44-155 | The message of one query, byte for byte. |
| `QuerySending.MessageIsFrame` | src/adnstransmit.c:212-213 | What is sent over TCP for a query its receiver finds as one payload. |
| `QuerySending.TriedInOrder` | src/adnsquery.c:163-205 | The names tried are a prefix of bare-then-entries or entries-then-bare, and all of it exactly when none is left. |
| `QuerySending.PoppedRemaining` | src/adnsquery.c:168-184 | Each step takes the first name that remains and leaves the others. |
| `Resolver.Resolver.SearchNext` | src/adnsquery.c:163-205 | The mutual recursion ends: names too long are passed over, the first other name is asked for or refused, and exhaustion fails with nxdomain; a name that ends inside an escape is read on into what the search buffer held before. |
| `Resolver.Resolver.QuerySimple` | src/adnsquery.c:137-161 | The query is made for the text where it lies in memory and sent, fails with the status of the text, or the search goes on; it goes wrong exactly if the reader leaves the text or the query is not to be sent. |
| `Resolver.Resolver.Submit` | src/adnsquery.c:224-305 | A new query is asked for the first usable name of its search order, in the documented order, or is done with the documented status; a trailing dot turns the search off; only a search that quotes can leave its text, and it does exactly where the name it settles on does. |
| `QuerySending.PlainSettles` | src/adnsquery.c:255-299 | Without a search the name is read where the caller has it and a cut escape is refused. |
| `QuerySending.WholeNames` | src/adnsquery.c:163-205 | A search stays within its names if it does not quote or none of them ends inside an escape. |
| `QuerySending.OnlySearchStrays` | src/adnsquery.c:224-305 | A submission leaves its text only if it searches, quotes, and has a name that ends inside an escape. |
| `QuerySending.SearchStrays` | src/adnsquery.c:188-200 | The owner a\ tried bare after a search entry leaves its text. |
| `Resolver.Resolver.BeginSearch` | src/adnsquery.c:270-281 | The bare name comes first exactly if it has at least ndots dots. |
| `QuerySending.DotsCount` | src/adnsquery.c:276-277 | Dots are counted wherever they are. |
| `Resolver.Resolver.SubmitChild` | src/adnstypes.c:565-589 | A parent being processed gains a child that waits for the network, asking for the address of the given name, of type A, quoting, without a search, over UDP, and refusing aliases exactly if the parent asks for hosts and is not loose about them; nothing else changes; it goes wrong exactly if the name does not fit the bytes its datagram has. |
| `Resolver.Resolver.StartChild` | src/adnsquery.c:117-135 | The child is sent with its message, is what SubmitChild says, and its parent lists it. |
| `Resolver.Resolver.SubmitChildren` | src/adnsreply.c:406-426 | One child for each record that asks for one, in order, up to the first whose name does not fit. |
| `Resolver.Resolver.Reply` | src/adnsreply.c:34-477 | A datagram is handled for the first query on the queue whose id and one question it repeats, if from a server that was asked, and dropped otherwise; a top-level query ends, waits, or is asked again as what the datagram holds calls for. When that goes wrong is said exactly, see QueryReplies.RepliedAborts. |
| `Resolver.Resolver.Interpret` | src/adnsreply.c:183-477 | The step a reply calls for is taken, with the alias it may carry remembered. |
| `Resolver.Resolver.NoRecords` | src/adnsreply.c:306-381 | A reply without records of the type goes to the search, fails, or restarts at the alias. |
| `Resolver.Resolver.TakeRecords` | src/adnsreply.c:383-437 | A query whose records need other look-ups waits in childw with one child for each, as SubmitChild makes them; otherwise it is done; a bad record fails it and its new children are gone. |
| `Resolver.Resolver.Resend` | src/adnsreply.c:439-477 | A truncated answer is asked for again over TCP, and a restarted one at its alias, with its tries counted afresh; it goes wrong exactly if the alias does not fit its datagram. |
| `QueryReplies.RepliedAborts` | src/adnsreply.c:186-477 | The exact condition under which a reply makes the code go wrong: a circle of pointers; an NXDOMAIN without records in a search whose next usable name ends inside an escape or is asked for while the query waits over TCP; an alias or a further name that does not fit its datagram; or more records on the second pass than on the first. |
| `QueryReplies.ReplyMeans` | src/adnsreply.c:301-477 | What becomes of a top-level query, case by case of what the reply holds. |
| `QueryReplies.ForWhom` | src/adnsreply.c:96-124 | Which query a datagram is for, by its bytes. |
| `QueryReplies.Flags` | src/adnsreply.c:54-66 | Where the flags of a message lie. |
| `QueryReplies.BroodFails` | src/adnsreply.c:417-422 | Children submitted for an answer that then fails leave no trace. |
| `Resolver.Resolver.TimeoutsQueue` | src/adnsevent.c:237-264 | The acting pass goes back to the head after every query it acts on and still ends, with no query on its queue past its time; each top-level query is untouched or was woken once. |
| `Resolver.Resolver.Wake` | src/adnsevent.c:256-260 | A query past its time is sent again, or fails over TCP. |
| `QueryTimeouts.PassedMore` | src/adnsevent.c:256-261 | Every action leaves strictly fewer queries past their time. |
| `Resolver.Resolver.PurgeTcp` | src/adnsevent.c:274-288 | Of the queries waiting for TCP exactly those tried on every server fail, with allservfail; if the one saved as the next is gone by then, the two were asked for one reverse look-up. |
| `Resolver.Resolver.TcpEvents` | src/adnsevent.c:266-336 | The loop over connection states ends with nothing to do; at most one more try is counted for each query. |
| `Resolver.Resolver.ProcessTimeouts` | src/adnsevent.c:338-363 | Afterwards no query is past its time and the connection has nothing to do. A query waiting over UDP is untouched before its time, else sent once more, moved to TCP, or failed; one over TCP times out exactly past its time, else it is tried at most once more and fails only if that is one try too many for all servers; a query waiting for children is untouched unless one of them could fail. |
| `QueryTimeouts.PassTicks` | src/adnsevent.c:338-363 | What a pass makes of a query waiting over UDP. |
| `QueryTimeouts.PassTcpTicks` | src/adnsevent.c:338-363 | What a pass makes of a query waiting over TCP. |
| `QueryTimeouts.PassParents` | src/adnsevent.c:338-363 | Queries keep their type and parent, top-level ones stay, and parents change only through children that could fail. |
| `Resolver.Resolver.FirstTimeout` | src/adnsevent.c:237-352 | The time reported is the least of max(0, deadline - now) over the queued queries and the TCP timer, attained by one of them, and there is none exactly when nothing waits. It is zero if an acting pass has something to do now; otherwise such a pass finds nothing to do until the time is up, and something a moment later. |
| `Resolver.Resolver.DueTells` | src/adnsevent.c:237-352 | That connection between the reporting pass and the acting one. |
| `Resolver.Resolver.QueueDue` | src/adnsevent.c:237-264 | The reporting pass over one queue. |
| `Resolver.Resolver.Check` | src/adnsevent.c:810-835 | ESRCH is answered only when nothing at all is outstanding; EAGAIN only while some query waits for the network, so that a wait has a time limit; an answer is the head of the output queue, or the query asked about, and is gone afterwards. |
| `Resolver.Resolver.Finish` | src/adnssetup.c:768-782 | All queues are empty, nothing is left, every query was freed exactly once. |
| `SilentNetwork.AsksInTurn` | src/adnstransmit.c:282-325 | A query no server answers is sent to the servers in turn, each attempt after the one before timed out, and fails with a timeout after exactly UDPMAXRETRIES attempts; only a datagram too big takes it elsewhere. |
| `SilentNetwork.TimesOut` | src/adnstransmit.c:294-298 | Enough readings of the clock, each late enough, end it. |
| `SilentNetwork.ServersAsked` | src/adnstransmit.c:321-322 | udpsent is exactly the set of servers the attempts reached: all of them if there are no more than attempts. |
| `SilentNetwork.Wait` | src/adnsevent.c:237-264 | Processing timeouts at any readings of the clock makes of the record exactly what the passes say: it waits, has timed out, or went to TCP with its attempts as they were. |
| `SilentNetwork.AskInVain` | src/adnsquery.c:224-305 | From submission to the end, with no datagram too big: a query one of whose names can be asked for asks for that name, of the servers in turn, UDPMAXRETRIES times, each time after the one before timed out, and is done with a timeout; its record is what the passes at the given readings of the clock make of it; any other is done at once with the status of its name. |
| `Arena.QueryMemory.MakeFinal` | src/adnsquery.c:524-566 | Every string, table and block of the answer lies in the one answer block, after the answer itself, whole and apart from the others; the counter never falls below zero. |
| `Arena.QueryMemory.FundsAnswer` | src/adnsquery.c:380-402 | The rounded charges taken while parsing cover what the answer holds. |
| `Arena.QueryMemory.ReadAnswer` | src/adnsreply.c:383-428 | Parsing a reply keeps the charges sufficient, for every type of record in the table. |
| `Arena.QueryMemory.TakeAddresses` | src/adnstypes.c:507-520 | Handing addresses from child to parent conserves the sum of the two counters and keeps both sufficient. |
| `Arena.QueryMemory.Reset` | src/adnsquery.c:458-465 | What is preserved stays covered when the rest is given up. |
| `Arena.QueryMemory.SaveCname` | src/adnsreply.c:266-279 | Preserved memory for the alias is covered. |
| `Arena.QueryMemory.SaveOwner` | src/adnsquery.c:207-222 | Preserved memory for the owner is covered. |
| `Arena.QueryMemory.AllocFinal` | src/adnsquery.c:431-446 | Pieces are carved one after another, each rounded. |
| `Arena.PieceByPiece` | src/adnstypes.c:1202-1223 | For every type of record, what its parser allocates and what its mf_ function copies are piece for piece the same or larger. |
| `Arena.Unused` | src/adnstypes.c:380-400 | How much more is charged than copied: one byte for every domain name, none for a string. |
| `Arena.RecordsFunded` | src/adnsquery.c:366-446 | So are the rounded sums over all records of an answer. |
| `Arena.RoundMonotone` | include/adnsinternal.h:739-741 | Rounding keeps order. |
| `Arena.RoundMultiple` | include/adnsinternal.h:739-741 | What rounding gives is a multiple. |
| `Arena.StringSurvives` | src/adnsquery.c:620-632 | A string keeps all its bytes exactly if none is zero: a TXT string with a zero byte is cut there although its length still counts all. |
| `Timevals.Timeval.Add` | include/adnstvarith.h:35-47 | Adding milliseconds adds exactly that many and keeps the microseconds below a million. |
| `Timevals.LeastUntil` | src/adnsevent.c:217-235 | The time left until a deadline, zero if past, counts towards the least so far; the struct stays normal. |
| `Timevals.Least` | src/adnsevent.c:199-215 | The running least, in a buffer once there is one. |
| `QueryLists.QueryList.LinkTail` | include/adnsdlist.h:46-52 | The doubly linked list with head and tail grows by the node at its end. |
| `QueryLists.QueryList.Unlink` | include/adnsdlist.h:38-44 | The list loses exactly that node, from any position, without a search; on its queries that is the removal the resolver specifies. |
| `Sequences.DropWithout` | include/adnsdlist.h:38-44 | Without repetition, dropping a position is removing the element. |
| `QueryLists.AllQueries.Begin` | src/adnssetup.c:799-806 | The iteration starts at the first node of the first non-empty queue. |
| `QueryLists.AllQueries.Next` | src/adnssetup.c:808-841 | The iteration visits the four queues in order and yields each query without a parent exactly once; at the end it answers null and stays where it is. |
| `QueryLists.AllQueries.Following` | src/adnssetup.c:815-833 | From the tail of a queue the iteration goes on at the first later queue that is not empty. |
| `Resolver.Resolver.QuerySubmit` | src/adnsquery.c:93-115 | The query gets its id and message and is sent; the assertion fails exactly for a query that is not to be sent. |
| `Resolver.Resolver.SendDatagram` | src/adnstransmit.c:300-324 | The query joins the end of udpw with the next server asked. |
| `WireNames.MatchNext` | src/adnsparse.c:226-256 | One label against one label: equal ignoring case, or the names differ. |

## Left out

- Gateway.MessageGateway.DoOutput: returns, saying so, where the loop of the code goes on turning over
  without an effect.
- Gateway.MessageGateway.DoInput: likewise.
- RoundTrip.UnflattenOfFlatten: images below 2^32 bytes; sizes are mathematical integers and the wrap
  of a uint32 is not modelled.
- CodecMethods.UnflattenMessage: reads that go past the end of the buffer, on bytes that are no image,
  end in the outcome Stray, about which nothing more is said. What the message holds after an error
  return is not stated.
- WireNames.FindLabelState.Next: returns, saying so, where the code goes round in a circle of pointers.
- WireNames.CompareOwner: the walk over the owner only; the fields that follow it are
  ResourceRecords.FindRr.
- Resolver.Resolver.TryConnect: connecting is asynchronous and creating a socket succeeds.
- Resolver.Resolver.Reply: the parser of each record type is an input (RecordParser), a function of where
  the data lie: an entry, an entry that asks for the addresses of a host, or no good. Interpret, NoRecords
  and TakeRecords are handed what was read.
- Resolver.Resolver.PurgeTcp: repeated from the head, where the code goes on at the query it saved, unless
  that is gone. That it is gone only between two queries for one reverse look-up is stated; which of them
  the walk meets next to each other is not.
- Resolver.Resolver.AnswerParent: the child is freed before the parent is looked at, after its status
  was noted; the code frees it when the callback returns. The address comparison of a reverse look-up
  is an input.
- Resolver.Resolver.Submit: the processing of pending events at the end of adns_submit.
- MessageHeap.CloneMessage: a message has its fields as a sequence; the links between them are
  FieldList's, whose ownership in turn goes one level down.
- Arena.QueryMemory.MakeFinal: pointers inside the table of records are places in the block, not bytes
  of it.
- TcpStream.TcpReceiver.ProcessReadable: the socket read is an input, and so is of which messages the
  processing breaks the connection; what adns__procdgram does with one is the Resolver's.
- MMMoveField and MMCopyField, which free or link another field than the one they mean to.
- adns_globalsystemfailure, which fails queries that are still on their queue.
- Running out of memory.
- Resolver's queues are sequences of query numbers and its query records a map; QueryLists ties the
  linked structures to such sequences.
- How long an answer may be kept (adns__update_expires).
- The formatting of records as text, configuration, diagnostics, signals.
- What the reader of a name does after it has left the text.
- neousers, persistentusers and handle_dead_channel, channel modes and topics, module events.
- The rest of NeoStats: bots, commands, CTCP, DCC, authentication, bans, configuration, modules, Perl.
