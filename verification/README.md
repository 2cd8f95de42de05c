# PredictClaw verification

A Dafny model of the parts of the Python client in `predict/` whose correctness is not visible from
one function body, with proofs about whole runs of them:

- the MCP stdio transport: a buffered reader that accepts newline-delimited JSON and Content-Length
  blocks on one stream (MCP specification revision 2024-11-05, "Transports", stdio; Language Server
  Protocol base protocol, "Header Part"), the JSON-RPC 2.0 request correlator on top of it, and the
  bridge's connect, close and tool gate;
- the position journal: a list in a JSON file with a linear-scan upsert, written beside and renamed
  over, shared by threads; and the merge of that journal with reported positions;
- the order payload normaliser and the two implementations of null removal;
- hedge portfolios: coverage arithmetic with half-even rounding, tiers, filters and sort; mark prices;
  the paged market search;
- the retry loop, the buy with its polling and balance gate, withdrawals, and the way of a typed amount
  from its text to wei;
- question matching and the PASS verdict of the session-event compatibility check.

Code that changes state is modelled as classes and loops (`StdioClient.Client`, `Bridge.McpBridge`,
`PositionJournal.PositionStorage`, `Trade.TradeService`, `Funding.Wallet`,
`CompatibilityGate.ReasonLog`, and the loops of the null remover, the order normaliser, the search, the
merge, the scan and the retry loop). Each method is tied to a function, and the theorems are about
these functions and about the state machines in `Correlation` and `JournalThreads`. The operating
system may split the child's output into any reads; threads may interleave in any order.

Verify with `dafny verify dfyconfig.toml`.

## What the code does not do

Some expected properties do not hold of the code as it is. For each of these the project proves exactly
when it holds, and most come with a witness.

- A header block is only recognised when Content-Length is its first header, although the header order
  of such a block is free (`FramingRoundTrip.LengthHeaderMustComeFirst`, `ContentTypeFirst`).
- Reading a negative number of bytes depends on what happens to be buffered
  (`StdioClient.ExactReadIndependent`; `NegativeReads` lists all results).
- A failing header block takes the messages behind it with it (`Correlation.BodyLosesMessages`,
  `HeadersLoseMessages`).
- A request whose id was answered before it was written does not get that answer
  (`Correlation.OwnAnswerIffNotEarly`, `EarlyAnswerIsMissed`).
- A dash in a market and an outcome can make two pairs share a position id
  (`PositionJournal.PositionIdsCollideIff`).
- Serialising an order twice loses an order field whose key camelises to a meta field name. Keys that
  merely collide with each other do no harm (`OrderPayload.SerializeIdempotentIff`, `HijackExample`).
- The two null removers differ on tuples (`NullRemoval.NullRemoversAgreeIff`).
- A reported position is lost in the merge when its token is tracked and absent, empty, or repeated
  later (`PositionMerge.NothingLostIff`, `EmptyTokenIsLost`, `NullTokenIsLost`, `RepeatedTokenIsLost`).
- With a negative decimal precision the YES and NO marks do not add up to one
  (`MarkPrice.MarksSumToOneIff`).
- The market view and the positions view price a half-quoted market differently
  (`MarkPrice.MarkRulesAgreeIff`).
- For a negative balance the reported shortfall is too small (`Trade.ShortfallIsLeastIff`).
- An order can exist without a journal record. One cause can be seen beforehand: an amount such as
  `1__000`, which Decimal() reads and float() does not (`Trade.UnrecordedOrderIff`,
  `UnderscoresLoseRecord`, `AmountText.FloatRejectsIff`).
- An amount of more than 28 significant digits can convert to other wei than it is worth
  (`DecimalAmount.WeiIsFloorIff`, `TooManyNines`, `TooManyTokens`).
- Gas is not part of the withdrawal's headroom check, so an accepted withdrawal can leave less than the
  headroom (`Funding.HeadroomAfterGas`, `HeadroomSurvivesIff`).
- Nobody compares the vault and the executor inside the simulated and the prepared mandate
  (`PassVerdict.OneChange`).
- A market with a blank question fits every reference (`QuestionMatching.FitsEveryQuestionIff`).

## Model

| member | source | states |
|---|---|---|
| Framing.ParseDecimal | predict/lib/mandated_mcp_bridge.py:764 | a length written in decimal is read back as that number |
| Framing.ParseIntIff | predict/lib/mandated_mcp_bridge.py:764 | a header value is a length if and only if it is a sign or none and digits, with single underscores between digits, and then it is that number |
| Framing.Utf8Append | predict/lib/mandated_mcp_bridge.py:719-721 | bytes after a valid UTF-8 text decode exactly when they are valid by themselves |
| Framing.BlockKey | predict/lib/mandated_mcp_bridge.py:728-743 | a line that opens a block has its first colon right after the name Content-Length |
| Framing.NextMessageProgress | predict/lib/mandated_mcp_bridge.py:708-781 | every read of a non-empty stream takes at least one byte and leaves a suffix of it, whatever error it meets |
| Framing.MissingLengthUnreachable | predict/lib/mandated_mcp_bridge.py:728-757 | the error for an omitted Content-Length header is never raised |
| FramingRoundTrip.FrameStep | predict/lib/mandated_mcp_bridge.py:708-781 | one frame in either framing is read as its message, and exactly its bytes are taken |
| FramingRoundTrip.RoundTrip | predict/lib/mandated_mcp_bridge.py:708-781 | any sequence of messages in any mix of the two framings, with padding, extra headers and any header-name case, reads back as that sequence, after which the stream is empty |
| FramingRoundTrip.StandardBlockCarries | predict/lib/mandated_mcp_bridge.py:728-764 | a Content-Length header in any case with the body's length in decimal, followed by any other headers and a blank line, is such a frame |
| FramingRoundTrip.LengthHeaderMustComeFirst | predict/lib/mandated_mcp_bridge.py:728-747 | a well-formed block delivers its body if and only if its first header is Content-Length |
| FramingRoundTrip.ContentTypeFirst | predict/lib/mandated_mcp_bridge.py:728-780 | a well-formed block that starts with Content-Type is not read as its body |
| FramingRoundTrip.BadLineCostsOneLine | predict/lib/mandated_mcp_bridge.py:719-781 | a line that is neither a message nor the start of a block raises the fitting error and costs exactly that line |
| FramingRoundTrip.TruncatedBody | predict/lib/mandated_mcp_bridge.py:762-771 | a body cut off by the end of the stream fails the read and leaves nothing |
| FramingRoundTrip.BlockMeetsBadHeader | predict/lib/mandated_mcp_bridge.py:734-748 | a header block takes every following line with a colon for a header, and raises at the first line without one, which it takes too |
| FramingRoundTrip.BlockMeetsUndecodable | predict/lib/mandated_mcp_bridge.py:744-748 | so it does at a line that is no UTF-8 |
| FramingRoundTrip.BlockNeverEnds | predict/lib/mandated_mcp_bridge.py:744-748 | a block without an end takes the whole stream |
| FramingRoundTrip.BlockBadLength | predict/lib/mandated_mcp_bridge.py:750-771 | a length that is no number costs the headers and the blank line only |
| FramingRoundTrip.BlockBadBody | predict/lib/mandated_mcp_bridge.py:762-781 | a body that is no object costs the block and exactly its announced length |
| FramingRoundTrip.UnterminatedLastLine | predict/lib/mandated_mcp_bridge.py:796-802 | the last line of the stream is a message even without its newline |
| Utf8.ValidIffEncoded | predict/lib/mandated_mcp_bridge.py:719-721 | bytes decode if and only if they are the UTF-8 encoding (by division and remainder) of some sequence of code points, and no two texts share an encoding |
| Utf8.EveryTextArrives | predict/lib/mandated_mcp_bridge.py:708-781 | messages made of any characters, in any mix of the two framings and with blanks around the lines, read back in order, after which the stream is empty |
| Utf8.LineArrivesIff | predict/lib/mandated_mcp_bridge.py:719-781 | a line whose text parses to an object is delivered if and only if it is the encoding of some text, and costs that line either way |
| StdioClient.Process.Read | predict/lib/mandated_mcp_bridge.py:795-797 | the pipe hands over any non-empty prefix of at most n bytes, and nothing exactly at the end |
| StdioClient.ExactReadIndependent | predict/lib/mandated_mcp_bridge.py:805-829 | what reading exactly n bytes gives and leaves depends on buffer + unread alone if and only if n is not negative |
| StdioClient.NegativeReads | predict/lib/mandated_mcp_bridge.py:812-829 | for a negative n the possible results are exactly the empty prefix and the prefixes that leave at least -n bytes |
| StdioClient.Client.ReadStdoutLine | predict/lib/mandated_mcp_bridge.py:783-803 | for every way the pipe splits its bytes: the first line of buffer + unread, leaving exactly the rest |
| StdioClient.Client.ReadStdoutExactly | predict/lib/mandated_mcp_bridge.py:805-829 | for every way the pipe splits its bytes: the first n bytes, or the incomplete-read error with everything that was left |
| StdioClient.Client.ReadMessage | predict/lib/mandated_mcp_bridge.py:708-781 | result and remaining stream are those of one read of buffer + unread, and after a negative Content-Length one of those that NegativeReads lists; stdin is untouched |
| StdioClient.Client.WriteMessage | predict/lib/mandated_mcp_bridge.py:697-706 | one newline-terminated line is sent, or an error without a process; when writing or draining raises, some first part of the line was sent |
| StdioClient.Client.Notify | predict/lib/mandated_mcp_bridge.py:653-660 | one line is written, or writing raises, and nothing is read |
| StdioClient.Client.Request | predict/lib/mandated_mcp_bridge.py:662-695 | takes the next id, writes one line with it, and consumes the stream up to the first message carrying that id, skipping only others; when writing raises nothing is read |
| StdioClient.Client.Start | predict/lib/mandated_mcp_bridge.py:577-593 | the greeting and, when it was answered with a result, the ready notice; when any of it fails the client is closed and the child has exited |
| BridgeRuns.GreetingSays | predict/lib/mandated_mcp_bridge.py:577-593 | the greeting asks for revision 2024-11-05 of the protocol and says who is calling; the notice behind it has no parameters |
| StdioClient.Client.Close | predict/lib/mandated_mcp_bridge.py:595-615 | the process is forgotten, its stdin is closed and it has exited, after no signal, a termination, or a termination and a kill |
| Correlation.AnswersIff | predict/lib/mandated_mcp_bridge.py:676-678 | a message answers the one request whose number is its id, however that number is written, and no other; without an id or with a text for one it answers none |
| Correlation.RequestReturns | predict/lib/mandated_mcp_bridge.py:675-695 | on framed messages a request returns what the first message with its id says (an error object, a result object, or neither), and what is left are the frames behind it |
| Correlation.NoiseChangesNothing | predict/lib/mandated_mcp_bridge.py:675-678 | two streams that differ in messages without a numeric id only, wherever these stand and however they are framed: any number of requests ends alike on both, and what is left differs in such messages only |
| Correlation.AwaitOnFrames | predict/lib/mandated_mcp_bridge.py:675-695 | on framed messages a request can only end with the first one that carries its id, leaving everything after it, or with the end of the process when there is none |
| Correlation.RequestsOnFrames | predict/lib/mandated_mcp_bridge.py:662-695 | any number of requests in a row on one stream each get the first message with their id that their predecessors left, and leave the frames of the rest |
| Correlation.RequestsOnPieces | predict/lib/mandated_mcp_bridge.py:662-695 | the same on streams that mix framed messages with bad lines and failing blocks, each of which ends one request |
| Correlation.EveryRequestServed | predict/lib/mandated_mcp_bridge.py:662-695 | over every run, with writes and reads that raise and messages lost in failing blocks, ids count up by one; an answered request got the first message with its id read after it was written, and one that raised had read none |
| Correlation.OwnAnswerIffNotEarly | predict/lib/mandated_mcp_bridge.py:662-695 | the answer a request got is the first ever given to its id if and only if nothing consumed before it was written carries that id |
| Correlation.EarlyAnswerIsMissed | predict/lib/mandated_mcp_bridge.py:675-678 | a run in which it is not |
| Correlation.CausalChildAnswersEach | predict/lib/mandated_mcp_bridge.py:662-695 | when the child never answers an id before it is issued, every answered request got its own first answer, whatever notifications, stale replies, failures and losses are interleaved |
| Correlation.ReadLoopFinishes | predict/lib/mandated_mcp_bridge.py:675-695 | the read loop of a request consumes exactly the messages up to its first answer |
| Correlation.RequestOnBytes | predict/lib/mandated_mcp_bridge.py:675-695 | on the byte stream of the pending messages a request ends with the same message, and the bytes left carry the messages left |
| Correlation.RaiseOnBytes | predict/lib/mandated_mcp_bridge.py:675-695 | a read that raises ends the open request, and the bytes left carry the messages that the raising step leaves |
| Correlation.WriteFailsOnBytes | predict/lib/mandated_mcp_bridge.py:662-673 | a write that raises ends the request, uses up its id, and leaves the stream and the pending messages as they were |
| Correlation.BadLineLosesNone | predict/lib/mandated_mcp_bridge.py:719-781 | a bad line loses no message |
| Correlation.BodyLosesMessages | predict/lib/mandated_mcp_bridge.py:762-771 | a block whose length covers the next messages loses them |
| Correlation.BodyLosesAll | predict/lib/mandated_mcp_bridge.py:762-771 | one whose length goes beyond the end of the stream loses all |
| Correlation.HeadersLoseMessages | predict/lib/mandated_mcp_bridge.py:734-748 | a block without its blank line takes the messages behind it for headers, up to the first line that is none |
| Correlation.HeadersLoseAll | predict/lib/mandated_mcp_bridge.py:734-748 | and all of them when there is no such line |
| Correlation.WrittenReadsBack | predict/lib/mandated_mcp_bridge.py:697-706 | the lines a client wrote read back as exactly the messages it sent |
| Bridge.GateMeaning | predict/lib/mandated_mcp_bridge.py:1503-1526 | a call may go ahead if and only if its tool is offered and so is its own list, or else, for a transaction preparation, a ready runtime; a refusal names only tools that are not offered |
| Bridge.ReadyIff | predict/lib/mandated_mcp_bridge.py:904-917 | a runtime is ready if and only if it bootstraps vaults or offers all three tools of version 1 |
| Bridge.McpBridge.Introduce | predict/lib/mandated_mcp_bridge.py:919-934 | the tools kept are exactly those listed in the answer to id 2 after a good answer to id 1; after any failure there is no client, no tool and no running child |
| Bridge.McpBridge.Connect | predict/lib/mandated_mcp_bridge.py:919-934 | connecting twice changes nothing; otherwise what is sent, read and kept, in success and in each failure |
| Bridge.McpBridge.ListTools | predict/lib/mandated_mcp_bridge.py:623-632 | one request, whose answer is the tool list or an error |
| Bridge.McpBridge.Close | predict/lib/mandated_mcp_bridge.py:936-941 | no client, no tools, no process, and the child has exited; closing twice changes nothing |
| Bridge.McpBridge.CallTool | predict/lib/mandated_mcp_bridge.py:1480-1501 | connected or not: a shut gate sends and reads nothing more; an open one sends exactly one request for the tool and returns what the reply with its id says |
| Bridge.McpBridge.CallConnected | predict/lib/mandated_mcp_bridge.py:1489-1501 | the part of it behind the connect |
| Bridge.CallSends | predict/lib/mandated_mcp_bridge.py:1495-1501 | an open call sends one line whose parameters hold the name of the tool and, under "arguments", exactly the nodes of its arguments that a null-free path reaches, in order |
| BridgeRuns.ConnectKeeps | predict/lib/mandated_mcp_bridge.py:919-934 | on framed messages a connect that succeeds found a result under id 1 and behind it one under id 2, keeps exactly the tools this lists, sent three lines, and leaves the frames behind the second answer |
| BridgeRuns.CallReturns | predict/lib/mandated_mcp_bridge.py:1489-1501 | on framed messages an open call returns the structured content of the first message with its id, or the error that message calls for |
| NullRemoval.DropNoneValues | predict/lib/mandated_mcp_bridge.py:518-535 | the bridge's loops compute the cleaned tree of the theorems below |
| NullRemoval.NullRemoversAgreeIff | predict/lib/mandated_mcp_bridge.py:518-535 | the bridge's and the REST client's null removal give the same tree if and only if the input holds no tuple |
| NullRemoval.CleanedIsFixedPoint | predict/lib/mandated_mcp_bridge.py:518-535 | no null is left below the root, and cleaning again with either implementation changes nothing |
| NullRemoval.CleanedKeepsNodes | predict/lib/mandated_mcp_bridge.py:518-535 | exactly the nodes reached by a null-free path are kept, under the same path and in the same order |
| NullRemoval.DroppedIdempotent | predict/lib/api.py:275-284 | the REST client's version is idempotent, tuples included |
| OrderPayload.CamelKeyIdempotent | predict/lib/api.py:268-272 | a camelised key holds no underscore, so camelising again changes nothing |
| OrderPayload.CamelRoundTrip | predict/lib/api.py:268-272 | putting the underscores back into a camelised key in snake case gives the key |
| OrderPayload.CamelizedLookup | predict/lib/api.py:260-265 | what an order holds under a key is the value of the last field that camelises to it, is not null and is none of the seven meta fields; nothing when there is no such field |
| OrderPayload.NormalizeCreateOrderData | predict/lib/api.py:243-257 | the loop over the meta fields computes the normal form of the theorems below |
| OrderPayload.NormalizedForm | predict/lib/api.py:225-257 | the normal form is the camelised order followed by each present meta field once, an alias winning over the plain name, without nulls |
| OrderPayload.MetaSent | predict/lib/api.py:225-257 | each of the four meta fields is sent under its camel-case name, without nulls, the snake-case one winning where it is present |
| OrderPayload.SerializeIdempotentIff | predict/lib/api.py:236-265 | serialising twice is serialising once if and only if no order field camelises into a meta field name |
| OrderPayload.HijackExample | predict/lib/api.py:260-265 | a payload on which it is not |
| OrderPayload.ShapesSerializeAlike | predict/lib/api.py:236-265 | the flat, order-wrapped and data-wrapped forms of one order serialise identically |
| PositionJournal.WrittenKeysWin | predict/lib/position_storage.py:57-80 | an object that holds what is written for a record reads as that record, whatever else it holds |
| PositionJournal.OlderKeysNotWritten | predict/lib/position_storage.py:35-55 | none of the seven older keys is written |
| PositionJournal.RecordRoundTrip | predict/lib/position_storage.py:34-80 | a record read back is the record written, whatever its fields hold |
| PositionJournal.OlderRoundTrip | predict/lib/position_storage.py:57-80 | a record under the seven older key names reads as the same record, the order taking the status of the position |
| PositionJournal.EmptyRecord | predict/lib/position_storage.py:57-80 | the defaults, read from an empty object |
| PositionJournal.WrittenIsListed | predict/lib/position_storage.py:115-129 | the journal written is the journal listed |
| PositionJournal.UpsertIsMapUpdate | predict/lib/position_storage.py:92-109 | on any journal an upsert sets its own id and leaves what every other id reads as |
| PositionJournal.UpsertKeepsOrder | predict/lib/position_storage.py:98-109 | ids keep their order; a new one goes to the end |
| PositionJournal.RunRefinesMap | predict/lib/position_storage.py:92-109 | a run of upserts on any journal appends new ids in first-insertion order, and each id reads as its last written record, or as before |
| PositionJournal.JournalRefinesMap | predict/lib/position_storage.py:92-109 | after any run of upserts from an empty journal ids are unique, in first-insertion order, and each reads as its last written record |
| PositionJournal.PositionStorage.GetPositionById | predict/lib/position_storage.py:92-96 | the first listed record with the id |
| PositionJournal.PositionStorage.Upsert | predict/lib/position_storage.py:98-109 | the file holds exactly the upserted list and the temporary file is gone; one that raises leaves the file as it was |
| PositionJournal.PositionStorage.Seed | predict/lib/position_storage.py:111-113 | the file holds exactly the given list, or is as it was when writing raises |
| PositionJournal.PositionStorage.WritePayload | predict/lib/position_storage.py:126-129 | the file lists exactly what was written, or is as it was when writing or renaming raises |
| PositionJournal.PositionIdsCollideIff | predict/lib/trade_service.py:278 | two different pairs of market and outcome share a position id if and only if a dash-separated piece at the end of one market stands in front of the other outcome |
| PositionJournal.NoDashNoCollision | predict/lib/trade_service.py:278 | so ids are unique for outcomes without a dash and for markets without one |
| PositionJournal.OutcomesCanCollideIff | predict/lib/trade_service.py:278 | two outcomes share an id in some two markets if and only if one ends in a dash followed by the other |
| JournalThreads.InvStep | predict/lib/position_storage.py:98-129 | every step of every thread, a step that raises, and a crash keep the invariant of file, lock and temporary file, and never take back a completed operation |
| JournalThreads.EveryInterleaving | predict/lib/position_storage.py:98-129 | in every reachable state, whatever raised, the file is whole and lists what the completed operations give one after another in lock order |
| JournalThreads.ReadersSeeWholeLists | predict/lib/position_storage.py:115-129 | a reader without the lock, at any point and after any crash, sees the complete list after some prefix of the completed operations |
| JournalThreads.ReleasedIsLogged | predict/lib/position_storage.py:98-113 | an operation that returns has taken effect |
| JournalThreads.OperationCompletes | predict/lib/position_storage.py:98-129 | an operation that gets the lock and is not interrupted ends with the lock free and the file listing what it makes of the list before |
| JournalThreads.RunCompletes | predict/lib/position_storage.py:98-129 | so in every reachable state with a free lock a thread that wants to run an operation can complete it |
| JournalThreads.NoDeadlock | predict/lib/position_storage.py:98-129 | in every reachable state the holder of the lock, or any thread when it is free, has a next step; a raise before the replace leaves the file as it was and frees the lock |
| JournalThreads.ConcurrentUpsertsRefineMap | predict/lib/position_storage.py:98-129 | concurrent upserts from no file give the map of the upserts in lock order |
| PositionMerge.DictKeepsLast | predict/lib/positions_service.py:112-114 | the lookup table finds the last remote position with a token |
| PositionMerge.MergePositions | predict/lib/positions_service.py:107-184 | the two loops compute the merge of the theorems below, marks and profit included; they raise exactly when a local token is a list or an object |
| PositionMerge.MergeKeepsEverything | predict/lib/positions_service.py:107-184 | one view per local position in order, then exactly the untracked remote positions in order |
| PositionMerge.TrackedTakesLastRemote | predict/lib/positions_service.py:116-144 | a tracked token takes quantity and status from the last remote position carrying it, where that one has them, and its profit is computed from that quantity |
| PositionMerge.UnreportedStaysLocal | predict/lib/positions_service.py:116-144 | a token nobody reports, and one that is empty or no text, keeps the local figures |
| PositionMerge.ViewsMean | predict/lib/positions_service.py:107-184 | every view is priced on the side of its outcome, in any letter case; a local one has the profit of the last reported or else its own quantity; an external one says what was reported, with the stated fallbacks |
| PositionMerge.NothingLostIff | predict/lib/positions_service.py:112-159 | no remote position is lost if and only if the tracked tokens among them are there, non-empty and pairwise distinct |
| PositionMerge.LostLeavesNoTrace | predict/lib/positions_service.py:112-184 | a lost position can be removed without changing the merge |
| PositionMerge.EmptyTokenIsLost | predict/lib/positions_service.py:112-159 | the first kind of loss |
| PositionMerge.NullTokenIsLost | predict/lib/positions_service.py:155-159 | the second kind of loss: no token on both sides |
| PositionMerge.RepeatedTokenIsLost | predict/lib/positions_service.py:112-114 | the third kind of loss |
| PositionMerge.DefaultListingIsLocal | predict/lib/positions_service.py:91-99 | the default listing is exactly the open, non-external local views |
| StableSort.SortSorts | predict/lib/coverage.py:138-146 | the sort gives a sorted permutation |
| StableSort.SortIsStable | predict/lib/coverage.py:138-146 | elements with equal keys keep their order |
| StableSort.AnyStableSort | predict/lib/coverage.py:138-146 | any sorted, stable arrangement of the input is this result, whatever algorithm made it |
| StableSort.FilterSort | predict/lib/hedge_service.py:53-57 | filtering before sorting is filtering after sorting |
| Rounding.RoundNearest | predict/lib/coverage.py:62-66 | round() is the nearest integer, the even one at midpoints, and nothing else is |
| Rounding.Round4Complement | predict/lib/coverage.py:62-66 | rounding to four places keeps complements to one |
| Rounding.Round4Monotone | predict/lib/coverage.py:62-66 | rounding to four places is monotone |
| MarkPrice.MarksSumToOneIff | predict/lib/market_service.py:181-202 | the YES and NO marks add up to one if and only if the precision is not negative |
| MarkPrice.MarksMean | predict/lib/market_service.py:181-202 | the YES mark is the rounded middle of both sides, else the last sale, else the one side there is, else one half; the NO mark is the rounded rest |
| MarkPrice.MarksInUnit | predict/lib/market_service.py:181-202 | quotes between 0 and 1 give marks between 0 and 1, whatever the precision |
| MarkPrice.MarkRulesAgreeIff | predict/lib/positions_service.py:208-240 | the positions view prices like the market view at every precision if and only if both sides are quoted, or the unrounded prices happen to be equal |
| Hedge.RoundingConservesProbability | predict/lib/coverage.py:54-66 | coverage and loss probability add up to one, before and after rounding |
| Hedge.TierIsThreshold | predict/lib/coverage.py:69-73 | a tier of at most k means coverage of at least k's threshold |
| Hedge.BuildPortfolioBuilds | predict/lib/coverage.py:76-123 | every portfolio built has the tier of its coverage, coverage of at least 0.85, a cost in (0, 2] and conserved probability |
| Hedge.BuildPortfolioIff | predict/lib/coverage.py:76-123 | a portfolio is built exactly when its rounded cost is positive and at most 2 and its rounded coverage at least 0.85 |
| Hedge.TierKeyIsRedundant | predict/lib/coverage.py:138-146 | on built portfolios sorting by (tier, -coverage, cost) is sorting by (-coverage, cost) |
| Hedge.TierFilterIsCoverageFilter | predict/lib/coverage.py:126-135 | on built portfolios the tier filter is a coverage-threshold filter |
| Hedge.ScanIsAnalyze | predict/scripts/hedge.py:95-108 | the scan's filter-then-sort lists what the analyze command's sort-then-filter lists, up to the tier limit |
| Hedge.ScanLists | predict/lib/hedge_service.py:53-57 | the scan lists every portfolio found within both limits, as often as it was found, and no other: better tier first, then more coverage, then less cost |
| Hedge.ScanPortfolios | predict/lib/hedge_service.py:100-119 | the anchor paired with each candidate in order; nothing for fewer than two markets |
| Hedge.FoundExactly | predict/lib/hedge_service.py:100-176 | a scan finds, in candidate order, one portfolio for each candidate that is related and costs something, and its sides, prices, cost, coverage, loss and profit are those the marks of the two markets give |
| Hedge.OneLegPays | predict/lib/hedge_service.py:162-196 | however the two markets turn out, as long as the implication the verdict claims holds, at least one leg of the portfolio pays |
| Hedge.PairIsTierOne | predict/lib/hedge_service.py:121-176 | with marks in [0, 1] every pair's portfolio has coverage of at least 0.98 and tier 1; a related pair gives one exactly when its rounded cost is positive |
| Hedge.FoundIsTierOne | predict/lib/hedge_service.py:100-176 | so does every portfolio of a whole scan |
| Hedge.ScanDropsNothing | predict/lib/hedge_service.py:37-57 | for any tier limit of at least 1 and coverage limit up to 0.98 the filters drop nothing |
| Hedge.QuotedSummaryInRange | predict/lib/market_service.py:104-132 | the summary of a market quoted in [0, 1] has such marks |
| Hedge.SearchedScanDropsNothing | predict/lib/hedge_service.py:37-57 | from catalogue to scan: over the answer of any search of markets quoted in [0, 1] the scan finds tier 1 portfolios only and drops none |
| MarketSearch.EnrichMarkets | predict/lib/market_service.py:104-132 | one summary per market in order, marks included, or an error when some market's figures cannot be loaded |
| MarketSearch.SummaryMeans | predict/lib/market_service.py:104-132 | a summary has the question or else the title, the marks of what was loaded, two digits unless another number of them is given, and the loaded volume unless it is zero |
| MarketSearch.CollectMatches | predict/lib/market_service.py:48-68 | the page loop with its early stop collects the matches among the first 500 open markets |
| MarketSearch.MatchesIff | predict/lib/market_service.py:52-68 | a market matches if and only if its title, question or category mentions the query, blanks around the query and letter case apart |
| MarketSearch.WindowIs | predict/lib/fixture_api.py:27-38 | the markets searched are the first 500 with status OPEN, in catalogue order |
| MarketSearch.Search | predict/lib/market_service.py:48-74 | it fails exactly when the figures of some match cannot be loaded; otherwise the answer is the exact top of the matches among the first 500 open markets, each counted once |
| MarketSearch.EveryMatchCollectedOnce | predict/lib/fixture_api.py:27-38 | each of these matches is collected exactly once and in catalogue order, and nothing else is |
| MarketSearch.AnswerIsTop | predict/lib/market_service.py:70-74 | the first part of the ranking is the exact top of the list (by volume, ties in catalogue order, nothing omitted has more volume than anything returned), and the only list that is |
| RetryLoop.RequestJson | predict/lib/api.py:141-188 | for every outcome trace: the result of attempt min(k, attempts - 1), one request more than sleeps, and the final raise reached exactly when no attempt is allowed |
| RetryLoop.SleepTotal | predict/lib/api.py:141-174 | after n retries the total sleep is backoff * n(n+1)/2 |
| RetryLoop.TransientResultMeansAllTried | predict/lib/api.py:141-174 | a transient final outcome means every allowed attempt met a transient outcome |
| RetryLoop.RepeatedIff | predict/lib/api.py:144-174 | an attempt is repeated if and only if attempts are left and it, like all before it, met a transport error, status 429 or a status from 500 to 599 |
| RetryLoop.LastAttemptReturns | predict/lib/api.py:156-182 | the last attempt made returns an error for a transport error and for a status from 400 to 599, and otherwise its JSON body; a client error other than 429 fails at once |
| AmountText.FloatRejectsIff | predict/lib/trade_service.py:381-388 | on a text that Decimal() reads, float() raises if and only if it holds an underscore not between two digits or one of four separator characters |
| AmountText.DoubledUnderscore | predict/lib/trade_service.py:240 | such texts: two underscores between digits |
| AmountText.SeparatorInFront | predict/lib/trade_service.py:240 | and a separator in front of digits |
| Numerals.DecimalReadsIff | predict/lib/funding_service.py:297-306 | Decimal() reads a text if and only if it is a numeral once blanks around it and underscores are gone, and reads the number it denotes: sign, digits by place, exponent |
| Numerals.FloatReads | predict/lib/trade_service.py:240 | float() reads what Decimal() reads, as the same number, unless the text holds a misplaced underscore or a separator, and nothing else |
| Numerals.BothRead | predict/lib/trade_service.py:381-388 | a numeral between blanks is read by both as the number it denotes |
| Numerals.TypedAmount | predict/lib/trade_service.py:381-388 | a whole number, a point and digits, 28 in all at most, are worth that number times 10^18 plus the first eighteen places, and float() reads the number written |
| DecimalAmount.RoundedIs | predict/lib/trade_service.py:381-388 | a product of more than 28 digits is rounded to 28, to the nearest and at midpoints to even; any other is kept |
| DecimalAmount.WeiIsFloor | predict/lib/funding_service.py:297-306 | up to 28 significant digits the wei are the floor of amount * 10^18, or 0 when not positive |
| DecimalAmount.WeiMonotone | predict/lib/trade_service.py:381-388 | a larger amount never gives fewer wei, whatever the number of digits |
| DecimalAmount.WeiIsFloorIff | predict/lib/funding_service.py:297-306 | with any number of digits the wei are the floor if and only if rounding to 28 digits neither carries into the whole number nor rounds away whole wei |
| DecimalAmount.TooManyNines | predict/lib/funding_service.py:297-306 | from 29 nines behind the point on the result is one more than the floor |
| DecimalAmount.TooManyTokens | predict/lib/funding_service.py:297-306 | from 29 nines before the point on whole wei are rounded away |
| Funding.Wallet.Withdraw | predict/lib/funding_service.py:240-287 | exactly one transfer of the decided amount, which may raise, or the fitting error and no transfer |
| Funding.TransferMoves | predict/lib/funding_service.py:271-287 | a transfer moves its amount, even when it raises after moving it, and nothing else but gas in BNB |
| Funding.AssetNames | predict/lib/funding_service.py:247-249 | usdt and bnb, in any letter case, are the two assets; every other name is refused |
| Funding.TypedWithdrawal | predict/lib/funding_service.py:256-287 | a typed amount is sent to the wei, and exactly when it is positive, BNB is above the headroom and the balance covers it |
| Funding.HeadroomTyped | predict/lib/funding_service.py:33 | the headroom is what "0.0001" is worth |
| Funding.AllIsGreatest | predict/lib/funding_service.py:256-287 | withdraw-all sends the greatest amount an explicit withdrawal would be allowed, and is refused exactly when each of them is |
| Funding.RunConserves | predict/lib/funding_service.py:240-287 | over any run the balances, what each withdrawal moved on the balances it met, and the gas add up to the opening balances and the deposits |
| Funding.HeadroomAfterGas | predict/lib/funding_service.py:256-279 | an accepted withdrawal leaves the headroom if and only if its gas fits above it; the BNB amounts that do are exactly those up to withdraw-all less the gas |
| Funding.HeadroomSurvivesIff | predict/lib/funding_service.py:256-279 | the headroom survives a whole run if and only if it is there at the start and the gas of each accepted withdrawal fits |
| Funding.RunKeepsHeadroom | predict/lib/funding_service.py:256-287 | over any run the wallet never falls below the headroom by more than one fee, below it nothing is accepted, and USDT stays non-negative |
| Funding.WithdrawAllLocksWallet | predict/lib/funding_service.py:256-287 | after a confirmed BNB withdraw-all every later withdrawal is refused until BNB is added |
| Trade.TradeService.Buy | predict/lib/trade_service.py:100-258 | effects in order, result and journal of one buy |
| Trade.TradeService.PlaceOrder | predict/lib/trade_service.py:151-258 | the same from the market lookup on |
| Trade.TradeService.PollStatus | predict/lib/trade_service.py:221-228 | at most fifteen status queries, stopping at the first filled or open answer |
| Trade.TradeService.PersistLocalPosition | predict/lib/trade_service.py:260-301 | exactly one record is upserted, or reading or writing the file raises and the journal is as it was |
| Trade.BuyShape | predict/lib/trade_service.py:100-258 | one buy makes at most one order and fifteen queries; it writes the journal exactly when it returns a result, last, after one order, with a record that says what the result says; an overlay buy orders only when balance >= amount > 0 |
| Trade.BoughtIsJournalled | predict/lib/trade_service.py:100-301 | a buy that returns a result made exactly these calls in this order, polled until the first filled or open answer, returned the hash, status and fill of what it saw, and its record, field by field, is what the journal then holds under pos-market-outcome |
| Trade.TypedBuy | predict/lib/trade_service.py:240 | the order is for the typed amount to the wei, and the record notes the number typed |
| Trade.UnrecordedOrderIff | predict/lib/trade_service.py:205-258 | an order is called for without a journal record if and only if everything before the call goes through and then the call, one of the first fifteen status queries after unsettled answers only, float() on the typed amount, or writing the journal raises |
| Trade.UnderscoresLoseRecord | predict/lib/trade_service.py:240 | an amount typed with two underscores between its digits does so with no call raising and no write failing |
| Trade.RunOfBuys | predict/lib/trade_service.py:100-258 | over any run of buys on any journal: never more writes than orders, and each position id reads as the record of the last successful buy that wrote it, or as before |
| Trade.OneRecordPerOutcome | predict/lib/trade_service.py:260-301 | where no other pair shares its position id, and so wherever outcomes have no dash, a market and outcome reads as the record of its last successful buy |
| Trade.ShortfallIsLeastIff | predict/lib/trade_service.py:447 | the reported shortfall is the least deposit that makes the retry pass if and only if the balance is not negative; a negative balance counts as zero |
| Trade.RetryAfterDeposit | predict/lib/trade_service.py:129-145 | depositing the shortfall lets the same buy through the gate, and one wei less does not |
| QuestionMatching.SplitJoin | predict/lib/hedge_matching.py:7-8 | words joined with single spaces split into the same words |
| QuestionMatching.NormalizeIdempotent | predict/lib/hedge_matching.py:7-8 | normalising is idempotent, and joining undoes splitting on its output |
| QuestionMatching.SplitSpaced | predict/lib/hedge_matching.py:7-8 | splitting finds exactly the words, however they are spaced |
| QuestionMatching.SameQuestionIff | predict/lib/hedge_matching.py:7-8 | two questions have one normal form if and only if they are made of the same words in the same order, whatever the letter case and the spacing |
| QuestionMatching.ClassMeans | predict/lib/hedge_matching.py:11-30 | the three classes of fit: the id; the same words; one question part of the other |
| QuestionMatching.MatchIsBest | predict/lib/hedge_matching.py:11-30 | the answer is the first market of the best class (id, equal, containment), and none exactly when no market fits |
| QuestionMatching.MatchDependsOnNormalForm | predict/lib/hedge_matching.py:7-30 | questions with the same normal form get the same answer |
| QuestionMatching.BlankQuestionMatchesAnything | predict/lib/hedge_matching.py:11-30 | with a blank-question market anywhere in the list every reference is answered |
| QuestionMatching.FitsEveryQuestionIff | predict/lib/hedge_matching.py:22-29 | a market fits every question if and only if its own is blank |
| CompatibilityGate.ReasonLog.AppendUnique | predict/scripts/poc_session_event_compatibility.py:189-191 | a reason is appended unless it is already there |
| CompatibilityGate.ReasonsAreFirstOccurrences | predict/scripts/poc_session_event_compatibility.py:189-191 | the list holds the first occurrence of everything appended, without duplicates |
| CompatibilityGate.SufficientIff | predict/scripts/poc_session_event_compatibility.py:244-283 | a field's evidence is sufficient if and only if all its sources hold one and the same present normalised value, which is then the canonical one |
| CompatibilityGate.EvidenceShows | predict/scripts/poc_session_event_compatibility.py:259-283 | the evidence lists as missing the paths of exactly those sources that hold nothing, and shows a canonical value exactly when some source holds one and no two differ |
| CompatibilityGate.FieldsAsDeclared | predict/scripts/poc_session_event_compatibility.py:48-179 | the fields that are checked are those of the published field set, in its order, with sources at its paths |
| CompatibilityGate.RequiredRuntimeFieldEvidence | predict/scripts/poc_session_event_compatibility.py:286-497 | the gaps of all required fields, in order |
| CompatibilityGate.NoBindingGapsIff | predict/scripts/poc_session_event_compatibility.py:286-497 | no gap if and only if every required field agrees in all its sources and payloadBinding is actionsDigest |
| CompatibilityGate.BindingGapsSay | predict/scripts/poc_session_event_compatibility.py:491-497 | every published field that is not agreed on is named in a gap, and so is a payload not bound to the actions digest |
| CompatibilityGate.SessionTransitionEvidence | predict/scripts/poc_session_event_compatibility.py:528-596 | the gaps of the failed transition checks, in order |
| CompatibilityGate.SessionGapsSay | predict/scripts/poc_session_event_compatibility.py:566-579 | each condition on the session that fails is named in a gap |
| CompatibilityGate.ResultGapsSay | predict/scripts/poc_session_event_compatibility.py:580-585 | each condition on the funding result and the follow-up that fails is named in a gap |
| CompatibilityGate.NextGapsSay | predict/scripts/poc_session_event_compatibility.py:586-589 | a next step that is absent or another one is named in a gap |
| CompatibilityGate.PlanGapsSay | predict/scripts/poc_session_event_compatibility.py:590-595 | token, recipient and amount of the created transfer that differ from the plan are named in a gap, addresses apart from letter case |
| CompatibilityGate.NoTransitionGapsIff | predict/scripts/poc_session_event_compatibility.py:528-596 | no gap if and only if the session moved from pendingFunding to pendingFollowUp with the created transfer |
| CompatibilityGate.NoHashStillSound | predict/scripts/poc_session_event_compatibility.py:570-596 | the transaction hash is only compared, so a transition without one passes too |
| CompatibilityGate.ProceedsIff | predict/scripts/poc_session_event_compatibility.py:877-891 | the runtime is asked if and only if the configuration is complete and no reason says missing or invalid |
| CompatibilityGate.RunCheck | predict/scripts/poc_session_event_compatibility.py:633-908 | the reasons are the first occurrences of everything found, and PASS needs strong evidence and no reason |
| CompatibilityGate.ReasonsSay | predict/scripts/poc_session_event_compatibility.py:660-822 | a run that asked the runtime gives as reasons each session tool that is not offered, what kept it from being evaluated, and every gap |
| CompatibilityGate.PassIff | predict/scripts/poc_session_event_compatibility.py:797-908 | PASS if and only if the configuration raised nothing, the runtime is ready with the three session tools, the binding is sound and the transition is sound |
| PassVerdict.TextsSame | predict/scripts/poc_session_event_compatibility.py:244-256 | texts count as the same when they are, apart from blanks around them and, in an address, from letter case; a blank text is not there |
| PassVerdict.ValuesSame | predict/scripts/poc_session_event_compatibility.py:244-256 | an empty list or object is not there; others count as their dump or as they are shown |
| PassVerdict.BindingSoundIff | predict/scripts/poc_session_event_compatibility.py:286-497 | the required fields agree if and only if the plan is sound member by member: the call is what the summary shows, the simulated execution is the prepared one, and both agree with context and signed mandate |
| PassVerdict.PassMeans | predict/scripts/poc_session_event_compatibility.py:633-908 | PASS if and only if configuration, tools, plan and transition are sound, with the plan stated over its members |
| PassVerdict.OneChange | predict/scripts/poc_session_event_compatibility.py:286-497 | after changing any one member of the plan of a passing run it still passes if and only if the new value counts as the old one; two members only have to be there, and the vault and executor inside the simulated and prepared mandates are not looked at |

## Left out

- StdioClient.Client.Close: the task that collects stderr is not modelled.
- StdioClient.NegativeReads: any buffer content is allowed for; that one read fetches at most 65536 bytes is not used.
- Bridge.McpBridge.Connect: the command line, the environment and the start of the process are one parameter, the child or null.
- PositionMerge.MergePositions: the marks, the questions and the reading of a quantity are parameters; a market lookup that raises ends the merge and is not modelled; the other fields of a journal record are text.
- Trade.TradeService.Buy: authentication is part of the calls that may raise; a task that is cancelled between two calls is not modelled.
- Correlation.RequestsOnPieces: a block with a negative Content-Length is no piece, because what it takes is not fixed (`StdioClient.NegativeReads`).
- AmountText.FloatRejectsIff: ASCII text and finite numbers; the recorded amount is exact, not the nearest binary number.
- Trade.BuyShape: counts calls of the API client; the retry loop below one call may send its request several times (`RetryLoop.RequestJson` counts these).
- Hedge.ScanIsAnalyze: compares the two pipelines on the same portfolios; how the analyze command finds its pair is not modelled.
- CompatibilityGate.RunCheck: the gaps read out of a plan error's text are given, not computed from it; configuration loading is given by its reasons.
- What the child will ever write is one unread byte sequence, fixed in advance; in Correlation the child chooses its messages step by step.
- JSON text parsing and printing are parameters: a reader from bytes to messages, which accepts only texts that open an object, and a writer that prints one ASCII line between braces.
- Stderr capture, return codes and redaction of error texts.
- Blank, case and digit rules outside ASCII, such as stripping U+00A0, and the interpreter's limit on the number of digits of an integer.
- Two processes sharing one journal: the lock is per process. The file system's rename is atomic; its caching is not modelled.
- Null removal on dictionaries whose keys are not strings.
- Binary floating point: prices and volumes are exact rationals.
- Decimal NaN and infinity, and the limits on decimal exponents.
- A catalogue that changes between two pages of a search.
- Ready-made fixture wallets and the fixture purchase, trending and market details.
- Transfers, signing, hashing and the SDK behind them; the Solidity contracts.
- Configuration validation, authentication, the language-model clients, table formatting and the other scripts: straight-line checks and wrappers.
