# Verification of Simple Forwarder

Simple Forwarder is a local proxy written in Rust. It accepts SOCKS4, SOCKS4a, SOCKS5 and HTTP clients, reaches the
target directly or through an upstream SOCKS5 or HTTP proxy, relays bytes both ways, and shows its connections in a
table. This project models its stateful parts in Dafny and proves what they promise:

* **Connection table and window** (`Tracker.dfy`, `TrafficWindow.dfy`): the tracker with ids taken before the lock, and
  the tick that turns two snapshots into row notices. The argument for the tick rests on the tracker never reordering
  what survives, not on ascending ids. Both are proved, for every interleaving.
* **Incremental parsers** (`HeaderSearch.dfy`, `HeadReader.dfy`, `Socks4.dfy`): a search that is resumed over a growing
  buffer gives, for every way the stream is cut into reads, what one search of the whole stream gives, and no byte is
  lost.
* **Handshakes** (`Socks5.dfy`, `Socks5Server.dfy`, `Socks5Client.dfy`, `HttpText.dfy`, `HttpConnect.dfy`,
  `HttpChannel.dfy`): between two chained forwarders SOCKS5 as two machines over two byte channels, and either side
  against any other peer; HTTP CONNECT as printer, parser and reply over two streams, and again as two machines over
  channels that stay open.
* **Header filter** (`HopByHop.dfy`): what survives, idempotence, and that a forwarded head is one head.
* **Relay and lifecycle** (`Relay.dfy`, `Tunnel.dfy`, `Server.dfy`): two pumps, the select loop with its linger timer,
  byte counters, permits and statuses, for any number of connections at once; and the handover from a handshake to the
  relay, where no byte is lost, doubled or reordered.
* **Small concurrent protocols** (`ExeResolver.dfy`, `Reload.dfy`): the two-lock name cache, and the configuration
  watcher with its channel of capacity one.

What travels on the wire or is shown is stated twice: by the functions that the code is proved against, and by
predicates on octets, words, fields and records (`IsRequest`, `MessageOctets`, `Obeys`, `Survives`, `ShowsTable`,
`LeftOf` and others) that use none of these functions; lemmas prove that the two agree on every input.

`Basics.dfy` and `Streams.dfy` hold shared types; `ByteSource.Read` returns any non-empty chunk up to the requested
size, so a contract proved over it holds for every fragmentation. Code that updates state in place is a class with
methods proved against a function or relation, and what the source promises is then proved about that function or
relation; concurrent behaviour is a transition system, and a run is any finite sequence of its steps.

Where a promise turned out not to hold on every input, the project proves exactly when it does:

* A CONNECT request comes back as the same host and port exactly for the hosts that `HttpConnect.Transmissible`
  describes. Of the other hosts without whitespace one with an opening and no closing bracket is refused, and every one
  else is cut at its first closing bracket and its port falls back to 443 (`CutHost`, `CutHostExample`).
* A reload can be missed until the next notification, in two ways. A change that is not reported as a modification goes
  unnoticed: one between the first read of the configuration and the beginning of the watch (`Reload.StartupGap`), or
  one that reaches the watcher as another kind of event or as an error (`Reload.IgnoredChange`). And an attempt that
  times out or cannot read the file is not repeated (`Reload.FailedAttempt`). At rest a missing newest version means one
  of the two; when the last attempt did not fail it is missing exactly when the newest unreported change is newer than
  what was loaded last (`Reload.RestIsCurrent`).
* The cached name and the cached pid of a port need not belong together. In every interleaving they have done so up to
  a state exactly when no scan of the connection table has recorded a pid while the name of some other pid was cached:
  no other step parts them (`ExeResolver.TogetherUntilScan`), and a run that does so is reachable
  (`ExeResolver.OvertakenScan`).
* The comment in src/traffic_window.rs:368-382 argues that insertions bring the view to the new snapshot. This holds
  exactly when the surviving rows keep their relative order (`TrafficWindow.IdsMatchIffSameOrder`), which the tracker
  guarantees (`Tracker.OrderIsStable`) although its ids need not be ascending (`Tracker.OrderNotAscending`).
* The notices of a tick are in range on a view other than the one they were made for exactly when they suit its length
  (`TrafficWindow.NoticesInRangeIff`). After the resize branch they need not: once the row it lost goes away, the next
  tick names an index beyond the view (`TrafficWindow.ResizeLosesRow`, `TrafficWindow.LostRowGoes`).
* Which error a SOCKS4 request gets is independent of how the reads fell exactly when the fields behind its header never
  end, end by byte 1025, or end behind byte 1280 (`Socks4.ErrorIndependentOfReads`). In between, the same bytes are too
  long as a whole for one split and break a limit for another (`Socks4.TwoErrors`, `Socks4.TwoErrorsExample`).

## Model

| member | source | states |
|---|---|---|
| Streams.ByteSource.Read | src/proxy_server.rs:514-520 | a read takes a non-empty chunk of bounded size off the front of what the peer sends, or nothing at its end, and is counted |
| Streams.ByteSource.ReadExact | src/proxy_server.rs:253-254 | exactly the next n bytes, or failure when the stream is shorter, whatever the chunks |
| HeaderSearch.FindHeaderSeparator | src/util.rs:7-23 | the index loop returns the end of the first separator beginning at most 3 bytes before the resume point, and looks at exactly the positions from there up to it, or up to the end |
| HeaderSearch.SearchFromMeaning | src/util.rs:11-22 | the search finds the least position at or behind its start where a separator begins, and nothing only if there is none |
| HeaderSearch.LookedMeaning | src/util.rs:11-22 | it looks at every position up to the separator it finds, or up to the last but one, and at no other |
| HeaderSearch.SearchIsLeast | src/util.rs:7-23 | a full search returns the least offset at which the bytes so far end in an empty line |
| HeaderSearch.LeastIsSearch | src/util.rs:7-23 | conversely, the least such offset is what the search returns |
| HeaderSearch.ResumedSearchExact | src/util.rs:11-22 | a resumed search equals the full search if and only if no separator begins in the part it skips |
| HeaderSearch.ResumedSearch | src/util.rs:11-22 | it does equal it whenever the first start_pos bytes held no separator, so stepping back 3 bytes is enough |
| HeaderSearch.SearchPrefix | src/util.rs:7-23 | a prefix of the stream shows the separator exactly when it reaches past its end |
| HeadReader.ReadHead | src/proxy_server.rs:497-522 | for every fragmentation the reader gives what one search of the whole stream gives, including which error; head, leftover and unread make up the stream; it reads on only while the buffer is within the limit and holds no head, so at most limit + 1024 bytes are ever taken and less than a chunk past the head; the number of reads and the positions looked at are exact |
| HeadReader.GrowthBounded | src/proxy_server.rs:502-521 | of such a loop the buffer stays within limit + 1024, and it looks at no more positions than bytes it has plus 3 for each read |
| HeadReader.ReadHttpHeaders | src/proxy_server.rs:497-522 | the same for the server, with all bounds, with the detected first byte in front and a limit of 16384 |
| HeadReader.ReadConnectResponse | src/proxy_client.rs:304-329 | the same for the client's reply, with all bounds, with a limit of 8192 |
| HeadReader.HeadOfMeaning | src/proxy_server.rs:503-519 | success if and only if a head ends within the limit; closed if and only if all of the stream fits the limit and no head ends in it |
| HopByHop.TrimAsciiBytes | src/proxy_server.rs:524-540 | the two loops remove exactly the octets 9, 10, 12, 13 and 32 at both ends |
| HopByHop.TrimIff | src/proxy_server.rs:524-540 | there is only one way to trim |
| HopByHop.SplitIff | src/proxy_server.rs:581 | splitting a value gives exactly the pieces without the separator that, joined by it, are the value |
| HopByHop.FieldIff | src/proxy_server.rs:542-549 | a line is a field exactly when it has a colon with a name before it: the name before the first colon and the value behind it, both trimmed |
| HopByHop.HeaderLinesNext | src/proxy_server.rs:551-556 | lines that end in a line feed, with or without a carriage return, are read one by one and as they are; empty ones are left out |
| HopByHop.HeaderLinesLast | src/proxy_server.rs:551-556 | so is a last line without its end |
| HopByHop.ListsIff | src/proxy_server.rs:574-587 | the names a line contributes are exactly the non-empty trimmed members of its list when it is a Connection field, up to case |
| HopByHop.CollectTokens | src/proxy_server.rs:574-587 | the first pass collects exactly the lower-cased names that are members of the comma-separated list of some Connection field, whatever its case and its blanks |
| HopByHop.RenderKept | src/proxy_server.rs:589-606 | the second pass writes the kept lines in order, each ended anew, and one empty line |
| HopByHop.FilterHopByHopHeaders | src/proxy_server.rs:558-607 | the two passes leave exactly the surviving lines, in their order: the fields that are none of the nine fixed ones and no member of the list of any Connection field before or after them |
| HopByHop.RenderedLines | src/proxy_server.rs:551-556 | any lines the iterator can yield are read back from a rendered section as they were |
| HopByHop.FilterKeepsSurvivors | src/proxy_server.rs:558-607 | re-reading the output yields exactly the surviving lines, each as often as it came and in their order |
| HopByHop.FilterIdempotent | src/proxy_server.rs:558-607 | filtering twice is filtering once |
| HopByHop.OneHead | src/proxy_server.rs:717-735 | a line whose only newline is last, header lines and an empty line can end as a head only at the very end |
| HopByHop.ForwardedHeadIsOneHead | src/proxy_server.rs:717-735 | a forwarded head is exactly one head, for every byte string that came as headers |
| HttpText.ParsePrintedPort | src/proxy_server.rs:646 | every printed decimal port is parsed to itself and never falls back to 443 |
| HttpText.DecimalDigits | src/proxy_client.rs:289-293 | a printed number is its decimal digits, as many as it has, in ASCII |
| HttpText.ParseU16Iff | src/proxy_server.rs:646 | a text is parsed as a port exactly when it writes that port: an optional plus sign, any zeros, its digits |
| HttpText.WordsIff | src/proxy_server.rs:627 | a text is split into exactly the words that spell it with white space between them, for the 25 white-space code points |
| HttpText.UpperCaseIs | src/proxy_server.rs:638 | upper case forgets exactly the case of ASCII letters |
| HttpConnect.AuthorityIff | src/proxy_server.rs:639-658 | exactly what is parsed from an authority: the host in brackets up to the first closing one, or up to the last colon, or all of it; a port that is written, or 443; refused is only an opening bracket without a closing one |
| HttpConnect.ConnectMeans | src/proxy_server.rs:617-639 | a head is a CONNECT by the first word of its first line, in any case, and names its target by the second |
| HttpConnect.RequestBytes | src/proxy_client.rs:283-295 | the request, octet for octet |
| HttpConnect.ReplyBytes | src/proxy_server.rs:683-696 | the two replies, octet for octet |
| HttpConnect.ReplyMeans | src/proxy_client.rs:331-356 | any reply is judged by its first line, whatever ends it: at least twelve characters that begin with HTTP/, and a second word that writes the status, or 0 |
| HttpConnect.ForwardedMeans | src/proxy_server.rs:699-735 | what is forwarded of a request is its own first line, or for an absolute URI method, origin form and version with single spaces, and exactly the surviving fields |
| HttpConnect.RequestMeans | src/proxy_server.rs:617-671 | the target is that of the second word, read as an authority for CONNECT and located as a URI otherwise; refused are too few words, an unclosed bracket and a URI that points nowhere |
| HttpConnect.ParsedRequest | src/proxy_server.rs:617-658 | the parser reaches the authority of the printed request for every host without whitespace |
| HttpConnect.ConnectRoundTrip | src/proxy_client.rs:283-293 | the printed request is parsed to the unbracketed host and the port if and only if the host is transmissible |
| HttpConnect.CutHost | src/proxy_server.rs:639-650 | every other host without whitespace: refused when it opens a bracket and closes none, otherwise cut at its first closing bracket, with port 443 |
| HttpConnect.CutHostExample | src/proxy_server.rs:639-650 | one such host, with a port that is lost |
| HttpConnect.RequestIsOneHead | src/proxy_client.rs:289-295 | the printed request is one head whatever follows it |
| HttpConnect.ChainedConnect | src/proxy_server.rs:615-658 | for ASCII hosts the second forwarder splits off exactly the request and reads back the target; only a request over 16384 bytes is refused |
| HttpConnect.ForwardedOnce | src/proxy_server.rs:617-735 | whatever head arrived, what is forwarded of a request other than CONNECT, rewritten line and filtered fields, is exactly one head |
| HttpConnect.HandleHttp | src/proxy_server.rs:609-749 | for every fragmentation and method, in terms of the client's own words: a CONNECT is told by its first word and dials the authority in its second; any other request is located by its second word and forwarded as its first line, or method, origin form and version, with exactly the surviving fields; 200, 502 or the reason of a refusal; no byte is lost |
| HttpConnect.AwaitReply | src/proxy_client.rs:304-356 | for every fragmentation: the reply is judged by its status code, and the bytes behind its head are the target's |
| HttpConnect.ReplyRead | src/proxy_client.rs:331-356 | any reply with a three-digit code is one head and is accepted exactly for code 200 |
| HttpConnect.EstablishedAccepted | src/proxy_server.rs:692-696 | the client accepts the 200 reply and splits it off from whatever the target sends |
| HttpConnect.BadGatewayRefused | src/proxy_server.rs:683-687 | the client reads the failure reply as status 502 |
| HttpConnect.Exchange | src/proxy_client.rs:275-357 | the whole exchange for ASCII hosts: the dialed target is the client's, early client bytes and the target's first bytes come out untouched, an unreachable target shows as 502 |
| HttpChannel.ServerLooksAt | src/proxy_server.rs:502-658 | over a growing buffer the server dials exactly when it has all of the request, and then the client's target |
| HttpChannel.ClientLooksAt | src/proxy_client.rs:307-356 | over a growing buffer the client decides exactly when it has all of the reply, and keeps what came with it |
| HttpChannel.StepKeeps | src/proxy_client.rs:289-329 | every read, write or dial, in the handshake or in the tunnel behind it, keeps both sides at one place in the exchange and uses up work |
| HttpChannel.RunInv | src/proxy_client.rs:275-357 | so every reachable state is at such a place, and no run is longer than the work in it |
| HttpChannel.NoDeadlock | src/proxy_server.rs:502-696 | both sides are never waiting for each other |
| HttpChannel.ExchangeOutcome | src/proxy_client.rs:275-357 | over channels that stay open every run can go on or has finished; what either tunnel has got is always a prefix of what the other side says; at the end the server has dialed exactly the client's target and both sides have got everything, or the client was told 502 |
| Socks4.ReadRequest | src/proxy_server.rs:246-334 | for every fragmentation: host, port and leftover follow from the octets of the stream alone, every error has its reason in them, and an unsupported command is answered 0x5B |
| Socks4.HandleSocks4 | src/proxy_server.rs:246-376 | the whole handler: the request by its octets or the reason why there is none, the dial, and exactly one reply of eight octets with 0x5A or 0x5B, or none |
| Socks4.ReadBody | src/proxy_server.rs:262-334 | the same for the part behind the fixed header, with the two length limits; success or the error is the verdict of some way in which the reads fell |
| Socks4.ReadFields | src/proxy_server.rs:269-302 | the loop finds the terminators that one search of the whole stream finds, keeps every byte and at most 1280 of them, and is a function of how the reads fell |
| Socks4.LoopFixed | src/proxy_server.rs:289-301 | what that function returns whatever the reads, unless the fields end within the last permitted read |
| Socks4.AllowedIsReached | src/proxy_server.rs:293-325 | an error is allowed for a stream if and only if some way of cutting it produces it |
| Socks4.ErrorIndependentOfReads | src/proxy_server.rs:293-325 | the error is the same for all ways of cutting if and only if the fields never end, end by byte 1025 or end behind byte 1280 |
| Socks4.TwoErrors | src/proxy_server.rs:293-325 | otherwise one way gives the handshake and another one the field as too long |
| Socks4.TwoErrorsExample | src/proxy_server.rs:293-313 | a user id of 1100 bytes gets both errors |
| Socks4.Locate | src/proxy_server.rs:276-287 | remembering a terminator gives what searching again would give |
| Socks4.FindFieldsGrows | src/proxy_server.rs:275-302 | more bytes never move terminators already found, and an incomplete buffer stops short of the end of the fields |
| Socks4.ParseIff | src/proxy_server.rs:253-334 | exactly these octets are a request: command 1, the port with its high octet first, an address, a user id of at most 255 octets and, behind the address 0.0.0.x, a name of at most 253, both ended by 0 |
| Socks4.FailureExplained | src/proxy_server.rs:293-325 | every failure has its reason in the octets |
| Socks4.ParseEncoded | src/proxy_server.rs:253-334 | every well-formed request, user id up to 255 and domain up to 253 bytes, is parsed to its own host, port and length; the 1024-byte guard never rejects it |
| Socks4.ParsedIsEncoded | src/proxy_server.rs:253-334 | conversely, what is parsed is the encoding of the result |
| Socks5.ScriptsShaped | src/proxy_client.rs:165-231 | what both sides say in a conversation, octet for octet: greeting, request with its address type and its port high octet first, method choice and reply |
| Socks5.ServerCompletes | src/proxy_server.rs:392-477 | a completed read of the client's bytes takes the server on to the next part of this conversation with the address or port the client encoded |
| Socks5.ClientCompletes | src/proxy_client.rs:172-268 | a completed read of the server's bytes takes the client on to the next part, and it reads exactly the reply |
| Socks5.StepKeeps | src/proxy_server.rs:386-495 | every read, write or dial keeps both sides at one place in the two scripts and uses up work |
| Socks5.RunInv | src/proxy_client.rs:156-273 | hence every reachable state of the exchange is at such a place |
| Socks5.NoDeadlock | src/proxy_server.rs:392-477 | both sides are never waiting for each other |
| Socks5.RunsEnd | src/proxy_client.rs:165-272 | every exchange is finite |
| Socks5.ExchangeOutcome | src/proxy_server.rs:386-495 | every run can go on or has finished; a finished one has written exactly the two scripts, octet for octet, with the client's address or name and its port, high octet first; the server has exactly the client's host and port or refuses; the reply written has code 0x08 for names of 0, 254 or 255 bytes, the bound address of a good dial, or the code of a failed one; the client succeeds if and only if it has code 0x00, and then no handshake byte is left |
| Socks5Server.HandleSocks5 | src/proxy_server.rs:386-495 | for any client stream and fragmentation, octet for octet: who is dialed, every byte written back, including the code of every refusal, the reason of every failure, and that a good request is read to the byte |
| Socks5Server.ReadRequest | src/proxy_server.rs:415-470 | the reads from the header to the port give what one parse of the stream gives |
| Socks5Server.ParseIff | src/proxy_server.rs:392-470 | exactly these octets are a request, for any list of methods with 0 in it: version 5, command 1, four or sixteen octets of address or a name of 1 to 253, the port with its high octet first; every other stream fails as it is explained |
| Socks5Server.ServeIsParse | src/proxy_server.rs:392-477 | on every stream, not only on that of the other forwarder, the server of the exchange comes to the dial, the refusal or the unfilled read that the parse says |
| Socks5Server.ReadGreeting | src/proxy_server.rs:392-413 | the choice of a method for any list of methods, and the two octets that tell it |
| Socks5Server.ParseEncoded | src/proxy_server.rs:392-470 | every well-formed request is parsed to its own host, port and length, whatever methods stand beside 0 and whatever follows |
| Socks5Server.ParsedIsEncoded | src/proxy_server.rs:392-470 | conversely, what is parsed is the encoding of the result |
| Socks5Server.AgreesWithExchange | src/proxy_client.rs:165-231 | what the other forwarder says is among these streams and is read as the exchange reads it |
| Socks5Client.ClientJudges | src/proxy_client.rs:156-273 | against any server the client succeeds exactly when the answers begin with a grant, and leaves exactly what follows it; it fails exactly on a denial and otherwise waits for more |
| Tracker.InsertedMeaning | src/connection_tracker.rs:136-150 | an insertion keeps the table valid, drops at most the oldest entry, keeps the others and never exceeds 5000 |
| Tracker.ModifiedValid | src/connection_tracker.rs:105-112 | a copy-on-write update keeps the table valid and its order |
| Tracker.CleanedValid | src/connection_tracker.rs:196-203 | cleanup drops exactly the entries closed at least 5000 ms ago, never an unclosed one, and leaves the others alone |
| Tracker.SnapshotShowsAll | src/connection_tracker.rs:204-208 | a snapshot shows every record once in arrival order, so the lookup never misses |
| Tracker.ConnectionTracker.constructor | src/connection_tracker.rs:88-97 | an empty table, ids from 1 |
| Tracker.ConnectionTracker.Insert | src/connection_tracker.rs:136-150 | the eviction loop computes the insertion and leaves the new record in the table |
| Tracker.ConnectionTracker.Register | src/connection_tracker.rs:114-152 | a fresh id, and under it a connecting record with the given source address, target, protocol and start time |
| Tracker.ConnectionTracker.Modify | src/connection_tracker.rs:105-112 | one record changes, if it is still there; nothing else does |
| Tracker.ConnectionTracker.SetExeName | src/connection_tracker.rs:154-156 | the exe name of one record changes, if it is still in the table |
| Tracker.ConnectionTracker.SetProxy | src/connection_tracker.rs:158-160 | the same for its proxy |
| Tracker.ConnectionTracker.SetOutboundTarget | src/connection_tracker.rs:162-164 | the same for its target |
| Tracker.ConnectionTracker.SetProxyProtocol | src/connection_tracker.rs:166-168 | the same for its protocol |
| Tracker.ConnectionTracker.SetConnected | src/connection_tracker.rs:170-172 | status connected, closing time untouched |
| Tracker.ConnectionTracker.SetClosed | src/connection_tracker.rs:174-179 | status closed together with the closing time |
| Tracker.ConnectionTracker.SetError | src/connection_tracker.rs:181-186 | status error together with the closing time |
| Tracker.ConnectionTracker.Cleanup | src/connection_tracker.rs:196-203 | exactly the entries closed at least 5000 ms ago go; the others stay as they are and in their order |
| Tracker.ConnectionTracker.Snapshot | src/connection_tracker.rs:188-217 | every fifth snapshot cleans up first; the ids of the result are the order of the table |
| Tracker.StepContinues | src/connection_tracker.rs:114-217 | every step keeps the invariant, and the new order is what survives of the old one followed by ids not seen before |
| Tracker.ContinuesTransitive | src/connection_tracker.rs:188-217 | that relation composes over time |
| Tracker.RunInv | src/connection_tracker.rs:114-217 | in every interleaving: no id twice, order and map agree, at most 5000 entries |
| Tracker.OrderIsStable | src/connection_tracker.rs:136-150 | in every interleaving a later order is the survivors of an earlier one in their order, then only ids registered since |
| Tracker.OrderNotAscending | src/connection_tracker.rs:120-138 | the order need not be ascending: an interleaving that inserts 2 before 1 |
| TrafficWindow.GoneIndices | src/traffic_window.rs:391-394 | exactly the old indices whose id is gone, from high to low |
| TrafficWindow.DeleteGone | src/traffic_window.rs:390-397 | every deletion is in range and the view keeps exactly the surviving rows in their order |
| TrafficWindow.InsertNew | src/traffic_window.rs:399-406 | every insertion is in range and the view is the one the lemmas below are about |
| TrafficWindow.InsertedRow | src/traffic_window.rs:373-376 | after the insertions a new row stands at its own index and the k-th survivor where the k-th surviving id stands |
| TrafficWindow.NotifyChanged | src/traffic_window.rs:408-422 | every changed survivor is repainted at its new index, and no other row |
| TrafficWindow.SurvivorsMatch | src/traffic_window.rs:390-406 | as many rows survive in the old list as in the new one, so no index is out of range |
| TrafficWindow.IdsMatchIffSameOrder | src/traffic_window.rs:359-382 | the view lists the new ids after the two batches if and only if the survivors keep their relative order |
| TrafficWindow.TickShowsSource | src/traffic_window.rs:341-422 | if they do, the view equals the data source row for row after the tick |
| TrafficWindow.ReplayIsTick | src/traffic_window.rs:390-422 | the notices of a tick as a list: replayed on the rows they were made for, every index is in range and the result is that of the tick |
| TrafficWindow.NothingToNotify | src/traffic_window.rs:390-422 | between equal snapshots nothing is sent |
| TrafficWindow.SendNotices | src/traffic_window.rs:383-422 | the three batches as loops have the effect of that list |
| TrafficWindow.TopBusy | src/traffic_window.rs:58-65 | the highlighted ids are at most five, all above 10 MiB, none left out is busier, and none is left out while there are fewer than five |
| TrafficWindow.TrafficDataSource.RecomputeHighlights | src/traffic_window.rs:56-76 | both highlight sets are such choices |
| TrafficWindow.TrafficDataSource.OnTick | src/traffic_window.rs:341-422 | a visible tick takes the snapshot, highlights it, and brings a view that showed the old rows to the new ones: record for record the table of the tracker, each status as it is, sent cells highlighted for the busiest senders and received cells for the busiest receivers |
| TrafficWindow.LiveStepKeeps | src/traffic_window.rs:289-422 | every tracker step and every tick keeps view and data source equal |
| TrafficWindow.NoticesInRange | src/traffic_window.rs:383-422 | in every state of such a run a tick is possible with any snapshot: none of its notices is out of range |
| TrafficWindow.NoticesInRangeIff | src/traffic_window.rs:390-422 | on any view whatever the notices of a tick are in range if and only if every row to delete, every new row and every changed row suits its length |
| TrafficWindow.ResizeLosesRow | src/traffic_window.rs:316-322 | the resize branch is not such a step: after it a connection registered before is missing from the view, and an ordinary tick does not bring it back |
| TrafficWindow.LostRowGoes | src/traffic_window.rs:316-397 | once such a row goes away no tick is in range on that view |
| TrafficWindow.ViewFollowsSource | src/traffic_window.rs:341-406 | so they are equal in every run that interleaves the tracker with ticks, and common ids always come in the same order |
| TrafficWindow.ViewShowsLastTick | src/traffic_window.rs:341-422 | in every state of every such run the view is the table of the last tick, or of the opening, record for record, with the highlights of that tick |
| Relay.Deliver | src/proxy_server.rs:857-868 | writing one chunk piece by piece and bumping the two counters are steps of the pump machine; it ends ready to read again or failed, and the other route's counter is untouched |
| Relay.RunPump | src/proxy_server.rs:829-876 | one direction as code is an execution of the pump machine from its start to finished or failed |
| Relay.Forward | src/proxy_server.rs:829-876 | one direction by its effect: a prefix of leftover and stream is written, on success all of it, counted in both counters; only a read or a write that fails or times out can prevent success; the counter of the other route never moves |
| Relay.PumpStepInv | src/proxy_server.rs:853-873 | every step keeps the delivered bytes a prefix of leftover and stream and the counters exact |
| Relay.FinishedDeliveredAll | src/proxy_server.rs:855-875 | a pump that finished cleanly has delivered and counted all of it |
| Relay.PumpRunInv | src/proxy_server.rs:829-926 | the same over whole runs of one pump: its counters lack exactly the chunk in flight or the part of one cut short |
| Relay.RelayLoop.Iterate | src/proxy_server.rs:934-989 | one iteration of the select loop computes the transition the machine uses |
| Relay.RelayLoop.Loop | src/proxy_server.rs:930-989 | for all pump results and orders: at most two iterations, the timer armed at most once, an error exit only for a failed pump, both done only for two good ones, linger only with one good pump |
| Relay.SelectStepInv | src/proxy_server.rs:934-989 | how flags, timer, iterations and exit hang together is kept by every branch |
| Relay.RelayStepInv | src/proxy_server.rs:934-989 | pumps and loop together: deliveries only grow and nothing moves after the exit |
| Relay.Transparent | src/proxy_server.rs:829-989 | in every run: prefixes in both directions, whole streams when both are done, one whole direction when lingering ended, and uncounted bytes are exactly chunks in flight or cut short |
| Relay.DeliveriesGrow | src/proxy_server.rs:829-926 | what was delivered is never taken back |
| Relay.RelayEnds | src/proxy_server.rs:934-989 | a relay cannot go on for ever |
| Relay.NeverStuck | src/proxy_server.rs:934-989 | a running relay always has a step that is neither an error nor a timeout |
| Tunnel.RelaySocks4 | src/proxy_server.rs:334-376 | of a SOCKS4 client's stream exactly what follows the octets of its request is relayed, in order, and all of it when no read or write fails; nothing when the request is refused or the target cannot be reached |
| Tunnel.RelaySocks5 | src/proxy_server.rs:386-495 | the same for a SOCKS5 client's stream; nothing is left over from the handshake |
| Tunnel.RelayHttp | src/proxy_server.rs:609-749 | the same for an HTTP client's stream behind its head |
| Tunnel.RelayReply | src/proxy_client.rs:328-349 | the same for an upstream proxy's stream behind its reply |
| Server.StepKeeps | src/proxy_server.rs:72-244 | every accept, registration, update, relay step, cleanup and release keeps the whole invariant |
| Server.RunInv | src/proxy_server.rs:72-244 | so it holds in every run with any number of connections |
| Server.Conservation | src/proxy_server.rs:838-849 | per direction the two global totals are the sum of the counters of all connections ever accepted plus the chunks between their two updates, and fall short of the delivered bytes by exactly the uncounted ones |
| Server.SettledTotals | src/proxy_server.rs:862-868 | they are equal whenever no pump is between its write and its two updates |
| Server.OneTerminalUpdate | src/proxy_server.rs:204-243 | every handler makes exactly one terminal update, its last one, before it gives its permit back |
| Server.HistoryGrows | src/proxy_server.rs:204-243 | the history of statuses only grows and always has one of the permitted shapes |
| Server.StreamsStay | src/proxy_server.rs:211-231 | once connected a handler keeps its streams and its route in every later state, and never takes back what it delivered |
| Server.EveryHandlerTransparent | src/proxy_server.rs:211-231 | in every run every handler delivers prefixes of what it was connected with, all of both when both are done and all of one when lingering ended |
| Server.UnclosedBounded | src/proxy_server.rs:86-113 | records without a closing time are at most the permits that are out, hence at most 1024 |
| Server.EveryRun | src/proxy_server.rs:72-244 | in every state of every run: handlers at work and free permits are 1024, no more records lack a closing time than permits are out, each of the four totals is the sum over its direction and route, every counter lacks exactly its chunk in flight or cut short, and every handler that is through made one terminal update, its last |
| Server.TableOrderIsStable | src/connection_tracker.rs:136-150 | the order of the table is stable also when handlers, window and background lookups drive it |
| Server.DetailSetters | src/connection_tracker.rs:154-168 | the four setters of details never touch id, status or closing time |
| Server.Announce | src/proxy_server.rs:206-209 | after a good handshake the record shows exactly its target, proxy and protocol and is connected |
| Server.Conclude | src/proxy_server.rs:940-988 | after the relay the record is closed or in error, with its closing time, and otherwise as it was |
| Server.HandleConnection | src/proxy_server.rs:136-244 | one handler alone leaves the table as registration left it, except for its own record, given field by field; success exactly for a good handshake and relay |
| ExeResolver.InsertedSurvives | src/etw_resolver.rs:150-157 | an insertion with its eviction keeps the new entry; nothing goes while there are at most 1000, and of more exactly the entries at least 30 seconds old |
| ExeResolver.SectionsMean | src/etw_resolver.rs:346-363 | what each critical section does to every port: one entry is set or forgotten, and an overfull cache loses exactly its old entries |
| ExeResolver.Resolver.OnEvent | src/etw_resolver.rs:344-363 | an event for our port records the pid and forgets the name; other ports are left alone but for eviction, and other events do nothing |
| ExeResolver.Resolver.ResolveAndCache | src/etw_resolver.rs:254-266 | the name is cached, with the current time, exactly if the pid is still the current one, and returned anyway; other ports are left alone but for eviction |
| ExeResolver.Resolver.Lookup | src/etw_resolver.rs:216-249 | cached name first, then cached pid, then scan; a returned name is in the cache afterwards, with the current time when it is new; every other port keeps its entries, except those 30 seconds old in an overfull cache |
| ExeResolver.Resolver.Remove | src/etw_resolver.rs:269-272 | both caches forget the port and nothing else |
| ExeResolver.LockStep | src/etw_resolver.rs:216-272 | with any number of threads a lock is always held by exactly the thread that is inside its section |
| ExeResolver.AccessUnderLock | src/etw_resolver.rs:216-272 | every step reads and writes a cache only while its thread holds the lock of that cache |
| ExeResolver.SomeHolderMoves | src/etw_resolver.rs:251-264 | if a lock is held, a thread that holds one can move |
| ExeResolver.NeverDeadlocked | src/etw_resolver.rs:356-366 | so no reachable state has all lock holders waiting |
| ExeResolver.StepInv | src/etw_resolver.rs:216-272 | every step at lock granularity keeps the caches coherent with the last event |
| ExeResolver.CachedNameIsOfEvent | src/etw_resolver.rs:356-366 | in every interleaving: if an event wrote the pid of a port last, a cached name is an answer for that pid, and a cached pid is that pid |
| ExeResolver.OnlyScansPart | src/etw_resolver.rs:216-272 | of all steps of callbacks, lookups, evictions and removals one parts name and pid of a port if and only if it records a scanned pid while the name of some other pid is cached |
| ExeResolver.TogetherUntilScan | src/etw_resolver.rs:242-246 | in every interleaving name and pid have belonged together in all states so far if and only if no such step has been taken |
| ExeResolver.OvertakenScan | src/etw_resolver.rs:233-246 | a run of three threads in which a scan is overtaken by an event and the lookup it served, and parts them |
| Reload.ParseRules | src/main.rs:281-289 | all rules in order if every address parses, else the error of the first that does not |
| Reload.RuleCell.Watch | src/main.rs:233-264 | after any attempts the rules are those of the last load that parsed, or the old ones if none did |
| Reload.StepInv | src/main.rs:218-265 | every change, notification, dropped token and step of the loop keeps the invariant |
| Reload.NoLostReload | src/main.rs:218-265 | in every interleaving of changes, reported or not, a version newer than the last one loaded means a notification, a token or an attempt under way, an attempt that just read it, a last attempt without content, or a newest change that was never reported |
| Reload.ActiveIsNewestGood | src/main.rs:246-252 | the active rules are always those of the newest version that was loaded and parsed, and never go back |
| Reload.RestIsCurrent | src/main.rs:178-264 | at rest a missing newest version means a failed last attempt or an unreported change behind the last load; without a failed last attempt it is missing if and only if there is such a change, and with every change under watch reported that is one between the first read and the watch with nothing loaded since |
| Reload.StartupGap | src/main.rs:178-228 | such a change leaves the loop at rest on old rules |
| Reload.IgnoredChange | src/main.rs:220-226 | so does a change under watch that is not reported as a modification |
| Reload.FailedAttempt | src/main.rs:240-263 | a notified change whose only attempt fails leaves the loop at rest on old rules too |
| Reload.FailedButCurrent | src/main.rs:240-263 | a failed last attempt alone does not mean that anything is missing |
| Reload.ComesToRest | src/main.rs:233-264 | left alone the loop comes to rest, and only when nothing is pending |

## Left out

- TrafficWindow.TrafficDataSource.OnTick: the Windows branch at src/traffic_window.rs:316-322, which replaces the rows while the window is being resized and sends no notice, is not part of the tick; `TrafficWindow.ResizeLosesRow` shows why.
- TrafficWindow.NotifyChanged: the two byte columns are left out of a row, because old and new record share their counters and the comparison at src/traffic_window.rs:414 cannot see them change.
- Reload.StepInv: a read sees one whole version of the file; a torn read is not modelled, and the pause of 100 ms that makes one unlikely has no other effect.
- Sockets, DNS, scheduling and real time: reads are arbitrary non-empty chunks, timeouts of the relay and of the reload may strike at any step, clocks are parameters. An I/O error during a handshake read and the ten-second limit of a handshake are not part of the protocol models; `Server` shows both as a failed handshake.
- Widths: ids, byte counters and snapshot counts are unbounded, so the wrap-around of `u64` is not modelled; ports have 16 bits.
- Text: where text and octets meet, hosts and fields are ASCII (`HttpConnect.IsAscii`); the parsing lemmas hold for all of Unicode, whose white space is modelled. Lossy UTF-8 decoding, case mapping beyond ASCII and the text form of IP addresses are library code.
- A first byte other than 5 belongs to the other protocol handlers. A text that parses as an IP address is an address, never a name. Writing to a peer that has closed is taken to succeed.
- Buffers of `socks5_connect` and `handle_socks5`: the two sides are modelled on values, one state for each await, so that they can interleave byte by byte; updates in place are not shown.
- The `http::Uri` library is not part of this model: where a URI points and its origin form are parameters of `HttpConnect.HandleHttp`, of which only is used that an origin form has no line feed when the URI has none. Writing the forwarded head is taken to succeed.
- Bytes of plain HTTP request heads are written before the relay and counted nowhere by the source (src/proxy_server.rs:731-735), so they are in no sum.
- Eviction on registration may remove a live connection from the table, as in the source (src/connection_tracker.rs:139-141); nothing is claimed about such records.
- Byte counters of the highlights are read once per tick, where the source loads each of them twice.
- Panics in a handler and the end of the process are not modelled; neither is the order in which a biased select prefers its branches, as the results hold for any.
- The clock is read once per critical section of the resolver, where the source reads it again inside each eviction; what the scan and the operating system answer are parameters, and tracing sessions and privileges are left out.
- Rule matching (`src/matcher.rs`), proxy addresses (`ProxyConfig::from_url`), YAML, logging, statistics formatting, tray, icons and registry: library code, user interface or easy additions.
