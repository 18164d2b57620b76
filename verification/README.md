# A verified model of a market-data multicaster

The program connects to exchanges over WebSocket, turns their trades, order books, prices and
liquidations into small UDP packets with a 67-byte header and 16-byte items, and multicasts them.
This project models that pipeline in Dafny and proves what its parts promise to each other: what
the packet builder emits, what the packet decoder reads back, what a receiver can rebuild from any
interleaving of sessions, when a session retries and gives up, which socket a datagram leaves
through, and what the two configuration files mean.

`dafny verify dfyconfig.toml` checks everything.

| file | subject |
|---|---|
| `Sequences.dfy`, `StableSort.dfy`, `Bits.dfy`, `Text.dfy` | sequences; stable sorting and why its result is unique; machine words, masks, little-endian bytes; trimming, splitting, decimals |
| `Protocol.dfy` | scaling, packed items, flags, name fields, the header; the mutable header and buffer |
| `MarketData.dfy` | parsed data, the sort orders, the exchange rewrite of the parser |
| `PacketPlan.dfy` | what must be emitted for a message: the specification of the builder |
| `PacketBuilder.dfy` | the builder itself: counter, buffer pool, grouping maps and loops |
| `Decoder.dfy` | the packet decoder with its statistics |
| `EndToEnd.dfy`, `TradePaths.dfy`, `MessageEnd.dfy` | builder and decoder together; the grouped and the flat trade path; where the last-packet flag is set |
| `WireContent.dfy` | what the datagrams of each kind of message hold, and that the parser's rewrite changes names only |
| `Sessions.dfy`, `Reassembly.dfy` | many sessions sharing one builder; what a receiver on some of their ports can rebuild |
| `LossCheck.dfy` | the documented loss check: what it accepts and when it is wrong |
| `Deployment.dfy` | from the symbol file to the receiver: which configured symbols can be told apart |
| `Retry.dfy` | connecting, back-off, giving up |
| `UdpSockets.dfy`, `Transmission.dfy` | the socket cache and the send counters; what the sockets' answers mean for the sessions |
| `Ini.dfy`, `SymbolConfig.dfy`, `EndpointConfig.dfy` | sections, the symbol file, the endpoint file |
| `Naming.dfy` | stream names, subscription addresses, symbol normalisation |

The main results, hardest first:

1. `Reassembly.WireGivesBackMessages`: over every interleaving of any number of sessions, in every
   state, and for a receiver on any set of ports: splitting by exchange, symbol and message type and
   cutting at the last-packet flag gives the beginning of exactly the non-empty messages of the
   session that owns the key, and all of them once that session is idle.
2. `Deployment.ConfiguredSymbolsArrive` and `Deployment.ConfigurationDecides`: for every symbol file
   that parses, every configured line and every symbol of it, that ownership follows from a condition
   on the names under which symbols travel, for every kind of market data; and the condition is exact:
   without it some run, made only of what the parser returns to its sessions, mixes their trades.
3. `LossCheck.LossCheckMeansSendOrder`, `LossCheck.AcceptedIsSlice`,
   `LossCheck.CheckIsRightForOneSession`: what the documented loss check accepts, on which guard of
   each send that depends, and for which deployments it never raises a false alarm.
4. `TradePaths.GroupedTradesDecode` and `TradePaths.FlatRefinesGrouped`: sorting then grouping is
   grouping then sorting whatever order the hash maps are visited in, no trade is lost or doubled,
   and the two trade paths agree.
5. `EndToEnd.DecodeCut`, `EndToEnd.OrderBookDecodes`, `EndToEnd.TradeBatchDecodes`,
   `EndToEnd.NamesOnTheWire`, `WireContent.BookOnTheWire`, `WireContent.RewriteOnTheWire`: decoding
   everything that was emitted gives back the prices, quantities, sides, types, names and times of the
   input. `MessageEnd.FlagMeansEndOfMessage`: when the last-packet flag means what is documented.
6. `PacketBuilder.PacketBuilder.BuildPackets`: no tree of parsed data makes the builder fail, and
   the counter advances by exactly the number of packets.
7. `Sessions.NumbersHandedOut`, `Sessions.EveryNumberIsReturned`, `Sessions.EveryNumberIsSent`,
   `Sessions.OwnActionsDecide`.
8. `Retry.RetryCountIsStreak`, `Retry.TenConnectionsEndASession`, `Retry.WholeTrace`.
9. `SymbolConfig.RoundTrip`, `SymbolConfig.PrintKeepsMeaning`, `EndpointConfig.RoundTrip`,
   `EndpointConfig.PreambleMatters`.
10. `Naming.SubscriptionRoundTrip`, `Naming.SurvivesExactlyWhenCanonical`, `Naming.UrlAsMeant`.
11. `UdpSockets.SocketsStay`, `UdpSockets.CacheIsTransparent`, `UdpSockets.RefusedConnectKillsPort`.
12. `Transmission.DatagramsGiveBackMessages`, `Transmission.LossyWhenUnanswered`,
    `Transmission.AnswersDecide`, `Transmission.RefusedSessionIsSilent`: sessions and sockets together.

## Where the code and its documentation differ

The model follows the code.

- `udp_packet_detail/udp_packet.md:172` tells a receiver to report loss unless each sequence number
  is one more than the previous one. All sessions draw from one counter, drawing a number and sending
  the packet are separate steps, and sessions send to their own ports, so the check can fail with
  nothing lost: because a packet overtakes another one (`LossCheck.OvertakingTripsCheck`), or
  because another session drew in between for a port that the receiver does not hear, even when
  everything is sent in draw order (`LossCheck.OtherPortTripsCheck`). The check accepts a run exactly
  when each heard send was made while its packet was the next one drawn by anyone after the last
  packet heard (`LossCheck.LossCheckMeansSendOrder`), that is, when what was heard is an
  uninterrupted stretch of all draws (`LossCheck.AcceptedIsSlice`). It is free of false alarms
  exactly in deployments with at most one session, or for a receiver that hears none
  (`LossCheck.CheckIsRightForOneSession`).
- `udp_packet_detail/udp_packet.md:65` calls the last-packet flag the end of a WebSocket message. The
  flag is set once for every message with content that was parsed from it
  (`MessageEnd.OneMarkPerMessage`), so it has the documented meaning exactly when there is at most one
  (`MessageEnd.FlagMeansEndOfMessage`). A mark-price update parses into three and always breaks it
  (`MessageEnd.MarkPriceUpdateHasThreeEnds`).
- `src/udp_broadcaster.rs:138` warns that a port whose socket could not be connected will use
  `send_to`. The socket is cached and only ever sends without an address, so that port stays silent
  for ever (`UdpSockets.UnconnectedPortIsSilent`); one refused connect of a new multicaster is enough
  (`UdpSockets.RefusedConnectKillsPort`).
- The rewrite at `src/data_parser.rs:191` empties a group inside a group
  (`MarketData.RewriteKeepsMessages` says exactly when nothing is lost). No parser builds such a
  group: the only one is built at `src/data_parser.rs:242` and is flat, and flat groups lose nothing
  (`MarketData.FlatGroupLosesNothing`).
- `src/connection_manager.rs:263` resets the retry count on success, but a connection attempt has no
  way to return success, so every session ends at its tenth connection, however long they lasted
  (`Retry.TenConnectionsEndASession`).
- `src/packet_builder.rs:303` does not mask the quantity of a liquidation, so a negative quantity
  would change its side (`Protocol.UnmaskedReadBack`).
- `config/symbol_config.ini:8` asks for symbols in the form `A^B`, but the program enforces no form.
  Binance symbols travel under their normalised answer, so the trades of a line with `ETH^USDT` and
  of a line with `ETHUSDT` (or another case) mix on the wire (`Deployment.SpellingsMix`,
  `Deployment.EtherMixes`), and a symbol travels under its configured name exactly when it is
  canonical (`Deployment.CanonicalTravelsUnchanged`): `BTC^EUR` travels as `BTCEUR`.
- For an exchange whose name does not begin with `Binance`, `src/data_parser.rs:358-375` turns every
  message into a trade of `UNKNOWN^USDT`, so these trades of any two lines of it on heard ports mix,
  whatever their symbols are (`Deployment.UnreadExchangesMix`).
- In the endpoint file, settings above the first header reach the first section
  (`EndpointConfig.PreambleMatters` says exactly when that shows), and `;` starts no comment there
  although it does in the symbol file.
- `src/connection_manager.rs:455-457` replaces `/ws` everywhere in a base address, not only at its end,
  which breaks a base that ends in `/ws` and has a host name that begins with `ws`
  (`Naming.UrlAsMeant`, `Naming.HostDecides`, `Naming.HostBeginningWithWs`).

## Model

| member | source | states |
|---|---|---|
| StableSort.SortIsStable | src/packet_builder.rs:120-127 | the reference sort is sorted and lists every class of ties in input order, for any total preorder |
| StableSort.StableSortUnique | src/packet_builder.rs:174-181 | any stable sort returns the same list, so the packets do not depend on the sort that is used |
| StableSort.SortThenFilter | src/packet_builder.rs:118-143 | picking elements out of a sorted list is sorting the picked elements |
| MarketData.OrdersAreTotal | src/packet_builder.rs:120-127 | the trade comparator and the two level comparators are total preorders, so sorting by them has a meaning |
| MarketData.TiesAreEqualPrices | src/packet_builder.rs:120-127 | trades tie exactly when side and price are equal, levels exactly when their prices are |
| MarketData.RewriteKeepsMessages | src/data_parser.rs:174-195 | after the rewrite every message carries the session's name; no message is lost if and only if no inner group holds one (what renaming does to a message: the next row) |
| MarketData.RenamingChangesNamesOnly | src/data_parser.rs:174-181 | renaming a message changes nothing but the exchange: the old name brings back the old message, and of two names the last one counts |
| MarketData.FlatGroupLosesNothing | src/data_parser.rs:242-246 | a group without inner groups keeps all its messages, renamed, in order |
| Bits.WordRoundTrip | src/bin/decoder.rs:230-232 | 8 little-endian bytes and 64-bit words, unsigned and two's complement, determine each other |
| Bits.LittleEndianLayout | udp_packet_detail/udp_packet.md:44-46 | the first of the eight bytes of a word is its least significant one |
| Bits.SignedLayout | udp_packet_detail/udp_packet.md:79-80 | negative words are written as their two's complement |
| Bits.AndLowMask | src/protocol.rs:109 | a mask of the low k bits is the remainder modulo 2^k |
| Bits.OrOneBit | src/protocol.rs:111 | setting a bit adds its weight exactly when it was clear |
| Protocol.ScaledMonotone | src/protocol.rs:162-164 | the truncating, saturating scaling never reverses an order and keeps non-negative values non-negative |
| Protocol.ScaledTruncates | src/protocol.rs:162-164 | a scaled value is the value times 10^8 cut towards zero, and values outside the signed 64-bit range become its ends |
| Protocol.PackReadBack | src/protocol.rs:176-193 | the flag of a packed quantity is always read back; the quantity is, if and only if it is not negative |
| Protocol.ReadPackBack | src/protocol.rs:240-257 | packing what was read from any word gives the word back |
| Protocol.UnmaskedReadBack | src/packet_builder.rs:301-303 | the liquidation side is read back if and only if it was a sale or the quantity is not negative; then the word equals the masked one, and otherwise it is the quantity itself |
| Protocol.ItemRoundTrip | src/protocol.rs:196-212 | items and their 16 bytes determine each other |
| Protocol.ItemLayout | udp_packet_detail/udp_packet.md:77-80 | price in the first eight bytes of an item, quantity with its flag in the last eight |
| Protocol.FlagsReadBack | src/protocol.rs:87-115 | the last-packet flag is always read back, the count exactly when it is at most 80 |
| Protocol.TrimIsRedundant | src/protocol.rs:124-136 | trimming before the character filter changes no name field |
| Protocol.NameReadBack | src/bin/decoder.rs:48-56 | for every string the decoder reads the first 19 allowed characters; the field ends in zero; re-encoding is the identity |
| Protocol.NameTravels | src/protocol.rs:124-136 | a name is read back unchanged if and only if it has at most 19 characters, all of them ASCII letters, digits, `^`, `-` or `_` |
| Protocol.NameLayout | udp_packet_detail/udp_packet.md:49-50 | a name field holds the codes of the kept characters and then zeros |
| Protocol.HeaderReadBack | src/protocol.rs:81-84 | every header field is read back from the written bytes, whatever follows |
| Protocol.HeaderLayout | udp_packet_detail/udp_packet.md:41-50 | every header field is at its documented place |
| Protocol.HeaderWriteBack | src/protocol.rs:153-158 | writing a decoded header gives back the first 67 bytes |
| Protocol.Buffer.AppendItem | src/protocol.rs:204-212 | what the buffer held stays in front, and the 16 new bytes read back as the item |
| Protocol.PacketHeader.SetFlagsAndCount | src/protocol.rs:107-115 | changes the flag byte alone; the flag reads back, and the count exactly up to 80 |
| Protocol.PacketHeader.SetSymbol | src/protocol.rs:124-136 | changes the symbol field alone; it ends in zero and decodes to the first 19 allowed characters |
| Protocol.PacketHeader.SetExchange | src/protocol.rs:139-150 | changes the exchange field alone; it ends in zero and decodes to the first 19 allowed characters |
| Protocol.PacketHeader.ToBytes | src/protocol.rs:153-158 | the 67 bytes decode to exactly this header |
| PacketPlan.ChunksPartition | src/packet_builder.rs:184-204 | chunks partition the items and only the last one may be short |
| PacketPlan.ChunksCount | src/packet_builder.rs:241-242 | there are ceil(n/size) chunks |
| PacketPlan.PlanFlattens | src/packet_builder.rs:34-66 | the packets of a nested tree are the concatenation of the packets of its messages |
| PacketPlan.PlanFits | src/packet_builder.rs:184-204 | every planned packet has 1 to 80 items and a payload of exactly 16 bytes per item, or one 8-byte value |
| PacketPlan.FittingPacketIsSmall | src/packet_builder.rs:340-344 | every planned packet has at most 1347 bytes, so the size check never fires |
| PacketBuilder.GroupByTime | src/packet_builder.rs:104-108 | the map holds, for every time, that time's trades in input order |
| PacketBuilder.GroupByName | src/packet_builder.rs:130-135 | the map holds, for every symbol and exchange, their trades in sorted order, and no other group |
| PacketBuilder.GroupOfSorted | src/packet_builder.rs:118-135 | a group taken from the sorted batch is the sorted group |
| PacketBuilder.CollectSide | src/packet_builder.rs:214-237 | the items of one side are the positive levels of the sorted side, in order, with the side's flag |
| PacketBuilder.PayloadPool.constructor | src/packet_builder.rs:390-397 | at most 64 distinct empty buffers are made in advance |
| PacketBuilder.PayloadPool.AcquireBuffer | src/packet_builder.rs:399-410 | the buffer is empty, large enough and no longer in the pool; the pool loses at most its first buffer |
| PacketBuilder.PacketBuilder.constructor | src/packet_builder.rs:26-31 | the counter starts at 1 and the pool is fresh, with 64 buffers of 1400 bytes |
| PacketBuilder.PacketBuilder.SetupHeader | src/packet_builder.rs:318-327 | draws exactly one number, modulo 2^64, and fills every header field but the flags |
| PacketBuilder.PacketBuilder.CreatePacket | src/packet_builder.rs:330-350 | the packet is header then blocks; an error if and only if that exceeds 1472 bytes |
| PacketBuilder.PacketBuilder.CreatePacketFromFlat | src/packet_builder.rs:353-367 | the packet is header then flat payload; an error if and only if that exceeds 1472 bytes |
| PacketBuilder.PacketBuilder.EmitFlat | src/packet_builder.rs:184-205 | the pooled loop emits the specified packets of its items, cut at 80, with consecutive numbers |
| PacketBuilder.PacketBuilder.EmitBlocks | src/packet_builder.rs:138-164 | the block loop emits the specified packets of its items, cut at 50, with consecutive numbers |
| PacketBuilder.PacketBuilder.BuildTradePacketsBatch | src/packet_builder.rs:98-167 | visits every group exactly once in some order and emits the group plans in that order |
| PacketBuilder.PacketBuilder.BuildTimestampGroup | src/packet_builder.rs:113-164 | the same within one timestamp |
| PacketBuilder.PacketBuilder.BuildGroup | src/packet_builder.rs:138-164 | the packets of one symbol and exchange are those of its own sorted trades |
| PacketBuilder.PacketBuilder.BuildTradeBatchPackets | src/packet_builder.rs:170-205 | emits the packets of the sorted trades under the message's own names and time, cut at 80; nothing for an empty batch |
| PacketBuilder.PacketBuilder.BuildOrderBookPackets | src/packet_builder.rs:210-266 | emits the packets of the positive sorted bids, then of the positive sorted asks; nothing without a positive level |
| PacketBuilder.PacketBuilder.BuildSingleValuePacket | src/packet_builder.rs:269-293 | one packet with one value, or an error for another message type; a number is drawn in both cases |
| PacketBuilder.PacketBuilder.BuildLiquidationPacket | src/packet_builder.rs:296-315 | one packet with the unmasked item |
| PacketBuilder.PacketBuilder.BuildEventPacket | src/packet_builder.rs:69-84 | one packet with the 16 payload bytes and one clock reading in both time fields |
| PacketBuilder.PacketBuilder.BuildPackets | src/packet_builder.rs:34-66 | never fails on any tree; emits exactly the planned packets; the counter advances by their number |
| Decoder.ItemsReadBack | src/bin/decoder.rs:295-343 | the item loop reads back written items, whatever follows them |
| Decoder.DatagramsDecode | src/bin/decoder.rs:224-317 | what any datagram decodes to, sound or not: too short for a header, too short for the announced items of an order book or of trades, or the header and exactly these items at their places |
| Decoder.DecodeItems | src/bin/decoder.rs:295-317 | the loop succeeds if and only if the payload is long enough, and returns the items in order |
| Decoder.DecodePacket | src/bin/decoder.rs:224-293 | returns the specified decoding; the statistics grow by one packet and by the counted items, even when the payload proves too small |
| Decoder.ReceiveAll | src/bin/decoder.rs:138-158 | the receive loop returns the items of all sound datagrams in order; its six totals are those of the received list, broken datagrams included |
| PacketPlan.StampReadBack | src/bin/decoder.rs:230-232 | header and payload of every emitted packet are read back |
| PacketPlan.PacketReadBack | src/packet_builder.rs:318-327 | every field a receiver reads of a planned packet: version 1, number, both times (the clock in place of a missing exchange time), type, flag, count, cleaned names, payload, size |
| EndToEnd.DecodeCut | src/bin/decoder.rs:224-275 | for any n items: ceil(n/size) packets, all but the last full, only the last marked, no decoding error, no trailing byte, and all items back in order |
| EndToEnd.StatisticsAddUp | src/bin/decoder.rs:262-275 | the item statistics of a receiver that got the packets of n items add up to n for their type and to zero for the other |
| EndToEnd.ReceiverTotals | src/bin/decoder.rs:146-150 | all six totals of a receiver that got exactly the packets of n items |
| EndToEnd.OrderBookDecodes | src/packet_builder.rs:210-260 | decoding all packets of an update gives exactly its positive bids by falling price, then its positive asks by rising price, each item with the scaled price and quantity and the side of its level; flags split the sides apart; packets number ceil(n/80), have the order-book type and the update's names and time |
| EndToEnd.NewItemReadBack | src/protocol.rs:226-257 | scaled price, flag and, unless negative, scaled quantity of an item are read back |
| EndToEnd.TradeBatchDecodes | src/packet_builder.rs:170-205 | decoding all packets of a batch gives a stable sort of exactly its trades, each item with the scaled price and quantity and the side of its trade, buyer-takers first by rising price, then the others by falling price; packets number ceil(n/80), have the trade type and the batch's names and time |
| EndToEnd.SidesSeparate | src/protocol.rs:226-238 | the ask flag selects exactly the ask items, its absence exactly the bid items, and bids come first |
| EndToEnd.NamesOnTheWire | udp_packet_detail/udp_packet.md:52-59 | every packet of every rewritten tree carries the session's name and the symbol, the documented type and the time of one of the parsed messages, names in cleaned form |
| MessageEnd.SentWhenContent | src/packet_builder.rs:210-239 | a message has packets if and only if it has content: a trade in the batch, a positive level in the book |
| MessageEnd.OneMarkPerMessage | src/packet_builder.rs:190-191 | the packets of a parsed message carry one last-packet flag per inner message with content, and end with one |
| MessageEnd.FlagMeansEndOfMessage | udp_packet_detail/udp_packet.md:64-66 | the flag is set exactly on the final packet of a WebSocket message if and only if at most one message parsed from it has content |
| MessageEnd.FlagOnTheWire | udp_packet_detail/udp_packet.md:64-66 | the same for the flags read from the datagrams the builder returned |
| MessageEnd.MarkPriceUpdateHasThreeEnds | src/data_parser.rs:242-246 | every mark-price update gives three flagged packets, so the documented meaning fails |
| WireContent.BookOnTheWire | src/packet_builder.rs:244-260 | every packet of an order-book update has type 0, the update's names and time, consecutive numbers and the flag at the end; a receiver counts its positive levels as book items and nothing as ticks |
| WireContent.BatchOnTheWire | src/packet_builder.rs:186-204 | every packet of a trade batch has type 1, the batch's names and time, consecutive numbers and the flag at the end; a receiver counts its trades as tick items and nothing as book items |
| WireContent.TradeOnTheWire | src/packet_builder.rs:92-95 | a single trade is one packet of type 1 whose item shows its price, quantity and side |
| WireContent.AggregateTradeIsSingle | src/data_parser.rs:268-279 | an aggregate trade is sent like the single trade it holds |
| WireContent.ValueOnTheWire | src/packet_builder.rs:269-293 | an index price, mark price or funding rate is one packet of type 2, 3 or 4 whose eight bytes are the scaled value |
| WireContent.LiquidationOnTheWire | src/packet_builder.rs:296-315 | a liquidation is one packet of type 5 whose item shows price and quantity; its flag means a sale or a negative quantity |
| WireContent.EventOnTheWire | src/packet_builder.rs:69-84 | an event is one packet of its own type with its own payload and the same clock reading in both time fields |
| WireContent.MarkPriceUpdateOnTheWire | src/data_parser.rs:224-247 | a mark-price update becomes three packets in this order: index price, mark price, funding rate, each value under its own type and the session's name |
| WireContent.RewriteOnTheWire | src/data_parser.rs:174-195 | when no inner group holds a message, the packets after the rewrite are those before it in payload, count, flag, symbol, type and time, with the session's name |
| TradePaths.GroupedTradesDecode | src/packet_builder.rs:104-164 | for every visiting order: one run of ceil(n/50) packets per time, symbol and exchange, each carrying these and decoding to the stable sort of exactly the trades that have them, item by item with price, quantity and side; and every trade emitted exactly once |
| TradePaths.PayloadsOfCut | src/packet_builder.rs:184-204 | however items are cut, the payloads together are the bytes of all items |
| TradePaths.FlatRefinesGrouped | src/packet_builder.rs:98-205 | for a uniform batch both paths give the same payload bytes, and for at most 50 trades and the same counter the same packets but for the clock |
| Sessions.StepInv | src/connection_manager.rs:381-386 | every atomic step of any session keeps the system invariant |
| Sessions.RunInv | src/packet_builder.rs:318-327 | every reachable state of any number of sessions satisfies it, whatever is lost |
| Sessions.NumbersHandedOut | src/packet_builder.rs:28 | the k-th number is k+1 modulo 2^64; no duplicate if and only if at most 2^64 were drawn |
| Sessions.WireIncreasesPerSession | src/connection_manager.rs:381-386 | below the wrap, the numbers a session's calls return increase, and so do those it puts on the wire, also with losses |
| Sessions.EveryNumberIsReturned | src/packet_builder.rs:318-327 | with no call in flight, whatever was lost, each session was given exactly the packets drawn for it, in order, and they are the plans of its calls |
| Sessions.EveryNumberIsSent | src/packet_builder.rs:74 | with no call in flight and nothing lost, wire and handed-out packets are the same multiset |
| LossCheck.CheckReadsNumbers | udp_packet_detail/udp_packet.md:172 | the pairwise check on datagrams is the pairwise check on the numbers drawn |
| LossCheck.AcceptedIsSlice | udp_packet_detail/udp_packet.md:172 | below the wrap, for every set of ports: the check accepts what is heard if and only if it is an uninterrupted stretch of all draws |
| LossCheck.LossCheckMeansSendOrder | udp_packet_detail/udp_packet.md:172 | below the wrap: the check accepts a run if and only if each heard send was made while its packet was the next drawn after the last heard |
| LossCheck.LoneSessionPasses | udp_packet_detail/udp_packet.md:172 | the check accepts every run in which one session alone draws and loses nothing |
| LossCheck.OvertakingTripsCheck | udp_packet_detail/udp_packet.md:172 | any two heard sessions have a lossless run that the check rejects |
| LossCheck.OtherPortTripsCheck | src/connection_manager.rs:384 | a heard and an unheard session have a lossless run, sent in draw order, that the check rejects |
| LossCheck.CheckIsRightForOneSession | udp_packet_detail/udp_packet.md:172 | no lossless run at rest is rejected if and only if the deployment has at most one session or the receiver hears none |
| Sessions.UninterruptedCall | src/packet_builder.rs:34-66 | a call whose draws are not interleaved builds exactly the packets of the sequential builder |
| Sessions.OwnActionsDecide | src/connection_manager.rs:381-386 | for every interleaving, what a session sends, in which order, when it is idle and whether it lost something follow from its own actions alone; a dropped packet is skipped, a failed send abandons the rest of its message and nothing else |
| Reassembly.GatherCut | src/packet_builder.rs:190-191 | cutting at the last-packet flag puts a message's payload together again |
| Reassembly.WireGivesBackMessages | udp_packet_detail/udp_packet.md:64-66 | for every interleaving, every state and every set of ports, the receiver has rebuilt the beginning of exactly the owning session's non-empty messages under the key, in order; all of them once the session is idle |
| Reassembly.MessagePayloads | src/bin/decoder.rs:295-343 | a rebuilt trade or book message reads back as its sorted trades or sides |
| Deployment.AnswersAreCarried | src/connection_manager.rs:444-450 | every answer on every stream of a Binance symbol without `@` normalises to the name under which that symbol travels |
| Deployment.BinanceIsAPrefix | src/data_parser.rs:156-161 | the exchanges whose messages are read are exactly those whose name begins with `Binance` |
| Deployment.CanonicalTravelsUnchanged | src/data_parser.rs:379-404 | an ASCII Binance symbol travels under its configured name if and only if it is canonical |
| Deployment.RewrittenMessageConforms | src/data_parser.rs:174-195 | a parsed message about names that a session carries becomes a message of that session under its own name |
| Deployment.BinanceMessageConforms | src/data_parser.rs:200-259 | parsed Binance messages that answer a session's streams become messages of that session |
| Deployment.PlaceholderConforms | src/data_parser.rs:358-375 | so does the placeholder made of every message of another exchange |
| Deployment.PlaceholderOnTheWire | src/data_parser.rs:358-375 | on the wire it is one trade of `UNKNOWN^USDT` with price and quantity zero under the session's name |
| Deployment.ParsedMessageConforms | src/data_parser.rs:207-285 | every shape of data that the parser can return to a session becomes messages of that session under a carried name: trade, aggregate trade, order book, liquidation, the three values of a mark-price update, placeholder |
| Deployment.TradeIsProduced | src/connection_manager.rs:441-446 | the program can make a trade for every symbol of every session: each Binance session, spot or futures, subscribes to its trades, and elsewhere that trade is the placeholder |
| Deployment.LineIsStarted | src/connection_manager.rs:60-76 | every configured line is started, in one place, with its symbols and its port |
| Deployment.StartedIsLine | src/connection_manager.rs:60-76 | every started session is one configured line |
| Deployment.FeedOwnsItsKeys | src/protocol.rs:124-150 | when no two heard sessions have symbols that travel under the same cleaned name, every session owns all keys of its symbols |
| Deployment.ConfiguredSymbolsArrive | src/connection_manager.rs:60-76 | from any symbol file that parses, over every run, for every configured line on a heard port and every symbol of it: if heard lines stay apart, the receiver gets back exactly the messages of that line under the carried name |
| Deployment.SharedNamesMixMessages | src/data_parser.rs:379-404 | as soon as two heard sessions have symbols that travel under the same name, some run of the program, a single trade that the parser can return, puts a foreign trade under the trade key of a lossless session at rest |
| Deployment.NamesDecide | src/data_parser.rs:379-404 | no run of the program ever does so, for any kind of market data, if and only if the carried names of heard sessions stay apart |
| Deployment.ConfigurationDecides | src/config.rs:198-282 | the same condition, for all runs of the program and all kinds of market data, on the lines of an ASCII configuration, in whatever order they are started |
| Deployment.SpellingsMix | src/connection_manager.rs:444 | two heard Binance lines whose symbols differ only in carets and letter case mix in some run of the program |
| Deployment.TwoSpellingsMix | src/data_parser.rs:379-404 | for every pair of names a file exists that parses and whose sessions mix in some run of the program: the pair with and without its caret |
| Deployment.EtherMixes | src/data_parser.rs:379-404 | one such file has `ETH^USDT` and `ETHUSDT` |
| Deployment.UnreadExchangesMix | src/data_parser.rs:358-375 | any two heard lines of an exchange outside Binance mix in some run of the program |
| Retry.BackoffLaws | src/connection_manager.rs:228-241 | the delay is monotone, between 1000 and 60000, doubles up to the cap, and never overflows 64 bits |
| Retry.ConnectToSymbolSession | src/connection_manager.rs:294-378 | every connection ends in an error; it reports one disconnection if it was open and closed or broke before a ping went unanswered, and otherwise nothing |
| Retry.ManageSymbolSession | src/connection_manager.rs:244-291 | the loop reaches the specified state and stops exactly when that gives up |
| Retry.OneMoreAttempt | src/connection_manager.rs:252-290 | what each further attempt of a living session adds: CONNECTING with the failures so far, its own events, then CONNECTED, FAILED with ten, or RECONNECTING with the new count and its pause; codes and pauses as numbers |
| Retry.RetryCountIsStreak | src/connection_manager.rs:259-282 | the retry count is the current run of failures, below ten; giving up happens if and only if some ten in a row failed |
| Retry.FailedIsLast | src/connection_manager.rs:270-279 | FAILED is reported exactly when the session gives up, once, last, with count ten |
| Retry.ConnectingCountsFailures | src/connection_manager.rs:255-256 | CONNECTING is reported once per attempt, with the failures since the last success |
| Retry.TenConnectionsEndASession | src/connection_manager.rs:300-378 | when all connections come back, the session ends after exactly ten, having paused 243 seconds |
| Retry.SessionReports | src/connection_manager.rs:244-378 | whatever its connections do, a session announces attempts 0 to 9 in order, reports RECONNECTING with 1 to 9 failures in order, FAILED once, after the tenth, last, and never CONNECTED |
| Retry.WholeTrace | src/connection_manager.rs:244-378 | the whole trace of a session as a function of its connections, event by event and pause by pause |
| UdpSockets.UdpMulticaster.SendPacket | src/udp_broadcaster.rs:82-117 | with and without a connected socket the legacy send has the effect of a send that names the target |
| UdpSockets.UdpMulticaster.SendPacketToPort | src/udp_broadcaster.rs:120-175 | the new state and result for every answer of the system; the datagram goes to the peer of the socket that sends; the cache invariant is kept |
| UdpSockets.UdpMulticaster.ResetStats | src/udp_broadcaster.rs:186-189 | both counters become zero and nothing else changes |
| UdpSockets.FreshStart | src/udp_broadcaster.rs:69-78 | a new multicaster satisfies the cache invariant, and its counters count from the beginning |
| UdpSockets.StepKeepsCache | src/udp_broadcaster.rs:127-152 | one operation keeps the cache invariant and every cached socket |
| UdpSockets.SocketsStay | src/udp_broadcaster.rs:127-152 | on every run each cached port has one socket, made for it and never replaced; the legacy port has none |
| UdpSockets.StepDelivers | src/udp_broadcaster.rs:154-172 | under the cache invariant an operation delivers at most one datagram, the requested one, and the peer it goes to is the requested port |
| UdpSockets.SendOutcomes | src/udp_broadcaster.rs:120-175 | result, datagram and counters of a send for every answer: nothing leaves without a socket or a peer; otherwise sent, dropped silently when the socket would block, or failed |
| UdpSockets.WrongPeerMisdelivers | src/udp_broadcaster.rs:154-155 | without the invariant it would not: a socket connected elsewhere takes the datagram there |
| UdpSockets.CountersCountDeliveries | src/udp_broadcaster.rs:98-105 | the counters are number and bytes of the successful sends since the last reset, modulo 2^64 |
| UdpSockets.CachedLikeDirect | src/udp_broadcaster.rs:120-175 | under the cache invariant a send through the cache acts like a send that names the port if and only if the port is the legacy one, or its socket is connected, or both fail |
| UdpSockets.CacheIsTransparent | src/udp_broadcaster.rs:120-175 | while binding and connecting work, whole runs have the same datagrams, destinations and counters as runs of sends that name their port |
| UdpSockets.OnlyOwnSocketReaches | src/udp_broadcaster.rs:129-143 | when the socket of a port is not connected, no socket of the multicaster reaches the port |
| UdpSockets.UnconnectedPortIsSilent | src/udp_broadcaster.rs:137-156 | then no datagram ever reaches that port on any run, and every send to it fails |
| UdpSockets.RefusedConnectKillsPort | src/udp_broadcaster.rs:137-156 | one refused connect of a new multicaster brings this about, where a send that names the port would have arrived |
| Transmission.SessionsRun | src/connection_manager.rs:381-386 | every run of sessions over sockets, with any answers, is a run of the sessions |
| Transmission.EveryRunKeepsLog | src/connection_manager.rs:384 | on every run the datagrams that left are, one by one, the packets the sessions sent, each on its session's port |
| Transmission.ReceivedIsHeard | src/connection_manager.rs:384 | what leaves for a set of ports is what a receiver on them hears |
| Transmission.SocketIsFirstConnect | src/udp_broadcaster.rs:129-143 | whether a port can be reached is decided by the first connect of its socket |
| Transmission.RefusedSessionIsSilent | src/udp_broadcaster.rs:137-156 | a session whose port had its first connect refused has no datagram on the wire in any run |
| Transmission.LossyWhenUnanswered | src/udp_broadcaster.rs:154-172 | on every run a session loses something if and only if some transmission of it found no socket that could be bound, a first connect for its port that was refused, or an answer other than sent; other ports do not matter |
| Transmission.AnswersDecide | src/connection_manager.rs:381-386 | what becomes of each packet on every run: sent, skipped when a usable socket would block, or else abandoned with the rest of its message |
| Transmission.DatagramsGiveBackMessages | udp_packet_detail/udp_packet.md:64-66 | if all transmissions of one session go out, whatever happens on other ports, the datagrams that left give back exactly its messages under the keys it owns |
| Ini.SectionsPartition | src/config.rs:204-235 | a file is its preamble followed by its sections; nothing is lost or moved and no section holds a header |
| Ini.SectionsUnique | src/config.rs:213-235 | that partition is the only one |
| Ini.HeadersAreBracketed | src/config.rs:212 | the headers are exactly the lines `[name]` |
| Text.ParsesExactly | src/config.rs:253 | exactly the texts of an optional plus sign, any zeros and the decimal digits of a number below the limit are numbers |
| SymbolConfig.ParseSymbolLine | src/config.rs:248-282 | a line is an error, which names it, if and only if its port is no number below 65536 or its list has no symbol; otherwise port or default port, trimmed non-blank pieces in order, BTC mark |
| SymbolConfig.PortsAreNumbers | src/config.rs:253-256 | a port is any text of a number below 65536, with white space around it or not |
| SymbolConfig.SessionOfLine | src/config.rs:257-276 | a line without a port gets 55555; the BTC mark means a single symbol that begins with `BTC^` |
| SymbolConfig.CommentsDoNotCount | src/config.rs:206-209 | a blank line or one that begins with `#` or `;` changes nothing wherever it stands; every other line counts, trimmed |
| SymbolConfig.Parse | src/config.rs:198-245 | the loop with its mutable section state computes the declarative reading |
| SymbolConfig.SessionsInOrder | src/config.rs:230-234 | a section is its lines' sessions in order, or an error naming its first bad line |
| SymbolConfig.ReadMeaning | src/config.rs:198-245 | parsing succeeds if and only if every owned line parses; each exchange has its last section's sessions |
| SymbolConfig.SessionReadsBack | src/config.rs:248-282 | a printed session, with any port, is parsed back |
| SymbolConfig.RoundTrip | src/config.rs:198-282 | parsing undoes printing, for every printable configuration in every listing order |
| SymbolConfig.ParsedIsPrintable | src/config.rs:198-282 | everything a parse returns is printable |
| SymbolConfig.PrintKeepsMeaning | src/config.rs:198-282 | printing what a file says gives a file that says the same |
| EndpointConfig.CollectedIsLast | src/config.rs:369-372 | the settings map holds the last value given to each key |
| EndpointConfig.CollectedEndpoint | src/config.rs:386-402 | the settings map gives the endpoint that the last values of the four keys give |
| EndpointConfig.Parse | src/config.rs:341-383 | the loop computes the reading in which the preamble belongs to the first section |
| EndpointConfig.CommentsDoNotCount | src/config.rs:348-351 | a blank line or one that begins with `#` changes nothing wherever it stands; every other line counts, trimmed |
| EndpointConfig.SettingsAreTrimmed | src/config.rs:370-372 | a setting is what stands before and after the first equals sign, each without the white space around it |
| EndpointConfig.SettingsMean | src/config.rs:386-402 | no endpoint without an address or a timeout; a timeout that is no number is 5000; the ping interval is the number set, if any; only `true` switches on |
| EndpointConfig.EndpointReadsBack | src/config.rs:386-402 | a printed endpoint with any 64-bit timeout and ping interval is read back |
| EndpointConfig.PrintedLastWins | src/config.rs:341-383 | from the printed file of any list of endpoints every exchange gets its last one |
| EndpointConfig.RoundTrip | src/config.rs:341-402 | parsing undoes printing, for every printable configuration in every listing order |
| EndpointConfig.LastValidWins | src/config.rs:354-379 | an exchange has the endpoint of its last valid section |
| EndpointConfig.SectionsStayApart | src/config.rs:346-380 | without a setting above the first header, no setting leaves its section |
| EndpointConfig.LeakChangesEndpoint | src/config.rs:386-402 | outer settings change an endpoint if and only if they complete it or supply a working ping interval or a true switch |
| EndpointConfig.PreambleMatters | src/config.rs:346-380 | the preamble changes the file's meaning if and only if it leaks and no later section of that name is valid |
| EndpointConfig.PreambleCanLeak | src/config.rs:346-372 | a switch above the first header turns on an exchange that its own section leaves off |
| EndpointConfig.PreambleLeaks | src/config.rs:346-372 | such a file exists |
| Naming.BuildStreams | src/connection_manager.rs:442-452 | the loop lists two streams per symbol, or four for futures, in order; exact for ASCII symbols |
| Naming.StreamSymbolIsLower | src/connection_manager.rs:444 | the stream spelling has no caret and no capital letter and is otherwise the symbol |
| Naming.SubscribedStreams | src/connection_manager.rs:445-450 | the topics: trade and depth, or for futures trade, depth@0ms, markPrice@1s and forceOrder |
| Naming.BuildUrl | src/connection_manager.rs:438-467 | the loop and the four address shapes compute the specified address; exact for ASCII symbols |
| Naming.FuturesHostDecides | src/connection_manager.rs:440 | a base is for futures if and only if `fstream.binance.com` occurs in it |
| Naming.PlainAddress | src/connection_manager.rs:458-465 | the address for a base without a socket path, with or without a final slash: `stream` is added unless it is there |
| Naming.SocketAddress | src/connection_manager.rs:453-457 | the address for a base with a socket path: `stream` takes its place, provided it stands nowhere else |
| Naming.UrlAsMeant | src/connection_manager.rs:453-457 | the address is the base with its suffix alone replaced if and only if the suffix occurs nowhere else |
| Naming.HostDecides | src/connection_manager.rs:456-457 | for a base that is a host followed by `/ws`, the address is as meant if and only if the host does not begin with `ws` |
| Naming.HostBeginningWithWs | src/connection_manager.rs:456-457 | a base that ends in `/ws` and whose host begins with `ws` gets a wrong address, whatever stands between |
| Naming.UrlReadsBack | src/connection_manager.rs:453-466 | the list after the last question mark splits back into the streams |
| Naming.OneQuote | src/data_parser.rs:379-404 | no quote ends another one, so at most one fits a symbol |
| Naming.KnownQuotesAreMarked | src/data_parser.rs:379-404 | a symbol that ends in one of the six quotes, in whatever case, gets its caret before it, in capitals; any other symbol stays as it is |
| Naming.OrderDoesNotMatter | src/data_parser.rs:382-403 | the six tests in any order give the same normalised symbol |
| Naming.SurvivesExactlyWhenCanonical | src/data_parser.rs:379-404 | an ASCII symbol comes back from its stream name if and only if it is in capitals and either one caret stands before a known quote, or it has neither caret nor known quote |
| Naming.SubscriptionRoundTrip | src/connection_manager.rs:443-452 | from configuration through the address to the normalised answers, exactly the configured symbols come back, once per topic, in order |

## Left out

- Protocol.ScaledMonotone: prices and quantities are real numbers; NaN, infinities and the rounding of the multiplication by 10^8 are not modelled.
- MarketData.OrdersAreTotal: holds for real prices; with NaN the comparator's fallback to equality breaks it.
- Naming.SurvivesExactlyWhenCanonical: only ASCII symbols, because letter case is modelled for ASCII; in other alphabets the program changes case too.
- Naming.SubscriptionRoundTrip: only ASCII symbols, because letter case is modelled for ASCII; that an exchange answers with its own symbol in capitals is taken as given.
- Protocol.NameReadBack: a receiver's lossy UTF-8 decoding of bytes from 0x80 on is simplified to one replacement character per byte; fields written by the program hold none.
- Reassembly.WireGivesBackMessages: takes one owner per key as given, which `Deployment.FeedOwnsItsKeys` derives from the configuration, and no loss in the owning session; other sessions may lose packets.
- Deployment.ConfiguredSymbolsArrive: only ASCII symbols; that Binance answers a session about its subscribed streams only, each with the stream's own symbol in capitals, is taken as given.
- Deployment.BinanceMessageConforms: addresses come from the endpoint file or the two built-in defaults; the temporary address of another exchange name without an endpoint subscribes to one fixed stream and is not modelled.
- Naming.BuildStreams: letter case changes for ASCII only; for other letters the program's lower case differs.
- Naming.BuildUrl: the same, as it lists those streams.
- Transmission.SessionsRun: handing a packet to the sockets is one atomic step.
- Sessions.RunInv: a UDP send is one atomic step, and a call's draws happen before its sends.
- PacketBuilder.PacketBuilder.EmitFlat: one loop stands for the batch and the book loop, and items are made before they are cut; the standard library's stable sort is represented by `StableSort.Sort`, which any stable sort equals.
- PacketBuilder.PayloadPool.AcquireBuffer: capacities grow to what is needed, not by the allocator's policy; the pool is never refilled because `release_buffer` is never called.
- Decoder.DecodePacket: returns what the program prints; statistics are unbounded, and packet interval timing is not modelled.
- UdpSockets.UdpMulticaster.SendPacketToPort: socket calls are oracle values; a send on a socket without a peer fails, one on a connected socket goes to its peer.
- Retry.ManageSymbolSession: an unbounded loop, run on finite lists of outcomes of any length; how long a connection lasts is not modelled.
- Clock readings are arbitrary values in the model.
- Event payloads are 16 opaque bytes; event constructors and exchange-id tables are easy.
- WebSocket, TLS, JSON decoding and number parsing of messages are library code.
- Subscription messages and addresses of the other exchanges pass fixed values through.
- Finding configuration files, logging, metrics, and the counter and demo programs only add easy members.
