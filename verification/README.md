# Verified model of the game server

The repository is a game-server framework in C++ and Lua. This project models the parts of it that
hold state or carry data from one place to another, and proves what they are for:

* **Timers** (`flat_timer.dfy`, `wheel_arithmetic.dfy`, `timing_wheel.dfy`). The hierarchical timing wheel of
  `script/common/timer.lua` is a class over four rings of slots. It is proved to do what a flat map from timer
  id to due frame does, step by step and over whole updates, with callbacks that add and remove timers. What
  callers want to know is proved of the flat map: a timer is first called back in the frame that its delay leads
  to, whether it was asked for between updates or by a callback; none fires early, late, twice or after its
  removal, and no time is lost.
* **Packets and the gateway** (`wire.dfy`, `net_packet.dfy`, `tcp_session.dfy`, `link_streams.dfy`,
  `gateway.dfy`, `gateway_links.dfy`, `gateway_replies.dfy`, `gateway_client.dfy`). Cutting a TCP stream into
  length-prefixed packets does not depend on how the stream is chunked. The gateway is a state machine over
  connects, chunks, hang-ups and replies; exactly the complete, legal packets of each connection are passed on,
  stamped. What the servers send is cut as one stream, because all links to them share one receive packet; each
  connection is written exactly those of the packets cut while it is known that carry its number, in order, and
  for every other packet with a number a notice goes back. It is stated exactly when the packets so cut are the
  servers' own.
* **JSON** (`json_text.dfy`, `json.dfy`, `json_reader.dfy`, `json_grammar.dfy`, `json_language.dfy`,
  `json_exactness.dfy`, `json_laws.dfy`). The printer and the recursive-descent reader undo each other, for
  exactly the values that are stated to come back. What the reader accepts is exactly the language of a grammar
  that knows nothing of reading, with what each text stands for: blanks, comments, either kind of quotes, every
  escape, optional commas, nulls and repeated keys.
* **Bull-fighting** (`bull_cards.dfy`, `shuffler.dfy`, `settlement.dfy`, `bull_table.dfy`, `rooms.dfy`,
  `room_debts.dfy`). Ranking hands, shuffling and dealing, betting, and settlement. What a hand is worth is
  stated by suits and ranks, and every arrangement of the deck is within reach of a shuffle. A table is a state
  machine over arrivals, bets, timer callbacks and what other tables do to the balances; a room is many tables
  over one set of balances. Money is conserved, and it is stated exactly when bets stay covered and when nobody
  can end up in debt.
* **Database client** (`db_client.dfy`, `db_threads.dfy`). Two threads, two queues and reference-counted
  buffers, over all interleavings of atomic steps: first in, first out, nothing lost or doubled, no buffer freed
  in use or twice. The client's class and the loops of both threads are proved against these steps.
* **Multi-value replies** (`multi_data.dfy`). What the Redis side packs, the Lua side unpacks.
* **Ids** (`id_generator.dfy`). The sparse Fisher-Yates shuffle, which yields every arrangement by exactly one
  sequence of random answers, and the pool of ids it fills, which is first come, first served.

`options.dfy` holds the Option datatype, `sequences.dfy` a law of concatenation.

Randomness is a parameter (`choice`), and so are the callbacks of a frame (`script`), the check of a packet's
body (`legal`), the kinds of the requests (`kinds`) and the configured odds and commission (`rules`):
theorems hold for all of them. `BULL_FIGHTING_ODDS`, `GAME_COMMISSION` and `GAME_STATE_DEF` are not part of
this model beyond what `GoodRules` and the four state constants say of them.

## What turned out not to hold in general

The members named here say exactly when the code does what is wanted.

* A timer that is already due, added between updates, finds no slot when the first wheel stands at its bound
  (`NoSlotExactlyAtBound`), and one armed outside a callback during a walk would enter the slot being walked
  (`TargetElsewhere`).
* After 43,200,000 frames the fourth wheel asks for a fifth (`FifthWheelWanted`).
* A cyclic timer that removes itself in its own callback and then returns true is armed again
  (`RearmedOneCycleLater` says when a timer is pending after its callback).
* The links to the login, logic and room servers share one receive packet: their callbacks go to one static
  object (`tcp/gateway_client.cpp:24-28`, 42-46 and 74-78), not to the three that are made. Every packet cut
  from the replies, and what is left over, consists of bytes of one server exactly if another server is heard
  only while nothing is left over (`RepliesUnmixedIff`); then each server's replies are cut as they were sent
  (`RepliesOfEachLink`). Otherwise replies are mixed up and lost: `RepliesGetMixed` is a run, and
  `SwitchKeepsPacketIff` says which chunks do no harm to the packet they interrupt.
* A length prefix below 4 makes the receive loop stand still as soon as a byte follows it (`StandsStillIff`).
* A user who takes two seats at a table is paid twice (`PaidRightIff`, and `SharedTablePaysTwice` for a run in
  which it happens). It takes tables that are shared, as `script/room_logic/manager/room_manager.lua:75-98`
  means them to be; then all share one, since none is ever marked as full (`AsMeantAllShare`). As written they
  are not shared: line 130 enters an undefined name in the room's list, the list stays empty, every arrival is
  given a table of its own (`AsWrittenNeverShared`, `OneSeatEach`), and every round conserves money
  (`UnsharedRoundConserves`).
* The guard of a bet looks at one table's stakes, but a user may hold stakes at several tables against one
  balance. Bets that every table's guard lets pass can end in debt (`StakesAtTwoTables`,
  `GuardsDoNotPreventDebt`). Nobody can end in debt, whatever the cards, exactly while every balance covers its
  user's stakes at all open tables (`NoDebtIff`); an event keeps it so exactly if the arrival or the bet is
  affordable in this sense (`SafeIff`), as it is to a user with stakes at one table only (`GuardSuffices`).
* The table itself accepts a negative bet; only the request handler refuses it (`UnguardedBetKeepsIff`,
  `NegativeStakeHidesDebt`).
* A balance that is replaced during betting, by the user's coming in again or by another table's settlement, may
  no longer cover the stakes (`CoveredIff`, `RoomCoveredIff`). What one table may still cost can be set aside
  beforehand, whatever its cards (`CoveredWhateverTheCards`).
* Among hands of the same point the highest card decides by its suit first, and by its rank only within a suit
  (`HigherBySuit`, `HigherHandWins`).
* The reader is more liberal than JSON and, in one way, less than its comments suggest: commas may be left out
  or stand before the first item, and either kind of quotes will do, but a comment is accepted only where a
  value or a key follows (`ReadsExactly`, `NoCommentBeforeBracket`).
* A field `n` that is the length of its table's list is lost, and a string with a raw carriage return cannot be
  read back (`LengthFieldIsLost`, `RoundTripIff`).
* A timer of one frame that is added during a walk without lying ahead would come due again in the frame in
  which it is called (`GoodIffAhead`).
* Ids that were not handed out break the pool when they are taken back (`StepKeepsPartition`).
* Swapping two hands negates the odds exactly when the hands differ in bull point or highest card
  (`SwappingNegates`); dealt hands always do.
* A multi-value reply with a nil in it cannot be read, and one that reports an error reads as empty
  (`MultiData.RoundTripIff`, `FailureReadsEmpty`).
* Request buffers, and the replies to multi-gets, are never freed (`NeverReleased`).

## Model

| member | source | states |
|---|---|---|
| `FlatTimer.FiresWhenDue` | script/common/timer.lua:163-175 | Over every run of requests, time and callbacks, a pending timer that nobody removes is untouched until the frame it is due in, and its first callback happens in exactly that frame |
| `FlatTimer.RearmedOneCycleLater` | script/common/timer.lua:166-174 | After a callback the timer is pending exactly if it is cyclic, the callback returned true and the next expiry is within the horizon; it is then due one cycle after its last expiry, ahead of the current frame |
| `FlatTimer.NeverFiresAgain` | script/common/timer.lua:101-116 | A timer that has fired or been removed is never called back later in any run: ids are not used again |
| `FlatTimer.NextKeeps` | script/common/timer.lua:142-179 | A step that neither calls back nor removes a timer leaves its due frame alone |
| `FlatTimer.TimeIsConserved` | script/common/timer.lua:142-147 | Frames done plus residue equal the elapsed time over every run |
| `FlatTimer.NeitherEarlyNorLate` | script/common/timer.lua:99-117 | A timer added at total time T0 with delay d never fires while total time is at most T0+d, and has fired after every update that takes it past T0+d+one frame |
| `FlatTimer.AddedFallsDue` | script/common/timer.lua:99-117 | A request for a timer makes exactly that timer and touches no other: it is taken on exactly if less than 4,320,000,000 ms are to go; its expiry is the last frame that begins within that time, and so is the frame in which it falls due, except that during a walk a timer with less than 100 ms to go waits for the next frame |
| `FlatTimer.CalledWhenAskedFor` | script/common/timer.lua:163-167 | Over every run, a timer that a callback asks for and nobody removes is first called back in the frame that its delay and the time left over lead to, one frame on at the earliest |
| `FlatTimer.RemovedIsNeverCalled` | script/common/timer.lua:119-130 | A timer removed between updates or by another's callback is never called back afterwards |
| `FlatTimer.ApplyAllConcat` | script/common/timer.lua:165-167 | The requests of a callback are served in their order |
| `FlatTimer.RunSound` | script/common/timer.lua:142-179 | In every reachable state each pending timer is due in a frame still to come, at most one frame after its expiry, and within the horizon |
| `FlatTimer.GoodIffAhead` | script/common/timer.lua:65-75 | The requests that the service can serve are exactly those whose timers, if cyclic, have their second expiry ahead of the frame of the first call: a cycle of two frames or more, or a first call that is not late |
| `WheelArithmetic.TargetIsRight` | script/common/timer.lua:65-84 | The slot computed from expiry and frame is the one that is walked in the due frame, or cascaded at the start of the stretch of frames that contains it |
| `WheelArithmetic.TargetElsewhere` | script/common/timer.lua:69-78 | A timer armed during a walk goes into the slot being walked exactly if it is armed outside a callback and is not ahead of the frame |
| `WheelArithmetic.NoSlotExactlyAtBound` | script/common/timer.lua:69-75 | Between updates the computed slot exists exactly if the timer lies ahead or the first wheel does not stand at its bound, where it stands after every 200 frames |
| `WheelArithmetic.FifthWheelWanted` | script/common/timer.lua:151-158 | The fourth wheel reaches its bound exactly at the positive multiples of 43,200,000 frames |
| `WheelArithmetic.CascadedSlot` | script/common/timer.lua:132-140 | The slot of a coarse wheel that is cascaded holds exactly the timers due in the stretch of frames that begins |
| `WheelArithmetic.NextTurn` | script/common/timer.lua:151-158 | Which wheels turn together, and their indexes before and after, follow from the frame number alone |
| `WheelArithmetic.WalkedSlot` | script/common/timer.lua:159-163 | Once all wheels have turned, a timer is in the first wheel's current slot exactly if it is due in this frame |
| `TimingWheels.ArmRepresents` | script/common/timer.lua:65-92 | Putting a timer into its target slot keeps every pending timer in exactly the slot the map records, adds this one, and never adds to the slot being walked |
| `TimingWheels.CascadeStep` | script/common/timer.lua:132-137 | Moving one timer of the slot being cascaded loses and duplicates nothing and never puts it back into that slot |
| `TimingWheels.CascadeEnd` | script/common/timer.lua:138-139 | Replacing the emptied slot and turning the wheel leaves every timer where it belongs at the next stage |
| `TimingWheels.WalkedSlotIsDue` | script/common/timer.lua:159-163 | The slot being walked holds exactly the timers due in this frame |
| `TimingWheels.CloseRepresents` | script/common/timer.lua:176-177 | Ending a frame leaves every timer where it belongs in the next |
| `TimingWheels.TimingWheel.constructor` | script/common/timer.lua:50-63 | The wheels start empty at frame 0 |
| `TimingWheels.TimingWheel.InternalAddTimer` | script/common/timer.lua:65-92 | Stores the timer in exactly one slot, the target, and refuses one beyond the horizon |
| `TimingWheels.TimingWheel.AddTimer` | script/common/timer.lua:99-117 | Changes the flat map as adding a timer does, returns the new id, and inside a callback leaves the walked slot alone |
| `TimingWheels.TimingWheel.RemoveTimer` | script/common/timer.lua:119-130 | Changes the flat map as removing a timer does, tells whether it was there, and touches no other timer in any slot |
| `TimingWheels.TimingWheel.CascadeTimers` | script/common/timer.lua:132-140 | Empties the current slot of a wheel into finer wheels, each timer once, and turns that wheel only |
| `TimingWheels.TimingWheel.TurnWheels` | script/common/timer.lua:149-158 | Brings all wheels to the new frame; all timers are where the walk expects them |
| `TimingWheels.TimingWheel.RunCallback` | script/common/timer.lua:165-167 | The requests of a callback act on the flat map in order and add nothing to the slot being walked |
| `TimingWheels.TimingWheel.CallBack` | script/common/timer.lua:165-169 | The callback's requests act on the flat map and the timer is taken out; the slot being walked loses it and gains nothing |
| `TimingWheels.TimingWheel.FireTimer` | script/common/timer.lua:163-175 | Does to the flat map what the specification's FireTimer does: callback, removal, and arming again one cycle later |
| `TimingWheels.TimingWheel.WalkSlot` | script/common/timer.lua:161-175 | Calls back every timer due in the frame, none twice, in whatever order; afterwards none due is left |
| `TimingWheels.TimingWheel.RunFrame` | script/common/timer.lua:145-178 | One frame is a legal run of the flat specification |
| `TimingWheels.TimingWheel.Update` | script/common/timer.lua:142-179 | An update is a legal run of the flat specification for the elapsed time, with exactly the frames that the time pays for |
| `Wire.HeaderRoundTrip` | common/net_buffer.cpp:21-55 | Every header field and the body of a packet read back as they were written |
| `Wire.HeaderLayout` | common/net_buffer.cpp:71-87 | Every field stands at its place, 0, 4, 8, 12, 16 and 18, with its lowest byte first, and the parameter bytes from 20 on |
| `Wire.UintBytesUnique` | common/net_buffer.cpp:21-43 | The bytes of an integer are the only ones that read as it |
| `Wire.CreateNetBuffer` | common/net_buffer.cpp:71-87 | A packet is its header, field by field, and then the parameter bytes |
| `Wire.StampChangesHandlerOnly` | common/net_buffer.cpp:57-63 | Stamping changes the handler id and neither another field nor the body |
| `Wire.AddHandlerIdToBuffer` | common/net_buffer.cpp:57-63 | Stamps the buffer in place, unless the packet is only a header |
| `NetPackets.SplitIsExact` | common/knetpacket.cpp:77-119 | What is cut from a stream are packets, no byte is lost, and what remains is a proper beginning of one |
| `NetPackets.SplitFindsPackets` | common/knetpacket.cpp:77-119 | Any packets followed by a partial one are cut into just these |
| `NetPackets.SplitConcat` | tcp/tcp_session.cpp:59-103 | Cutting what has arrived, and later the remainder with what follows, is cutting everything at once |
| `NetPackets.SaneConcat` | tcp/tcp_session.cpp:59-103 | A stream has good prefixes throughout if what has arrived has, and what was left of it goes on with good ones |
| `NetPackets.ChunkingDoesNotMatter` | tcp/tcp_session.cpp:59-103 | However a sane stream is chunked, the same packets are delivered in the same order and the same beginning is left |
| `NetPackets.NetPacket.Write` | common/knetpacket.cpp:77-119 | Takes no byte of a complete packet, else at least one, as many as `Takes` says, and appends exactly these; stops only at a complete packet or the end of the data |
| `NetPackets.NetPacket.WriteLength` | common/knetpacket.cpp:88-106 | Collects the length prefix byte by byte, and makes the buffer as soon as it is complete |
| `NetPackets.NetPacket.InitPackage` | common/knetpacket.cpp:132-146 | A buffer of the announced size that begins with the length already received |
| `NetPackets.NetPacket.WriteData` | common/knetpacket.cpp:148-161 | Appends the bytes to what has been received |
| `NetPackets.NetPacket.Reset` | common/knetpacket.cpp:121-130 | Nothing has been received of the next packet |
| `NetPackets.StandsStillIff` | tcp/tcp_session.cpp:65-99 | A receive loop that has begun a packet stands still, with bytes left and the packet not complete, exactly if the packet announces a length below 4 and more than 4 bytes of it have arrived |
| `TcpSessions.TcpSession.ProcessNetData` | tcp/tcp_session.cpp:59-103 | A chunk delivers exactly the packets that it completes, stamped, those with a legal body, and leaves the beginning of the next; it always comes to an end |
| `TcpSessions.TcpSession.Accept` | tcp/tcp_session.cpp:70-95 | A complete packet with a legal body is stamped in its buffer and passed on, any other is dropped |
| `Gateways.NextKeeps` | tcp/tcp_base_server.cpp:267-284 | Every step keeps the id and socket maps mutually inverse, and no number changes hands |
| `Gateways.ForwardedStamped` | common/knetpacket.cpp:163-171 | Since an empty body is no legal message, every packet passed on has a body and carries the connection's number |
| `Gateways.EventsAttributed` | tcp/gateway_server.cpp:252-281 | Whatever is passed on has a body and belongs to the owner of the number in its handler id, and so does whatever is written |
| `Gateways.RunKeeps` | tcp/gateway_server.cpp:98-161 | Both hold over every run of connects, chunks, hang-ups, closes and replies |
| `Gateways.ReplyReachesRequester` | tcp/gateway_client.cpp:158-166 | Over every run, every packet passed on or written has a handler id, and a packet from the servers that carries a request's is written to the connection the request came from, or to none |
| `Gateways.RequestsArePassedOn` | tcp/tcp_session.cpp:59-103 | Over every run the requests passed on for a connection are exactly the complete, legal packets of all bytes it has sent, stamped with its number and in order, and what follows is kept |
| `Gateways.ReplyIsSent` | tcp/gateway_server.cpp:252-281 | After every run, a packet that is cut from what the servers send is written to the connection whose number it carries, unless that connection has hung up |
| `GatewayReplies.RepliesAreWritten` | tcp/gateway_client.cpp:140-180 | Over every run, what is written to a connection is exactly what carries its number of the packets cut between its connect and its hang-up, in order and each once |
| `GatewayReplies.NoReplyVanishes` | tcp/gateway_server.cpp:252-281 | Over every run, every packet cut that carries a number is either written to that number's connection or reported as one for a client that is gone, and a packet without a number is neither |
| `GatewayClients.GatewayClient.ProcessNetData` | tcp/gateway_client.cpp:140-180 | The receive loop of all links takes a chunk as a step of the gateway: it cuts the packets that the chunk completes and routes them in order |
| `GatewayClients.GatewayClient.Deliver` | tcp/gateway_client.cpp:151-170 | A complete packet is handed on if it has a handler id, and the next one is begun |
| `LinkStreams.UnmixedIff` | tcp/gateway_client.cpp:72-80 | For any chunks of any links: every packet cut from the common stream, and what is left, consists of bytes of one link, exactly if another link is heard only while nothing is left over |
| `LinkStreams.LinkGetsItsPackets` | tcp/gateway_client.cpp:140-179 | Then the packets that each link completes are those of all its bytes, cut by themselves, in order |
| `LinkStreams.SwitchKeepsPacketIff` | tcp/gateway_client.cpp:140-179 | A packet of which a part is missing survives a chunk from another link exactly if that begins with the missing part |
| `GatewayLinks.CutsTheStream` | tcp/gateway_client.cpp:87-100 | Over every run the gateway cuts the common stream of all links and keeps what is left of it |
| `GatewayLinks.RepliesUnmixedIff` | tcp/gateway_client.cpp:24-28 | Over every run of the gateway, no packet that it cuts mixes bytes of two servers, exactly if another server is heard only while nothing is left over |
| `GatewayLinks.RepliesOfEachLink` | tcp/gateway_client.cpp:140-179 | Then the packets routed for each server are exactly its own, in order |
| `GatewayLinks.RepliesGetMixed` | tcp/gateway_client.cpp:24-28 | A run in which a chunk of another server amid a reply puts two foreign bytes into it, loses a whole reply, and leaves the gateway waiting for 65,536 bytes |
| `Gateways.ReachableUntilHangup` | tcp/gateway_server.cpp:125-155 | A number leads to a connection exactly until that connection hangs up |
| `Gateways.GatewayServer.AddSession` | tcp/tcp_base_server.cpp:267-284 | Gives the connection a new number in all maps |
| `Gateways.GatewayServer.RemoveClient` | tcp/gateway_server.cpp:125-155 | Both maps forget the connection, nothing else changes; an unknown connection changes nothing |
| `Gateways.GatewayServer.OnConnectionClose` | tcp/gateway_server.cpp:157-161 | Only the session is forgotten |
| `Gateways.GatewayServer.TransferToClient` | tcp/gateway_server.cpp:252-281 | Writes a packet to the connection of this number, or reports that the client is gone, and changes no map |
| `IdGenerators.FisherYatesPermutes` | script/room_logic/tool/id_generator.lua:45-66 | Whatever the random choices, the shuffle yields a permutation |
| `IdGenerators.EachOrderOnce` | script/room_logic/tool/id_generator.lua:45-66 | Every arrangement of the range comes of some answers of the random generator, and of no others |
| `IdGenerators.SparseRound` | script/room_logic/tool/id_generator.lua:51-63 | A round on the table of displaced entries does what a round on the whole array does |
| `IdGenerators.IdGenerator.Init` | script/room_logic/tool/id_generator.lua:45-66 | The sparse shuffle computes the same list as the array shuffle of the whole range |
| `IdGenerators.IdGenerator.GetOne` | script/room_logic/tool/id_generator.lua:35-37 | Hands out the first free id, if there is one |
| `IdGenerators.IdGenerator.Return` | script/room_logic/tool/id_generator.lua:39-43 | Appends an id of the range to the free ones, and ignores any other |
| `IdGenerators.FirstBackFirstOut` | script/room_logic/tool/id_generator.lua:35-43 | Over every run, the ids handed out and then those free are those free at the start and then those taken back, in the same order |
| `IdGenerators.StepKeepsPartition` | script/room_logic/tool/id_generator.lua:35-43 | Free and issued ids partition the range after a step exactly if no id is taken back that was not out |
| `IdGenerators.NeverIssuedTwice` | script/room_logic/tool/id_generator.lua:35-66 | Over every run each id of the range is free or issued, never both, and never issued twice |
| `BullCards.ValueIsCount` | script/room_logic/tool/card_helper.lua:8-24 | By the bits tested, a card counts its rank up to ten, court cards and jokers count ten |
| `BullCards.HigherBySuit` | script/room_logic/tool/bull_fighting_card_helper.lua:54-58 | A card code is higher by suit, then by rank; the jokers are above all |
| `BullCards.PointOfOtherTwo` | script/room_logic/tool/bull_fighting_card_helper.lua:44-83 | A hand of which three cards count 10, 20 or 30 has what the other two count, or ten less if that is more than ten, in whatever order the cards are held |
| `BullCards.NoPointIff` | script/room_logic/tool/bull_fighting_card_helper.lua:86-105 | A hand has no point exactly if no three of its cards count 10, 20 or 30 |
| `BullCards.OrderDoesNotMatter` | script/room_logic/tool/bull_fighting_card_helper.lua:44-105 | Having a bull, the bull point and the highest card do not depend on the order of the cards |
| `BullCards.IsBull` | script/room_logic/tool/bull_fighting_card_helper.lua:86-105 | Finds a bull exactly if some three different cards make up whole tens |
| `BullCards.GetBullPoint` | script/room_logic/tool/bull_fighting_card_helper.lua:44-83 | With a bull the point is the total modulo 10 with 0 read as 10, whichever triple is found first; without one it is 0 |
| `BullCards.CompareCard` | script/room_logic/tool/bull_fighting_card_helper.lua:8-41 | The former hand wins exactly if it is higher by bull point, then by highest card; the odds are the winner's, negative if it is the latter |
| `BullCards.HigherHandWins` | script/room_logic/tool/bull_fighting_card_helper.lua:16-31 | A hand beats another exactly if it has more points, or as many and a card higher than all of the other's |
| `BullCards.WinnerSetsOdds` | script/room_logic/tool/bull_fighting_card_helper.lua:33-38 | Whichever hand is asked about first, the odds are those of the winner's point |
| `BullCards.BeatsIsAnOrder` | script/room_logic/tool/bull_fighting_card_helper.lua:8-41 | No hand beats itself, and beating is transitive |
| `BullCards.SwappingNegates` | script/room_logic/tool/bull_fighting_card_helper.lua:8-41 | Swapping the hands negates the odds exactly if the hands differ in point or highest card |
| `Shufflers.MixedPermutes` | script/room_logic/card_shuffler/bull_fighting_shuffler.lua:50-57 | Whatever the random choices, the shuffled deck is a permutation of the deck before |
| `Shufflers.CardWent` | script/room_logic/card_shuffler/bull_fighting_shuffler.lua:50-57 | After any number of rounds every card is at the place to which the exchanges have taken it |
| `Shufflers.AnyArrangementIff` | script/room_logic/card_shuffler/bull_fighting_shuffler.lua:50-57 | A deck comes of a shuffle, with some random answers, exactly if it is a rearrangement |
| `Shufflers.DealtFromTop` | script/room_logic/card_shuffler/bull_fighting_shuffler.lua:60-70 | Card j of hand i is the card of the deck at i times the size of a hand, plus j |
| `Shufflers.HandsAreDisjoint` | script/room_logic/card_shuffler/bull_fighting_shuffler.lua:60-70 | A card in two dealt hands is in the deck twice |
| `Shufflers.DeckIsProper` | script/room_logic/card_shuffler/shuffler.lua:36-44 | The deck, with or without jokers, holds no card twice |
| `Shufflers.DeckHoldsEveryCard` | script/room_logic/card_shuffler/shuffler.lua:36-44 | The deck holds the 52 cards of four suits once each, the two jokers exactly if they are wanted, and nothing else |
| `Shufflers.DealtHandsAreRanked` | script/room_logic/tool/bull_fighting_card_helper.lua:8-41 | Of two hands dealt from a proper deck exactly one beats the other |
| `Shufflers.BullFightingShuffler.Shuffle` | script/room_logic/card_shuffler/bull_fighting_shuffler.lua:19-72 | Mixes and deals if the hands are positive in number and size and the deck suffices, otherwise changes nothing; the deck stays a permutation of the full one |
| `Shufflers.BullFightingShuffler.Mix` | script/room_logic/card_shuffler/bull_fighting_shuffler.lua:50-57 | Every round swaps its card with the randomly chosen one |
| `Shufflers.BullFightingShuffler.DealCards` | script/room_logic/card_shuffler/bull_fighting_shuffler.lua:60-70 | The hands are consecutive slices from the top of the deck |
| `Settlements.BetRaisesTotal` | script/room_logic/class/bull_fighting_table.lua:39-51 | A bet raises the sum of all users' stakes on its position by the amount, and on no other |
| `Settlements.Exchange` | script/room_logic/class/bull_fighting_table.lua:203-214 | Summing the payouts user by user or position by position gives the same |
| `Settlements.PaidPerSeat` | script/room_logic/class/bull_fighting_table.lua:202-230 | Settling seat by seat changes a user's balance by the payout of the stakes, once for every seat |
| `Settlements.PaidRightIff` | script/room_logic/class/bull_fighting_table.lua:202-230 | A balance changes by the payout exactly if the user has one seat or nothing to be paid |
| `Settlements.SettlingConserves` | script/room_logic/class/bull_fighting_table.lua:202-230 | If every bettor is seated once, all balances together change by (1 - commission) times the stakes on winning positions minus those on losing ones |
| `Settlements.LossIsBounded` | script/room_logic/class/bull_fighting_table.lua:206-214 | A round costs no more and brings no more than the stakes |
| `Settlements.CoveredIsSolvent` | script/room_logic/class/bull_fighting_table.lua:93-98 | A user whose gold exceeds stakes times highest odds has gold left after the round, whatever the cards |
| `Settlements.NegativeStakeHidesDebt` | script/room_logic/class/bull_fighting_table.lua:93-98 | With a negative stake the check passes and the round leaves a debt |
| `Settlements.RecordIsExact` | script/room_logic/class/bull_fighting_table.lua:217-229 | The record holds the non-zero changes, and adds up to the change of every balance |
| `Settlements.BalancesReported` | script/room_logic/class/bull_fighting_table.lua:217-226 | Each entry reports the balance that its user has after it |
| `Settlements.UserManager.Book` | script/room_logic/class/bull_fighting_table.lua:219-224 | A gain is added and a loss taken off, to the user's balance and no other |
| `Settlements.RoomService.GameSettlement` | script/game_logic/service/room_service.lua:7-42 | The logic server changes every balance by what the record says of the user |
| `BullTables.NextKeeps` | script/room_logic/class/bull_fighting_table.lua:118-274 | Every arrival, bet, callback and change of balances elsewhere keeps the invariant: totals are sums of stakes, one pending timer fits the state, the cards are dealt from a permuted deck |
| `BullTables.AcceptedIff` | script/room_logic/class/bull_fighting_table.lua:54-98 | A bet is accepted exactly if position and amount are proper, bets are being taken, and the gold covers all stakes afterwards; a refused bet changes nothing |
| `BullTables.RefusedBecause` | script/room_logic/class/bull_fighting_table.lua:54-98 | Which error code a refused bet gets: a position or amount that is none comes before the wrong state, and that before too little gold |
| `BullTables.BetIsMarked` | script/room_logic/class/bull_fighting_table.lua:39-51 | An accepted bet raises the stake of its user on its position and the table's total of that position, and nothing else |
| `BullTables.UnguardedBetKeepsIff` | script/room_logic/class/bull_fighting_table.lua:54-86 | A bet that bypasses the request handler keeps the invariant exactly if no stake falls below zero |
| `BullTables.CoveredIff` | script/room_logic/manager/room_manager.lua:19-22 | While bets are taken all stakes at the table stay covered, exactly unless a balance is replaced, by a returning user's or by what another table's settlement leaves, that does not cover them |
| `BullTables.StepChangesOnly` | script/room_logic/class/bull_fighting_table.lua:118-274 | States only move on round the circle and by a timer; stakes change only by bets in time or begin again from nothing; cards are fixed before the first bet; gold changes only on arrival, at settlement, or elsewhere in the room |
| `BullTables.NoTies` | script/room_logic/class/bull_fighting_table.lua:181-194 | In every round each position wins, or the dealer's hand beats it |
| `BullTables.RoundConserves` | script/room_logic/class/bull_fighting_table.lua:154-238 | At the end of betting in any reachable state the balances change together by the table's own totals: winners' less commission minus losers' |
| `BullTables.RoundLeavesGold` | script/room_logic/class/bull_fighting_table.lua:154-238 | Nobody who has bet and is covered is left without gold |
| `BullTables.ServersAgree` | script/game_logic/service/room_service.lua:29-42 | The report of a step adds up to the change of every room balance, so booking it keeps the servers equal |
| `BullTables.RunCovered` | script/room_logic/class/bull_fighting_table.lua:26-98 | Over every run in which the balances that are replaced cover the stakes, all bets at the table are covered while bets are taken; the totals are the sums of the users' stakes |
| `BullTables.RunKeepsOneTimer` | script/room_logic/class/bull_fighting_table.lua:131-162 | Over every run a table has exactly one pending timer once a user has come in, and none before |
| `BullTables.ThreeTimersMakeARound` | script/room_logic/class/bull_fighting_table.lua:146-270 | Three callbacks lead through all three states of a round and back |
| `Rooms.AfterKeeps` | script/room_logic/manager/room_manager.lua:13-55 | Every arrival at an old or a new table, bet and callback keeps every table's invariant, with the balances shared |
| `Rooms.SeenFrom` | script/room_logic/manager/room_manager.lua:46-55 | For every table what happens in the room is a step: its own, or one taken elsewhere |
| `Rooms.BalanceIs` | script/room_logic/class/bull_fighting_table.lua:202-230 | A user's balance after any event in the room, from what was known before it |
| `Rooms.SafeIff` | script/room_logic/class/bull_fighting_table.lua:93-98 | Balances that cover their users' stakes at all open tables, once for every seat, do so after an event exactly if the arrival or the bet is affordable at all open tables together; settlements never change it |
| `Rooms.GuardSuffices` | script/room_logic/class/bull_fighting_table.lua:93-98 | The table's own guard suffices for a user without stakes at other tables and with no more seats than the highest odds |
| `Rooms.NoDebtIff` | script/room_logic/class/bull_fighting_table.lua:202-230 | No outcome of the open rounds can leave a user in debt exactly if the balance covers the user's stakes at all open tables |
| `Rooms.RunSafe` | script/room_logic/class/bull_fighting_table.lua:54-98 | Over every run of affordable arrivals and bets no balance is ever negative, whatever the cards |
| `Rooms.RoomCoveredIff` | script/room_logic/class/bull_fighting_table.lua:93-98 | Bets at all open tables stay covered exactly if a returning user's balance, or what a settlement leaves to users who have bet elsewhere too, covers the stakes still open |
| `Rooms.RunRoomCovered` | script/room_logic/class/bull_fighting_table.lua:26-98 | Over every run of which this holds, the bets at every open table are covered |
| `Rooms.CoveredWhateverTheCards` | script/room_logic/class/bull_fighting_table.lua:202-230 | Whatever the cards of one table, what it leaves to a user covers given stakes elsewhere, exactly if the balance less the risk at this table does |
| `Rooms.AsWrittenNeverShared` | script/room_logic/manager/room_manager.lua:63-132 | As written, the room's list of tables stays empty over every run, so that every arrival is given a new table |
| `Rooms.AsMeantAllShare` | script/room_logic/manager/room_manager.lua:63-132 | If tables were entered in the list as meant, all arrivals would be seated at one table |
| `Rooms.OneSeatEach` | script/room_logic/manager/room_manager.lua:63-132 | As written, every table has one seat over every run |
| `Rooms.UnsharedRoundConserves` | script/room_logic/class/bull_fighting_table.lua:154-238 | As written, every round conserves money, with nothing asked about seats |
| `RoomDebts.SharedTablePaysTwice` | script/room_logic/class/bull_fighting_table.lua:202-230 | A run in which a user comes in twice at a shared table, bets once, and loses the stake twice |
| `RoomDebts.StakesAtTwoTables` | script/room_logic/class/bull_fighting_table.lua:93-98 | A run in which a user bets at two tables, past both guards and with sufficient balances at both entries, and loses both stakes |
| `RoomDebts.GuardsDoNotPreventDebt` | script/room_logic/class/bull_fighting_table.lua:93-98 | With odds of 1 such a run leaves a user of 100 owing 98 |
| `BullTables.BullFightingTable.constructor` | script/room_logic/class/bull_fighting_table.lua:3-10 | A new table has nobody, no bets and no timer |
| `BullTables.BullFightingTable.Enter` | script/room_logic/manager/room_manager.lua:13-32 | A user's balance is replaced, a seat is taken, and the first arrival starts a round |
| `BullTables.BullFightingTable.CheckState` | script/room_logic/class/bull_fighting_table.lua:118-128 | A round starts in the initial state if somebody is seated |
| `BullTables.BullFightingTable.InitGame` | script/room_logic/class/bull_fighting_table.lua:131-138 | All bets are reset, cards are shuffled and dealt, and the first timer is set |
| `BullTables.BullFightingTable.GetSumOfUserBet` | script/room_logic/class/bull_fighting_table.lua:26-36 | The sum of a user's stakes, 0 without any |
| `BullTables.BullFightingTable.CheckBetOverRange` | script/room_logic/class/bull_fighting_table.lua:93-98 | Whether the gold exceeds stakes and bet at the highest odds |
| `BullTables.BullFightingTable.MarkBet` | script/room_logic/class/bull_fighting_table.lua:39-51 | Adds the bet to the table's and the user's stakes on its position |
| `BullTables.BullFightingTable.UserBet` | script/room_logic/class/bull_fighting_table.lua:54-85 | The checks in their order, each with its error code and no change; otherwise the bet is marked |
| `BullTables.BullFightingTable.ClientBet` | script/room_logic/game/bull_fighting.lua:8-33 | Refuses negative positions and amounts before the table is asked |
| `BullTables.BullFightingTable.TimerFires` | script/room_logic/class/bull_fighting_table.lua:146-270 | A callback is a step of the state machine, with the report it sends |
| `BullTables.BullFightingTable.BetTimerOver` | script/room_logic/class/bull_fighting_table.lua:154-162 | The round is settled before the state moves on and the next timer is set |
| `BullTables.BullFightingTable.SettlementTimerOver` | script/room_logic/class/bull_fighting_table.lua:259-269 | A new round begins at once if anybody is seated |
| `BullTables.BullFightingTable.CompareHands` | script/room_logic/class/bull_fighting_table.lua:165-194 | Which positions win against the dealer |
| `BullTables.BullFightingTable.CountChange` | script/room_logic/class/bull_fighting_table.lua:203-214 | What a user's stakes bring: wins less commission, losses in full, empty positions nothing |
| `BullTables.BullFightingTable.Settlement` | script/room_logic/class/bull_fighting_table.lua:196-238 | Every seat is paid and every change recorded, as the specification of settling says |
| `JsonText.EncodeStringEscapes` | script/common/json.lua:332-339 | Five successive substitutions equal escaping every character by itself |
| `JsonText.ScanStopsAtEnd` | script/common/json.lua:284-305 | The scan of a printed string stops at the quote that ends it, and at no other |
| `JsonText.UnescapeEscaped` | script/common/json.lua:306-311 | The Lua reader turns the escaped text back into the string, exactly unless it holds a raw carriage return |
| `JsonText.WholeOfPrinted` | script/common/json.lua:225-238 | Every integer of up to 14 digits is read back from its text |
| `JsonText.PlaceValue` | script/common/json.lua:225-238 | Digits count by their places: those before others count as often as the power of ten behind them says |
| `Json.Parse` | script/common/json.lua:120-146 | What is read is shorter than the text, so reading comes to an end, and is never a table with both a list part and fields |
| `Json.StringPrinted` | script/common/json.lua:284-311 | A printed string is read to its end whatever follows, or not at all if it holds a carriage return |
| `Json.NumberPrinted` | script/common/json.lua:225-238 | A printed integer is read to its end if what follows does not go on it |
| `Json.ParsePrinted` | script/common/json.lua:63-146 | What reading a printed value yields: its normal form with the position just after it, or an error if a carriage return is in any string or key |
| `Json.ItemsPrinted` | script/common/json.lua:165-185 | The same for the items of an array, after those already read |
| `Json.FieldsPrinted` | script/common/json.lua:246-274 | The same for the fields of an object, in any order of distinct keys |
| `Json.RoundTripIff` | script/common/json.lua:63-146 | Parsing what was printed gives the value back exactly for the printable values, for any field order and any following text that is delimited |
| `Json.TextsDiffer` | script/common/json.lua:63-114 | Different printable values are printed differently |
| `Json.LengthFieldIsLost` | script/common/json.lua:349-366 | A table with fields is taken for an array exactly if its one field is an n that is the length of its list; the field is lost and the list comes back |
| `JsonLanguage.TreeRead` | script/common/json.lua:120-326 | Every text of the grammar is read as what it stands for, up to what follows it |
| `JsonExactness.TreeOf` | script/common/json.lua:120-326 | Whatever is read is a text of the grammar, after blanks and comments, and stands for what was read |
| `JsonExactness.ReadsExactly` | script/common/json.lua:120-326 | A text is read as a value up to some rest if and only if it is a text of the grammar which stands for that value, in front of that rest |
| `JsonLaws.LayoutDoesNotMatter` | script/common/json.lua:319-326 | A printed value is read back whatever spaces, line feeds, carriage returns and tabs stand between its tokens, and whatever comments before its values and keys |
| `JsonLaws.NoCommentBeforeBracket` | script/common/json.lua:171-183 | Between the brackets of an empty list blanks are accepted and comments are not |
| `JsonLaws.LastMemberWins` | script/common/json.lua:264-272 | Of the members with the same key the last one counts, and if it is null there is no such field |
| `JsonLaws.PrintedTree` | script/common/json.lua:63-114 | A value is printed as a text of the grammar without blanks and comments |
| `JsonLaws.PrintedPieces` | script/common/json.lua:332-339 | In a printed string exactly quotes of both kinds, backslashes, line feeds and tabs are escaped |
| `JsonReader.ScanWhitespace` | script/common/json.lua:319-326 | Stops at the first character that is not white space |
| `JsonReader.ScanNumber` | script/common/json.lua:225-238 | Reads the longest run of numeric characters as the specification does |
| `JsonReader.ScanToQuote` | script/common/json.lua:284-305 | Finds the closing quote, stepping over escaped characters |
| `JsonReader.ScanString` | script/common/json.lua:284-311 | Reads a quoted string as the specification does |
| `JsonReader.ScanComment` | script/common/json.lua:191-196 | Finds the position after the first end of a comment |
| `JsonReader.ScanConstant` | script/common/json.lua:204-216 | Reads true, false or null, and nothing else |
| `JsonReader.ScanArray` | script/common/json.lua:165-185 | The loop over positions fills the same list as the specification |
| `JsonReader.ScanObject` | script/common/json.lua:246-274 | The loop over positions fills the same fields as the specification |
| `JsonReader.Decode` | script/common/json.lua:120-146 | Reading from a position agrees with parsing the text from there on, and the position strictly grows |
| `JsonReader.PrintedIsDecoded` | script/common/json.lua:120-146 | A printable value printed anywhere in a text is what is decoded at its position, up to just after it |
| `DbClients.NoUseAfterFree` | db_proxy/db_client.cpp:186-302 | No step of either thread touches the counter of a freed buffer |
| `DbClients.NextKeeps` | db_proxy/db_client.cpp:126-302 | Every step keeps order and counts: each buffer's count equals the references still owed by creator, queues, worker and main thread |
| `DbClients.FirstInFirstOut` | db_proxy/db_client.cpp:211-286 | In every interleaving requests handled, in hand and queued are those pushed, and replies delivered, in flight and queued are those of the requests handled, in order |
| `DbClients.AllIsDelivered` | db_proxy/db_client.cpp:186-302 | Whenever queues are empty and threads idle, every request has been handled and exactly its replies delivered, in order |
| `DbClients.NeverFreedInUse` | common/db_buffer.cpp:53-73 | In every interleaving no buffer in use has been freed and none is freed twice |
| `DbClients.ReplyFreedAfterDelivery` | db_proxy/redis_client.cpp:482-535 | A reply that its creator releases is freed exactly when nobody is at it any more, after it has been delivered or left over at the end |
| `DbClients.NeverReleased` | db_proxy/redis_client.cpp:539-568 | Requests, and replies whose creator keeps its reference, are never freed |
| `DbClients.AtQuietEnd` | db_proxy/redis_client.cpp:461-714 | In every interleaving, once all is quiet: which replies a request of each kind has come to, in order, and which of them have been freed |
| `DbThreads.DbClient.AddRef` | common/db_buffer.cpp:53-56 | One reference more |
| `DbThreads.DbClient.Release` | common/db_buffer.cpp:58-73 | One reference less; the last one frees the buffer |
| `DbThreads.DbClient.PushRequest` | db_proxy/db_client.cpp:211-230 | Takes a reference and appends to the request queue, as one step |
| `DbThreads.DbClient.PopRequest` | db_proxy/db_client.cpp:232-248 | Takes the first request, if there is one, with its reference |
| `DbThreads.DbClient.PushRespond` | db_proxy/db_client.cpp:250-268 | Takes a reference and appends to the reply queue, as one step |
| `DbThreads.DbClient.PopRespond` | db_proxy/db_client.cpp:270-286 | Takes the first reply, if there is one, with its reference |
| `DbThreads.DbClient.LeaveReply` | db_proxy/redis_client.cpp:482-492 | The creator of a reply gives up its reference, for the kinds that do |
| `DbThreads.DbClient.DBThreadActivate` | db_proxy/db_client.cpp:186-202 | Left alone, the worker handles requests in order and appends exactly their replies, until none is left or the database is closed |
| `DbThreads.DbClient.Activate` | db_proxy/db_client.cpp:288-302 | Left alone, the main thread delivers and releases all queued replies in order |
| `DbThreads.DbClient.UnInit` | db_proxy/db_client.cpp:126-147 | The worker finishes what it has in hand, wherever it is, and makes its last round; what is left in the queues is released, in order, and both are empty |
| `MultiData.RoundTripIff` | vm/lua_engine.cpp:244-258 | From a packed reply the reader recovers exactly the values written, if and only if none is nil; the reply has the size computed beforehand |
| `MultiData.FailureReadsEmpty` | db_proxy/redis_client.cpp:761-765 | A reply that reports an error has the size computed beforehand and reads as one without values |
| `MultiData.PackedParts` | common/db_def.h:138-163 | The count and the data that the reader is given are those that were packed |
| `MultiData.UnpackPacked` | vm/lua_engine.cpp:244-258 | The same from any element on |
| `MultiData.ComputeSize` | db_proxy/redis_client.cpp:720-738 | The size of the reply, from the struct and the lengths of the values |
| `MultiData.GenMultiDataNetRespond` | db_proxy/redis_client.cpp:716-788 | The bytes written, of an error or through the moving pointers, are the packed reply and exactly fill the buffer |
| `MultiData.RedisCallLua` | vm/lua_engine.cpp:235-258 | The reading loop finds what the specification of reading says |

## Left out

- Sockets, libuv, configuration, logging, process start and exit, and the protobuf messages themselves: I/O and generated code. A packet's body is judged by the predicate `legal`.
- MySQL and Redis commands, SQL strings, pings and reconnects: foreign libraries. What Redis answers is covered by `kinds`, which says for each request what it asks for and whether a hash get falls back on MySQL.
- The Lua VM binding beyond the multi-value reader: argument marshalling only.
- Builders of single requests (`DB_CreateSetBuffer` and the like), user information, store, friends and registration: they would only add easy members.
- Floating point: times are whole milliseconds, cycles whole frames, and money is exact.
- `null` as a function value, functions and other values that the JSON printer skips or refuses.
- Diagnostics, client notifications and the data sent to clients in each table state.
- The correlation of replies with requests in `script/manager/net_manager.lua`: mixing synchronous and asynchronous replies takes another request's entry, so there is nothing general to state.
- TimingWheels.TimingWheel.Update: only for runs that stay below 43,200,000 frames, because the source indexes a fifth wheel there (`FifthWheelWanted`); callbacks do not call update or clear themselves.
- TimingWheels.TimingWheel.AddTimer: delays are not negative; during a walk the first expiry of a timer of one frame lies ahead (`GoodIffAhead`), because the source would walk the slot again; and an expired timer is not added while the first wheel stands at its bound, because the source has no slot for it.
- TimingWheels.TimingWheel.InternalAddTimer: slots hold ids and a map holds the records, where the source keeps the record in the slot; two slots never share a record, so aliasing is not lost.
- TimingWheels.TimingWheel.FireTimer: the counter and the barrier are fields here, where the source has one of each for all services of a process.
- TcpSessions.TcpSession.ProcessNetData: only for streams whose packets have room for the 20-byte header, because the source computes a negative body size for a shorter one; that `malloc` fails or its size wraps round is not modelled.
- NetPackets.NetPacket.Write: a length prefix is at least 4 and below the marker for "not known"; a smaller one makes the source write beyond its buffer and then take no byte any more (`StandsStillIff`).
- Rooms.AsWrittenNeverShared: one room with one list of tables; every room has a list of its own, and each stays empty for the same reason.
- Gateways.GatewayServer.RemoveClient: the source reads a map entry through an iterator that it has just erased; the model uses the value that was meant.
- Gateways.GatewayServer.AddSession: the number of connections stays below the overflow of the session counter.
- Gateways.ReplyReachesRequester: for runs whose common stream of replies has packets with room for a header, as `NetPackets.NetPacket.Write` asks; which of the three servers a request goes to is not modelled, and a server number that is none of theirs makes the source use a null link.
- BullTables.BullFightingTable.Enter: the class is one table; the choice or making of a table for an arrival, and all tables of a room together, are modelled on values in `rooms.dfy`, not as objects that share the users.
- BullTables.BullFightingTable.TimerFires: that the pending callback comes in time is a matter of the timer service, which is modelled by itself.
- Settlements.RoomService.GameSettlement: every user of a record is known to the logic server; `CostGold` subtracts, as its use in `script/game_logic/store/store_logic.lua` requires. The copy at `script/share/user.lua:179` adds an undefined name instead and cannot be what is run.
- Settlements.SettlingConserves: for tables where every bettor has one seat, because the source pays every seat (`PaidRightIff`).
- BullTables.RunCovered: for runs in which the balances that are replaced cover the stakes (`CoveredIff`, `RoomCoveredIff`), because the source asks only about one table's stakes and only when a bet is made.
- JsonText.WholeOfPrinted: integers of up to 14 digits, because longer ones are printed in exponent form; other numeric texts, which the source evaluates as Lua expressions, count as malformed here.
- Json.Parse: an object key that is a number counts as malformed, because fields are keyed by strings here, where the source would add an index to the table; so do numeric texts other than whole numbers of up to 14 digits.
- JsonReader.ScanNumber: numeric texts other than whole numbers of up to 14 digits are errors, where the source evaluates them.
- JsonReader.ScanObject: keys that are numbers are errors, where the source stores them as indexes.
- JsonReader.Decode: inherits what `JsonReader.ScanNumber` and `JsonReader.ScanObject` leave out.
- DbClients.FirstInFirstOut: requests that one client's worker pushes to another client are not followed there; nothing is pushed once the client is being shut down.
- DbThreads.DbClient.DBThreadActivate: run without interruption; the interleavings are those of the state machine.
- MultiData.GenMultiDataNetRespond: nested arrays are not modelled, and the bytes of the head before the count are given.
