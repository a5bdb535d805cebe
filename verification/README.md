# F1 telemetry recorder: the state machines, proved

The repository receives Formula 1 telemetry over UDP, one datagram at a time, from any number of
clients. For each client it keeps a *packet house* that notices session changes and decides once a
second what to write; a *car state* that ranks the cars, keeps their split tables and picks the
car the camera follows; and a bounded queue that carries SQL text to the database threads. A newer
packet format is kept in a cache of its own, and a small header parses the command line. This
project models those parts in Dafny and proves what they keep over whole runs.

`dafny verify dfyconfig.toml` checks everything.

## Layout

| file | source | content |
|---|---|---|
| AsyncQueue.dfy | src/common/db_handler.h | the statement queue as interleaved steps of one caller, N consumers and the destructor |
| GetOpt.dfy | src/common/get_opt.h | tokeniser, list parser, `/proc` parser, argument map |
| PacketMap2025.dfy | src/packet/f1-2025/packet.h | the 2025 cache and its recomputation from the log |
| PacketHouse.dfy | src/server/packet_house.cpp | the class `PacketHouse`, proved against `Stored` and `Handled` on values |
| HouseRuns.dfy | src/server/packet_house.cpp | theorems over all runs of one house |
| ParentRows.dfy | src/server/packet_house.cpp | parent rows before child rows; what reaches the car state |
| Server.dfy | src/server/server.cpp | the class `Server` with its map of houses, proved against `Receive` |
| ServerRuns.dfy | src/server/server.cpp | theorems over all runs with many clients |
| Cars.dfy, AllCarInfo.dfy | src/packet/car_info.cpp, .h | one car on values; the class `AllCarInfo` with its arrays, up to ToSQL |
| CarRuns.dfy | src/packet/car_info.cpp | theorems over all histories of one car, and over lap packets |
| Distances.dfy | src/packet/car_info.cpp | slices, splits, gaps and snapshots in terms of what the packets say |
| CarHistory.dfy | src/packet/car_info.cpp, src/server/packet_house.cpp | from the packets of a house to the calls of the class to the histories of its cars |
| Scenes.dfy | src/packet/car_info.cpp, .h | scene lists and camera, `Director` and `FocusCar` |
| SceneRuns.dfy | src/packet/car_info.cpp, .h | what the lists mean; theorems over all runs of the camera |

The classes change their state in place as the source does. Each method's `ensures` gives the whole
new state as a function of the old one, and the theorems are about runs of those functions.

## Reading of the source

- Every reading of the clock, every random draw and every datagram is a parameter. `Handle` may
  read the clock twice on its way to a row, so it takes two readings; `Store` has its own. Theorems
  that need a non-decreasing clock say so (`Clocked`, `Paced`, `CuesOk`).
- What the source takes for granted is a precondition: the packet id is below 12; lap numbers,
  positions and slice numbers are within their arrays (`PacketOk`, `Report.Ok`); the track length
  is not 0 when lap data comes. The slice cell, which the source reads before it tests
  `sliceIndex >= 0`, is read after the test. Memory that no constructor sets is zero.
- Floating point is `real`; `int(...)` of a float truncates towards zero (`Trunc`).
- What is emitted is a datatype (`Emission`), not text. `HasText` says when the text is not empty: a
  lobby with a player, a classification with a classified car, a per-second row with a batch, an
  event of a known code, or a history of a car that is listed (in time trial only three are).
- The session history is read outside its table by src/packet/car_info.cpp:231-236 when a car has no
  lap or no best lap yet. What such a read yields is a field of the history (`outside`).
- A packet carries the fields some decision reads; `body` stands for the rest.
- The house records the calls it makes on its car state (`carCalls`); the car state itself is the
  class `AllCarInfo`, and `CarHistory` takes the one to the other. The scene members of the source's
  class are a class of their own, `Director`, held by `AllCarInfo`; it reads the cars in rank order.
- A shutdown of the queue is a `Stop` with no call under way and no later one: an object that is being
  destroyed is not called.
- Scene lists hold ranks, and `cars` gives the car of each rank; the camera holds cars.
- Two comments of the source disagree with its code, and the code is followed: the lap distance is
  a multiple of 5, not of 10 (src/packet/car_info.h:75,136); `size()` is not always argc
  (src/common/get_opt.h:28), see `SizeOfArguments`.

## Properties that do not hold as one would wish

Each has a failing input and the exact condition.

| wish | fails at | holds exactly when |
|---|---|---|
| a child row never goes out before its header | `ZeroKeyOrphans` | the first SessionData has a key that is not all zero (`ParentBeforeChildren`) |
| headers have distinct begins, which are their keys | `HeadersMayCollide` | no two SessionData packets that change the key are handled in the same second (`HeaderKeysUniqueExactly`) |
| a batch finds lap data in the car state | `BatchBeforeRanks` | some lap packet came after some SessionData (`BatchAfterLapExactly`); in this session: `RanksFilledExactly` |
| ToSQL of a race finds the first rank set | `BatchWithoutLeader`, where a lap packet did come | some lap packet, stored after some SessionData, had a processed car at position 1 in the session known then (`BatchHasLeaderExactly`) |
| the rank list inverts the positions | `LoneCarIsNotRanked` | the positions are distinct and at most their number (`RankListIsInverse`) |
| race gaps are read within the split tables, positions being proper | `LapZeroIsOutOfTable` | every car of the last lap packet is ready: behind the first it is past lap 0 or its first slice, and a best lap it is measured against has a number below 100 (`RaceMeasuredExactly`) |
| shutting down loses no accepted statement | `ShutdownMayDrop` | when running_ is cleared, no more statements wait than consumers are on their way to a last look (`ShutdownLosesExactly`, which also says which are lost) |
| notify_all leaves nobody asleep | `SleepsThroughShutdown` | no consumer stands between its loop test and wait_for that can find the buffer empty (`SleepsThroughShutdownExactly`) |
| statements are executed in acceptance order | `ManyConsumersMayReorder` | there is at most one consumer (`OrderKeptExactly`) |
| the cue that takes a car off its flying lap sets two seconds of not_fly_lap | `OneSecondHandovers` | another car was at that cue's head; else it sets one second, which a later cue may prolong (`FlyLapHandover`) |
| a list is read back from its comma join | `EmptyItemIsLost` | no item is empty (`ListRoundTrip`) |
| a `/proc` text is recovered from its arguments | `FinalNulIsAdded` | it is empty or ends in NUL (`CmdlineRoundTrip`) |
| `size()` is argc | `SizeCanExceedArgc` | no argument defines the key that spells argc (`SizeOfArguments`) |

## Model

| member | source | states |
|---|---|---|
| AsyncQueue.WakeupNeverLost | src/common/db_handler.h:136-174 | in every interleaving, spurious wake-ups and time-outs included, a non-empty buffer of a running handler means some consumer is neither asleep nor gone, except between the caller's push and its notify_one |
| AsyncQueue.EnoughAwake | src/common/db_handler.h:136-174 | while the handler runs and some consumer sleeps, no more statements wait than consumers are up and not executing one, plus one between push and notify_one: nobody sleeps on work that nobody is free for |
| AsyncQueue.QueueConserves | src/common/db_handler.h:136-174 | accepted statements are, in order, the popped then the buffered ones; popped as a multiset is executed plus in flight; at most one in flight per consumer; the buffer never exceeds 1024 |
| AsyncQueue.MutexIsExclusive | src/common/db_handler.h:137-162 | no two threads are inside the critical sections at once in any reachable state |
| AsyncQueue.RefusalExactlyWhenFull | src/common/db_handler.h:138-144 | QueryAsync decides to refuse exactly when 1024 accepted statements are not popped yet, and then changes nothing else |
| AsyncQueue.AnswersAreHonest | src/common/db_handler.h:136-146 | every call gets one answer, in order, and the statements answered with true are in order the accepted ones, but for one whose call has not returned |
| AsyncQueue.OneConsumerKeepsOrder | src/common/db_handler.h:160-174 | with one consumer, executed then in flight then buffered is the accepted sequence: execution order is acceptance order |
| AsyncQueue.ManyConsumersMayReorder | src/common/db_handler.h:160-174 | for any number of consumers from two on, a reachable run that executes two statements in the other order |
| AsyncQueue.OrderKeptExactly | src/common/db_handler.h:136-174 | every run executes in acceptance order if and only if there is at most one consumer |
| AsyncQueue.WaitingStatementCanBePopped | src/common/db_handler.h:136-174 | from every reachable running state with a waiting statement, at most nine steps of the threads themselves lead to a pop, without time-out or spurious wake-up |
| AsyncQueue.ShutdownLosesExactly | src/common/db_handler.h:69-77 | however the consumers are scheduled after running_ is cleared, the statements never executed are the last Excess accepted ones, Excess being what waited then beyond the consumers on their way to a last look; none if and only if no more waited |
| AsyncQueue.ShutdownMayDrop | src/common/db_handler.h:69-77 | a reachable run in which shutting down leaves an accepted statement unexecuted |
| AsyncQueue.SleepsThroughShutdownExactly | src/common/db_handler.h:70-71 | after the one notify_all some schedule has a consumer asleep if and only if one stands before wait_for and the buffer is empty or can be emptied before it looks |
| AsyncQueue.SleepsThroughShutdown | src/common/db_handler.h:70-71 | the smallest such run |
| GetOpt.Split | src/common/get_opt.h:73-84 | the tokens concatenate to the input, delimiters stand alone, words are non-empty, delimiter-free and never adjacent, and no other token list does this; the result is their number |
| GetOpt.TokenizationUnique | src/common/get_opt.h:73-84 | any two lists with split's promises for the same text are equal |
| GetOpt.AsVector | src/common/get_opt.h:123-136 | at string type the result is every second token of the comma tokenisation |
| GetOpt.ListRoundTrip | src/common/get_opt.h:123-136 | comma-free items are read back from their comma join if and only if none is empty |
| GetOpt.EmptyItemIsLost | src/common/get_opt.h:123-136 | the list of one empty item is not read back |
| GetOpt.Cmdline | src/common/get_opt.h:170-174 | the arguments hold no NUL and, each followed by NUL, give back the text (with a final NUL added when it had none) |
| GetOpt.CmdlineRoundTrip | src/common/get_opt.h:170-174 | any NUL-free arguments, empty ones included, are recovered from their terminated concatenation; the text is recovered if and only if it is empty or ends in NUL |
| GetOpt.FinalNulIsAdded | src/common/get_opt.h:170-174 | the text a has the one argument a, which is written otherwise |
| GetOpt.ArgumentMap.constructor | src/common/get_opt.h:185-207 | decimal i maps to argv[i]; any other key has the value of its last definition, and every defined key is present |
| GetOpt.DefinesExactly | src/common/get_opt.h:192-202 | an argument defines key k as v exactly when it is k=v, or k= or a lone k other than the program's name with v the one character 1; k and v free of '=' or a lone '=' |
| GetOpt.ArgumentMap.Size | src/common/get_opt.h:217-221 | the length of the unbroken run of decimal keys from 0 |
| GetOpt.SizeOfArguments | src/common/get_opt.h:185-221 | size() is at least argc, and equals it if and only if no argument defines the key spelling argc |
| GetOpt.SizeCanExceedArgc | src/common/get_opt.h:185-221 | size() of the two arguments app and 2=x is more than two |
| GetOpt.DecimalInjective | src/common/get_opt.h:204-206 | different argument numbers have different decimal keys |
| GetOpt.NumberedEntries | src/common/get_opt.h:203-206 | writing the positional keys last keeps all of them right and touches no other entry |
| PacketMap2025.PacketMap.constructor | src/packet/f1-2025/packet.h:865 | a new cache is all zero and empty |
| PacketMap2025.PacketMap.Unset | src/packet/f1-2025/packet.h:930-947 | every slot is zeroed, the events and both per-car maps are emptied |
| PacketMap2025.PacketMap.Update | src/packet/f1-2025/packet.h:867-928 | the whole new cache as a function of the old one and the packet; the event window stays at 100 |
| PacketMap2025.PacketMap.UpdateSession | src/packet/f1-2025/packet.h:872-879 | the session case: a changed key empties the cache first |
| PacketMap2025.PacketMap.UpdateEvents | src/packet/f1-2025/packet.h:883-888 | the event case: appended, the oldest dropped beyond 100 |
| PacketMap2025.PacketMap.UpdateCars | src/packet/f1-2025/packet.h:889-909 | the cases from participants to car damage |
| PacketMap2025.PacketMap.UpdateOthers | src/packet/f1-2025/packet.h:910-926 | the cases from session history on, unknown ids included |
| PacketMap2025.CacheEqualsLog | src/packet/f1-2025/packet.h:867-947 | after any run of Update the cache is the one recomputed from the log since the latest session change: last packet per slot, last per car, last min(100, n) events |
| PacketMap2025.EventWindowExactly | src/packet/f1-2025/packet.h:883-888 | with n events since the latest session change the cache holds min(100, n) of them, the newest in order: entry k is event number n - min(100, n) + k |
| PacketMap2025.NewestEventIsLast | src/packet/f1-2025/packet.h:884-887 | an event just given is the last of the window |
| PacketMap2025.SessionStartIsLatestChange | src/packet/f1-2025/packet.h:872-879 | that position is a change of session key and no later packet is one |
| PacketMap2025.CachedKey | src/packet/f1-2025/packet.h:872-880 | the key Update compares with is always that of the latest session packet |
| PacketMap2025.LastOfIsLast | src/packet/f1-2025/packet.h:867-947 | the recomputed slot is the last packet of its type, or zero when there is none |
| PacketMap2025.LastPerCarIsLast | src/packet/f1-2025/packet.h:910-915 | a recomputed per-car map holds a car exactly when the session has a packet of it, and then the last one |
| PacketHouses.PacketHouse.constructor | src/server/packet_house.h:13 | a new house has received nothing, both stamps are the creation time |
| PacketHouses.PacketHouse.Reset | src/server/packet_house.cpp:10-23 | events, histories, uid and car state are cleared, both stamps set; the bits only when asked |
| PacketHouses.PacketHouse.Store | src/server/packet_house.cpp:25-82 | the whole new state; button events set no bit and are not kept; lap data reaches the car state only with a known session |
| PacketHouses.PacketHouse.TestCurRecvPacketExistAndClear | src/server/packet_house.cpp:102-106 | answers the test on the old state and clears the bit even when a uid mismatch makes the answer no |
| PacketHouses.PacketHouse.Handle | src/server/packet_house.cpp:120-202 | the whole new state, the result and what is emitted, with the order lobby, new session, enough data, final, per second |
| PacketHouses.PacketHouse.RecordSecond | src/server/packet_house.cpp:170-199 | the rate-limited part: stamp, histories, events and the optional batch |
| PacketHouses.PacketHouse.RecordBatch | src/server/packet_house.cpp:186-198 | the batch of the stored packets, made exactly when all eight types qualify; it clears every current bit |
| PacketHouses.PacketHouse.Update2025 | src/server/packet_house.h:15 | a 2025 packet changes the cache as Update says and nothing else of the house |
| HouseRuns.SessionEdgesAreExact | src/server/packet_house.cpp:25-32 | Handle returns true, and emits a header, exactly when the packet just stored is SessionData whose four-part key differs from the previous SessionData's (zero at first) |
| HouseRuns.EmissionsCarryTheLog | src/server/packet_house.cpp:135-168 | a lobby row goes out exactly when LobbyInfo was just stored; a header carries the latest SessionData and two equal stamps; a final row the latest classification and SessionData, both of the participants' uid, and the session's stamps |
| HouseRuns.LogInvariant | src/server/packet_house.cpp:25-151 | after every step: each slot is the last packet of its type, a bit says it came, session_uid_ is that of the stored SessionData, and a current SessionData bit means last_session_ has the same key |
| HouseRuns.SessionTestIsRedundant | src/server/packet_house.cpp:35-40 | the uid test on SessionData is true exactly when any SessionData ever came |
| HouseRuns.FreshBitsAreExact | src/server/packet_house.cpp:80-118 | the current bit of each of the six per-batch types is set exactly when a packet of it came after the last batch |
| HouseRuns.BatchCoherentAndFresh | src/server/packet_house.cpp:95-198 | whenever a batch goes out, all eight types carry the session's uid, the six came after the previous batch, and it writes the latest packet of each type |
| HouseRuns.TickGoesOutExactly | src/server/packet_house.cpp:131-171 | a per-second row goes out exactly when Handle gets as far as the final classification, writes none and the clock has passed the last stamp; the clock is the only other guard |
| HouseRuns.StampIsExact | src/server/packet_house.cpp:21-22 | the stamp compared is that of the last header or per-second row, or the creation |
| HouseRuns.BatchGoesOutExactly | src/server/packet_house.cpp:113-118 | a per-second row carries a batch exactly when the latest packets of all eight types carry the session's uid and six of them came after the last batch |
| HouseRuns.TextExactly | src/server/server.cpp:123 | which emissions have text: headers and batches always, lobby and final rows with a row, per-second rows with a known event or the history of a listed car |
| HouseRuns.RowKeysNeverRepeat | src/server/packet_house.cpp:170-184 | with a non-decreasing clock the stamps of per-second rows strictly increase over the whole run, across sessions, each exceeds its begin, and they stay distinct when cut to 32 bits within 2^32 seconds |
| HouseRuns.EventsConserved | src/server/packet_house.cpp:41-50 | in a session, what was flushed followed by what waits is exactly the non-button events stored, in order |
| HouseRuns.HistoriesAreLatest | src/server/packet_house.cpp:52-56 | the histories held are for each car the last history packet since the session began; flushing does not clear them |
| HouseRuns.HistoriesGoOutExactly | src/server/packet_house.cpp:173-177 | a per-second step writes all of them if a history packet came since the last such step and the latest carries the session's uid, and none otherwise |
| HouseRuns.HistoryBitIsExact | src/server/packet_house.cpp:80-106 | the current history bit is set exactly when a history packet came since the last per-second step |
| HouseRuns.EventsGoOutExactly | src/server/packet_house.cpp:179-184 | a per-second step writes all waiting events if a real event came since the last such step and the latest event packet, a button event too, carries the session's uid, and none otherwise |
| HouseRuns.EventBitIsExact | src/server/packet_house.cpp:41-50 | the current event bit is set exactly when a real event came since the last per-second step |
| HouseRuns.FinalGoesOutExactly | src/server/packet_house.cpp:131-168 | a final row goes out exactly when Handle gets so far, a classification came since it last did, and the latest carries the session's uid |
| HouseRuns.FinalBitIsExact | src/server/packet_house.cpp:165-168 | the current final bit is set exactly when a classification came since Handle last got so far: one of another session is given up |
| HouseRuns.HeaderKeysUniqueExactly | src/server/packet_house.cpp:142-151 | with a non-decreasing clock a header goes out exactly when SessionData changes the key, begins never decrease, and they strictly increase over a run if and only if no two such packets are handled in the same second |
| HouseRuns.HeadersMayCollide | src/server/packet_house.cpp:142-151 | two SessionData of different keys in one second give two headers with one begin |
| HouseRuns.SessionStartIsLatest | src/server/packet_house.cpp:142-151 | the session starts with the last step that reported a new one |
| ParentRows.KeyedRunsAreSafe | src/server/packet_house.cpp:142-199 | if the first SessionData key is not all zero, every final or per-second row comes strictly after a header and carries the begin of the latest one |
| ParentRows.ZeroKeyOrphans | src/server/packet_house.cpp:84-93 | after an all-zero first key, two more packets bring out a final row, with text, without any header |
| ParentRows.ParentBeforeChildren | src/server/packet_house.cpp:141-199 | no continuation of a run ever violates the foreign key to the session row (src/packet/final_classification.sql:26) if and only if the first SessionData key is not all zero |
| ParentRows.LapDataKnowsItsSession | src/server/packet_house.cpp:35-60 | in every run lap data is handed on only after a session, and the car state's session is the last one stored |
| ParentRows.RanksFilledExactly | src/server/packet_house.cpp:35-40 | lap data reached the car state since it was cleared exactly when a lap packet came in this session with a session already known |
| ParentRows.BatchBeforeRanks | src/server/packet_house.cpp:186-195 | a run with a non-decreasing clock whose batch is written although no lap data ever reached the car state |
| ParentRows.BatchAfterLapExactly | src/server/packet_house.cpp:186-195 | at every batch, a lap packet with any given property, in the session it is read with, reached the car state before ToSQL if and only if such a one was stored after some SessionData |
| ParentRows.EverFilledExactly | src/server/packet_house.cpp:35-40 | the calls on the car state and the log agree on every property of lap packets |
| Servers.Server.UnPacketAndSendToDB | src/server/server.cpp:76-131 | the client of the datagram becomes what Receive says, every other client is unchanged, and each handler receives exactly Receive's calls in order |
| Servers.Server.Welcome | src/server/server.cpp:81-100 | a new client gets a new house and, by a synchronous query, its IpList row with the two readings taken for it; nobody else changes |
| Servers.Server.AddHouse | src/server/server.cpp:81-82 | one more house, apart from all others |
| Servers.Server.Feed | src/server/server.cpp:105-115 | a 2025 packet only updates the cache, a 2022 packet is stored and handled, any other is only handled |
| Servers.Server.FeedClient | src/server/server.cpp:102-115 | the same for the house of an address in the map: every other client is unchanged |
| Servers.Server.Dispatch | src/server/server.cpp:102-130 | headers go out synchronously, other non-empty text asynchronously, empty text not at all; the other clients are unchanged |
| Servers.Server.Forward | src/server/server.cpp:116-130 | what each handler receives, no client changed |
| Servers.Server.Send | src/server/server.cpp:117-130 | each handler that is present gets the statement once |
| Servers.Server.ClearIdlePacketHouse | src/server/server.cpp:143-155 | exactly the houses idle at the reading taken for each are erased and the others keep their state |
| Servers.Server.EraseIdle | src/server/server.cpp:145-152 | the erasing loop keeps exactly the entries that are not idle |
| Servers.ReceiveInTwo | src/server/server.cpp:81-115 | a first datagram is the IpList row, then the same datagram for the client just created |
| ServerRuns.ClientsAreIsolated | src/server/server.cpp:76-131 | for every interleaving, each address's client is the single-client machine run on that address's own datagrams since its house was created |
| ServerRuns.HouseOnEvents | src/server/server.cpp:76-131 | over every run, on its events alone: slot t of an address's house holds the last 2022 packet of type t among the datagrams since its house was created, the receive time is that of the last of them, the cache that of the 2025 packets |
| ServerRuns.LifeIsKept | src/server/server.cpp:81-115 | what the single-client machine is run on is what the kept datagrams say, readings included |
| ServerRuns.NewSessionOnEvents | src/server/server.cpp:110-122 | SessionData that differs in its key from the last one kept of the address makes its header the last statement, by a synchronous query, and no other does |
| ServerRuns.SweepIsExact | src/server/server.cpp:143-153 | a sweep removes a client exactly when the last 2022 datagram kept of it was stored more than 300 s before the reading taken for it, and leaves the others untouched |
| ServerRuns.StatementsAreIsolated | src/server/server.cpp:81-131 | the statements of an address, in order, are an IpList row for each of its houses and what the single-client machine emits, headers synchronous and other non-empty text asynchronous, whatever other clients send |
| ServerRuns.LastStoreIsLastReceive | src/server/packet_house.h:24 | the time TestIfIdle compares is that of the last 2022 packet, 0 if there was none |
| ServerRuns.RunIsRooted | src/server/server.cpp:81-131 | in every run each present client has its IpList row, and once it knows a session the latest header executed for it has its begin |
| ServerRuns.ParentRowsComeFirst | src/server/server.cpp:114-131 | across all clients and the sync/async split: a header is synchronous and after its IpList row, a child row is asynchronous, after a header of its client, the latest of which has its begin, if no house's first session key is all zero |
| ServerRuns.LatestBeginIsLatest | src/server/server.cpp:114-131 | the begin spoken of is that of a header of the address that no later header of it follows |
| ServerRuns.RowKeysNeverRepeatAnywhere | src/server/packet_house.cpp:170-184 | over a whole run of the server, sessions, eviction and re-creation included, the per-second rows of an address have strictly increasing stamps, each above its begin: no two share (begin, current) |
| AllCarInfos.AllCarInfo.constructor | src/packet/car_info.h:234 | all cars new, no ranks, no scenes, no camera |
| AllCarInfos.AllCarInfo.Reset | src/packet/car_info.h:263-275 | all cars as new but for their session history, rank count, flashback, scene lists and camera cleared; session and rank list stay |
| AllCarInfos.AllCarInfo.FillLapData | src/packet/car_info.cpp:122-208 | every processed car is filled from its report, only the first with the flashback flag; other cars stay; the rank count and each rank's last claimant, stale entries kept where there is none; the session stays |
| AllCarInfos.AllCarInfo.FillCar | src/packet/car_info.cpp:126-206 | one pass of the loop: the car, its rank entry, the count and the flag |
| AllCarInfos.AllCarInfo.FillCarMotion | src/packet/car_info.cpp:88-96 | every car's world position, and nothing else |
| AllCarInfos.AllCarInfo.FillCarStatus | src/packet/car_info.cpp:76-86 | DRS distance, flag and ERS mode of every car, and nothing else |
| AllCarInfos.AllCarInfo.FillCarTelemetry | src/packet/car_info.cpp:106-120 | DRS of every car, and nothing else |
| AllCarInfos.AllCarInfo.FillCarDamage | src/packet/car_info.cpp:98-104 | the worse front wing of every car, and nothing else |
| AllCarInfos.AllCarInfo.FillLapHistory | src/packet/car_info.cpp:210-218 | history, best lap number whatever it is, and, if it is not 0, the best lap's time, of one car |
| AllCarInfos.AllCarInfo.FillSession | src/packet/car_info.h:278 | the session and nothing else |
| AllCarInfos.AllCarInfo.SetFlashBack | src/packet/car_info.h:236 | the flashback flag and nothing else |
| AllCarInfos.AllCarInfo.MeasureRank | src/packet/car_info.cpp:289-322 | the gaps of one rank of a race: to leader and front at the split the car is compared at, clamped at 0, and to its own best and last lap |
| AllCarInfos.AllCarInfo.MeasureOwn | src/packet/car_info.cpp:297-301 | the running gaps to a car's own best and last lap, from lap 2 and slice 0 on |
| AllCarInfos.AllCarInfo.MeasureLapRank | src/packet/car_info.cpp:248-285 | the gaps of one rank outside a race: best laps to leader and front, running gaps to their best laps, and the own ones |
| AllCarInfos.AllCarInfo.RecalculateRaceDiff | src/packet/car_info.cpp:288-324 | every ranked car gets all gaps of its rank as computed from the cars before the loop, and no other field of any car changes |
| AllCarInfos.AllCarInfo.RecalculateLapDiff | src/packet/car_info.cpp:247-286 | the same outside a race, null entries skipped |
| AllCarInfos.AllCarInfo.MeasureCars | src/packet/car_info.cpp:9-15 | all cars measured by the kind of session |
| AllCarInfos.AllCarInfo.PickScenes | src/packet/car_info.cpp:326-537 | race or lap lists of the ranked cars as they stand, and the camera moved by them |
| AllCarInfos.AllCarInfo.Line | src/packet/car_info.cpp:326-397 | the ranked cars in rank order, null entries left out |
| AllCarInfos.AllCarInfo.Drain | src/packet/car_info.cpp:40-49 | the snapshots of the first cars are written out and cleared, those of the others stay |
| AllCarInfos.AllCarInfo.ToSql | src/packet/car_info.cpp:8-58 | measure, then pick lists and camera by the measured cars, then write the CarDiff, CarFocus and LapDetails rows, then drain: the whole new state and the rows |
| AllCarInfos.AllCarInfo.WriteDiffs | src/packet/car_info.cpp:16-26 | the CarDiff rows of the first cars, in time trial of the three listed |
| AllCarInfos.AllCarInfo.WriteFocus | src/packet/car_info.cpp:29-35 | the CarFocus row of the car the camera is on, if any |
| AllCarInfos.DiffRowsExactly | src/packet/car_info.cpp:21-26 | a car has a CarDiff row exactly when it is among the first and printed, in car order, with its position and gaps |
| AllCarInfos.OnlyGapsDiffer | src/packet/car_info.cpp:247-324 | gaps already written do not influence the gaps of later ranks, in a race or outside |
| CarRuns.RankListIsInverse | src/packet/car_info.cpp:122-206 | every rank below rank_num_ is freshly claimed and every processed car stands at its own position if and only if the positions are distinct and at most their number |
| CarRuns.LoneCarIsNotRanked | src/packet/car_info.cpp:205-206 | an admissible packet with one car, at position 2, whose rank list does not invert |
| CarRuns.EveryRankClaimed | src/packet/car_info.cpp:205-206 | pigeonhole: with such positions no stale entry survives below rank_num_ |
| CarRuns.RanksAreInOrder | src/packet/car_info.cpp:164-206 | with such positions rank r holds, after FillLapData, the car whose position now is r + 1 |
| CarRuns.RanksOkExactly | src/packet/car_info.cpp:289-319 | with such positions a race can be measured on the ranks and reports a lap packet left if and only if every car is ready: behind the first past lap 0 or its first slice, its best lap in the table if it is used |
| CarRuns.LapZeroIsNotReady | src/packet/car_info.cpp:312-317 | an admissible packet with proper positions whose second car is not ready |
| CarRuns.SplitsAreFirstCrossings | src/packet/car_info.cpp:176-203 | below the last slice, the split on record is that of the first report with a lap time showing the slice since the lap was last cleared; without one, (0, last session time it was shown at) |
| CarRuns.SplitOrigin | src/packet/car_info.cpp:190-203 | every split on record, the last slice included, was written by a report that showed the slice or completed the lap |
| CarRuns.SplitsAreMonotone | src/packet/car_info.cpp:176-203 | if reports never go backwards, the recorded splits of a lap are monotone in the slice, the last one included, in lap time and session time |
| CarRuns.TablesOfHistory | src/packet/car_info.cpp:76-208 | whatever other packets come between, the split tables are those of the car's lap reports alone |
| CarRuns.SnapshotsAreCompressed | src/packet/car_info.cpp:137-160 | in a race the snapshots ever pushed, drained or waiting, are the quantised distances of the reports with a known position and no flashback, adjacent repeats removed from 0 on; in a formation lap they are remembered but not pushed |
| CarRuns.CompressionIsStutterFree | src/packet/car_info.cpp:144-151 | outside a formation lap the pushed distances never start at 0 and never repeat |
| CarRuns.LapDistanceOnGrid | src/packet/car_info.cpp:138-148 | the remembered lap distance is always a multiple of LAP_PREC, in every session |
| CarRuns.LeaderGapTelescopes | src/packet/car_info.cpp:220-222 | the unclamped gap to the leader is the sum of the adjacent-rank gaps at the same split |
| CarRuns.GapsAreCrossingDifferences | src/packet/car_info.cpp:303-322 | if the cars crossed in rank order the clamp does nothing: leader gap is that sum, front gap its last term, leader >= front >= 0 |
| CarRuns.NoGapBeforeFirstSplit | src/packet/car_info.cpp:308-321 | on lap 1 a car that never showed slice NUMSLICE / 20 and is not past it has both gaps 0 |
| CarRuns.GapIsTimeBetweenCrossings | src/packet/car_info.cpp:176-222 | the gap of two cars at a split is the difference of the session times of the reports that first crossed it |
| CarRuns.JitGapIsLapTimeDifference | src/packet/car_info.cpp:224-229 | against a completed lap the running gap is the difference of the lap times of the reports that first crossed the slice |
| CarRuns.BestGapsTelescope | src/packet/car_info.cpp:267-275 | outside a race, once the cars up to a rank have a best lap, the gap to the leader is the sum of the gaps to the front |
| Distances.SliceExactly | src/packet/car_info.cpp:176 | slice s is the stretch from (s + 1)/200 to (s + 2)/200 of the track, -1 what lies before the first cut; negative distances count down from -1 |
| Distances.QuantumExactly | src/packet/car_info.cpp:138 | the multiple of 5 at or before the distance, a negative one moved up by the track length first |
| Distances.SplitIsFirstShown | src/packet/car_info.cpp:176-203 | the split on record below the last slice is that of the first report with a lap time whose distance lies in the slice since the lap was last started anew |
| Distances.LastSliceIsLapTime | src/packet/car_info.cpp:190-195 | once a lap was completed its last slice holds the lap time reported for it, until it is completed again or started anew |
| Distances.GapsAtReportedSlice | src/packet/car_info.cpp:303-322 | race gaps are the clamped differences of session times at the slice the car is in, at the last slice of the lap before when before its first slice, and on lap 1 never before slice 10 |
| Distances.GapIsTimeSinceShown | src/packet/car_info.cpp:176-322 | over any histories past lap 1, the gap to the leader or the car in front is the time between the reports that first showed the two cars in the slice the car's last report shows |
| Distances.LastReportShown | src/packet/car_info.cpp:164-177 | a car's entry and slice are those of its last report, whatever else came since |
| Distances.ReportOnFields | src/packet/car_info.cpp:134-179 | what a lap packet hands to a car: its entry, the time, race and formation by session type and safety car status |
| Distances.ConsideredOnFields | src/packet/car_info.cpp:126-132 | cars with a position, in time trial only player, personal best and rival |
| Distances.FlashReachesFirst | src/packet/car_info.cpp:144-162 | only the first car processed finds the flashback flag |
| Distances.ReportOnLaps | src/packet/car_info.cpp:164-197 | number, position and running time of the report's lap, cleared when it is started anew; the lap time of a lap it completes; no other lap |
| Distances.SnapshotExactly | src/packet/car_info.cpp:134-160 | which snapshot a report makes and when it is pushed, in a race and outside |
| Distances.OwnGapsOnLaps | src/packet/car_info.cpp:224-301 | in a race and outside, the own running gaps are against the best lap and the lap before, by slice if it was completed, else by sectors |
| Distances.LapGapsOnLaps | src/packet/car_info.cpp:264-284 | outside a race, the gaps behind the first by best lap times, and the running gaps by the best laps of leader and front |
| Distances.PacketsOnFields | src/packet/car_info.cpp:76-120 | what motion, status, telemetry, damage and history packets leave in a car, the worse wing included |
| Distances.WhoseIsPrefix | src/packet/car_info.cpp:329-331 | the cars looked at are the entries of the rank list before the null ones |
| CarHistory.CarsAreHistories | src/packet/car_info.cpp:76-218 | after any calls on the class every car is what its own history since its last init makes of a new car, so the theorems on histories hold of the class |
| CarHistory.SplitsOfTheClass | src/packet/car_info.cpp:176-203 | the split tables of the class hold the first crossings of each car's own reports |
| CarHistory.RaceMeasuredExactly | src/packet/car_info.cpp:122-324 | from a lap packet up to any later ToSQL before the next lap packet or init, whatever comes between, its reports and ranks stay in force; with proper positions a race can be measured there if and only if every car is ready, and the first rank is set if any car was processed |
| CarHistory.LapZeroIsOutOfTable | src/packet/car_info.cpp:312-319 | a run of a race session and that packet after which the race cannot be measured |
| CarHistory.FirstRankSetExactly | src/packet/car_info.cpp:205 | the first rank is set exactly when some lap packet before had a processed car at position 1 in its session; nothing unsets it |
| CarHistory.SetsFirstMeans | src/packet/car_info.cpp:126-132 | what it is for a packet to set it |
| CarHistory.LoneCarHasNoLeader | src/packet/car_info.cpp:392-393 | a run in which one car is ranked and the first rank is not set |
| CarHistory.CameraIsARun | src/packet/car_info.cpp:326-585 | between two inits the camera of the class is a run of cues, so the theorems on the camera hold of the class |
| CarHistory.RaceCameraOfTheClass | src/packet/car_info.cpp:8-15 | at a ToSQL of a race the camera goes, if it may and someone is active, to the active head of the highest-priority list of the measured cars |
| CarHistory.HouseCarsAreHistories | src/server/packet_house.cpp:25-82 | over every run of a house its cars are the histories of the calls it made, its camera is a run of their cues, and each lap packet was read with the session the house knew at that moment |
| CarHistory.BatchHasLeaderExactly | src/server/packet_house.cpp:186-195 | over every run of a house, whenever a batch calls ToSQL the first rank is set if and only if some lap packet, stored after some SessionData, had a processed car at position 1 in the session known then |
| CarHistory.BatchWithoutLeader | src/server/packet_house.cpp:186-195 | a run with a non-decreasing clock whose batch follows a lap packet and finds the first rank unset |
| Scenes.PicksExactly | src/packet/car_info.cpp:396-455 | a list holds exactly the qualifying ranks, each once, in rank order |
| Scenes.ClassifiedAdds | src/packet/car_info.cpp:396-455 | the branches of one pass push a rank on a list exactly when it qualifies for it |
| Scenes.LeadIsFirstActive | src/packet/car_info.cpp:450-451 | the position compared for the flag is that of the first active rank, whose list is empty only if none is active |
| Scenes.Sort | src/packet/car_info.h:256-258 | an ordered permutation |
| Scenes.Director.ClassifyRank | src/packet/car_info.cpp:396-454 | one pass changes the lists as the composition of its pushes |
| Scenes.Director.PushBattle | src/packet/car_info.cpp:404-418 | at most one battle list, by the first threshold met |
| Scenes.Director.PushFlag | src/packet/car_info.cpp:420-428 | at most one flag list |
| Scenes.Director.PushDrs | src/packet/car_info.cpp:430-437 | the two DRS lists, independently |
| Scenes.Director.PushPit | src/packet/car_info.cpp:439-446 | the box list, and at most one of just in and about to leave |
| Scenes.Director.PushFinal | src/packet/car_info.cpp:448-454 | last lap, and the flag for the lead position late in the lap |
| Scenes.Director.PushDrawns | src/packet/car_info.cpp:457-523 | the formation, start and random lists hold a drawn active rank or nothing, the others stay |
| Scenes.Director.SortLists | src/packet/car_info.cpp:525-529 | five lists become ordered permutations, the others stay |
| Scenes.Director.PickForRace | src/packet/car_info.cpp:389-537 | the lists a race is left with, and the camera moved by them |
| Scenes.Director.ClassifyLap | src/packet/car_info.cpp:329-359 | outside a race each ranked car is on the one list of its status, in rank order |
| Scenes.Director.PickForLap | src/packet/car_info.cpp:326-368 | those lists, five of them sorted by lap distance with the furthest first, and the camera moved by them |
| Scenes.Director.SortLapLists | src/packet/car_info.cpp:361-365 | five lists become ordered permutations, not_fly_lap stays in rank order |
| Scenes.Director.RecalculateRaceFocus | src/packet/car_info.cpp:539-585 | the camera is moved by the first non-empty list of the table, if it may switch |
| Scenes.Director.RecalculateLapFocus | src/packet/car_info.cpp:370-387 | the same for lap mode, a car on a flying lap being relabelled instead of left |
| Scenes.FocusCar.SwitchCar | src/packet/car_info.h:204-210 | a missing car keeps the old one; scene and end are always set |
| Scenes.FocusCar.Init | src/packet/car_info.h:199-203 | no car, no end |
| Scenes.Director.Init | src/packet/car_info.h:265-268 | no scenes and no camera |
| SceneRuns.ListedExactly | src/packet/car_info.cpp:396-529 | after the sorts, each list that is not drawn still holds exactly the qualifying ranks |
| SceneRuns.ListedOnFields | src/packet/car_info.cpp:396-455 | who is on each list of a race, on the fields of the cars |
| SceneRuns.ChequeredOnFields | src/packet/car_info.cpp:448-454 | who is on the flag list: on the last lap, late in it, in the position of the first active rank |
| SceneRuns.DrawnOnFields | src/packet/car_info.cpp:457-523 | when the formation and start lists are drawn, and which rank a draw falls on |
| SceneRuns.HeadsOfRace | src/packet/car_info.cpp:525-529 | nobody on a pit list has been longer in the pit lane than its head, nobody on a DRS list is closer |
| SceneRuns.ActiveExactly | src/packet/car_info.cpp:396-402 | the active list is exactly the ranks with active status, in rank order |
| SceneRuns.ListedIsActive | src/packet/car_info.cpp:396-523 | whoever is on any list, drawn ones included, is active |
| SceneRuns.BattlesAreTightest | src/packet/car_info.cpp:404-418 | a rank is on a battle list exactly when active, not first, not in the pits and this is the tightest threshold its gap meets; hence on at most one |
| SceneRuns.ChequeredIsTheFirst | src/packet/car_info.cpp:448-454 | with distinct positions the flag list holds at most the first active car |
| SceneRuns.SceneExistsExactly | src/packet/car_info.cpp:544-584 | some scene of the table has a car if and only if some ranked car is active, and the zero-initialised eighteenth entry is never chosen |
| SceneRuns.CameraGoesToTheHead | src/packet/car_info.cpp:539-585 | if a switch is allowed and someone is active, the camera goes to the active head of the highest-priority non-empty list for that entry's seconds; otherwise nothing changes |
| SceneRuns.TopSceneByPriority | src/packet/car_info.cpp:544-577 | the entry found in the table is the scene of highest priority with its seconds, written out |
| SceneRuns.RaceCameraByPriority | src/packet/car_info.cpp:539-585 | the camera of a race by that priority, on result status and clock alone |
| SceneRuns.LapListedExactly | src/packet/car_info.cpp:329-366 | outside a race a rank is on the list of its status and no other, sorts included, and the head of a sorted list is furthest into its lap |
| SceneRuns.LapListedOnFields | src/packet/car_info.cpp:333-358 | who is on each list outside a race, on the fields of the cars |
| SceneRuns.LapCameraGoesToTheHead | src/packet/car_info.cpp:370-387 | when a switch is allowed the scene is the first of the table any ranked car is in, and the camera goes to its head for a second, unless that leaves a flying lap, which is relabelled for two; with no such car nothing changes |
| SceneRuns.LapCameraByPriority | src/packet/car_info.cpp:370-387 | the camera of lap mode by priority, on the clock alone |
| SceneRuns.FirstLapSceneByPriority | src/packet/car_info.cpp:371-372 | the priority of the lap scenes, written out |
| SceneRuns.FocusStaysSet | src/packet/car_info.h:204-210 | over every run, once the camera is on a car it stays on some car |
| SceneRuns.SwitchHolds | src/packet/car_info.h:209-212 | over every run with a non-decreasing clock, neither car nor scene changes before a switch's time has run out |
| SceneRuns.FlyLapHandover | src/packet/car_info.cpp:370-387 | over every run in lap mode, between a car on a flying lap and another car the first is shown under another scene all the time: not_fly_lap for two seconds exactly when the cue that took it off had another car at its head, else its new scene for one |
| SceneRuns.OneSecondHandovers | src/packet/car_info.cpp:377-384 | two runs that leave a flying lap after one second, one under not_fly_lap, one never showing it |
| SceneRuns.LapCueFromFlyLap | src/packet/car_info.cpp:377-384 | one cue either leaves the camera on the flying lap or takes the car off it in one of these two ways |

## Left out

- AsyncQueue: Ping on a time-out and the connections of the consumers; a query is taken to succeed.
  Progress is the existence of a short schedule, not liveness under a fairness assumption.
- CircularBuffer is not part of this model: it is a FIFO of 1024.
- Speed, throttle, brake and the like of a snapshot, and the fields of a car no modelled code reads.
- CarRuns.SplitsAreMonotone: assumes that a report never goes backwards in lap and slice; a flashback does go back.
- AllCarInfos.AllCarInfo.ToSql: driver names and the address and stamps every row carries are not part of the rows.
- Scenes.Sort: sorts by insertion, but callers see only that the result is an ordered permutation.
- Null entries of the rank list, which lap mode skips, are left out of what `Director` is given.
- Servers.Server.Welcome: GetIpInfo is not modelled.
- Servers.Database: records calls; the queue behind it is AsyncQueue. That a synchronous query has finished before
  the next call, and that asynchronous rows run later, is what orders parents before children.
- HouseRuns.RowKeysNeverRepeat: speaks of the per-second rows; headers have keys of their own, which can repeat (HeadersMayCollide).
- SQL text, the socket and main loops, database back ends, user interface, scripts.
- The Windows branch of `cmdline`, the conversions `as<T>`, and the `getarg` lookups.
- The tyre-stint walk, `TimeFormat`, `ToOverallResult` and the map rotation: easy next to the rest.
- The distributions behind the random draws: any draw is allowed.
- Rounding of floats.
