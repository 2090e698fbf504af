# Verified model of the telematics server

This project models a sensor monitoring system: a C server that accepts any number of TCP
connections, one thread each; Python sensor scripts that register and send measurements; and a Java
operator client that logs in, polls the sensor list and receives alerts. It has three layers.

**Stores and codec, in their own imperative form.** `SensorManager`, `AlertEngine`, `Protocol`,
`Connections` and `OperatorClient` keep the fixed arrays, counters, buffers and loops of the source as
classes and methods. Each method is proved against a function of the old state. Character fields are
modelled cell by cell (`CStrings`), values are decimal numbers printed and read digit by digit
(`Decimals`), and the bounded list builders share `Packing`.

**One handler at a time.** `Server` is the dispatch of `handle_client` over those classes, from a
received buffer to the response text. `RegistryRuns`, `AlertRuns` and `ServerRuns` prove what holds over
whole runs: the array is an insertion-ordered map, the alert array is a window of an unbounded history,
a measurement is accepted exactly when a registration was. `MainRules` is the start of `main.c` with its five
thresholds, `Handshakes` the first contact of operator and sensor, and `AlertListing` reads the list of alerts
back field by field. `SensorClient` and `EndToEnd` follow a reading from the sensor script to the operator's
screen. What clients see is stated in plain terms: command words as literals in any capitalisation, response
lines as text, a broken rule as a comparison of value and limit.

**All handlers at once.** `Handlers` is an interleaving transition system: a program point and a
connection for every handler thread, the owners of all mutexes, the stores and the operator table. One
step is one critical action (take a mutex, one loop iteration, one `send`, one unlock, one log call).
`Reached(thresholds, moves)` is the state after any legal sequence of accepts and steps, so every lemma
about it speaks about every interleaving of any number of threads. `LockOrder`, `StoreRuns`,
`MeasurementRuns`, `Requests`, `OperatorTable`, `SafeRuns`, `Streams`, `ClientLines`, `Broadcasts`,
`BroadcastActs`, `Forwarding` and `FirstAnswer` prove mutual exclusion, deadlock freedom, stability of the type pointer that
leaves the sensor lock, one check per stored measurement, one action and one response per request, mutex
lifetime, stream framing, ordered broadcast, and what the operator client passes on; `Deliveries` holds the theory of segments of one order, and `ConcreteRuns` builds the runs that
show why conditions are needed.

## Findings about the code

Where the code and `PROTOCOL.md` differ (value ranges, numeric sensor types, response shapes), the model
follows the code. Seven properties one might expect do not hold without a condition; each is stated as an
exact equivalence, beside a concrete run or input that breaks it.

- Stored ids are cut to 31 characters, but lookups compare the whole id and the sensor scripts allow 32
  (`sensors/sensor_base.py:9`). A sensor that was told `SENSOR_REGISTERED` can measure exactly when its
  id has at most 31 characters (`UsableAfterRegistrationIff`); stored ids are pairwise distinct exactly
  when no registration collided in this way (`DistinctIff`). Run: a 32-character id that registers twice
  occupies two slots with one stored id (`LongIdDuplicates`).
- `remove_operator` clears one slot. No slot outlives its connection, in any state of a run, exactly when
  no connection passes through `remove_operator` with two slots (`TidyRunIff`); runs without such a
  removal are called clean, and runs with one successful login per connection are clean (`OnceIsClean`).
  Run: a client that logs in twice and hangs up leaves a live slot whose mutex is destroyed
  (`SecondSlotOutlivesMutex`). A leftover slot alone harms nobody: framing and ordered delivery are proved
  for all safe runs, those in which no broadcast takes the mutex of a connection that has left
  `remove_operator`, and clean runs are safe (`CleanIsSafe`). Run: when a broadcast does take it, after the
  descriptor was reused, the next step sends the alert into the middle of another client's response
  (`AlertTearsResponse`).
- An operator is not always sent each broadcast once. In a safe run a connection on a positive descriptor
  is sent each broadcast, in order, exactly as often as it has slots registered before and not removed
  before that broadcast (`DeliveredInOrder`). So it is sent the segment of one slot exactly once if and only
  if all its other slots stand for no broadcast (`SentSegmentIff`). Run: a client that logs in twice is sent
  a later broadcast twice (`SecondSlotDoublesAlerts`).
- An operator on descriptor 0 obtains a slot but is sent nothing, because the broadcast tests
  `operator_clients[i] > 0`. With one login per connection an operator was sent its segment if and only if
  its descriptor is not 0 or the segment is empty (`OrderedBroadcast`). Run: `DescriptorZeroIsSkipped`.
- A client whose login is granted does not always read the answer first. `register_operator` runs before the
  answer is sent, so a broadcast can come in between, and the operator client gives up on any line that does
  not begin with OK (`ServerConnectionService.java:79-82`). In a safe run the first line is the answer if and
  only if no broadcast concerned the client's slot before the answer was started (`AnswerReadFirstIff`). Run:
  an operator that is granted while a sensor reports 31 degrees reads the alert first (`GrantedReadsAlert`).
- A list response keeps its line ending exactly when all listed entries together have at most 501
  characters for sensors (`SensorListFramedIff`) and 502 for alerts (`AlertListFramedIff`), because the
  response buffer has 512 cells and the list buffer 1024. At 502 sensors lose only the line feed, which a
  line reader tolerates (`SensorListEndsIff`). Run: after ten accepted registrations with 31-character ids
  the response has no line ending (`LongListUnfinished`); after ten alerts of such a sensor the alert
  response is not whole (`LongAlertsUnfinished`).
- An alert carries its whole text and line ending exactly when the text has at most 253 characters
  (`AlertWholeIff`), because it is cut at 255. Input: a unit of 260 characters gives an alert without a line
  ending, which a line reader joins with the next response (`LongUnitJoinsLines`).

## Model

| member | source | states |
|---|---|---|
| CStrings.StrncpyField | server/src/sensor_manager.c:45-48 | Overwriting an old field with any text leaves the last cell NUL, and the reader sees exactly the truncation of the new text: no residue of a longer old value. |
| CStrings.StrncpyTerminated | server/src/alert_engine.c:81-89 | Where the code writes the terminator itself, the same holds whatever the old last cell was. |
| Packing.PackIsSubsequence | server/src/sensor_manager.c:97-112 | The packed list is the concatenation of an order-preserving selection of the entries and stays below the buffer size. |
| Packing.PackIsMaximal | server/src/alert_engine.c:137-155 | Every entry that was left out would not fit after the final output either. |
| Packing.PackKeepsAllIff | server/src/sensor_manager.c:108-110 | No entry is left out if and only if all entries together fit. |
| Decimals.ReadPrinted | server/src/server.c:162 | Reading the printed text of any value with k decimals gives back that value, for every sign and size. |
| Decimals.PrintUnits | server/src/sensor_manager.c:102-106 | Printing with k decimals is exact on values that have at most k decimals: sign, integer digits, point, k digits. |
| Decimals.HundredthsAsUnits | sensors/sensor_base.py:107 | A value in hundredths is the same value when it is written with four decimals. |
| Decimals.PrintRounds | server/src/alert_engine.c:115-116 | The printed text of any value is that of the nearest number with k decimals: never further than half a unit away, and on a tie the even one. |
| Decimals.IntegerReads | server/src/alert_engine.c:143-149 | The text of an integer is its decimal digits with a minus sign when negative: it reads back as that integer. |
| Decimals.AtofScales | server/src/server.c:162 | Digits, a point and digits, followed by an exponent, read as that number times the power of ten, for every exponent. |
| Decimals.ExponentReads | server/src/server.c:162 | The exponents are e or E, an optional sign and the digits of any natural number. |
| Decimals.AtofIgnores | server/src/server.c:162 | Any other text behind the number is ignored. |
| Decimals.AtofNothing | server/src/server.c:162 | Text that does not start with a number reads as 0. |
| SensorManager.Manager.constructor | server/src/sensor_manager.c:12-20 | Initialised storage is an empty registry with 50 well-formed slots. |
| SensorManager.Manager.Lookup | server/src/sensor_manager.c:29-30 | The linear scan finds the first slot whose stored id equals the full id, or none. |
| SensorManager.Manager.Register | server/src/sensor_manager.c:22-61 | Answers 0 exactly when some stored entry has that id or fewer than 50 entries are stored, else -1. A known id is only marked active; a new one is appended with cut id and type, value 0 and no unit, also over stale bytes; a full table does not change. |
| SensorManager.Manager.AddMeasurement | server/src/sensor_manager.c:63-89 | Answers 0 exactly when some stored entry has that id. Value, cut unit and time of the found sensor change and nothing else does. |
| SensorManager.Manager.GetActiveSensors | server/src/sensor_manager.c:91-116 | The output is the greedy packing of the active entries; -1 exactly for an empty buffer. |
| SensorManager.Manager.IsRegistered | server/src/sensor_manager.c:118-131 | True exactly when the id is stored. |
| SensorManager.Manager.GetSensorType | server/src/sensor_manager.c:133-146 | NULL exactly when the id is not stored, otherwise a pointer into the first slot with that id. |
| SensorManager.Manager.Cleanup | server/src/sensor_manager.c:148-154 | The registry becomes empty while all slots stay well formed for reuse, although their bytes are kept. |
| RegistryRuns.ReplayExtends | server/src/sensor_manager.c:29-52 | Over every run the count never decreases, and a filled slot keeps its id and type for ever. |
| RegistryRuns.ReplayBounded | server/src/sensor_manager.c:39-52 | In every run: at most 50 entries, ids of at most 31, types and units of at most 15 characters, all active. |
| RegistryRuns.LookupStable | server/src/sensor_manager.c:133-146 | A lookup that succeeded keeps succeeding with the same slot and type in every later registry. |
| RegistryRuns.FoundIffStored | server/src/sensor_manager.c:29-45 | An id is found after a run if and only if some accepted registration of the run was stored under it. |
| RegistryRuns.FirstTypeWins | server/src/sensor_manager.c:29-46 | The first accepted registration stored under an id decides its type for the rest of the run. |
| RegistryRuns.MeasurementAcceptedIff | server/src/sensor_manager.c:63-89 | A measurement is accepted if and only if an earlier accepted registration is stored under its id. |
| RegistryRuns.MeasurementAcceptedShort | server/src/sensor_manager.c:63-89 | With ids of at most 31 characters: if and only if that very id was accepted before. |
| RegistryRuns.UsableAfterRegistrationIff | server/src/sensor_manager.c:45 | A sensor just answered 0 is found again if and only if its id has at most 31 characters. |
| RegistryRuns.LatestIsLast | server/src/sensor_manager.c:69-74 | The position called latest measurement is an accepted one with no accepted one of that id after it. |
| RegistryRuns.LatestMeasurementWins | server/src/sensor_manager.c:47-74 | The stored value, unit and time are those of the latest accepted measurement; 0 and no unit before the first. |
| RegistryRuns.DistinctStep | server/src/sensor_manager.c:29-46 | One operation keeps the stored ids distinct if and only if it is not a registration that is cut onto a stored id. |
| RegistryRuns.DistinctIff | server/src/sensor_manager.c:29-46 | After a run stored ids are pairwise distinct if and only if no registration of the run collided. |
| RegistryRuns.DistinctForShortIds | server/src/sensor_manager.c:29-46 | With ids of at most 31 characters they always are. |
| RegistryRuns.LongIdDuplicates | sensors/sensor_base.py:9 | Counterexample: a 32-character id registers twice into two slots with equal stored ids, and its measurement is refused. |
| RegistryRuns.RefinesStep | server/src/sensor_manager.c:22-89 | One operation on the array simulates the same operation on an insertion-ordered map, for ids of at most 31 characters. |
| RegistryRuns.RegistryRefinesMap | server/src/sensor_manager.c:22-89 | After every run the array and the map have the same ids in the same order with the same type, value, unit and time. |
| AlertEngine.WindowAppend | server/src/alert_engine.c:73-92 | Shifting left when full and appending shows the last 100 entries of the longer history. |
| AlertEngine.FilledReads | server/src/alert_engine.c:38-47 | A threshold slot, whatever it held, reads as the new threshold with type and condition cut to their fields. |
| AlertEngine.AlarmReports | server/src/alert_engine.c:112-119 | An alarm reports its rule and its reading: cut id and type, the value, the level of the rule, and a text that names type, value, condition and limit in this order, cut at 255 characters. |
| AlertEngine.OverwriteReads | server/src/alert_engine.c:79-90 | An alert slot, whatever it held, reads as the new unresolved alert with cut fields. |
| AlertEngine.Engine.constructor | server/src/alert_engine.c:14-24 | A fresh engine has no threshold and no history. |
| AlertEngine.Engine.RegisterThreshold | server/src/alert_engine.c:26-59 | Appends an active threshold with cut type and condition, value and level, which is all that later code reads; -1 and no change exactly when the table is full or the type is empty. |
| AlertEngine.Engine.ShiftLeft | server/src/alert_engine.c:75 | The overlapping in-place copy moves entries 1..99 to 0..98 and leaves the last one. |
| AlertEngine.Engine.MakeRoom | server/src/alert_engine.c:74-77 | Exactly the oldest visible alert goes, and only when 100 are visible. |
| AlertEngine.Engine.AddActiveAlert | server/src/alert_engine.c:71-98 | The unbounded history grows by exactly this alert while the array keeps showing its last 100 entries. |
| AlertEngine.Engine.CheckThreshold | server/src/alert_engine.c:109-123 | One threshold adds its alarm exactly when the reading breaks it: it is active, its type agrees on 15 characters, and its condition is ">", "<", ">=" or "<=" with the value in that relation to its limit. |
| AlertEngine.Engine.CheckMeasurement | server/src/alert_engine.c:100-129 | The history grows by exactly the block of the broken rules in registration order, the count is its length, the array stays the window of the history; `BlockIsFilter` and `BlockCount` say what a block is. |
| AlertEngine.Engine.GetActiveAlerts | server/src/alert_engine.c:131-159 | The output is the greedy packing of the unresolved visible alerts that have an id; `AlertListRoundTrip` says what its records contain. |
| AlertEngine.Engine.MarkPending | server/src/alert_engine.c:169-178 | Exactly the visible alerts of this sensor become resolved; the count is the number that were pending. |
| AlertEngine.Engine.ResolveAlert | server/src/alert_engine.c:161-182 | Marking the visible alerts is marking every matching alert of the whole history, as far as anybody can see; the result is the number of visible alerts of that sensor that were unresolved. |
| AlertEngine.Engine.Cleanup | server/src/alert_engine.c:184-193 | No threshold and no alert is left. |
| AlertRuns.BlockIsFilter | server/src/alert_engine.c:108-124 | A block is the strictly increasing selection of exactly the rules that the reading breaks; its k-th alarm reports the k-th broken rule. |
| AlertRuns.BlockCount | server/src/alert_engine.c:108-128 | The number of alarms that a check raises is the number of rules that the reading breaks. |
| AlertRuns.AnyBreaksIff | server/src/alert_engine.c:108-128 | A check returns a positive count if and only if the reading breaks some rule. |
| AlertRuns.BlockTypePrefix | server/src/alert_engine.c:110 | Types that agree on 15 characters fire the same thresholds. |
| AlertRuns.Conservation | server/src/alert_engine.c:71-129 | Over any run of checks and resolves the visible alerts are the last min(total, 100) of as many alerts as the returned counts add up to: none is lost otherwise and none is evicted early. |
| AlertRuns.HistoryOnlyGrows | server/src/alert_engine.c:161-182 | Over any run an alert keeps its content and place, and a resolve mark is never taken back. |
| AlertRuns.PushAllIsWindow | server/src/alert_engine.c:73-92 | Any number of shift-and-append steps on the window gives the window of the longer history, also across evictions inside one check. |
| AlertRuns.ShownIsWindow | server/src/alert_engine.c:71-182 | After every run of checks and resolves the bounded array equals the last min(length, 100) entries of the full history. |
| AlertListing.AlertListRoundTrip | server/src/alert_engine.c:137-155 | Splitting the alert response at semicolons and commas gives one record per unresolved visible alert that has an id, oldest first: id, type, value with two decimals, WARNING exactly for the warning level and else CRITICAL, decimal time stamp, message. For every window of separator-free alerts whose list has at most 502 characters, the exact bound for a line to arrive. |
| AlertListing.GetAlertList | server/src/server.c:224-233 | The same from the bytes of GET_ALERTS, in any capitalisation, through the server; no store changes. |
| AlertListing.TemperatureListed | server/src/main.c:34-35 | Under the thresholds of the server, the alerts of one temperature reading are listed as nothing up to 30 degrees, one WARNING above 30, a WARNING and then a CRITICAL above 50, each with its own limit in the text. |
| MainRules.Install | server/src/main.c:34-38 | The five registrations leave exactly these five active rules, in this order, and no alert. |
| MainRules.Start | server/src/main.c:24-41 | The initialised server is the empty conversation under these rules, where every result about conversations starts. |
| MainRules.MainAlarms | server/src/main.c:34-38 | Any reading of any type raises 0, 1 or 2 alarms under these rules: for temperature 1 above 30 and 2 above 50, for vibration 1 above 5 and 2 above 10, for energy 1 above 500, for other types none. |
| MainRules.MainBroadcastIff | server/src/main.c:34-38 | In every conversation under these rules a measurement is broadcast if and only if the first registered type is temperature, vibration or energy on 15 characters and the value is above 30, 5 or 500. |
| Protocol.LineWords | server/src/protocol.c:17-26 | Words of the first line are non-empty and free of space, CR, LF and NUL. |
| Protocol.WordsOfTwo | server/src/protocol.c:26-40 | The words of two texts with a space between them are the words of the first and then those of the second. |
| Protocol.WordsOfOne | server/src/protocol.c:26-40 | A non-empty text without spaces is one word, and the empty text has none; with `WordsOfTwo` this determines the words of every text. |
| Protocol.WordsOfJoin | server/src/protocol.c:26-40 | Splitting undoes joining any list of words with single spaces. |
| Protocol.FirstLineOf | server/src/protocol.c:17-21 | The first line ends at the first CR, LF or NUL; what follows is ignored. |
| Protocol.CutWord | server/src/protocol.c:38-40 | Writing the terminator in place leaves the first word readable and the other words still to come. |
| Protocol.ParsedMessage.CutLine | server/src/protocol.c:17-21 | The buffer is terminated in place exactly at the end of the first line. |
| Protocol.ParsedMessage.Strtok | server/src/protocol.c:26-38 | One in-place token is the next word of the pure split; bytes before it are untouched and the remaining text has the remaining words. |
| Protocol.ParsedMessage.CollectArgs | server/src/protocol.c:38-40 | The first min(8, n) words are stored as disjoint terminated strings inside the buffer. |
| Protocol.ParsedMessage.Parse | server/src/protocol.c:9-43 | For every input of 1 to 1023 bytes, the command and each argument, read as C strings after all in-place writes, are the words of the first line, disjoint and inside the buffer, and the command is the one whose literal name the first word spells in any capitalisation, else Unknown; otherwise -1 and nothing changes. |
| Protocol.CommandTable | server/src/protocol.c:29-36 | A first word stands for one of the eight commands exactly when it is that literal command name in some capitalisation, and for Unknown exactly when it is none of them; no word names two. |
| OperatorClient.ParseSensors | operator-client/src/main/java/com/telematica/operator/service/ServerConnectionService.java:135-151 | The loop computes the list that the split and trim rules define for any response text. |
| OperatorClient.ServerConnection.Reader | operator-client/src/main/java/com/telematica/operator/service/ServerConnectionService.java:93-116 | After any lines the cache is the latest sensor list and the forwarded alerts are exactly the alert lines in order. |
| OperatorClient.SplitFour | operator-client/src/main/java/com/telematica/operator/service/ServerConnectionService.java:142-148 | Four comma-separated fields are recovered; an empty last field disappears from the split. |
| OperatorClient.ShortRecords | operator-client/src/main/java/com/telematica/operator/service/ServerConnectionService.java:143-148 | Records with missing fields are filled up: a question mark for a missing id, type or value, and no unit. |
| OperatorClient.EntryRoundTrip | operator-client/src/main/java/com/telematica/operator/service/ServerConnectionService.java:139-148 | One listed sensor is read back field by field, including the empty unit before a first measurement, whenever its entry fits the server's item buffer. |
| OperatorClient.SensorListRoundTrip | operator-client/src/main/java/com/telematica/operator/service/ServerConnectionService.java:135-151 | Parsing the framed, packed list returns every registered sensor once, in registration order, with its fields, for every registry of separator-free entries that fit their items and together have at most 502 characters, the exact bound for a line to arrive. |
| ListResponses.SensorListFramedIff | server/src/protocol.c:63-67 | The GET_SENSORS response is the whole packed list with its line ending if and only if all active entries together have at most 501 characters, for every registry. |
| ListResponses.AlertListFramedIff | server/src/protocol.c:69-73 | The same for GET_ALERTS with 502 characters, for every alert window. |
| ListResponses.SensorListEndsIff | server/src/server.c:213-222 | For separator-free entries the sensor response contains a line ending at all if and only if they have at most 502 characters. |
| ListResponses.LongListUnfinished | server/src/server.c:213-222 | Counterexample: ten accepted registrations give a list of 540 characters and a response without any line ending. |
| ListResponses.LongAlertsUnfinished | server/src/server.c:224-233 | Counterexample: ten checks that raise one alert each give a list of at least 610 characters and a response that is not whole. |
| SensorClient.MeasurementMessageParses | sensors/sensor_base.py:107 | The server splits every measurement message into exactly the five parts it was made of. |
| SensorClient.RegisterMessageParses | sensors/sensor_base.py:94 | The server splits every registration message into command, id and type. |
| SensorClient.ReadingReachesOperator | sensors/sensor_base.py:100-108 | A reading in hundredths sent with four decimals is stored exactly and listed with two decimals that read back as the same value. |
| SensorClient.OkUnderstood | sensors/sensor_base.py:64-75 | A sensor recovers the detail of every OK response that fits the response buffer. |
| SensorClient.ErrorUnderstood | sensors/sensor_base.py:77-80 | A sensor recovers code and description of every ERROR response that fits. |
| SensorClient.ShortReplies | sensors/sensor_base.py:66-80 | An empty reply is UNKNOWN, a bare OK has no detail, an ERROR without code is 500, and without description Unknown error. |
| SensorClient.OtherLines | sensors/sensor_base.py:71-82 | Any other line, such as an alert, is handed over whole under its first word in upper case. |
| Server.Handler.StoreAndType | server/src/server.c:164-169 | The type read after the second critical section is that of the entry that was measured, and is never NULL once the measurement was stored. |
| Server.Handler.Measure | server/src/server.c:160-185 | A stored measurement changes registry and history as specified, is answered OK and raises an alert exactly for a non-empty block; an unknown id changes nothing and is answered 404. |
| Server.Handler.Register | server/src/server.c:148-158 | The second argument is the type and the first the id; the stores change and the answer is given as specified, which `RegisterAnswer` and `RegistrationOkIff` state in terms of what clients see. |
| Server.Handler.Query | server/src/server.c:187-246 | All other commands leave every store as it was and answer from its present content. |
| Server.Handler.Dispatch | server/src/server.c:142-246 | A parsed message changes the stores and is answered as the pure specification says for its words. |
| Server.Handler.Handle | server/src/server.c:135-247 | From raw received bytes to response, alert and new stores, for every buffer, including lengths the parser refuses. |
| ServerRuns.FixedAnswers | server/src/server.c:142-246 | PING, GET_STATUS and OPERATOR_IDENTIFY, in any capitalisation, unknown words, empty lines and commands with too few arguments have their fixed answers, change nothing, alert nobody and make nobody an operator. |
| ServerRuns.RegisterAnswer | server/src/server.c:148-158 | A registration is answered with the line OK SENSOR_REGISTERED exactly when some stored entry has that id or fewer than 50 are stored, else with ERROR 500. |
| ServerRuns.RoleMeansOperator | server/src/server.c:142-246 | Of all messages exactly those answered with a role make their connection an operator, and these are the messages whose first word is LOGIN in any capitalisation, with two arguments, that the auth service grants. |
| ServerRuns.LoginTells | server/src/server.c:187-206 | A message whose first word is LOGIN in any capitalisation changes no store; the client sees OK exactly when it became an operator, with its whole role of up to 63 characters, the 401 line exactly when refused, and the 503 line exactly when the service did not decide. |
| ServerRuns.RegistryIsReplay | server/src/server.c:148-185 | The registry behind any conversation is the replay of its registrations and measurements. |
| ServerRuns.LookupIsFirstType | server/src/server.c:164-169 | The server's lookup equals the type named by the first registration that clients saw accepted. |
| ServerRuns.FirstTypeIff | server/src/server.c:148-158 | There is such a type if and only if some registration stored under that id was answered OK. |
| ServerRuns.RegistrationOkIff | server/src/server.c:148-158 | In any conversation a registration is answered OK SENSOR_REGISTERED if and only if an earlier registration stored under its id was answered OK, or fewer than 50 new sensors were registered before; else ERROR 500. |
| ServerRuns.RegisteredForGood | sensors/sensor_base.py:125-126 | A sensor with an id of at most 31 characters that was answered OK once is answered OK whenever it registers again. |
| ServerRuns.MeasurementOkIff | server/src/server.c:160-185 | In any conversation a measurement is answered OK MEASUREMENT_RECEIVED if and only if an earlier registration stored under its id was answered OK, and ERROR 404 if and only if none was. |
| ServerRuns.MeasurementOkShort | server/src/server.c:160-185 | With registered ids of at most 31 characters: if and only if that very id was registered with answer OK. |
| ServerRuns.BroadcastIff | server/src/server.c:164-177 | It is broadcast if and only if the value breaks some rule: an active one, for the first registered type on 15 characters, whose condition ">", "<", ">=" or "<=" holds between value and limit. The alert is the text of id, that type, value and unit, cut at 255 characters. |
| ServerRuns.MeasurementRaises | server/src/server.c:167-171 | In any conversation a measurement adds one unresolved alert for each rule its reading breaks, in the order of the rules, each with its own id, the first registered type, value, level and text; none when its sensor was not registered; older alerts stay. |
| ServerRuns.OthersRaiseNothing | server/src/server.c:142-246 | No other message adds an alert or is broadcast. |
| Handshakes.LogIn | server/src/server.c:187-206 | From the bytes of a login line in any capitalisation: the connection becomes an operator exactly when the auth service grants it, and the three outcomes have their own answers. |
| Handshakes.Authenticate | operator-client/src/main/java/com/telematica/operator/service/ServerConnectionService.java:76-91 | The handshake of the operator client, LOGIN and then OPERATOR_IDENTIFY as bytes through the server: the client gets through exactly when the login is granted, exactly then the connection is an operator, and no store changes. |
| Handshakes.RegisterSensor | sensors/sensor_base.py:93-98 | From the bytes of the registration message: the script goes on exactly when its id is stored already or fewer than 50 sensors are. |
| EndToEnd.PollShowsRegistry | operator-client/src/main/java/com/telematica/operator/service/ServerConnectionService.java:118-151 | What the operator client shows after a poll of the server is the whole registry in registration order. |
| EndToEnd.OperatorSeesReading | sensors/sensor_base.py:100-108 | After a registered sensor with a valid id sends h hundredths with the unit of its type, the next poll shows that id, that unit and a text that reads as exactly h hundredths, and every other sensor as before. |
| EndToEnd.ReadingThenPoll | server/src/server.c:135-247 | The same through the imperative programs: the bytes of the measurement message of at most 1023 characters and then of the poll go through the server, and the response through the client's parser. |
| Connections.Socket.SendCompleteResponse | server/src/server.c:58-75 | Under arbitrary partial sends: result 0 means the whole response was sent once, -1 means a proper prefix. |
| Connections.OperatorArrays.RegisterOperator | server/src/server.c:82-92 | The parallel arrays gain one slot while fewer than 100 are used, and otherwise stay. |
| Connections.OperatorArrays.RemoveOperator | server/src/server.c:94-105 | Exactly the first slot of the descriptor becomes (-1, NULL). |
| Connections.OperatorArrays.BroadcastAlert | server/src/server.c:107-118 | The acts of the loop are, for each live slot in order, locking its mutex, one send of the message on its descriptor, and unlocking. |
| BroadcastActs.ActsReached | server/src/server.c:107-118 | In every interleaving, at each point of a broadcast, the locks, sends and unlocks done since it started are those of the slots passed so far, and the table is the one it started with. |
| BroadcastActs.BroadcastDoesLoop | server/src/server.c:107-118 | In every interleaving a finished broadcast has done exactly the acts of the loop over the arrays, on the table it started with. |
| Handlers.StepFrame | server/src/server.c:120-276 | A step of one handler moves only that handler's program point and changes nobody's descriptor. |
| LockOrder.HeldStep | server/src/server.c:107-118 | The mutexes a handler owns after a step are those it owned before, plus the one it took, minus the one it released. |
| LockOrder.LocksReached | server/src/server.c:120-276 | In every reachable state each locked mutex has an owner whose program point owns it, and each program point owns what it believes to own. |
| LockOrder.OneOwner | server/src/server.c:249-251 | Mutual exclusion: no two handlers own the same mutex. |
| LockOrder.OrderedAcquisition | server/src/server.c:107-118 | Mutexes are taken in increasing rank, the sensor mutex is held alone, and nobody holds two write mutexes. |
| LockOrder.WaitRankRises | server/src/alert_engine.c:97-126 | Along each waits-for edge the rank of the wanted mutex rises. |
| LockOrder.NoWaitCycle | server/src/server.c:107-118 | In every reachable state no chain of waiting handlers closes, and none has more than four members. |
| LockOrder.SomeOwnerRuns | server/src/logger.c:38-46 | From any owner, following the wanted mutexes ends at an owner that can step. |
| LockOrder.DeadlockFree | server/src/server.c:107-118 | In every reachable state in which some mutex is held, some handler that holds one can take a step. |
| LockOrder.WaiterHasRunner | server/src/server.c:249-251 | Every unfinished handler can step itself, or some owner of a mutex can. |
| StoreRuns.RegistryReached | server/src/sensor_manager.c:22-89 | In every interleaving the sensor array is a sequential run of the operations in lock order, and every lookup that a handler still relies on is valid. |
| StoreRuns.MeasurementStoredIff | server/src/server.c:164-181 | In every interleaving a measurement is accepted if and only if a registration that held the mutex earlier is stored under its id. |
| StoreRuns.TypeLookupSucceeds | server/src/server.c:167-169 | Once a measurement was stored, the later lookup is non-NULL under any interleaving. |
| StoreRuns.TypePointerStable | server/src/sensor_manager.c:133-146 | The pointer read outside the sensor lock, at every point of the check, reads the type of the first accepted registration of that id. |
| StoreRuns.CheckedSensorWasRegistered | server/src/server.c:167-170 | A handler that checks a measurement has such a first registration. |
| StoreRuns.AlarmsReached | server/src/alert_engine.c:100-129 | In every reachable state the alarms are complete blocks followed by the partial block of the owner of the alert mutex. |
| StoreRuns.AlarmsAreBlocks | server/src/alert_engine.c:100-129 | Whenever the alert mutex is free the alarms are exactly one block per finished check, in order, and their number is the sum of the returned counts. |
| StoreRuns.VisibleReached | server/src/alert_engine.c:71-98 | In every interleaving, also in the middle of a check, the bounded array holds exactly the last min(n, 100) of the n alarms raised so far, unresolved and oldest first. |
| StoreRuns.BroadcastIffFires | server/src/server.c:170-177 | In every interleaving a finished check goes on to broadcast if and only if the value breaks some active rule of the first accepted type, by the literal comparison of value and limit, with that type in the message. |
| MeasurementRuns.MeasurementsFollowed | server/src/server.c:160-181 | Under any interleaving the checks and broadcasts of a connection are, in order, what its stored measurements call for, up to what is still to come: each is checked once, with its own id and value, under the type its sensor had when it was stored, the check counts the rules broken, and one alert with its id, type, value and unit is broadcast exactly when there is one. |
| Requests.CarriedInOrder | server/src/server.c:142-233 | Under any interleaving what was carried out for a connection is what it asked for, each request once, in order and with its own arguments, up to the one still on its way; a refused login, an identify and anything else ask for nothing. |
| Requests.AnsweredOnce | server/src/server.c:249-257 | In every safe run, under any interleaving, a connection was sent exactly one response per request, except for the request it is being served. |
| Requests.LeavesIff | server/src/server.c:250-262 | Under any interleaving a connection is on its way out exactly when it hung up or a send of its response failed. |
| Requests.LoginsReceived | server/src/server.c:187-197 | Under any interleaving a connection stands in the list of logins exactly as often as it received a granted login, less the one still on its way. |
| Requests.NoLoginNoSlot | server/src/server.c:192-199 | A connection that never received a granted login, such as one whose password was refused, has no slot in any interleaving. |
| Requests.NoLoginNoAlert | server/src/server.c:107-118 | And in every safe run it is sent no alert. |
| OperatorTable.TableReached | server/src/server.c:82-105 | In every reachable state the count is min(100, logins), each slot is its original descriptor and mutex or (-1, NULL), and a slot in use by a broadcast does not change; `LoginsReceived` says that the logins are the granted ones. |
| OperatorTable.SlotsNeverReused | server/src/server.c:94-105 | A step leaves each existing slot as it is or clears it; none is refilled. |
| OperatorTable.RemovesOwnSlot | server/src/server.c:98-102 | While slots are filled exactly as long as their connections live, the slot found by descriptor at teardown belongs to the connection itself, even when descriptor numbers were reused. |
| OperatorTable.TidyMove | server/src/server.c:271-275 | From a state in which slots are filled exactly while their connection lives, a move leads to such a state if and only if it is not a removal with two slots. |
| OperatorTable.TidyRunIff | server/src/server.c:94-105 | All states of a run are of that kind if and only if no connection goes through remove_operator with more than one slot. |
| OperatorTable.OnceIsClean | server/src/server.c:187-197 | Runs with at most one slot per connection contain no such removal. |
| OperatorTable.CleanIsTidy | server/src/server.c:271-275 | In such runs a slot is live exactly until its connection leaves remove_operator. |
| OperatorTable.BroadcastTarget | server/src/server.c:110-116 | While slots are filled exactly as long as their connections live, the connection that receives a broadcast on a slot's descriptor is the one that registered the slot, and it is open. |
| OperatorTable.LiveSlots | server/src/server.c:82-105 | With one login per connection, under any interleaving, every filled slot belongs to a distinct open connection, holds its descriptor and undestroyed mutex, and no other open connection has that descriptor. |
| OperatorTable.WriteMutexOutlivesUse | server/src/server.c:107-118 | In every clean run, under any interleaving, no handler owns or waits for the write mutex of a connection that left remove_operator. |
| OperatorTable.DestroyedUnused | server/src/server.c:273 | In every clean run a write mutex is destroyed only while unlocked and wanted by nobody. |
| OperatorTable.TeardownClearsOwnSlot | server/src/server.c:271-272 | In every clean run a teardown leaves all slots of other connections, and clears its own when slots are unique. |
| ConcreteRuns.SecondSlotOutlivesMutex | server/src/server.c:98-102 | Counterexample: after login, login, hang-up a live slot points to a destroyed mutex, in a run that is still safe. |
| ConcreteRuns.AlertTearsResponse | server/src/server.c:110-116 | Counterexample: after that, with the descriptor reused, a safe run reaches a broadcast that takes the destroyed mutex, and its send puts the alert between the bytes of another client's response. |
| ConcreteRuns.SecondSlotDoublesAlerts | server/src/server.c:110-116 | Counterexample: in a clean run a client that logged in twice was sent the only broadcast twice. |
| ConcreteRuns.DescriptorZeroIsSkipped | server/src/server.c:111 | Counterexample: with one login, an operator on descriptor 0 has a slot from before the only broadcast and was sent nothing. |
| SafeRuns.SafeReached | server/src/server.c:107-118 | In every safe run, under any interleaving, a broadcast that owns a write mutex owns that of a connection that has not left remove_operator. |
| SafeRuns.SendTarget | server/src/server.c:110-116 | Then what it sends on a slot's descriptor reaches the connection that registered the slot, although leftover slots may be in the table. |
| SafeRuns.CleanIsSafe | server/src/server.c:94-118 | Runs in which no connection was removed with two slots are safe. |
| SafeRuns.GoneMutexUnlocked | server/src/server.c:271-273 | In every safe run nobody owns the write mutex of a connection that has left remove_operator. |
| Streams.StreamsReached | server/src/server.c:249-256 | In every safe run each connection's bytes are exactly its chunks so far, shaped as its handler's program point says. |
| Streams.NotWhileSending | server/src/server.c:112-114 | Under the lock and lifetime invariants no broadcast sends to a connection while that connection's response is being sent. |
| Streams.StreamFraming | server/src/server.c:58-75 | In every safe run, under any interleaving and arbitrary partial sends, a client's stream is a sequence of responses and prefixes of one alert line each; no alert byte is inside a response, also while it is being sent, and after an incomplete response only alert lines follow. |
| ClientLines.LinesOfChunks | operator-client/src/main/java/com/telematica/operator/service/ServerConnectionService.java:97-106 | Reading a sequence of complete one-line chunks line by line gives their contents, one each, whatever follows. |
| ClientLines.ClientReadsLines | server/src/server.c:58-118 | In every safe run, under any interleaving, when every chunk of a connection was sent to its end and is one line, the lines the client reads are the responses and alerts, one each and in order. |
| ClientLines.AlertWholeIff | server/src/server.c:172-175 | An alert carries its whole text and line ending if and only if the text has at most 253 characters. |
| ClientLines.AlertIsLineIff | server/src/server.c:172-175 | An alert of words without line endings is exactly one line if and only if its text has at most 253 characters. |
| ClientLines.LongUnitJoinsLines | server/src/server.c:172-175 | Counterexample: with any unit of 260 characters the alert has 255 and no line ending, and a line reader joins it with the response that follows. |
| Forwarding.CacheShowsLast | operator-client/src/main/java/com/telematica/operator/service/ServerConnectionService.java:98-101 | After any lines the operator client shows the list of the last line that begins with SENSORS. |
| Forwarding.CacheStays | operator-client/src/main/java/com/telematica/operator/service/ServerConnectionService.java:98-101 | Without such a line it shows what it showed before. |
| Forwarding.AlertsOnlyReached | server/src/server.c:172-176 | In every interleaving every broadcast begins with ALERTA. |
| Forwarding.ForwardsAlerts | operator-client/src/main/java/com/telematica/operator/service/ServerConnectionService.java:98-105 | In every safe run, under any interleaving, when everything arrived as whole lines and no response begins with ALERTA, the client passes on exactly the alerts it was sent, once each and in order. |
| Forwarding.AnswerIsNoAlert | server/src/server.c:137-247 | No answer of the server begins with ALERTA, whatever the message and the stores. |
| FirstAnswer.ChunksStay | server/src/server.c:58-118 | In every safe run, under any interleaving, the responses and alerts that a connection was sent stay in their places. |
| FirstAnswer.NothingSentIff | server/src/server.c:192-197 | In every safe run, when the answer to a granted login, the first request of its connection, is about to be sent, the client was sent nothing if and only if no broadcast concerned its slot; otherwise it was sent alerts only. |
| FirstAnswer.AnswerReadFirstIff | operator-client/src/main/java/com/telematica/operator/service/ServerConnectionService.java:76-82 | In every safe run, under any interleaving, an operator that logs in first, is granted and answered OK, and receives whole lines, reads a first line that begins with OK if and only if no broadcast concerned its slot before the answer was started. |
| FirstAnswer.GrantedReadsAlert | operator-client/src/main/java/com/telematica/operator/service/ServerConnectionService.java:79-82 | Counterexample: a run with one login per connection in which a client whose login was granted was sent one line, an alert, where it waits for OK. |
| Broadcasts.MessagesReached | server/src/server.c:107-118 | The message of the broadcast in progress is the latest one of the global order. |
| Broadcasts.AlertLinesAreBroadcasts | server/src/server.c:107-118 | In every run, clean or not, every alert line that a connection was sent is one of the broadcasts. |
| Broadcasts.OrderReached | server/src/server.c:82-118 | In every state of every safe run, also during a broadcast, each connection was sent exactly what its slots stand for: a copy of each broadcast per slot concerned, nothing on descriptor 0. |
| Broadcasts.DeliveredInOrder | server/src/server.c:82-118 | In every safe run, under any interleaving, a connection on a positive descriptor was sent broadcasts in the one global order, broadcast b exactly as often as it has slots registered before b and not removed before b. |
| Broadcasts.SentSegmentIff | server/src/server.c:94-118 | In every safe run a slot's owner was sent exactly the slot's segment, each broadcast once, if and only if its descriptor is positive and no other slot of it stands for a broadcast, or its descriptor is 0 and the segment is empty. |
| Broadcasts.SegmentBounds | server/src/server.c:82-105 | Between broadcasts the segment of a slot ends with the order while the slot is filled, and where the order stood at its removal afterwards. |
| Broadcasts.OrderedBroadcast | server/src/server.c:82-118 | With one login per connection, under any interleaving, between broadcasts: an operator that obtained a slot was sent each broadcast between its registration and its removal, or now, once and in the global order, if and only if its descriptor is not 0 or there was none; on descriptor 0 it was sent nothing. |
| Broadcasts.NoSlotNoAlert | server/src/server.c:110-111 | In every safe run a connection that never obtained a slot is sent no alert. |
| Broadcasts.AlertsFollowOrder | server/src/server.c:107-118 | With one login per connection the k-th alert of any operator is at its registration point plus k in the global order, at every moment, so two operators never disagree. |

## Left out

- Broadcasts.OrderedBroadcast: assumes at most one slot per connection; `DeliveredInOrder` and `SentSegmentIff` say what holds without that. A failed or partial `send` of an alert counts as sent, since the code ignores its result; `StreamFraming` says which bytes arrived.
- Broadcasts.AlertsFollowOrder: assumes at most one slot per connection, because with two slots the k-th alert can be a second copy; the order itself is `DeliveredInOrder`.
- Handshakes.Authenticate: for one handler at a time; `FirstAnswer.AnswerReadFirstIff` says what alerts of other handlers can do to the same handshake.
- FirstAnswer.AnswerReadFirstIff: for a login that is the first request of its connection, on a positive descriptor, as the operator client sends it.
- EndToEnd.OperatorSeesReading: assumes that every entry fits the server's item buffer (126 characters and the semicolon) and the list 502 characters; a longer entry is cut, and a longer list reaches the client without a line ending.
- AlertEngine.Engine.RegisterThreshold: the stored message text and creation time are not part of what a threshold reads as, because no code reads them; the message field is still written and stays terminated.
- SensorClient.ValidId: an id with one final newline, which Python's `$` lets through `ID_PATTERN`, is left out; it would end the message line.
- Socket setup, listening, `setsockopt`, Windows branches and the failure of `malloc` and `pthread_create`: I/O and start-up.
- `auth_client.c` and the auth service: the result of a verification is an input.
- TCP segmentation: one `recv` delivers one message, as the server itself takes it to be; the end-to-end results take each sensor message and each poll to arrive whole, in one receive of at most 1023 bytes.
- Log formatting, files and rotation: only the logger mutex is modelled; the accepting thread's log line counts as the first log line of the new connection.
- IEEE 754 rounding, the sign of zero and the hexadecimal, infinity and not-a-number forms of `atof`: values are exact decimals, printing rounds half to even.
- The wall clock: every time stamp is an arbitrary input.
- Response contents under concurrency: `resp_buf` and the position that `strtok` keeps between calls are shared by all threads, so the code does not guarantee them; in the transition system the request is an input of the receiving step and the response text is fixed when the write mutex is taken, while content is proved for one handler at a time.
- Registering thresholds while handlers run: the server registers all of them before it starts to listen, so the set is an arbitrary constant of a run.
- `alert_engine_resolve_alert`, `sensor_manager_cleanup` and `alert_engine_cleanup` in the transition system: no handler calls them; they are modelled in the classes only.
- NULL arguments of the store functions: no caller passes one.
- The behaviour of a destroyed mutex, which C leaves undefined: after a double login the model lets it be locked like any other and delivers to the descriptor's present owner; the lifetime results say when this cannot happen.
- Delivery to the network after `send` returns.
- `protocol_build_alert` and `protocol_is_http`: not used by the server.
- Random values, retry loops and argument parsing of the sensor scripts; Spring configuration, controllers, dashboard, HTML and CSS.
- Text encodings: characters stand for bytes, and `trim`, `split` and `upper` are modelled on them.
