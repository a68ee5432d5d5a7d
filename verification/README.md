# Verification of the SMP 1.0 server core

A Dafny 4.11 model of the IoT monitoring server: the shared sensor table and circular buffers, the
threshold evaluator, the SMP command handlers and the byte framing under them, the newest-first page
readers, and the Python sensor client at the other end. `dafny verify dfyconfig.toml` checks it.

## How it is built

* `Records`, `Text`: the records and constants, C strings with bounded copies, `tokenize` with its
  in-place `strtok_r`, and the timestamp shape. Characters stand for bytes.
* `Database`: the state as one critical section sees it (occupied slots in slot order, and unbounded
  logs of all metrics and alerts) and what each `state_*` operation does to it. It refines a finite map.
* `Protocol`: SMP 1.0 in its own words and numbers (type names, thresholds, the record of a new sensor,
  timestamps as printed numbers), and that the functions above mean just that.
* `Ring`, `Store`: the same state in place: an array of slots searched by linear scans, and two circular
  buffers. Each method is proved to do what `Database` says, return codes included.
* `Wire`: sockets with partial sends and one-byte reads, `recv_line`, `send_line`.
* `Session`: the handlers and the session loop of one connection, in place, and the proof that
  handling a command in one go is one of the runs of `Server`. `Dialogue`: what commands mean to one
  another. `Conversation`: every command with its reply written out, and a whole conversation byte by byte.
* `Server`: the transition system. A step of a connection thread is one critical section or the sending
  of one reply, so a METRIC is up to five steps (find, add_metric, add_alert, set_alert_level, reply) and
  any number of threads interleave between them. A label that is not enabled changes nothing, so every
  sequence of labels is a run.
* `Lifecycle`, `Alternation`, `Conservation`, `LevelAgreement`, `LevelExact`, `NonInterference`,
  `SerialOrder`, `Capacity`, `Replies`, `Provenance`: what holds in every run.
* `Programs`: every function that takes a mutex as an instruction list with its early exits: lock,
  unlock, one read or write of shared memory, a jump. `Sections`: what each list computes when nobody
  interferes, proved loop by loop. `Locks`: any number of connections and pages running the lists one
  instruction at a time on current memory. The machine enforces no discipline, so a list that skipped an
  unlock or touched memory outside its lock would run there as it does in C; that none does is proved
  (`Programs.EveryPathIsBalanced`, `Locks.NeverBreach`). `Atomicity`: such runs are runs of `Server`.
* `Peers`: any number of connections whose peers send arbitrary bytes.
* `PythonClient`, `Clients`: one client in place, and any number of clients, connections and byte
  streams interleaved with the server.
* `Page`: the metrics page and its buffer arithmetic.

Lookups return the first slot whose stored id matches, as the scans do, so most results hold for
arbitrary ids. Where the 63-character cut of stored ids matters, the statement says so and a companion
lemma shows what happens otherwise.

Where the documents and the code disagree the model follows the code: `docs/pruebas.md` promises a 400
for an empty line, but `recv_line` returns 0 for it and the session ends silently (`Wire.BlankLineEnds`).
So it does after a line that fills the buffer, blank or not: what is left of the line is blank. Exactly
the lines whose length without CRs is a multiple of 4095 end a session (`Wire.ReadsPastLines`).
`protocolo/SMP_1_0.md` asks for single spaces, but runs of blanks and tabs separate tokens too.

Parameters: `strtod` is a function from texts to optional values, `%.2f` a function from values to texts
(`Server.Config`), and table capacity is a number. Where their behaviour matters it is a hypothesis
(`Clients.LibraryOk`, `Replies.DoublesOk`, over the range of finite doubles). Values are NaN, the infinities or reals, since the server only compares them.

## Model

| member | source | states |
|---|---|---|
| Text.SafeStrncpy | server/src/utils.c:19-31 | the destination then holds the source cut to one byte less than its size |
| Text.NextToken | server/src/sensor_handler.c:294-298 | a resumable in-place token scan: finds the first token of what is left, terminates it, leaves everything up to the resume point alone, and resumes right after it |
| Text.Tokenize | server/src/sensor_handler.c:290-302 | after the in-place overwriting, every returned start still points at its token, and the tokens are the first ones of the original line |
| Text.TokensOfJoin | server/src/sensor_handler.c:290-302 | splitting what was joined with single spaces gives the words back |
| Text.TokensKeepText | server/src/sensor_handler.c:290-302 | unless the token array is full, only delimiters are lost |
| Text.TokensAreRuns | server/src/sensor_handler.c:290-302 | tokens are non-empty and delimiter-free |
| Text.IsValidTimestamp | server/src/utils.c:128-156 | accepts exactly 20 characters with digits and separators at the fixed places |
| Text.StampIsValid | server/src/utils.c:128-156 | every date and time written with fixed-width fields is accepted |
| Text.ValidIsStamp | server/src/utils.c:128-156 | nothing else is accepted |
| Text.TokensOfLaid | server/src/sensor_handler.c:290-302 | words laid out with any gaps of blanks and tabs, before, between and after them, are the tokens, up to the limit |
| Text.EveryTextIsLaid | server/src/sensor_handler.c:290-302 | and every text is words laid out so: blanks and tabs separate, nothing else does |
| Protocol.ValidIsPrinted | server/src/utils.c:128-156 | accepted are exactly the texts that printing a year below 10000 and five numbers below 100, zero-padded in the ten digits, gives |
| Wire.RecvLine | server/src/utils.c:68-99 | the reading loop, its early exits and its buffer bound, for any stream and either kind of end |
| Wire.SendLine | server/src/utils.c:103-124 | under any pattern of partial sends, success puts message and LF on the wire once and in order, failure a prefix; too long a message sends nothing |
| Wire.RecvRecoversSent | server/src/utils.c:68-124 | a message without CR and LF is recovered whole by one read, with the rest untouched, if and only if it is short enough for the sender to accept it |
| Wire.PiecesKeepStream | server/src/utils.c:68-99 | splitting any stream by repeated reads, with any buffer of two bytes or more, ends and loses only CR and LF |
| Wire.PiecesFit | server/src/utils.c:68-99 | every piece fits its buffer and holds no line end |
| Wire.CommandsRoundTrip | clients/python_sensor/sensor.py:71-118 | back-to-back commands formatted by the client are read and split into exactly the original words |
| Wire.LineRead | server/src/utils.c:68-99 | for every line and whatever follows it: the line is read as the commands of its 4095-byte pieces, and the session goes on to what follows if and only if its length without CRs is no multiple of 4095 |
| Wire.ReadsPastLines | server/src/utils.c:68-99 | a session reads past a list of lines, whatever comes after them, if and only if none has such a length |
| Wire.BlankLineEnds | docs/pruebas.md:33-36 | the document's empty line, with or without CRs, ends the session instead: the commands before it are read and nothing after it is |
| Wire.LastLine | server/src/utils.c:76-99 | a line that the end of the stream cuts off is read like any other after an orderly close; after an error what has not filled the buffer is dropped |
| Wire.LastLineCounts | server/src/utils.c:79-88 | so a last line shorter than the buffer yields a command if and only if the end is an orderly close |
| Database.AbsIsLookup | server/src/state.c:126-144 | the first-match scan finds an id exactly when the map has it, with the map's record |
| Database.RegisterRefinesMap | server/src/state.c:71-122 | registration is the map's, return code included, and keeps ids unique, for ids that are stored whole; a new entry has the given type, ACTIVE, NORMAL, 0.0 and N/A |
| Database.RegisterKeepsUnique | server/src/state.c:71-122 | for all ids: uniqueness is kept if and only if no new slot is taken or the cut id is not stored yet |
| Database.AddMetricRefinesMap | server/src/state.c:148-169 | add_metric changes value and timestamp at one key of the map, or reports an unknown id |
| Database.DeactivateRefinesMap | server/src/state.c:211-226 | deactivation changes the status at one key |
| Database.SetLevelRefinesMap | server/src/state.c:230-245 | set_alert_level changes the level at one key |
| Database.ActiveCountRefinesMap | server/src/state.c:257-270 | the active-sensor scan counts the ACTIVE entries of the map |
| Ring.Buffer.Push | server/src/state.c:171-180 | the buffer, its write index and its count stay the image of the whole log: index = total mod capacity, count = min(total, capacity), slot k mod capacity holds entry k |
| Ring.Buffer.Back | server/src/http_server.c:682-683 | step j of the backward walk reads entry total-1-j of the log |
| Ring.Buffer.ReadNewestFirst | server/src/http_server.c:735-744 | the walk yields the reversed last entries of the log, as many as fit the ring |
| Ring.WalkIsInjective | server/src/http_server.c:737-738 | the walk never reads a slot twice |
| Store.State.constructor | server/src/state.c:19-23 | an all-zero state is the empty table with empty logs |
| Store.State.Register | server/src/state.c:71-122 | the two scans in place do what registration means on the abstract state; a slot newly taken holds the cut id, the type named, ACTIVE, NORMAL, 0.0 and N/A |
| Store.State.FindSensor | server/src/state.c:126-144 | index and copied record of the first match |
| Store.State.AddMetric | server/src/state.c:148-184 | updates the slot and appends to the ring, as the abstract operation |
| Store.State.AddAlert | server/src/state.c:188-207 | appends to the alert ring |
| Store.State.DeactivateSensor | server/src/state.c:211-226 | as the abstract operation |
| Store.State.SetAlertLevel | server/src/state.c:230-245 | as the abstract operation |
| Store.State.ActiveSensorCount | server/src/state.c:257-270 | the scan over all slots counts the active occupied ones |
| Store.State.EvaluateAlerts | server/src/alerts.c:12-66 | in place, an alert with the threshold crossed exactly for TEMP above 70, VIB above 50, POWER below 10 or above 100, then the matching level, and nothing else changes |
| Session.HandleIsRun | server/src/sensor_handler.c:58-109 | handling a command in one go, from any state, is a run of the transition system in which no other thread steps |
| Session.HandleRegister | server/src/sensor_handler.c:123-164 | the handler in place has the effect and reply of its critical sections in sequence |
| Session.HandleMetric | server/src/sensor_handler.c:168-221 | the same for METRIC, through find, add_metric, add_alert and set_alert_level |
| Session.HandleStatus | server/src/sensor_handler.c:225-254 | the same for STATUS |
| Session.HandlePing | server/src/sensor_handler.c:258-268 | the same for PING |
| Session.HandleQuit | server/src/sensor_handler.c:272-286 | the same for QUIT |
| Session.HandleCommand | server/src/sensor_handler.c:81-108 | the verb dispatch |
| Session.ReadTokens | server/src/sensor_handler.c:59-79 | one line read into the session buffer and split in place |
| Session.SendResponse | server/src/sensor_handler.c:304-309 | what a reply puts on the wire: all of it if no send fails, otherwise a beginning; nothing when it fills the response buffer |
| Session.HandleConnection | server/src/sensor_handler.c:44-119 | on every finite byte stream the session ends, with the state and the replies that the commands up to the first well-formed QUIT call for; the wire carries those replies whole and in order, each cut short only by a failing send |
| Replies.SilentReplies | server/src/sensor_handler.c:141-161 | of all replies any run can give, exactly the REGISTERED of an id of 4080 bytes or more is never sent |
| Replies.SilentRegister | server/src/utils.c:103-110 | such a REGISTER fits its line: the session registers the sensor and answers nothing |
| Session.OneReplyPerLine | server/src/sensor_handler.c:58-109 | exactly one reply per non-empty line up to that QUIT, in order; BYE for it only, and nothing after BYE |
| Conversation.RegisterInWords | server/src/sensor_handler.c:123-164 | every REGISTER: the words of its reply (422, 409, 200, 500) with the condition of each, and the table it leaves, field by field for a new sensor |
| Conversation.MetricInWords | server/src/sensor_handler.c:168-221 | every METRIC: the words of its reply (404, 403, 422, 400, 200) with the condition of each, and the record, metric and alert it leaves |
| Conversation.AlertRule | server/src/alerts.c:20-63 | after a first REGISTER and an accepted METRIC: ALERT and one alert with bound b exactly for the listed ranges of each type word, NORMAL and none exactly for the rest, NaN, infinities and boundaries included |
| Conversation.StatusInWords | server/src/sensor_handler.c:225-254 | every STATUS: 404, or eight words with single spaces, ACTIVE or INACTIVE and ALERT or NORMAL as the record has it |
| Conversation.StatusSplits | protocolo/SMP_1_0.md:63-76 | a peer that splits that reply gets the eight words |
| Conversation.OthersInWords | server/src/sensor_handler.c:258-286 | PING, QUIT and whatever is malformed: the words of the reply and the state it leaves |
| Conversation.SentInWords | server/src/utils.c:103-124 | a reply goes out as its text and a LF, and one of 4095 bytes or more not at all |
| Conversation.Transcript | docs/pruebas.md:8-29 | the conversation of the manual test, byte by byte in and out, for every new id, type and number of values, whatever follows the QUIT; and what it leaves in the state |
| Dialogue.MalformedIs400 | protocolo/SMP_1_0.md:16-98 | a malformed command is answered 400 and changes nothing; a well-formed one gets 400 only for a bad timestamp |
| Dialogue.MetricOutcome | protocolo/SMP_1_0.md:53-61 | which of the five replies METRIC gets, as conditions on table, value and timestamp, each both ways; only success changes the state |
| Dialogue.AcceptedMetric | server/src/sensor_handler.c:182-220 | what an accepted METRIC leaves: the record with value, timestamp and level, one more metric, and one more alert with the crossed bound exactly for an anomalous value |
| Dialogue.StatusReportsMetric | docs/pruebas.md:12-28 | STATUS after an accepted METRIC reports it verbatim, with ALERT exactly for an anomalous value |
| Dialogue.QuitThenReturn | server/src/state.c:82-86 | after QUIT a METRIC is refused; REGISTER restores everything but the status, whatever type it names; a second REGISTER is refused |
| Dialogue.RegisterOutcome | server/src/sensor_handler.c:141-161 | which reply REGISTER gets, each both ways; 500 exactly for an unknown id and a full table |
| Dialogue.UnknownTypeIs422 | server/src/sensor_handler.c:132-139 | 422 exactly for a type outside the protocol |
| Dialogue.SuccessIs200 | clients/python_sensor/sensor.py:160-164 | the client's test for 200 accepts exactly the successes |
| Lifecycle.StableLookup | server/src/state.c:93-144 | in every run an id once found stays at its slot, every occupied slot keeps its id and type, none is freed, and the capacity is never exceeded |
| Lifecycle.FullTableForever | server/src/state.c:78-105 | once the table is full every unknown id is refused forever, and a known one only while it is active |
| Capacity.EnoughSlots | server/src/state.c:93-105 | if a run registers no more ids than there are slots, each stored whole, nothing in it is answered 500 |
| Lifecycle.RunsMatched | server/src/sensor_handler.c:123-286 | in every interleaving each thread's position fits its command and the table, and each reply its verb |
| Lifecycle.MetricNever500 | server/src/sensor_handler.c:209-215 | the 500 branch of METRIC is unreachable |
| Alternation.RunsAlternate | server/src/state.c:76-121 | for an id stored whole, successful REGISTERs and ACTIVE-to-INACTIVE changes strictly alternate in every interleaving and decide the status |
| Alternation.OneOutstandingRegistration | server/src/state.c:211-226 | counted over any run, REGISTERs exceed deactivations by one exactly while ACTIVE, and otherwise by none |
| Alternation.DownBetweenUps | server/src/state.c:76-121 | in every run two successful REGISTERs of an id have a deactivation between them, so of concurrent ones at most one wins |
| Alternation.LongIdRegistersTwice | server/src/state.c:110 | the length bound is exact: any longer id registers twice in a row |
| Conservation.RunsBalanceAlerts | server/src/alerts.c:20-63 | in every run alerts appended plus alerts owed by threads between add_metric and add_alert are, as multisets, the anomalous metrics stored, field by field |
| Conservation.QuietAlerts | server/src/sensor_handler.c:208-218 | with no command in service the two are equal |
| Conservation.RunsAccounted | server/src/sensor_handler.c:208-220 | in every run METRICs answered 200 plus those stored and not yet answered are the metric log |
| Conservation.MetricsStoredVerbatim | server/src/state.c:171-176 | with no command in service the metric log is exactly the accepted METRICs, untruncated, once each, with the name of the sensor's type |
| LevelAgreement.RunsTrack | server/src/state.c:154-176 | in every run a sensor shows the value and timestamp of its newest stored metric, and 0.0, N/A and NORMAL before the first |
| LevelAgreement.LevelAgreesWithLastValue | server/src/alerts.c:57-63 | if evaluations of an id do not overlap, its level is ALERT exactly when its last value is anomalous, across QUIT and re-REGISTER |
| LevelAgreement.OverlapBreaksAgreement | server/src/alerts.c:57-63 | two overlapping METRICs for one id can leave a normal last value with level ALERT |
| LevelExact.AgreementIsSettled | server/src/sensor_handler.c:182-218 | the exact condition, in every reachable state: whatever the order in which the METRICs of a sensor that are in service complete, found, stored or evaluating, level and last value end in agreement if and only if all that are not going to be refused head for the same level and, once none is left to store, every verdict is that of the last value (or, with none pending, the level is right already) |
| LevelExact.AgreementIsSafe | server/src/alerts.c:57-63 | the part about evaluations alone: all orders of finishing those that have stored their metric end in agreement if and only if every unfinished verdict is that of the last value |
| Provenance.SlotsHaveTheirTypes | server/src/state.c:93-122 | in every run every occupied slot was taken, at one step, by a REGISTER of its id, as a new record, and still has the type that REGISTER named |
| Provenance.AlertsInWords | server/src/alerts.c:20-63 | in every run, once quiet, an alert is logged exactly as often as the metric it belongs to, if its threshold is the one SMP 1.0 has for that type and value, and never otherwise |
| Provenance.LevelInWords | server/src/alerts.c:57-63 | and without overlap the level is that of the last value, in the same numbers |
| NonInterference.OtherIdsDoNotMatter | server/src/sensor_handler.c:123-286 | deleting every command that does not name an id from an interleaved run leaves its record, its metrics, its alerts and all replies to its commands unchanged |
| NonInterference.OthersMatterIffRefused | server/src/state.c:93-105 | for an id stored whole, deleting the other ids' commands changes nothing if and only if none of its REGISTERs was refused with 500 |
| NonInterference.FewIdsDoNotInterfere | server/src/state.c:93-105 | and it changes nothing in any run that registers no more ids than slots, each stored whole |
| NonInterference.FullTableInterferes | server/src/state.c:93-105 | for every capacity, as many other ids registered first do change the reply |
| NonInterference.OthersMatterIffRefusedOrTaken | server/src/state.c:93-110 | both provisos together are exact: all along the run the id sees the same with and without the other ids' commands if and only if it is never refused with 500 and no other id that is cut to it takes a slot while it is unknown |
| NonInterference.ShortIdsAreNotTaken | server/src/state.c:110 | for an id of fewer than 63 characters the second never happens |
| NonInterference.CutIdInterferes | server/src/state.c:110 | for one of 63 it does: a 64-character id appears under its first 63 characters |
| SerialOrder.RunsAreSerializable | server/src/sensor_handler.c:123-286 | if no two commands on one id overlap, an interleaved run has, once none is in service, the replies, the table, the metric log and for each id the alerts of handling its commands whole, one after the other, in an order that keeps that of each connection |
| Programs.EveryPathIsBalanced | server/src/state.c:71-286 | on every path through every function, to whichever return, its mutex is locked once and unlocked once, no other mutex is touched, and shared memory is used only in between; the one return without a lock is the type check of REGISTER |
| Sections.SectionMeans | server/src/state.c:71-286 | run without interference, each function's instructions take a memory that stands for a state to one that stands for what the operation means there, and return the right value |
| Locks.NeverBreach | server/src/logger.c:21-36 | in no reachable state is any thread about to use shared memory or the log without its mutex, lock while holding one, unlock what it does not hold, return holding one, or index outside an array; none holds both |
| Locks.HolderGoesOn | server/src/state.c:78-121 | the holder of a mutex is never blocked and each of its instructions brings its unlock nearer |
| Locks.HolderReleases | server/src/state.c:78-121 | whatever others do, a holder given enough instructions releases |
| Locks.NoDeadlock | server/src/http_server.c:583-612 | in every reachable state, while any connection or page is busy some busy thread can move: never are all blocked |
| Locks.RunsKeepLog | server/src/logger.c:21-36 | console and log file get the same lines in the same order, whatever the interleaving |
| Atomicity.LockedRunsAreAtomic | server/src/sensor_handler.c:123-286 | every run of single instructions on current memory is matched by a run of the transition system: same replies, same positions, memory that stands for its state whenever the state mutex is free, and the same connections opened, lines received and connections closed, in the same order |
| Machine.HasEnoughSlots | server/src/state.c:93-105 | so results about runs hold of the machine: if it receives REGISTERs of no more ids than slots, each stored whole, it answers nothing with 500 |
| Atomicity.PagesSeeOneState | server/src/http_server.c:583-612 | everything a page reads in a locked loop, slot by slot, is what one state of that run holds |
| Atomicity.PagesInWords | server/src/http_server.c:583-692 | entry by entry: the first records in slot order, the newest metrics and alerts newest first, as many as there is room for, and the numbers of sensors, ACTIVE ones, metrics and alerts that one state has |
| Atomicity.PageReadsPresent | server/src/http_server.c:677-692 | and it is the state at the moment the page unlocks |
| Peers.EachConnectionAnswersItsOwn | server/src/sensor_handler.c:58-109 | for any number of interleaved connections with arbitrary peers: the commands answered on a connection are the first ones of its own lines, in order, all up to the first well-formed QUIT once it has closed; BYE answers that QUIT and nothing else |
| PythonClient.SensorClient.SendCommand | clients/python_sensor/sensor.py:71-76 | a command and a LF, whole, under any partial sends; a beginning of it when a send fails; nothing when not connected |
| PythonClient.SensorClient.RecvResponse | clients/python_sensor/sensor.py:78-93 | the stripped bytes before the first LF, or an exception when there is none |
| PythonClient.SensorClient.Close | clients/python_sensor/sensor.py:48-65 | a QUIT while connected; nothing sent, read or changed otherwise |
| PythonClient.SensorClient.RunClient | clients/python_sensor/sensor.py:148-185 | in bytes: REGISTER; then METRICs with the first samples in order, none unless the first line heard starts with 200, otherwise one more than the lines heard after it, within the samples and the limit; then QUIT. A failing send cuts what precedes the QUIT short; nothing goes out if it cannot connect |
| PythonClient.ClientSessionEndsWithBye | clients/python_sensor/sensor.py:148-185 | a server session fed one client's bytes reads back its commands, answers each, and says BYE to the last and no other |
| Clients.EveryResponseIs200 | clients/python_sensor/sensor.py:148-185 | for any number of interleaved clients with at most as many ids as slots and one live client per id, every response heard is the 200 form, also after an id returns |
| Clients.AnsweredInSixSteps | server/src/sensor_handler.c:58-109 | whatever other clients do, six steps of its own connection put a waiting client's reply on the wire |
| Page.RowFits | server/src/http_server.c:740-743 | a row of the metrics page takes at most 459 bytes |
| Page.MetricsPage | server/src/http_server.c:707-749 | the page is its head, rows and tail, cut at 65535 bytes, which it is not if and only if the head has at most 65495; its rows are a newest-first prefix of the ring, all of it unless 65024 bytes are reached; the offset stays within 65522 |
| Page.RowShows | server/src/http_server.c:740-743 | the texts between the tags of a row are id, type, value and timestamp, in this order |
| Page.RowsShowLog | server/src/http_server.c:736-744 | read off the rows, the cells are the log, newest entry first |
| Page.StoredIsBounded | server/src/state.c:171-176 | a record cut to its fields obeys the bounds the page relies on |
| Replies.StoredMetricsAreBounded | server/src/state.c:148-184 | every metric that any run stores does |

## Left out

- Sockets, accept loops, thread creation, command line, containers: connections are byte streams and threads are program counters.
- HTML text, routing, the login page, the placeholder patching of the sensors page, and the authentication service: user interface and a network client.
- The alerts page: its rows can be longer than the 512-byte reserve, so the bound of the metrics page is not claimed for it; the walk over its ring is the same.
- Alert message text and log line contents.
- The decimal grammar of `strtod` and the rounding of `%.2f`: given functions.
- Figures of the dashboard: they come from four separate critical sections and are not related to one another.
- The Java client and the mock server: the first speaks the same protocol, the second is not a specification of this server.
- `trim`: not used by the code modelled here.
- Store.State.AddAlert: the message field is not modelled.
- Clients.EveryResponseIs200: supposes that no connection is dropped, that no client is interrupted or times out while it waits for a response, and that no two live clients share an id; a client that leaves early closes its socket without hearing BYE, and a successor may then be refused with 409.
- Clients.AnsweredInSixSteps: counts steps of the connection's own thread; waiting for a mutex is the subject of `Locks`.
- Session.HandleConnection: one connection without interleaving; interleavings are the subject of `Server`.
- PythonClient.SensorClient.RunClient: a receive timeout is not told apart from a closed connection; what is sent is then what is sent if nothing more is heard, but a response that arrives later is not modelled.
- Locks.HolderReleases: a holder releases once it is given enough instructions; that the scheduler gives them, and to whom a free mutex goes, is not modelled.
- Programs.EveryPathIsBalanced: strings and structs are read and written as one piece, a page row is one read, and the test that the log file is open is left out; `logger_init` and `logger_close` run before and after the threads.
