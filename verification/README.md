# test_gui QNode — a Dafny model

This project models the ROS/Qt worker `test_gui::QNode` of the `test_gui`
package (`src/qnode.cpp`). The worker bridges ROS to two Qt log views:

- `log` and `log_listen` append one formatted, severity-tagged, timestamped row
  to the self-log (`logging_model`) or the listen-log (`logging_listen`), write
  the message to the ROS diagnostic stream at its level, and signal the view
  (`loggingUpdated` / `loggingListen`);
- `RecvTopicCallback` logs every message received on `testgui_chat` as
  `"I heard: " + payload` on the listen-log;
- `run` is the publish loop: while `ros::ok()` holds it publishes
  `"hello world -- <count>"`, logs `"I sent: <payload>"`, spins once and
  increments `count`; when the guard fails it emits `rosShutdown`;
- the two `init` overloads call `ros::init`, give up with `false` when the master
  is unreachable, and otherwise start ROS, advertise and subscribe
  `testgui_chat` (queues 1000 and 100) and start the run thread.

Nothing here executes ROS or Qt. Log buffers are immutable `seq<string>` values
in a `Node`; publishes, diagnostic lines and Qt signals are `Event`s in a trace;
timestamps (`ros::Time::now()`) are opaque string parameters; `ros::ok()` is an
oracle sequence of `Poll`s, each `Up` poll carrying its timestamp and the
messages `ros::spinOnce` delivers in that tick; `ros::master::check()` is a
boolean input, and the middleware calls of `init` are recorded as `Effect`s.

Modules: `CStrings` (what `c_str()` does to text: cut at the first NUL),
`DecimalText` (how a non-negative `int` is written to a string stream),
`LogBuffer` (tag, row format, append, and a reader for rows), `QNode` (node
state, `log`, `log_listen`, the callback, `init`), `PublishLoop` (`run`, as a
recursive function over the oracle and as a `while` loop proved equal to it),
`Options` and `SeqFacts` (small generic helpers).

Behaviour of the code worth noting:

- Both endpoints use the single topic `testgui_chat` (publisher queue 1000,
  subscriber queue 100), so the node hears its own messages.
- A `Warn` call writes the row tag `[INFO]`, while its diagnostic line stays at
  warn level (`ROS_WARN_STREAM`). The model keeps this; `TagQuirk` states it.
- Rows go through `c_str()`, so a row ends at the first NUL of the composed
  text, and the callback's message keeps the payload only up to its first NUL.
- The diagnostic line is written before the row text is filled in and before
  the view is signalled; nothing in the code serialises appends.

## Model

| member | source | states |
|---|---|---|
| CStrings.CStr | src/qnode.cpp:149 | the C-string view of a text is its longest NUL-free prefix: a prefix, NUL-free, and followed by a NUL whenever it is shorter |
| CStrings.CStrAppend | src/qnode.cpp:82 | a NUL-free prefix survives `c_str()` truncation; only the tail after it is cut |
| CStrings.CStrIdentity | src/qnode.cpp:149 | truncation leaves a text unchanged exactly when it holds no NUL |
| DecimalText.Decimal | src/qnode.cpp:94 | the counter text is a non-empty digit string without a leading zero |
| DecimalText.ParseDecimalOfDecimal | src/qnode.cpp:94 | reading the counter text back as a decimal number gives the counter |
| DecimalText.DecimalInjective | src/qnode.cpp:94 | two counters have the same text only when they are equal |
| LogBuffer.Tag | src/qnode.cpp:116-148 | every tag is one bracketed word with no space and no NUL |
| LogBuffer.TagQuirk | src/qnode.cpp:130-135 | the tag is `[` + diagnostic level name + `]` for every level except Warn, which is tagged `[INFO]` while its diagnostic level is WARN |
| LogBuffer.TagCollisions | src/qnode.cpp:116-148 | two levels share a tag exactly when they are equal or are Info and Warn |
| LogBuffer.FormatRow | src/qnode.cpp:149 | a stored row never contains a NUL |
| LogBuffer.FormatRowIsCString | src/qnode.cpp:121-149 | the stored row is the composed line `tag [ts]: msg` cut at its first NUL, as `c_str()` leaves it |
| LogBuffer.RowShape | src/qnode.cpp:121-149 | with a NUL-free timestamp the row is tag, " [", timestamp, "]: " and the message up to its first NUL; a NUL-free message is a suffix of its row |
| LogBuffer.Append | src/qnode.cpp:114-150 | one call adds exactly one row, at index old row count, and leaves every earlier row unchanged |
| LogBuffer.AppendAll | src/qnode.cpp:112-152 | N calls add N rows, row i of them formatted from call i, earlier rows unchanged |
| LogBuffer.ParseCompose | src/qnode.cpp:121 | a reader splitting at the first space and the first `]` recovers tag, timestamp and message of any row whose timestamp has no `]` |
| LogBuffer.TagReadsBack | src/qnode.cpp:116-148 | the level a reader infers from a tag is the logged level for every level except Warn, which reads as Info |
| LogBuffer.ReadRow | src/qnode.cpp:116-149 | reading a row back gives its timestamp and the C-string view of its message; the level read from the tag is the logged level for every level but Warn, which reads as Info |
| QNode.Log | src/qnode.cpp:112-152 | `log` grows the self-log by one row at its end, leaves earlier rows and the whole listen-log unchanged, and emits the diagnostic line then `loggingUpdated` only |
| QNode.LogListen | src/qnode.cpp:154-194 | `log_listen` grows the listen-log by one row at its end, leaves earlier rows and the whole self-log unchanged, and emits the diagnostic line then `loggingListen` only |
| QNode.LogsIndependent | src/qnode.cpp:112-194 | a `log` call and a `log_listen` call reach the same buffers in either order: the buffers share no state |
| QNode.HeardMessageIsCString | src/qnode.cpp:82 | the callback's message is NUL-free, so the row keeps all of it |
| QNode.RecvTopicCallback | src/qnode.cpp:80-83 | a received payload adds exactly one listen row, Info-tagged, whose message is "I heard: " and the payload up to its first NUL; the self-log is unchanged |
| QNode.HeardRowText | src/qnode.cpp:80-83 | with NUL-free timestamp and payload the heard row is exactly `[INFO] [ts]: I heard: ` followed by the payload |
| QNode.HeardRowReadsBack | src/qnode.cpp:80-83 | a reader of the heard row recovers the Info level, the timestamp and "I heard: " with the truncated payload |
| QNode.Connect | src/qnode.cpp:44-57 | `init` succeeds exactly when the master check does; on failure only `ros::init` has happened, with no start, advertise, subscribe or thread; on success start comes first, the publisher and subscriber on `testgui_chat` with queues 1000 and 100 are registered, and the thread starts last |
| QNode.Init | src/qnode.cpp:42-58 | the default overload returns the master check's result and does nothing beyond `ros::init` when it fails |
| QNode.Remappings | src/qnode.cpp:62-64 | the remappings hold exactly `__master` and `__hostname`, bound to the given URLs |
| QNode.InitWith | src/qnode.cpp:60-78 | the two-argument overload returns the master check's result and does nothing beyond `ros::init` with the remappings when it fails |
| QNode.InitOverloadsAgree | src/qnode.cpp:42-78 | the overloads agree on the result and on every effect after `ros::init`; they differ only in the remappings |
| PublishLoop.PayloadReadsBack | src/qnode.cpp:92-95 | a payload is "hello world -- " followed by digits that read back as the counter |
| PublishLoop.PayloadsDistinct | src/qnode.cpp:94 | ticks with different counters publish different payloads |
| PublishLoop.PayloadHasNoNul | src/qnode.cpp:94-95 | payloads contain no NUL, so a subscriber's `c_str()` keeps them whole |
| PublishLoop.Deliver | src/qnode.cpp:98 | one spin appends the inbox's "I heard" rows to the listen-log in delivery order, leaves the self-log unchanged, and neither publishes nor signals shutdown |
| PublishLoop.LeadingUps | src/qnode.cpp:90 | counts the guard checks that hold before the first that fails |
| PublishLoop.Tick | src/qnode.cpp:92-101 | one tick appends one "I sent" row to the self-log, the inbox's rows to the listen-log, publishes exactly its payload and never signals shutdown |
| PublishLoop.RunFrom | src/qnode.cpp:85-105 | the counter ends raised by one per tick that ran, and the loop has stopped exactly when a guard check failed |
| PublishLoop.RunPublishesTicks | src/qnode.cpp:89-101 | the published payloads are exactly the ticks' payloads, in tick order, and nothing else publishes |
| PublishLoop.RunPublishes | src/qnode.cpp:89-101 | the loop publishes one payload per passed guard check, the k-th being "hello world -- " and the k-th counter value |
| PublishLoop.SentRowsAt | src/qnode.cpp:97 | there is one "I sent" row per tick, row k carrying the payload of tick k and that tick's timestamp |
| PublishLoop.RunSelfLog | src/qnode.cpp:97 | the self-log ends as its earlier rows followed by exactly the ticks' "I sent" rows |
| PublishLoop.RunListenLog | src/qnode.cpp:98 | the listen-log ends as its earlier rows followed by the rows of the messages delivered during the ticks, in order |
| PublishLoop.RunShutdownOnce | src/qnode.cpp:90-104 | `rosShutdown` is emitted exactly once and last when the guard fails, and never while the loop still runs |
| PublishLoop.RunStops | src/qnode.cpp:90-104 | n passing guard checks followed by a failing one give n payloads, n new self-log rows, counter n and one final `rosShutdown` |
| PublishLoop.RunLoop | src/qnode.cpp:85-105 | the `while (ros::ok())` loop computes the same buffers, counter, trace and stop flag as the recursive definition |
| PublishLoop.OneTickThenStop | src/qnode.cpp:85-105 | a passing guard check then a failing one leave the tick's "I sent" row, its inbox's rows, its one payload and one final `rosShutdown` |
| PublishLoop.PayloadZero | src/qnode.cpp:89-94 | the first payload is "hello world -- 0" |
| PublishLoop.SentRowText | src/qnode.cpp:94-97 | with a NUL-free timestamp, tick k's row is exactly `[INFO] [ts]: I sent: hello world -- k` |
| PublishLoop.EchoScenario | src/qnode.cpp:80-105 | one tick that publishes "hello world -- 0" and hears it back, then a failed guard, leaves one "I sent" row, one "I heard" row, one payload and one final `rosShutdown` |

## Left out

- ROS calls (`ros::init`, `ros::master::check`, `ros::start`, `NodeHandle`, `advertise`, `subscribe`, `publish`): middleware; recorded as `Effect`s and `Published` events, with the master check as a boolean input.
- `ros::Time::now()`: clock input; every timestamp is a string parameter, and its stream format is not modelled.
- `ros::Duration(0.1).sleep()`: timing only; it has no effect on state.
- `ros::spinOnce()`: modelled only as the in-order delivery of a per-tick inbox chosen by the environment; deliveries from other threads are not modelled.
- The `std::cout` line after the loop and `ros_test`: console and diagnostic output with no state.
- Diagnostic stream (`ROS_*_STREAM`): recorded as a `Diagnostic(level, text)` event; nothing of its formatting.
- The constructor, the destructor (`ros::shutdown`, `ros::waitForShutdown`, `wait()`) and QThread `start()`: lifecycle and threading; `StartThread` is only recorded as an effect.
- Concurrency: the callback and the run thread append without locking; the model claims nothing about concurrent appends.
- `QStringListModel` internals, `rowCount`/`index` read access and the conversion from `char*` to `QString` (character decoding): Qt library code; buffers are `seq<string>` and characters are kept as they are.
- RunFrom: models the loop only for a finite oracle; an oracle without a `Down` describes a loop still running, and the requires `count + LeadingUps(polls) <= IntMax` excludes the `int` overflow of `++count`, which is undefined behaviour in C++.
