/**
 The node's observable state and its event-driven entry points: the two log
 buffers, the `log`/`log_listen` pair, the subscriber callback and the two
 `init` overloads. Middleware calls, the clock and Qt signals are not executed:
 timestamps arrive as parameters, the master check as a boolean, and every
 publish, diagnostic line and signal is recorded as an `Event` in a trace.
 */
module QNode {
  import opened Options
  import opened CStrings
  import opened LogBuffer

  /** Topic the node both advertises and subscribes to, with the two queue depths. */
  const ChatTopic: string := "testgui_chat"
  const PublisherQueue: nat := 1000
  const SubscriberQueue: nat := 100
  const NodeName: string := "test_gui"

  /** The two buffers: `logging_model` (self-log) and `logging_listen` (listen-log). */
  datatype Node = Node(loggingModel: seq<string>, loggingListen: seq<string>)

  /** A freshly constructed node has both buffers empty. */
  const Fresh: Node := Node([], [])

  datatype Event =
    | Published(payload: string)
    | Diagnostic(level: LogLevel, text: string)
    | LoggingUpdated
    | LoggingListen
    | RosShutdown

  /** A node state together with the events produced while reaching it. */
  datatype Step = Step(node: Node, events: seq<Event>)

  /**
   `QNode::log`: the message goes to the diagnostic stream at its own level,
   one row is appended to the self-log, then `loggingUpdated` is signalled.
   */
  function Log(node: Node, level: LogLevel, ts: string, msg: string): (r: Step)
    ensures |r.node.loggingModel| == |node.loggingModel| + 1
    ensures r.node.loggingModel[..|node.loggingModel|] == node.loggingModel
    ensures r.node.loggingModel[|node.loggingModel|] == FormatRow(level, ts, msg)
    ensures r.node.loggingListen == node.loggingListen
    ensures r.events == [Diagnostic(level, msg), LoggingUpdated]
  {
    Step(node.(loggingModel := Append(node.loggingModel, level, ts, msg)),
         [Diagnostic(level, msg), LoggingUpdated])
  }

  /** `QNode::log_listen`: the same, on the listen-log and its own `loggingListen` signal. */
  function LogListen(node: Node, level: LogLevel, ts: string, msg: string): (r: Step)
    ensures |r.node.loggingListen| == |node.loggingListen| + 1
    ensures r.node.loggingListen[..|node.loggingListen|] == node.loggingListen
    ensures r.node.loggingListen[|node.loggingListen|] == FormatRow(level, ts, msg)
    ensures r.node.loggingModel == node.loggingModel
    ensures r.events == [Diagnostic(level, msg), LoggingListen]
  {
    Step(node.(loggingListen := Append(node.loggingListen, level, ts, msg)),
         [Diagnostic(level, msg), LoggingListen])
  }

  /**
   The two buffers share no state: a `log` and a `log_listen` call, run one
   after the other, reach the same buffers in either order.
   */
  lemma LogsIndependent(node: Node, a: LogLevel, tsA: string, msgA: string,
                        b: LogLevel, tsB: string, msgB: string)
    ensures Log(LogListen(node, b, tsB, msgB).node, a, tsA, msgA).node
         == LogListen(Log(node, a, tsA, msgA).node, b, tsB, msgB).node
  {
  }

  /** The message `RecvTopicCallback` logs for a received payload. */
  function HeardMessage(payload: string): string {
    "I heard: " + CStr(payload)
  }

  /** The message carries no NUL, so storing it as a C string keeps all of it. */
  lemma HeardMessageIsCString(payload: string)
    ensures CStr(HeardMessage(payload)) == HeardMessage(payload)
  {
    var m := HeardMessage(payload);
    assert NUL !in m by {
      forall i | 0 <= i < |m|
        ensures m[i] != NUL
      {
        if i >= 9 {
          assert m[i] == CStr(payload)[i - 9];
        }
      }
    }
    CStrIdentity(m);
  }

  /** The listen-log row a delivery of `payload` at time `ts` produces. */
  function HeardRow(payload: string, ts: string): string {
    FormatRow(Info, ts, HeardMessage(payload))
  }

  /**
   `QNode::RecvTopicCallback`: exactly one Info row on the listen-log, carrying
   the payload up to its first NUL; the self-log is left alone.
   */
  function RecvTopicCallback(node: Node, payload: string, ts: string): (r: Step)
    ensures r.node.loggingModel == node.loggingModel
    ensures |r.node.loggingListen| == |node.loggingListen| + 1
    ensures r.node.loggingListen[..|node.loggingListen|] == node.loggingListen
    ensures NUL !in ts ==>
      r.node.loggingListen[|node.loggingListen|] == Compose("[INFO]", ts, "I heard: " + CStr(payload))
    ensures NUL !in ts && NUL !in payload ==>
      r.node.loggingListen[|node.loggingListen|] == Compose("[INFO]", ts, "I heard: " + payload)
    ensures r.events == [Diagnostic(Info, HeardMessage(payload)), LoggingListen]
  {
    var msg := HeardMessage(payload);
    if NUL !in ts then
      RowShape(Info, ts, msg);
      CStrIdentity(payload);
      LogListen(node, Info, ts, msg)
    else
      LogListen(node, Info, ts, msg)
  }

  /** With NUL-free timestamp and payload, the heard row is "[INFO] [ts]: I heard: " and the whole payload. */
  lemma HeardRowText(payload: string, ts: string)
    requires NUL !in ts && NUL !in payload
    ensures HeardRow(payload, ts) == Compose("[INFO]", ts, "I heard: " + payload)
  {
    CStrIdentity(payload);
    assert NUL !in HeardMessage(payload);
    RowShape(Info, ts, HeardMessage(payload));
  }

  /** A reader of the new listen row recovers the Info level and the payload up to its first NUL. */
  lemma HeardRowReadsBack(payload: string, ts: string)
    requires NUL !in ts && ']' !in ts
    ensures ParseRow(HeardRow(payload, ts)) == Some(RowParts("[INFO]", ts, "I heard: " + CStr(payload)))
    ensures LevelOfTag(ParseRow(HeardRow(payload, ts)).value.tag) == Some(Info)
  {
    var m := HeardMessage(payload);
    ReadRow(Info, ts, m);
    HeardMessageIsCString(payload);
    assert ParseRow(HeardRow(payload, ts)).value.tag == Tag(Info);
  }

  // ---------------------------------------------------------------- init

  /** How `ros::init` is configured: from the command line, or from explicit remappings. */
  datatype InitArgs = CommandLine | Remapped(remappings: map<string, string>)

  /** The middleware calls `init` makes, in order. */
  datatype Effect =
    | RosInit(args: InitArgs, name: string)
    | RosStart
    | Advertise(topic: string, queue: nat)
    | Subscribe(topic: string, queue: nat)
    | StartThread

  datatype InitResult = InitResult(ok: bool, effects: seq<Effect>)

  /** True when the effects go beyond the initial `ros::init` call. */
  predicate Connects(effects: seq<Effect>) {
    exists i :: 0 <= i < |effects| && !effects[i].RosInit?
  }

  /**
   The body both overloads share: initialise, check the master (`masterUp`),
   and only then start, advertise, subscribe and launch the run thread.
   */
  function Connect(args: InitArgs, masterUp: bool): (r: InitResult)
    ensures r.ok == masterUp
    ensures |r.effects| >= 1 && r.effects[0] == RosInit(args, NodeName)
    ensures !r.ok <==> !Connects(r.effects)
    ensures r.ok ==> Advertise(ChatTopic, PublisherQueue) in r.effects
    ensures r.ok ==> Subscribe(ChatTopic, SubscriberQueue) in r.effects
    ensures r.ok ==> r.effects[1] == RosStart && r.effects[|r.effects| - 1] == StartThread
  {
    var initialised := [RosInit(args, NodeName)];
    if !masterUp then InitResult(false, initialised)
    else
      var effects := initialised + [RosStart, Advertise(ChatTopic, PublisherQueue),
                                    Subscribe(ChatTopic, SubscriberQueue), StartThread];
      assert !effects[1].RosInit?;
      InitResult(true, effects)
  }

  /** `QNode::init()`: master located through the command line or environment. */
  function Init(masterUp: bool): (r: InitResult)
    ensures r.ok == masterUp
    ensures !r.ok ==> r.effects == [RosInit(CommandLine, NodeName)]
    ensures r.ok ==> Connects(r.effects) && r.effects[|r.effects| - 1] == StartThread
  {
    Connect(CommandLine, masterUp)
  }

  /** The remappings the two-argument overload installs. */
  function Remappings(masterUrl: string, hostUrl: string): (m: map<string, string>)
    ensures m.Keys == {"__master", "__hostname"}
    ensures m["__master"] == masterUrl && m["__hostname"] == hostUrl
  {
    map["__master" := masterUrl, "__hostname" := hostUrl]
  }

  /** `QNode::init(master_url, host_url)`. */
  function InitWith(masterUrl: string, hostUrl: string, masterUp: bool): (r: InitResult)
    ensures r.ok == masterUp
    ensures !r.ok ==> r.effects == [RosInit(Remapped(Remappings(masterUrl, hostUrl)), NodeName)]
    ensures r.ok ==> Connects(r.effects) && r.effects[|r.effects| - 1] == StartThread
  {
    Connect(Remapped(Remappings(masterUrl, hostUrl)), masterUp)
  }

  /** The overloads differ only in how `ros::init` is configured. */
  lemma InitOverloadsAgree(masterUrl: string, hostUrl: string, masterUp: bool)
    ensures Init(masterUp).ok == InitWith(masterUrl, hostUrl, masterUp).ok
    ensures Init(masterUp).effects[1..] == InitWith(masterUrl, hostUrl, masterUp).effects[1..]
    ensures InitWith(masterUrl, hostUrl, masterUp).effects[0].args.remappings["__master"] == masterUrl
    ensures InitWith(masterUrl, hostUrl, masterUp).effects[0].args.remappings["__hostname"] == hostUrl
  {
  }

}
