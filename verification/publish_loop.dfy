/**
 `QNode::run`: the counter-driven publish loop. Each poll of the middleware's
 `ros::ok()` guard is one element of an oracle sequence. An `Up` poll lets one
 tick run: build the payload for the current count, publish it, log
 "I sent: <payload>" to the self-log, let `ros::spinOnce` deliver the poll's
 inbox to the subscriber callback, and increment the count. A `Down` poll ends
 the loop, after which `rosShutdown` is signalled once. A finite oracle with no
 `Down` describes a loop that is still running.
 */
module PublishLoop {
  import opened DecimalText
  import opened CStrings
  import opened LogBuffer
  import opened QNode
  import opened SeqFacts

  /** Largest value of the C++ `int` counter; incrementing past it is undefined. */
  const IntMax: nat := 0x7FFF_FFFF

  const PayloadPrefix: string := "hello world -- "

  /** A message handed to the subscriber callback, with the time of its handling. */
  datatype Delivery = Delivery(payload: string, at: string)

  /**
   One evaluation of the loop guard. `Up` carries what the clock reads when the
   tick logs its message and the messages `ros::spinOnce` delivers in that tick.
   */
  datatype Poll = Down | Up(sentAt: string, inbox: seq<Delivery>)

  /** The payload of the tick whose counter is `count`. */
  function Payload(count: nat): string {
    PayloadPrefix + Decimal(count)
  }

  /** A payload carries the fixed prefix followed by digits that read back as the counter. */
  lemma PayloadReadsBack(count: nat)
    ensures |Payload(count)| > |PayloadPrefix|
    ensures Payload(count)[..|PayloadPrefix|] == PayloadPrefix
    ensures var digits := Payload(count)[|PayloadPrefix|..];
      (forall i :: 0 <= i < |digits| ==> IsDigit(digits[i])) && ParseDecimal(digits) == count
  {
    assert Payload(count)[|PayloadPrefix|..] == Decimal(count);
    ParseDecimalOfDecimal(count);
  }

  /** Ticks with different counters publish different payloads. */
  lemma PayloadsDistinct(a: nat, b: nat)
    ensures Payload(a) == Payload(b) <==> a == b
  {
    if Payload(a) == Payload(b) {
      PayloadReadsBack(a);
      PayloadReadsBack(b);
    }
  }

  function SentMessage(count: nat): string {
    "I sent: " + Payload(count)
  }

  // ------------------------------------------------------------ traces

  /** The payloads a trace publishes, in order. */
  function PublishedPayloads(trace: seq<Event>): seq<string> {
    if |trace| == 0 then []
    else (if trace[0].Published? then [trace[0].payload] else []) + PublishedPayloads(trace[1..])
  }

  /** How many `rosShutdown` signals a trace holds. */
  function Shutdowns(trace: seq<Event>): nat {
    if |trace| == 0 then 0
    else (if trace[0].RosShutdown? then 1 else 0) + Shutdowns(trace[1..])
  }

  /** Events that neither publish nor signal shutdown (log bookkeeping only). */
  predicate Quiet(trace: seq<Event>) {
    forall i :: 0 <= i < |trace| ==> !trace[i].Published? && !trace[i].RosShutdown?
  }

  lemma {:induction false} PublishedConcat(a: seq<Event>, b: seq<Event>)
    ensures PublishedPayloads(a + b) == PublishedPayloads(a) + PublishedPayloads(b)
  {
    if |a| == 0 {
      assert a + b == b;
    } else {
      assert (a + b)[0] == a[0];
      assert (a + b)[1..] == a[1..] + b;
      PublishedConcat(a[1..], b);
      ConcatAssoc(if a[0].Published? then [a[0].payload] else [], PublishedPayloads(a[1..]), PublishedPayloads(b));
    }
  }

  lemma {:induction false} ShutdownsConcat(a: seq<Event>, b: seq<Event>)
    ensures Shutdowns(a + b) == Shutdowns(a) + Shutdowns(b)
  {
    if |a| == 0 {
      assert a + b == b;
    } else {
      assert (a + b)[0] == a[0];
      assert (a + b)[1..] == a[1..] + b;
      ShutdownsConcat(a[1..], b);
    }
  }

  /** Publishing and shutdown counts distribute over concatenated traces. */
  lemma TraceConcat(a: seq<Event>, b: seq<Event>)
    ensures PublishedPayloads(a + b) == PublishedPayloads(a) + PublishedPayloads(b)
    ensures Shutdowns(a + b) == Shutdowns(a) + Shutdowns(b)
  {
    PublishedConcat(a, b);
    ShutdownsConcat(a, b);
  }

  lemma {:induction false} QuietIsSilent(trace: seq<Event>)
    requires Quiet(trace)
    ensures PublishedPayloads(trace) == [] && Shutdowns(trace) == 0
  {
    if |trace| > 0 {
      QuietIsSilent(trace[1..]);
    }
  }

  // ------------------------------------------------------------ spinOnce

  /** The listen-log rows an inbox produces, in delivery order. */
  function InboxRows(inbox: seq<Delivery>): seq<string> {
    if |inbox| == 0 then []
    else [HeardRow(inbox[0].payload, inbox[0].at)] + InboxRows(inbox[1..])
  }

  /** `ros::spinOnce`: the subscriber callback runs once per delivered message, in order. */
  function Deliver(node: Node, inbox: seq<Delivery>): (r: Step)
    ensures r.node.loggingModel == node.loggingModel
    ensures r.node.loggingListen == node.loggingListen + InboxRows(inbox)
    ensures Quiet(r.events)
    ensures |r.events| == 2 * |inbox|
    decreases |inbox|
  {
    if |inbox| == 0 then Step(node, [])
    else
      var first := RecvTopicCallback(node, inbox[0].payload, inbox[0].at);
      var rest := Deliver(first.node, inbox[1..]);
      ConcatAssoc(node.loggingListen, [HeardRow(inbox[0].payload, inbox[0].at)], InboxRows(inbox[1..]));
      Step(rest.node, first.events + rest.events)
  }

  // ------------------------------------------------------------ the loop

  /** Number of consecutive `Up` polls before the first `Down` (or the end of the oracle). */
  function LeadingUps(polls: seq<Poll>): (n: nat)
    ensures n <= |polls|
    ensures forall k :: 0 <= k < n ==> polls[k].Up?
    ensures n < |polls| ==> polls[n].Down?
  {
    if |polls| == 0 || polls[0].Down? then 0 else 1 + LeadingUps(polls[1..])
  }

  /**
   One tick that passed the guard: publish the payload for `count`, log
   "I sent: <payload>" to the self-log, then let `ros::spinOnce` deliver the inbox.
   */
  function Tick(node: Node, count: nat, sentAt: string, inbox: seq<Delivery>): (r: Step)
    ensures r.node.loggingModel == node.loggingModel + [FormatRow(Info, sentAt, SentMessage(count))]
    ensures r.node.loggingListen == node.loggingListen + InboxRows(inbox)
    ensures PublishedPayloads(r.events) == [Payload(count)]
    ensures Shutdowns(r.events) == 0
  {
    var sent := Log(node, Info, sentAt, SentMessage(count));
    var spun := Deliver(sent.node, inbox);
    var events := [Published(Payload(count))] + sent.events + spun.events;
    TraceConcat([Published(Payload(count))] + sent.events, spun.events);
    TraceConcat([Published(Payload(count))], sent.events);
    QuietIsSilent(sent.events);
    QuietIsSilent(spun.events);
    assert PublishedPayloads([Published(Payload(count))]) == [Payload(count)] + PublishedPayloads([]);
    assert Shutdowns([Published(Payload(count))]) == 0 + Shutdowns([]);
    Step(spun.node, events)
  }

  datatype RunResult = RunResult(node: Node, count: nat, trace: seq<Event>, stopped: bool)

  /** The loop from a counter value `count` on, given the remaining guard polls. */
  function RunFrom(polls: seq<Poll>, count: nat, node: Node): (r: RunResult)
    requires count + LeadingUps(polls) <= IntMax
    ensures r.count == count + LeadingUps(polls)
    ensures r.stopped <==> LeadingUps(polls) < |polls|
    decreases |polls|
  {
    if |polls| == 0 then RunResult(node, count, [], false)
    else match polls[0]
      case Down => RunResult(node, count, [RosShutdown], true)
      case Up(sentAt, inbox) =>
        var tick := Tick(node, count, sentAt, inbox);
        var rest := RunFrom(polls[1..], count + 1, tick.node);
        RunResult(rest.node, rest.count, tick.events + rest.trace, rest.stopped)
  }

  /** `RunFrom` unfolded at a poll that holds: the tick, then the rest of the loop. */
  lemma RunFromUp(polls: seq<Poll>, count: nat, node: Node)
    requires count + LeadingUps(polls) <= IntMax && |polls| > 0 && polls[0].Up?
    ensures count + 1 + LeadingUps(polls[1..]) <= IntMax
    ensures var tick := Tick(node, count, polls[0].sentAt, polls[0].inbox);
      var rest := RunFrom(polls[1..], count + 1, tick.node);
      RunFrom(polls, count, node) == RunResult(rest.node, rest.count, tick.events + rest.trace, rest.stopped)
  {
  }

  /** `QNode::run`: the counter starts at zero. */
  function Run(polls: seq<Poll>, node: Node): RunResult
    requires LeadingUps(polls) <= IntMax
  {
    RunFrom(polls, 0, node)
  }

  /** `f` applied to the timestamp and counter value of each tick that runs, in tick order. */
  function MapTicks<T>(polls: seq<Poll>, count: nat, f: (string, nat) -> T): seq<T> {
    if |polls| == 0 || polls[0].Down? then []
    else [f(polls[0].sentAt, count)] + MapTicks(polls[1..], count + 1, f)
  }

  lemma {:induction false} MapTicksAt<T>(polls: seq<Poll>, count: nat, f: (string, nat) -> T)
    ensures |MapTicks(polls, count, f)| == LeadingUps(polls)
    ensures forall k :: 0 <= k < LeadingUps(polls) ==>
      MapTicks(polls, count, f)[k] == f(polls[k].sentAt, count + k)
  {
    if |polls| > 0 && polls[0].Up? {
      var tail := polls[1..];
      MapTicksAt(tail, count + 1, f);
      var head := f(polls[0].sentAt, count);
      var rest := MapTicks(tail, count + 1, f);
      assert MapTicks(polls, count, f) == [head] + rest;
      assert LeadingUps(polls) == 1 + LeadingUps(tail);
      forall k | 0 <= k < LeadingUps(polls)
        ensures MapTicks(polls, count, f)[k] == f(polls[k].sentAt, count + k)
      {
        if k > 0 {
          var j := k - 1;
          assert tail[j] == polls[k];
          assert rest[j] == f(tail[j].sentAt, count + 1 + j);
          ConsIndex(head, rest, k);
        }
      }
    }
  }

  /** The self-log row of the tick with counter `count`, logged at time `ts`. */
  function SentRow(ts: string, count: nat): string {
    FormatRow(Info, ts, SentMessage(count))
  }

  /** The self-log rows of the ticks that run, in tick order, counting from `count`. */
  function SentRows(polls: seq<Poll>, count: nat): seq<string> {
    MapTicks(polls, count, SentRow)
  }

  /** Row k of the ticks' self-log rows is the "I sent" row of tick k, and there is one per tick. */
  lemma SentRowsAt(polls: seq<Poll>, count: nat)
    ensures |SentRows(polls, count)| == LeadingUps(polls)
    ensures forall k :: 0 <= k < LeadingUps(polls) ==>
      SentRows(polls, count)[k] == SentRow(polls[k].sentAt, count + k)
  {
    MapTicksAt(polls, count, SentRow);
  }

  /**
   The payload of the tick with counter `count`. The timestamp parameter `ts` is
   ignored; it is there only so the function fits the shape `MapTicks` expects.
   */
  function TickPayload(ts: string, count: nat): string {
    Payload(count)
  }

  /** The loop publishes the payloads of the ticks that run, in tick order, and nothing else. */
  lemma {:induction false} RunPublishesTicks(polls: seq<Poll>, count: nat, node: Node)
    requires count + LeadingUps(polls) <= IntMax
    ensures PublishedPayloads(RunFrom(polls, count, node).trace) == MapTicks(polls, count, TickPayload)
  {
    if |polls| == 0 {
    } else if polls[0].Down? {
      assert PublishedPayloads([RosShutdown]) == [] + PublishedPayloads([]);
    } else {
      var tick := Tick(node, count, polls[0].sentAt, polls[0].inbox);
      var rest := RunFrom(polls[1..], count + 1, tick.node);
      RunFromUp(polls, count, node);
      TraceConcat(tick.events, rest.trace);
      RunPublishesTicks(polls[1..], count + 1, tick.node);
    }
  }

  /** Tick k publishes exactly the payload for counter `count + k`, one payload per tick. */
  lemma RunPublishes(polls: seq<Poll>, count: nat, node: Node)
    requires count + LeadingUps(polls) <= IntMax
    ensures var out := PublishedPayloads(RunFrom(polls, count, node).trace);
      |out| == LeadingUps(polls) &&
      forall k :: 0 <= k < |out| ==> out[k] == Payload(count + k)
  {
    RunPublishesTicks(polls, count, node);
    MapTicksAt(polls, count, TickPayload);
  }

  /** The self-log grows by exactly the ticks' "I sent" rows, after the rows already there. */
  lemma {:induction false} RunSelfLog(polls: seq<Poll>, count: nat, node: Node)
    requires count + LeadingUps(polls) <= IntMax
    ensures RunFrom(polls, count, node).node.loggingModel == node.loggingModel + SentRows(polls, count)
  {
    if |polls| > 0 && polls[0].Up? {
      var row := SentRow(polls[0].sentAt, count);
      var tick := Tick(node, count, polls[0].sentAt, polls[0].inbox);
      RunFromUp(polls, count, node);
      RunSelfLog(polls[1..], count + 1, tick.node);
      ConcatAssoc(node.loggingModel, [row], SentRows(polls[1..], count + 1));
    }
  }

  /** The listen-log rows produced by the inboxes of the ticks that ran, in order. */
  function HeardDuring(polls: seq<Poll>): seq<string> {
    if |polls| == 0 || polls[0].Down? then []
    else InboxRows(polls[0].inbox) + HeardDuring(polls[1..])
  }

  /** The listen-log grows by the deliveries of the ticks that ran, and by nothing else. */
  lemma {:induction false} RunListenLog(polls: seq<Poll>, count: nat, node: Node)
    requires count + LeadingUps(polls) <= IntMax
    ensures RunFrom(polls, count, node).node.loggingListen == node.loggingListen + HeardDuring(polls)
  {
    if |polls| > 0 && polls[0].Up? {
      var tick := Tick(node, count, polls[0].sentAt, polls[0].inbox);
      RunFromUp(polls, count, node);
      RunListenLog(polls[1..], count + 1, tick.node);
      ConcatAssoc(node.loggingListen, InboxRows(polls[0].inbox), HeardDuring(polls[1..]));
    }
  }

  /**
   `rosShutdown` is signalled exactly once when the guard fails, as the last
   event, and never while the loop is still running.
   */
  lemma {:induction false} RunShutdownOnce(polls: seq<Poll>, count: nat, node: Node)
    requires count + LeadingUps(polls) <= IntMax
    ensures var r := RunFrom(polls, count, node);
      Shutdowns(r.trace) == (if r.stopped then 1 else 0) &&
      (r.stopped ==> r.trace[|r.trace| - 1] == RosShutdown)
  {
    if |polls| == 0 {
    } else if polls[0].Down? {
      assert Shutdowns([RosShutdown]) == 1 + Shutdowns([]);
    } else {
      var tick := Tick(node, count, polls[0].sentAt, polls[0].inbox);
      var rest := RunFrom(polls[1..], count + 1, tick.node);
      RunFromUp(polls, count, node);
      TraceConcat(tick.events, rest.trace);
      RunShutdownOnce(polls[1..], count + 1, tick.node);
      if rest.stopped {
        assert |rest.trace| > 0;
      }
    }
  }

  /**
   The guard is polled before every tick: n polls that hold followed by one
   that fails give n payloads, n self-log rows and one `rosShutdown`.
   */
  lemma RunStops(polls: seq<Poll>, node: Node)
    requires 0 < |polls| && |polls| - 1 <= IntMax && polls[|polls| - 1].Down?
    requires forall k :: 0 <= k < |polls| - 1 ==> polls[k].Up?
    ensures var r := Run(polls, node);
      var n := |polls| - 1;
      r.stopped && r.count == n &&
      |PublishedPayloads(r.trace)| == n &&
      |r.node.loggingModel| == |node.loggingModel| + n &&
      Shutdowns(r.trace) == 1 && r.trace[|r.trace| - 1] == RosShutdown
  {
    assert LeadingUps(polls) == |polls| - 1;
    RunPublishes(polls, 0, node);
    RunSelfLog(polls, 0, node);
    SentRowsAt(polls, 0);
    RunShutdownOnce(polls, 0, node);
  }

  /**
   What the `while` loop keeps: after `count` ticks the loop is at `current`
   with `trace` so far, and finishing it with `RunFrom` gives `whole`.
   */
  predicate LoopState(polls: seq<Poll>, whole: RunResult, count: nat, current: Node, trace: seq<Event>)
    requires LeadingUps(polls) <= IntMax
  {
    count <= LeadingUps(polls) &&
    count + LeadingUps(polls[count..]) == LeadingUps(polls) &&
    var rest := RunFrom(polls[count..], count, current);
    whole == RunResult(rest.node, rest.count, trace + rest.trace, rest.stopped)
  }

  lemma LoopStart(polls: seq<Poll>, node: Node)
    requires LeadingUps(polls) <= IntMax
    ensures LoopState(polls, Run(polls, node), 0, node, [])
  {
    assert polls[0..] == polls;
    assert [] + RunFrom(polls, 0, node).trace == RunFrom(polls, 0, node).trace;
  }

  lemma LoopStep(polls: seq<Poll>, whole: RunResult, count: nat, current: Node, trace: seq<Event>)
    requires LeadingUps(polls) <= IntMax
    requires LoopState(polls, whole, count, current, trace)
    requires count < |polls| && polls[count].Up?
    ensures var tick := Tick(current, count, polls[count].sentAt, polls[count].inbox);
      LoopState(polls, whole, count + 1, tick.node, trace + tick.events)
  {
    var tick := Tick(current, count, polls[count].sentAt, polls[count].inbox);
    var next := RunFrom(polls[count + 1..], count + 1, tick.node);
    assert polls[count..][1..] == polls[count + 1..];
    RunFromUp(polls[count..], count, current);
    ConcatAssoc(trace, tick.events, next.trace);
  }

  lemma LoopStopped(polls: seq<Poll>, whole: RunResult, count: nat, current: Node, trace: seq<Event>)
    requires LeadingUps(polls) <= IntMax
    requires LoopState(polls, whole, count, current, trace)
    requires count < |polls| && polls[count].Down?
    ensures whole == RunResult(current, count, trace + [RosShutdown], true)
  {
    var tail := polls[count..];
    assert tail[0] == polls[count];
    assert RunFrom(tail, count, current) == RunResult(current, count, [RosShutdown], true);
  }

  lemma LoopExhausted(polls: seq<Poll>, whole: RunResult, count: nat, current: Node, trace: seq<Event>)
    requires LeadingUps(polls) <= IntMax
    requires LoopState(polls, whole, count, current, trace)
    requires count == |polls|
    ensures whole == RunResult(current, count, trace, false)
  {
    assert polls[count..] == [];
    assert trace + [] == trace;
  }

  /**
   The loop written as the source writes it: a `while` over the guard. It
   produces the same buffers, counter, trace and stop flag as `Run`.
   */
  method RunLoop(polls: seq<Poll>, node: Node) returns (r: RunResult)
    requires LeadingUps(polls) <= IntMax
    ensures r == Run(polls, node)
  {
    var current := node;
    var count: nat := 0;
    var trace: seq<Event> := [];
    LoopStart(polls, node);
    while count < |polls| && polls[count].Up?
      invariant LoopState(polls, Run(polls, node), count, current, trace)
      decreases |polls| - count
    {
      var tick := Tick(current, count, polls[count].sentAt, polls[count].inbox);
      LoopStep(polls, Run(polls, node), count, current, trace);
      trace := trace + tick.events;
      current := tick.node;
      count := count + 1;
    }
    if count < |polls| {
      LoopStopped(polls, Run(polls, node), count, current, trace);
      trace := trace + [RosShutdown];
      r := RunResult(current, count, trace, true);
    } else {
      LoopExhausted(polls, Run(polls, node), count, current, trace);
      r := RunResult(current, count, trace, false);
    }
  }

  /** Payload text never contains a NUL, so a subscriber sees all of it. */
  lemma PayloadHasNoNul(count: nat)
    ensures NUL !in Payload(count)
  {
    var p := Payload(count);
    forall i | 0 <= i < |p|
      ensures p[i] != NUL
    {
      if i >= |PayloadPrefix| {
        assert p[i] == Decimal(count)[i - |PayloadPrefix|];
      }
    }
  }

  /** With a NUL-free timestamp, tick k's self-log row reads "[INFO] [ts]: I sent: hello world -- k". */
  lemma SentRowText(count: nat, ts: string)
    requires NUL !in ts
    ensures FormatRow(Info, ts, SentMessage(count)) == Compose("[INFO]", ts, "I sent: " + Payload(count))
  {
    PayloadHasNoNul(count);
    assert NUL !in SentMessage(count) by {
      assert SentMessage(count) == "I sent: " + Payload(count);
    }
    RowShape(Info, ts, SentMessage(count));
  }

  /**
   One tick whose guard holds, then one that fails: the tick's "I sent" row, the
   rows of its inbox, its one payload, and `rosShutdown` last.
   */
  lemma OneTickThenStop(ts: string, inbox: seq<Delivery>, node: Node)
    ensures var r := Run([Up(ts, inbox), Down], node);
      r.node.loggingModel == node.loggingModel + [SentRow(ts, 0)] &&
      r.node.loggingListen == node.loggingListen + InboxRows(inbox) &&
      PublishedPayloads(r.trace) == [Payload(0)] &&
      Shutdowns(r.trace) == 1 && r.trace[|r.trace| - 1] == RosShutdown
  {
    var polls := [Up(ts, inbox), Down];
    assert polls[1..] == [Down];
    var tick := Tick(node, 0, ts, inbox);
    RunFromUp(polls, 0, node);
    assert RunFrom([Down], 1, tick.node) == RunResult(tick.node, 1, [RosShutdown], true);
    TraceConcat(tick.events, [RosShutdown]);
    assert PublishedPayloads([RosShutdown]) == [] + PublishedPayloads([]);
    assert Shutdowns([RosShutdown]) == 1 + Shutdowns([]);
  }

  lemma PayloadZero()
    ensures Payload(0) == "hello world -- 0"
  {
    assert Decimal(0) == "0";
  }

  /**
   One tick that publishes "hello world -- 0" and hears it back, then a failed
   guard: one "I sent" row, one "I heard" row, one payload, one `rosShutdown`.
   */
  lemma EchoScenario(ts0: string, ts1: string)
    requires NUL !in ts0 && NUL !in ts1
    ensures Payload(0) == "hello world -- 0"
    ensures var r := Run([Up(ts0, [Delivery(Payload(0), ts1)]), Down], Fresh);
      r.node.loggingModel == [Compose("[INFO]", ts0, "I sent: " + Payload(0))] &&
      r.node.loggingListen == [Compose("[INFO]", ts1, "I heard: " + Payload(0))] &&
      PublishedPayloads(r.trace) == [Payload(0)] &&
      Shutdowns(r.trace) == 1 && r.trace[|r.trace| - 1] == RosShutdown
  {
    PayloadZero();
    var p := Payload(0);
    var inbox := [Delivery(p, ts1)];
    OneTickThenStop(ts0, inbox, Fresh);
    PayloadHasNoNul(0);
    HeardRowText(p, ts1);
    SentRowText(0, ts0);
    assert InboxRows(inbox) == [HeardRow(p, ts1)] + InboxRows([]);
    assert [] + [SentRow(ts0, 0)] == [SentRow(ts0, 0)];
    assert [] + InboxRows(inbox) == InboxRows(inbox);
  }

}
