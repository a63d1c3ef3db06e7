/** The stack parser of core/src/call_trace_parser.rs. */
module CallTrace {
  import opened Wrappers

  datatype CallNode = CallNode(contractId: string, functionName: string, children: seq<CallNode>)

  datatype CallGraph = CallGraph(root: CallNode)

  // ---- Events -------------------------------------------------------------

  datatype Topic = Symbol(text: string) | OtherValue

  /** A diagnostic event after base64 and XDR decoding; the contract id is already in text form. */
  datatype RawEvent =
    | Undecodable
    | Diagnostic(inSuccessfulCall: bool, contractId: Option<string>, topics: seq<Topic>)

  /** What one event means to the parser. */
  datatype Step = Skip | Enter(contractId: string, functionName: string) | Exit

  function Classify(e: RawEvent): Step {
    if e.Undecodable? || !e.inSuccessfulCall || e.topics == [] || !e.topics[0].Symbol? then Skip
    else if e.topics[0].text == "fn_call" && |e.topics| >= 3 then
      Enter(if e.contractId.Some? then e.contractId.value else "Host",
            if e.topics[2].Symbol? then e.topics[2].text else "unknown")
    else if e.topics[0].text == "fn_return" then Exit
    else Skip
  }

  function Steps(events: seq<RawEvent>): (steps: seq<Step>)
    ensures |steps| == |events|
  {
    seq(|events|, i requires 0 <= i < |events| => Classify(events[i]))
  }

  // ---- The stack machine --------------------------------------------------

  /** Open calls, outermost first, and the last top-level call that returned. */
  datatype Machine = Machine(stack: seq<CallNode>, root: Option<CallNode>)

  const START: Machine := Machine([], None)

  function AddChild(parent: CallNode, child: CallNode): CallNode {
    parent.(children := parent.children + [child])
  }

  /** A finished call becomes the last child of its caller, or the root. */
  function Attach(m: Machine, done: CallNode): Machine {
    var n := |m.stack|;
    if n == 0 then Machine([], Some(done))
    else m.(stack := m.stack[..n - 1] + [AddChild(m.stack[n - 1], done)])
  }

  function Feed(m: Machine, s: Step): Machine {
    var n := |m.stack|;
    match s
    case Skip => m
    case Enter(c, f) => m.(stack := m.stack + [CallNode(c, f, [])])
    case Exit => if n == 0 then m else Attach(m.(stack := m.stack[..n - 1]), m.stack[n - 1])
  }

  function FeedAll(m: Machine, steps: seq<Step>): Machine {
    var n := |steps|;
    if n == 0 then m else Feed(FeedAll(m, steps[..n - 1]), steps[n - 1])
  }

  /** Without a completed call the outermost open one is used. */
  function Finish(m: Machine): Option<CallGraph> {
    if m.root.Some? then Some(CallGraph(m.root.value))
    else if m.stack != [] then Some(CallGraph(m.stack[0]))
    else None
  }

  function Parsed(steps: seq<Step>): Option<CallGraph> {
    Finish(FeedAll(START, steps))
  }

  method ParseCallTrace(events: seq<RawEvent>) returns (graph: Option<CallGraph>)
    ensures graph == Parsed(Steps(events))
  {
    var stack: seq<CallNode> := [];
    var root: Option<CallNode> := None;
    for i := 0 to |events|
      invariant Machine(stack, root) == FeedAll(START, Steps(events)[..i])
    {
      assert Steps(events)[..i + 1][..i] == Steps(events)[..i];
      var event := events[i];
      if event.Undecodable? || !event.inSuccessfulCall {
        continue;
      }
      var contractId := if event.contractId.Some? then event.contractId.value else "Host";
      if event.topics == [] || !event.topics[0].Symbol? {
        continue;
      }
      var topic0 := event.topics[0].text;
      if topic0 == "fn_call" && |event.topics| >= 3 {
        var functionName := if event.topics[2].Symbol? then event.topics[2].text else "unknown";
        stack := stack + [CallNode(contractId, functionName, [])];
      } else if topic0 == "fn_return" {
        if stack != [] {
          var finished := stack[|stack| - 1];
          stack := stack[..|stack| - 1];
          if stack != [] {
            stack := stack[..|stack| - 1] + [AddChild(stack[|stack| - 1], finished)];
          } else {
            root := Some(finished);
          }
        }
      }
    }
    assert Steps(events)[..|events|] == Steps(events);
    if root.None? && stack != [] {
      root := Some(stack[0]);
    }
    graph := if root.Some? then Some(CallGraph(root.value)) else None;
  }
}
