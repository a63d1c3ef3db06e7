/** Emitting and parsing call traces are inverse to each other. */
module CallTraceTheorems {
  import opened Wrappers
  import opened CallTrace

  // ---- Emission -----------------------------------------------------------

  /** The steps that a host running this call produces, up to its return. */
  function EmitFrame(t: CallNode): (steps: seq<Step>)
    ensures |steps| >= 1 && Skip !in steps
    decreases t, 1
  {
    [Enter(t.contractId, t.functionName)] + EmitAll(t.children)
  }

  function EmitAll(ts: seq<CallNode>): (steps: seq<Step>)
    ensures Skip !in steps
    decreases ts, 0
  {
    if ts == [] then [] else EmitFrame(ts[0]) + [Exit] + EmitAll(ts[1..])
  }

  /** The steps of a whole call. */
  function Emit(t: CallNode): (steps: seq<Step>)
    ensures |steps| >= 2 && Skip !in steps
  {
    EmitFrame(t) + [Exit]
  }

  /** The steps of calls that have not returned yet, outermost first. */
  function EmitOpen(stack: seq<CallNode>): seq<Step> {
    var n := |stack|;
    if n == 0 then [] else EmitOpen(stack[..n - 1]) + EmitFrame(stack[n - 1])
  }

  /** What happens at top level: a whole call, or a return without a call. */
  datatype Item = Whole(call: CallNode) | StrayReturn

  function EmitItem(i: Item): seq<Step> {
    match i
    case Whole(t) => Emit(t)
    case StrayReturn => [Exit]
  }

  function EmitItems(items: seq<Item>): seq<Step> {
    var n := |items|;
    if n == 0 then [] else EmitItems(items[..n - 1]) + EmitItem(items[n - 1])
  }

  function LastWhole(items: seq<Item>): Option<CallNode> {
    var n := |items|;
    if n == 0 then None
    else if items[n - 1].Whole? then Some(items[n - 1].call)
    else LastWhole(items[..n - 1])
  }

  // ---- Feeding ------------------------------------------------------------

  lemma {:induction false} FeedAppend(m: Machine, a: seq<Step>, b: seq<Step>)
    ensures FeedAll(m, a + b) == FeedAll(FeedAll(m, a), b)
    decreases |b|
  {
    if b == [] {
      assert a + b == a;
    } else {
      var n := |b|;
      assert (a + b)[..|a + b| - 1] == a + b[..n - 1];
      FeedAppend(m, a, b[..n - 1]);
    }
  }

  lemma FeedOne(m: Machine, s: Step)
    ensures FeedAll(m, [s]) == Feed(m, s)
  {
    assert FeedAll(m, [s][..0]) == m;
  }

  function AddChildren(parent: CallNode, more: seq<CallNode>): CallNode {
    parent.(children := parent.children + more)
  }

  function Push(m: Machine, t: CallNode): Machine {
    m.(stack := m.stack + [t])
  }

  /** The innermost open call has made `more` further sub-calls. */
  function Grow(m: Machine, more: seq<CallNode>): Machine
    requires m.stack != []
  {
    var n := |m.stack|;
    m.(stack := m.stack[..n - 1] + [AddChildren(m.stack[n - 1], more)])
  }

  lemma GrowStep(m: Machine, t: CallNode, more: seq<CallNode>)
    requires m.stack != []
    ensures Attach(m, t).stack != [] && Grow(Attach(m, t), more) == Grow(m, [t] + more)
    ensures Grow(m, []) == m
  {
    var n := |m.stack|;
    assert m.stack[n - 1].children + [t] + more == m.stack[n - 1].children + ([t] + more);
    assert m.stack[n - 1].children + [] == m.stack[n - 1].children;
    assert m.stack[..n - 1] + [m.stack[n - 1]] == m.stack;
  }

  lemma PopPush(m: Machine, t: CallNode)
    ensures Feed(Push(m, t), Exit) == Attach(m, t)
  {
    assert Push(m, t).stack[..|m.stack|] == m.stack;
  }

  /** Feeding whole calls to an open caller appends them to its children. */
  lemma {:induction false} FeedForest(m: Machine, ts: seq<CallNode>)
    requires m.stack != []
    ensures FeedAll(m, EmitAll(ts)) == Grow(m, ts)
    decreases ts, 0
  {
    if ts == [] {
      GrowStep(m, CallNode("", "", []), []);
    } else {
      hide FeedAll, Grow, Attach;
      FeedAppend(m, Emit(ts[0]), EmitAll(ts[1..]));
      FeedAppend(m, EmitFrame(ts[0]), [Exit]);
      FeedFrame(m, ts[0]);
      FeedOne(Push(m, ts[0]), Exit);
      PopPush(m, ts[0]);
      GrowStep(m, ts[0], ts[1..]);
      FeedForest(Attach(m, ts[0]), ts[1..]);
      assert [ts[0]] + ts[1..] == ts;
    }
  }

  lemma {:induction false} FeedFrame(m: Machine, t: CallNode)
    ensures FeedAll(m, EmitFrame(t)) == Push(m, t)
    decreases t, 1
  {
    var enter := Enter(t.contractId, t.functionName);
    var blank := CallNode(t.contractId, t.functionName, []);
    FeedAppend(m, [enter], EmitAll(t.children));
    FeedOne(m, enter);
    FeedForest(Push(m, blank), t.children);
    assert [] + t.children == t.children;
    assert Push(m, blank).stack[..|m.stack|] == m.stack;
  }

  lemma FeedTree(m: Machine, t: CallNode)
    ensures FeedAll(m, Emit(t)) == Attach(m, t)
  {
    FeedAppend(m, EmitFrame(t), [Exit]);
    FeedFrame(m, t);
    FeedOne(Push(m, t), Exit);
    PopPush(m, t);
  }

  function PushAll(m: Machine, stack: seq<CallNode>): Machine {
    m.(stack := m.stack + stack)
  }

  lemma {:induction false} FeedOpen(m: Machine, stack: seq<CallNode>)
    ensures FeedAll(m, EmitOpen(stack)) == PushAll(m, stack)
    decreases |stack|
  {
    if stack == [] {
      assert m.stack + [] == m.stack;
    } else {
      var n := |stack|;
      FeedOpenStep(m, stack[..n - 1], stack[n - 1]);
      assert stack == stack[..n - 1] + [stack[n - 1]];
      FeedOpen(m, stack[..n - 1]);
      assert m.stack + stack[..n - 1] + [stack[n - 1]] == m.stack + stack;
    }
  }

  lemma FeedOpenStep(m: Machine, lower: seq<CallNode>, top: CallNode)
    ensures FeedAll(m, EmitOpen(lower + [top])) == Push(FeedAll(m, EmitOpen(lower)), top)
  {
    assert (lower + [top])[..|lower|] == lower;
    hide FeedAll, EmitFrame;
    FeedAppend(m, EmitOpen(lower), EmitFrame(top));
    FeedFrame(FeedAll(m, EmitOpen(lower)), top);
  }

  lemma {:induction false} FeedItems(items: seq<Item>)
    ensures FeedAll(START, EmitItems(items)) == Machine([], LastWhole(items))
    decreases |items|
  {
    var n := |items|;
    if n > 0 {
      var before := Machine([], LastWhole(items[..n - 1]));
      FeedItems(items[..n - 1]);
      FeedAppend(START, EmitItems(items[..n - 1]), EmitItem(items[n - 1]));
      match items[n - 1]
      case Whole(t) => FeedTree(before, t);
      case StrayReturn => FeedOne(before, Exit);
    }
  }

  // ---- Parser state and input determine each other ---------------------------

  /** Whatever the parser ends in comes back when its account of the input is fed to it. */
  lemma AccountIsFedBack(items: seq<Item>, stack: seq<CallNode>)
    ensures FeedAll(START, EmitItems(items) + EmitOpen(stack)) == Machine(stack, LastWhole(items))
  {
    FeedAppend(START, EmitItems(items), EmitOpen(stack));
    FeedItems(items);
    FeedOpen(Machine([], LastWhole(items)), stack);
    assert [] + stack == stack;
  }

  /** The top-level items that an input completes. */
  function ItemsOf(steps: seq<Step>): seq<Item> {
    var n := |steps|;
    if n == 0 then []
    else
      var before := FeedAll(START, steps[..n - 1]).stack;
      ItemsOf(steps[..n - 1])
      + if !steps[n - 1].Exit? then []
        else if before == [] then [StrayReturn]
        else if |before| == 1 then [Whole(before[0])]
        else []
  }

  function Significant(steps: seq<Step>): seq<Step> {
    var n := |steps|;
    if n == 0 then []
    else Significant(steps[..n - 1]) + if steps[n - 1].Skip? then [] else [steps[n - 1]]
  }

  lemma {:induction false} EmitAllAppend(a: seq<CallNode>, b: seq<CallNode>)
    ensures EmitAll(a + b) == EmitAll(a) + EmitAll(b)
    decreases |a|
  {
    if a == [] {
      assert a + b == b;
    } else {
      assert (a + b)[0] == a[0] && (a + b)[1..] == a[1..] + b;
      EmitAllAppend(a[1..], b);
    }
  }

  lemma FrameWithChild(parent: CallNode, child: CallNode)
    ensures EmitFrame(AddChild(parent, child)) == EmitFrame(parent) + Emit(child)
  {
    EmitAllAppend(parent.children, [child]);
    assert [child][1..] == [] && EmitAll([child]) == Emit(child) + EmitAll([]);
  }

  /** A return closes the innermost open call. */
  lemma ExitCloses(m: Machine)
    requires |m.stack| >= 2
    ensures EmitOpen(m.stack) + [Exit] == EmitOpen(Feed(m, Exit).stack)
  {
    var n := |m.stack|;
    var outer, caller, top := m.stack[..n - 2], m.stack[n - 2], m.stack[n - 1];
    var after := outer + [AddChild(caller, top)];
    assert m.stack[..n - 1][..n - 2] == outer && after[..n - 2] == outer;
    assert EmitOpen(m.stack) == EmitOpen(m.stack[..n - 1]) + EmitFrame(top);
    assert EmitOpen(m.stack[..n - 1]) == EmitOpen(outer) + EmitFrame(caller);
    assert EmitOpen(after) == EmitOpen(outer) + EmitFrame(AddChild(caller, top));
    FrameWithChild(caller, top);
    assert Feed(m, Exit).stack == after;
  }

  lemma {:induction false} EmitItemsSnoc(items: seq<Item>, last: Item)
    ensures EmitItems(items + [last]) == EmitItems(items) + EmitItem(last)
    ensures LastWhole(items + [last]) == if last.Whole? then Some(last.call) else LastWhole(items)
  {
    assert (items + [last])[..|items|] == items;
  }

  ghost predicate Accounted(steps: seq<Step>) {
    && Significant(steps) == EmitItems(ItemsOf(steps)) + EmitOpen(FeedAll(START, steps).stack)
    && FeedAll(START, steps).root == LastWhole(ItemsOf(steps))
  }

  lemma StrayIsAccounted(m: Machine, items: seq<Item>)
    requires m == Machine([], LastWhole(items))
    ensures EmitItems(items) + EmitOpen(m.stack) + [Exit]
              == EmitItems(items + [StrayReturn]) + EmitOpen(Feed(m, Exit).stack)
    ensures Feed(m, Exit).root == LastWhole(items + [StrayReturn])
  {
    EmitItemsSnoc(items, StrayReturn);
  }

  lemma WholeIsAccounted(m: Machine, items: seq<Item>)
    requires |m.stack| == 1
    ensures EmitItems(items) + EmitOpen(m.stack) + [Exit]
              == EmitItems(items + [Whole(m.stack[0])]) + EmitOpen(Feed(m, Exit).stack)
    ensures Feed(m, Exit).root == LastWhole(items + [Whole(m.stack[0])])
  {
    var t := m.stack[0];
    EmitItemsSnoc(items, Whole(t));
    assert m.stack[..0] == [];
    assert EmitOpen(m.stack) == EmitOpen([]) + EmitFrame(t) == EmitFrame(t);
  }

  lemma ExitIsAccounted(before: seq<Step>)
    requires Accounted(before)
    ensures Accounted(before + [Exit])
  {
    var steps := before + [Exit];
    var m := FeedAll(START, before);
    var items := ItemsOf(before);
    assert steps[..|steps| - 1] == before;
    assert FeedAll(START, steps) == Feed(m, Exit) && Significant(steps) == Significant(before) + [Exit];
    assert ItemsOf(steps) ==
           items + (if m.stack == [] then [StrayReturn] else if |m.stack| == 1 then [Whole(m.stack[0])] else []);
    hide FeedAll, Feed, Significant, ItemsOf, EmitOpen, EmitItems, LastWhole;
    if m.stack == [] {
      StrayIsAccounted(m, items);
    } else if |m.stack| == 1 {
      WholeIsAccounted(m, items);
    } else {
      ExitKeepsRoot(m);
      ExitCloses(m);
      assert items + [] == items;
    }
  }

  lemma ExitKeepsRoot(m: Machine)
    requires |m.stack| >= 2
    ensures Feed(m, Exit).root == m.root
  {
  }

  lemma EnterIsAccounted(before: seq<Step>, c: string, f: string)
    requires Accounted(before)
    ensures Accounted(before + [Enter(c, f)])
  {
    var steps := before + [Enter(c, f)];
    var m := FeedAll(START, before);
    assert steps[..|steps| - 1] == before && ItemsOf(before) + [] == ItemsOf(before);
    var top := CallNode(c, f, []);
    assert (m.stack + [top])[..|m.stack|] == m.stack;
    assert EmitOpen(m.stack + [top]) == EmitOpen(m.stack) + EmitFrame(top);
    assert EmitFrame(top) == [Enter(c, f)];
  }

  /** Every input is, up to skipped events, the completed items followed by the calls still open. */
  lemma {:induction false} InputIsAccounted(steps: seq<Step>)
    ensures Accounted(steps)
    decreases |steps|
  {
    var n := |steps|;
    if n > 0 {
      var before := steps[..n - 1];
      InputIsAccounted(before);
      assert steps == before + [steps[n - 1]];
      match steps[n - 1]
      case Skip => assert ItemsOf(before) + [] == ItemsOf(before);
      case Enter(c, f) => EnterIsAccounted(before, c, f);
      case Exit => ExitIsAccounted(before);
    }
  }

  // ---- Consequences ---------------------------------------------------------

  /** Skipped events change nothing, wherever they are. */
  lemma NoiseIsIgnored(steps: seq<Step>, other: seq<Step>)
    requires Significant(steps) == Significant(other)
    ensures FeedAll(START, steps) == FeedAll(START, other)
  {
    InputIsAccounted(steps);
    InputIsAccounted(other);
    AccountIsFedBack(ItemsOf(steps), FeedAll(START, steps).stack);
    AccountIsFedBack(ItemsOf(other), FeedAll(START, other).stack);
  }

  lemma {:induction false} SignificantOfClean(steps: seq<Step>)
    requires Skip !in steps
    ensures Significant(steps) == steps
  {
    var n := |steps|;
    if n > 0 {
      SignificantOfClean(steps[..n - 1]);
      assert steps == steps[..n - 1] + [steps[n - 1]];
    }
  }

  /** Parsing the steps of a call, with any noise between them, gives that call back. */
  lemma RoundTrip(t: CallNode, steps: seq<Step>)
    requires Significant(steps) == Emit(t)
    ensures Parsed(steps) == Some(CallGraph(t))
  {
    SignificantOfClean(Emit(t));
    NoiseIsIgnored(steps, Emit(t));
    FeedTree(START, t);
  }

  /** A diagnostic event that says this step. */
  function EventOf(s: Step): (e: RawEvent)
    ensures Classify(e) == s
  {
    match s
    case Skip => Undecodable
    case Enter(c, f) =>
      Diagnostic(true, if c == "Host" then None else Some(c), [Symbol("fn_call"), Symbol(c), Symbol(f)])
    case Exit => Diagnostic(true, None, [Symbol("fn_return")])
  }

  /** From a call to its diagnostic events and back. */
  lemma EventRoundTrip(t: CallNode)
    ensures Parsed(Steps(seq(|Emit(t)|, i requires 0 <= i < |Emit(t)| => EventOf(Emit(t)[i])))) == Some(CallGraph(t))
  {
    var steps := Steps(seq(|Emit(t)|, i requires 0 <= i < |Emit(t)| => EventOf(Emit(t)[i])));
    assert steps == Emit(t);
    SignificantOfClean(steps);
    RoundTrip(t, steps);
  }

  /** The result for an arbitrary input: the last call that returned at top level, else the outermost open call. */
  lemma ResultOfAnyInput(steps: seq<Step>, items: seq<Item>, open: seq<CallNode>)
    requires Significant(steps) == EmitItems(items) + EmitOpen(open)
    ensures Parsed(steps) == if LastWhole(items).Some? then Some(CallGraph(LastWhole(items).value))
                             else if open != [] then Some(CallGraph(open[0])) else None
  {
    InputIsAccounted(steps);
    AccountIsFedBack(ItemsOf(steps), FeedAll(START, steps).stack);
    AccountIsFedBack(items, open);
  }

  predicate Enters(steps: seq<Step>) {
    exists i :: 0 <= i < |steps| && steps[i].Enter?
  }

  lemma EntersLast(steps: seq<Step>)
    requires steps != []
    ensures Enters(steps) <==> Enters(steps[..|steps| - 1]) || steps[|steps| - 1].Enter?
  {
    var n := |steps|;
    if Enters(steps[..n - 1]) {
      var i :| 0 <= i < n - 1 && steps[..n - 1][i].Enter?;
      assert steps[i].Enter?;
    }
    if Enters(steps) && !steps[n - 1].Enter? {
      var i :| 0 <= i < n && steps[i].Enter?;
      assert steps[..n - 1][i].Enter?;
    }
  }

  /** There is a graph exactly when some call was entered, whether or not any call returned. */
  lemma {:induction false} GraphIff(steps: seq<Step>)
    ensures Parsed(steps).Some? <==> Enters(steps)
    decreases |steps|
  {
    var n := |steps|;
    if n > 0 {
      GraphIff(steps[..n - 1]);
      EntersLast(steps);
    }
  }

  /** A call/return pair is complete: at some step a call that is open returns. */
  predicate SomeCallReturns(steps: seq<Step>) {
    exists k :: 0 <= k < |steps| && steps[k].Exit? && FeedAll(START, steps[..k]).stack != []
  }

  lemma {:induction false} OpenUntilOneReturns(steps: seq<Step>)
    requires !SomeCallReturns(steps)
    ensures FeedAll(START, steps).stack != [] <==> Enters(steps)
    decreases |steps|
  {
    var n := |steps|;
    if n > 0 {
      var before := steps[..n - 1];
      forall k | 0 <= k < n - 1 ensures !(before[k].Exit? && FeedAll(START, before[..k]).stack != []) {
        assert before[..k] == steps[..k];
      }
      OpenUntilOneReturns(before);
      EntersLast(steps);
    }
  }

  /** Some return comes after some call. */
  predicate ExitAfterEnter(steps: seq<Step>) {
    exists j :: 0 <= j < |steps| && steps[j].Exit? && Enters(steps[..j])
  }

  lemma PairIff(steps: seq<Step>)
    ensures SomeCallReturns(steps) <==> ExitAfterEnter(steps)
  {
    if SomeCallReturns(steps) {
      var k :| 0 <= k < |steps| && steps[k].Exit? && FeedAll(START, steps[..k]).stack != [];
      GraphIff(steps[..k]);
    }
    if ExitAfterEnter(steps) {
      var j :| 0 <= j < |steps| && steps[j].Exit? && Enters(steps[..j]);
      if SomeCallReturns(steps[..j]) {
        var k :| 0 <= k < j && steps[..j][k].Exit? && FeedAll(START, steps[..j][..k]).stack != [];
        assert steps[..j][..k] == steps[..k];
      } else {
        OpenUntilOneReturns(steps[..j]);
      }
    }
  }

  /** "A graph only if a complete pair is found" holds of a trace exactly when no call is entered, or a return
      follows one. */
  lemma PairPromiseIff(steps: seq<Step>)
    ensures (Parsed(steps).Some? ==> SomeCallReturns(steps)) <==> (!Enters(steps) || ExitAfterEnter(steps))
  {
    GraphIff(steps);
    PairIff(steps);
  }

  /** It fails of every trace that is cut off after its first event. */
  lemma OpenCallGivesGraph(c: string, f: string)
    ensures Parsed([Enter(c, f)]) == Some(CallGraph(CallNode(c, f, []))) && !SomeCallReturns([Enter(c, f)])
  {
    var t := CallNode(c, f, []);
    assert Emit(t)[..1] == [Enter(c, f)];
    TruncatedTrace(t, 1);
  }

  // ---- Truncated traces -----------------------------------------------------

  /** How many of the calls are complete within the first `k` steps. */
  function Completed(ts: seq<CallNode>, k: nat): (c: nat)
    ensures c <= |ts|
  {
    if ts == [] || k < |Emit(ts[0])| then 0 else 1 + Completed(ts[1..], k - |Emit(ts[0])|)
  }

  lemma EmitPrefix(t: CallNode, k: nat)
    requires 0 < k < |Emit(t)|
    ensures k - 1 <= |EmitAll(t.children)|
    ensures Emit(t)[..k] == [Enter(t.contractId, t.functionName)] + EmitAll(t.children)[..k - 1]
  {
  }

  /** A started but unfinished call leaves everything below it on the stack alone. */
  lemma {:induction false} PrefixOfTree(m: Machine, t: CallNode, k: nat)
    requires k < |Emit(t)|
    ensures var r := FeedAll(m, Emit(t)[..k]);
            r.root == m.root && m.stack <= r.stack
    ensures k > 0 ==> Push(m, CallNode(t.contractId, t.functionName, t.children[..Completed(t.children, k - 1)])).stack
                      <= FeedAll(m, Emit(t)[..k]).stack
    decreases t, 1
  {
    if k > 0 {
      hide FeedAll, Emit, EmitAll, Completed;
      var enter := Enter(t.contractId, t.functionName);
      var blank := CallNode(t.contractId, t.functionName, []);
      EmitPrefix(t, k);
      FeedAppend(m, [enter], EmitAll(t.children)[..k - 1]);
      FeedOne(m, enter);
      PrefixOfForest(Push(m, blank), t.children, k - 1);
      var c := Completed(t.children, k - 1);
      assert [] + t.children[..c] == t.children[..c];
      assert Push(m, blank).stack[..|m.stack|] == m.stack;
    } else {
      assert Emit(t)[..0] == [];
    }
  }

  /** An unfinished run of sub-calls: the caller has exactly the completed ones. */
  lemma {:induction false} PrefixOfForest(m: Machine, ts: seq<CallNode>, k: nat)
    requires m.stack != [] && k <= |EmitAll(ts)|
    ensures var r := FeedAll(m, EmitAll(ts)[..k]);
            r.root == m.root && Grow(m, ts[..Completed(ts, k)]).stack <= r.stack
    decreases ts, 0
  {
    if ts == [] {
      GrowStep(m, CallNode("", "", []), []);
      assert EmitAll(ts)[..k] == [];
    } else if k < |Emit(ts[0])| {
      PrefixInFirst(ts, k);
      hide FeedAll, Grow, EmitAll, Emit, Completed;
      GrowStep(m, ts[0], []);
      PrefixOfTree(m, ts[0], k);
    } else {
      PrefixSplit(ts, k);
      hide FeedAll, Grow, Attach, EmitAll, Emit, Completed;
      var e := |Emit(ts[0])|;
      FeedAppend(m, Emit(ts[0]), EmitAll(ts[1..])[..k - e]);
      FeedTree(m, ts[0]);
      GrowStep(m, ts[0], ts[1..][..Completed(ts[1..], k - e)]);
      PrefixOfForest(Attach(m, ts[0]), ts[1..], k - e);
    }
  }

  /** A prefix that ends inside the first call completes none. */
  lemma PrefixInFirst(ts: seq<CallNode>, k: nat)
    requires ts != [] && k < |Emit(ts[0])|
    ensures k <= |EmitAll(ts)| && EmitAll(ts)[..k] == Emit(ts[0])[..k] && ts[..Completed(ts, k)] == []
  {
  }

  /** Beyond the first call, a prefix goes on into the other calls. */
  lemma PrefixSplit(ts: seq<CallNode>, k: nat)
    requires ts != [] && |Emit(ts[0])| <= k <= |EmitAll(ts)|
    ensures var e := |Emit(ts[0])|;
            && k - e <= |EmitAll(ts[1..])|
            && EmitAll(ts)[..k] == Emit(ts[0]) + EmitAll(ts[1..])[..k - e]
            && ts[..Completed(ts, k)] == [ts[0]] + ts[1..][..Completed(ts[1..], k - e)]
  {
  }

  /** A trace cut off anywhere yields the outermost call with exactly its completed direct sub-calls. */
  lemma TruncatedTrace(t: CallNode, k: nat)
    requires 0 < k < |Emit(t)|
    ensures Parsed(Emit(t)[..k])
            == Some(CallGraph(CallNode(t.contractId, t.functionName, t.children[..Completed(t.children, k - 1)])))
  {
    PrefixOfTree(START, t, k);
    var outermost := CallNode(t.contractId, t.functionName, t.children[..Completed(t.children, k - 1)]);
    assert Push(START, outermost).stack[0] == outermost;
  }

  // ---- Depth ------------------------------------------------------------------

  function Larger(a: nat, b: nat): nat {
    if a > b then a else b
  }

  /** Nesting depth, 1 for a call without sub-calls. */
  function NodeDepth(t: CallNode): nat
    decreases t, 1
  {
    1 + DepthOfAll(t.children)
  }

  function DepthOfAll(ts: seq<CallNode>): nat
    decreases ts, 0
  {
    if ts == [] then 0 else Larger(NodeDepth(ts[0]), DepthOfAll(ts[1..]))
  }

  /** The largest number of open calls while `steps` are fed. */
  function PeakHeight(m: Machine, steps: seq<Step>): nat {
    var n := |steps|;
    if n == 0 then |m.stack| else Larger(PeakHeight(m, steps[..n - 1]), |FeedAll(m, steps).stack|)
  }

  lemma {:induction false} PeakAppend(m: Machine, a: seq<Step>, b: seq<Step>)
    ensures PeakHeight(m, a + b) == Larger(PeakHeight(m, a), PeakHeight(FeedAll(m, a), b))
    decreases |b|
  {
    if b == [] {
      assert a + b == a;
      PeakAtLeastEnd(m, a);
    } else {
      var n := |b|;
      assert (a + b)[..|a + b| - 1] == a + b[..n - 1];
      PeakAppend(m, a, b[..n - 1]);
      FeedAppend(m, a, b);
    }
  }

  lemma PeakAtLeastEnd(m: Machine, a: seq<Step>)
    ensures PeakHeight(m, a) >= |FeedAll(m, a).stack|
  {
  }

  lemma PeakOne(m: Machine, s: Step)
    ensures PeakHeight(m, [s]) == Larger(|m.stack|, |Feed(m, s).stack|)
  {
    assert [s][..0] == [];
    FeedOne(m, s);
  }

  lemma {:induction false} PeakOfFrame(m: Machine, t: CallNode)
    ensures PeakHeight(m, EmitFrame(t)) == |m.stack| + NodeDepth(t)
    decreases t, 1
  {
    hide FeedAll, PeakHeight;
    var enter := Enter(t.contractId, t.functionName);
    PeakAppend(m, [enter], EmitAll(t.children));
    PeakOne(m, enter);
    FeedOne(m, enter);
    PeakOfForest(Feed(m, enter), t.children);
  }

  lemma {:induction false} PeakOfForest(m: Machine, ts: seq<CallNode>)
    requires m.stack != []
    ensures PeakHeight(m, EmitAll(ts)) == |m.stack| + DepthOfAll(ts)
    decreases ts, 0
  {
    if ts != [] {
      hide FeedAll, PeakHeight, EmitFrame;
      var t := ts[0];
      PeakAppend(m, Emit(t), EmitAll(ts[1..]));
      PeakOfTree(m, t, |m.stack| + NodeDepth(t)) by { PeakOfFrame(m, t); }
      FeedTree(m, t);
      PeakOfForest(Attach(m, t), ts[1..]);
    }
  }

  lemma PeakOfTree(m: Machine, t: CallNode, peak: nat)
    requires PeakHeight(m, EmitFrame(t)) == peak == |m.stack| + NodeDepth(t)
    ensures PeakHeight(m, Emit(t)) == peak
  {
    hide FeedAll, PeakHeight;
    PeakAppend(m, EmitFrame(t), [Exit]);
    FeedFrame(m, t);
    PeakOne(Push(m, t), Exit);
    PopPush(m, t);
  }

  /** `max_depth` is the largest number of calls open at once in the trace of the graph. */
  lemma DepthIsPeak(t: CallNode)
    ensures PeakHeight(START, Emit(t)) == NodeDepth(t)
  {
    PeakOfFrame(START, t);
    PeakOfTree(START, t, NodeDepth(t));
  }
}
