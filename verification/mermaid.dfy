/** The Mermaid printer and the tree measures of core/src/call_trace_parser.rs. */
module Mermaid {
  import opened CallTrace

  // ---- Measures -----------------------------------------------------------

  function CountNodes(t: CallNode): (n: nat)
    ensures n >= 1
    decreases t, 1
  {
    1 + CountAll(t.children)
  }

  function CountAll(ts: seq<CallNode>): nat
    decreases ts, 0
  {
    if ts == [] then 0 else CountNodes(ts[0]) + CountAll(ts[1..])
  }

  // ---- Lines --------------------------------------------------------------

  datatype Line =
    | NodeLine(id: nat, contractId: string, functionName: string)
    | EdgeLine(from: nat, to: nat)

  /** The lines for a call whose number is `id`. */
  function Lines(t: CallNode, id: nat): seq<Line>
    decreases t, 1
  {
    [NodeLine(id, t.contractId, t.functionName)] + ChildLines(id, t.children, id)
  }

  /** The lines for sub-calls of `parent` when `last` is the last number given out. */
  function ChildLines(parent: nat, ts: seq<CallNode>, last: nat): seq<Line>
    decreases ts, 0
  {
    if ts == [] then []
    else [EdgeLine(parent, last + 1)] + Lines(ts[0], last + 1) + ChildLines(parent, ts[1..], last + CountNodes(ts[0]))
  }

  // ---- Text ---------------------------------------------------------------

  function Digit(d: nat): char
    requires d < 10
  {
    "0123456789"[d]
  }

  function Decimal(n: nat): (s: string)
    ensures s != []
  {
    if n < 10 then [Digit(n)] else Decimal(n / 10) + [Digit(n % 10)]
  }

  function Text(l: Line): string {
    match l
    case NodeLine(id, c, f) => "    n" + Decimal(id) + "[\"" + c + "\\n" + f + "\"]\n"
    case EdgeLine(a, b) => "    n" + Decimal(a) + " --> n" + Decimal(b) + "\n"
  }

  function Render(lines: seq<Line>): string {
    var n := |lines|;
    if n == 0 then "" else Render(lines[..n - 1]) + Text(lines[n - 1])
  }

  function MermaidText(g: CallGraph): string {
    "graph TD\n" + Render(Lines(g.root, 0))
  }

  lemma {:induction false} RenderAppend(a: seq<Line>, b: seq<Line>)
    ensures Render(a + b) == Render(a) + Render(b)
    decreases |b|
  {
    hide Text;
    if b == [] {
      assert a + b == a;
    } else {
      var n := |b|;
      assert (a + b)[..|a + b| - 1] == a + b[..n - 1];
      RenderAppend(a, b[..n - 1]);
    }
  }

  lemma RenderOne(l: Line)
    ensures Render([l]) == Text(l)
  {
    hide Text;
    assert [l][..0] == [];
    assert Render([l]) == Render([]) + Text(l);
  }

  /** Printing an edge and a whole sub-call. */
  lemma RenderChild(done: seq<Line>, edge: Line, child: seq<Line>)
    ensures Render(done + ([edge] + child)) == Render(done) + Text(edge) + Render(child)
  {
    hide Text, Render;
    RenderAppend(done, [edge] + child);
    RenderAppend([edge], child);
    RenderOne(edge);
  }

  // ---- The printer --------------------------------------------------------

  /** The two `&mut` arguments of `append_mermaid_nodes`. */
  class Output {
    var mermaid: string
    var idGen: nat

    constructor ()
      ensures mermaid == "graph TD\n" && idGen == 0
    {
      mermaid, idGen := "graph TD\n", 0;
    }

    method PushLine(l: Line)
      modifies this
      ensures mermaid == old(mermaid) + Text(l) && idGen == old(idGen)
    {
      mermaid := mermaid + Text(l);
    }

    method AppendMermaidNodes(node: CallNode)
      modifies this
      ensures mermaid == old(mermaid) + Render(Lines(node, old(idGen)))
      ensures idGen == old(idGen) + CountNodes(node) - 1
      decreases node
    {
      hide Text, Render, Lines;
      ghost var before := mermaid;
      var currentId := idGen;
      var header := NodeLine(currentId, node.contractId, node.functionName);
      ghost var done := [header];
      RenderOne(header);
      HeaderAndChildren(node, currentId);
      PushLine(header);
      for k := 0 to |node.children|
        invariant mermaid == before + Render(done)
        invariant done + ChildLines(currentId, node.children[k..], idGen) == Lines(node, currentId)
        invariant idGen + CountAll(node.children[k..]) == currentId + CountAll(node.children)
      {
        var child := node.children[k];
        assert node.children[k..][1..] == node.children[k + 1..];
        ghost var rest := ChildLines(currentId, node.children[k..], idGen);
        idGen := idGen + 1;
        var childId := idGen;
        PushLine(EdgeLine(currentId, childId));
        AppendMermaidNodes(child);
        RenderChild(done, EdgeLine(currentId, childId), Lines(child, childId));
        ghost var more := [EdgeLine(currentId, childId)] + Lines(child, childId);
        assert rest == more + ChildLines(currentId, node.children[k + 1..], idGen);
        assert done + rest == done + more + ChildLines(currentId, node.children[k + 1..], idGen);
        done := done + more;
      }
      assert done + [] == done;
    }
  }

  lemma HeaderAndChildren(t: CallNode, id: nat)
    ensures Lines(t, id) == [NodeLine(id, t.contractId, t.functionName)] + ChildLines(id, t.children[0..], id)
  {
    assert t.children[0..] == t.children;
  }

  method ToMermaid(g: CallGraph) returns (text: string)
    ensures text == MermaidText(g)
  {
    var out := new Output();
    out.AppendMermaidNodes(g.root);
    text := out.mermaid;
  }
}
