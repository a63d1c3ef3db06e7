/** The Mermaid output numbers the calls in preorder and determines the call tree. */
module MermaidTheorems {
  import opened CallTrace
  import CallTraceTheorems
  import opened Mermaid

  // ---- The two kinds of lines ----------------------------------------------

  function NodesIn(lines: seq<Line>): seq<Line> {
    if lines == [] then []
    else (if lines[0].NodeLine? then [lines[0]] else []) + NodesIn(lines[1..])
  }

  function EdgesIn(lines: seq<Line>): seq<Line> {
    if lines == [] then []
    else (if lines[0].EdgeLine? then [lines[0]] else []) + EdgesIn(lines[1..])
  }

  lemma {:induction false} InAppend(a: seq<Line>, b: seq<Line>)
    ensures NodesIn(a + b) == NodesIn(a) + NodesIn(b)
    ensures EdgesIn(a + b) == EdgesIn(a) + EdgesIn(b)
    decreases |a|
  {
    if a == [] {
      assert a + b == b;
    } else {
      var rest := a[1..];
      InAppend(rest, b);
      assert a + b == [a[0]] + (rest + b);
      InCons(a[0], rest + b);
      InCons(a[0], rest);
      assert a == [a[0]] + rest;
    }
  }

  lemma InCons(l: Line, rest: seq<Line>)
    ensures NodesIn([l] + rest) == (if l.NodeLine? then [l] else []) + NodesIn(rest)
    ensures EdgesIn([l] + rest) == (if l.EdgeLine? then [l] else []) + EdgesIn(rest)
  {
    assert ([l] + rest)[1..] == rest;
  }

  /** The node lines of a call: its own, then those of its sub-calls. */
  function Nodes(t: CallNode, id: nat): seq<Line>
    decreases t, 1
  {
    [NodeLine(id, t.contractId, t.functionName)] + ChildNodes(t.children, id)
  }

  function ChildNodes(ts: seq<CallNode>, last: nat): seq<Line>
    decreases ts, 0
  {
    if ts == [] then [] else Nodes(ts[0], last + 1) + ChildNodes(ts[1..], last + CountNodes(ts[0]))
  }

  function Edges(t: CallNode, id: nat): seq<Line>
    decreases t, 1
  {
    ChildEdges(id, t.children, id)
  }

  function ChildEdges(parent: nat, ts: seq<CallNode>, last: nat): seq<Line>
    decreases ts, 0
  {
    if ts == [] then []
    else [EdgeLine(parent, last + 1)] + Edges(ts[0], last + 1) + ChildEdges(parent, ts[1..], last + CountNodes(ts[0]))
  }

  lemma {:induction false} LinesSplit(t: CallNode, id: nat)
    ensures NodesIn(Lines(t, id)) == Nodes(t, id) && EdgesIn(Lines(t, id)) == Edges(t, id)
    decreases t, 1
  {
    var header := NodeLine(id, t.contractId, t.functionName);
    InAppend([header], ChildLines(id, t.children, id));
    assert [header][1..] == [];
    ChildLinesSplit(id, t.children, id);
  }

  lemma {:induction false} ChildLinesSplit(parent: nat, ts: seq<CallNode>, last: nat)
    ensures NodesIn(ChildLines(parent, ts, last)) == ChildNodes(ts, last)
    ensures EdgesIn(ChildLines(parent, ts, last)) == ChildEdges(parent, ts, last)
    decreases ts, 0
  {
    if ts != [] {
      var edge := EdgeLine(parent, last + 1);
      var own := Lines(ts[0], last + 1);
      var rest := ChildLines(parent, ts[1..], last + CountNodes(ts[0]));
      InAppend([edge] + own, rest);
      InAppend([edge], own);
      assert [edge][1..] == [];
      LinesSplit(ts[0], last + 1);
      ChildLinesSplit(parent, ts[1..], last + CountNodes(ts[0]));
    }
  }

  // ---- Numbering ------------------------------------------------------------

  /** Calls in the order in which they were entered. */
  function Preorder(t: CallNode): (ps: seq<CallNode>)
    ensures |ps| == CountNodes(t)
    decreases t, 1
  {
    [t] + PreorderAll(t.children)
  }

  function PreorderAll(ts: seq<CallNode>): (ps: seq<CallNode>)
    ensures |ps| == CountAll(ts)
    decreases ts, 0
  {
    if ts == [] then [] else Preorder(ts[0]) + PreorderAll(ts[1..])
  }

  /** Line `k` of `ns` is the node line of the k-th call, numbered `first + k`. */
  predicate Numbered(ns: seq<Line>, calls: seq<CallNode>, first: nat) {
    && |ns| == |calls|
    && forall k :: 0 <= k < |ns| ==> ns[k] == NodeLine(first + k, calls[k].contractId, calls[k].functionName)
  }

  lemma {:induction false} NodesNumbered(t: CallNode, id: nat)
    ensures Numbered(Nodes(t, id), Preorder(t), id)
    decreases t, 1
  {
    ChildNodesNumbered(t.children, id);
  }

  lemma {:induction false} ChildNodesNumbered(ts: seq<CallNode>, last: nat)
    ensures Numbered(ChildNodes(ts, last), PreorderAll(ts), last + 1)
    decreases ts, 0
  {
    if ts != [] {
      NodesNumbered(ts[0], last + 1);
      ChildNodesNumbered(ts[1..], last + CountNodes(ts[0]));
    }
  }

  /** The k-th edge leads to node `first + k` from a smaller one, not below `least`. */
  predicate EdgesUp(es: seq<Line>, count: nat, first: nat, least: nat) {
    && |es| == count
    && forall k :: 0 <= k < |es| ==> es[k].EdgeLine? && es[k].to == first + k && least <= es[k].from < es[k].to
  }

  lemma {:induction false} EdgesNumbered(t: CallNode, id: nat)
    ensures EdgesUp(Edges(t, id), CountNodes(t) - 1, id + 1, id)
    decreases t, 1
  {
    ChildEdgesNumbered(id, t.children, id);
  }

  lemma {:induction false} ChildEdgesNumbered(parent: nat, ts: seq<CallNode>, last: nat)
    requires parent <= last
    ensures EdgesUp(ChildEdges(parent, ts, last), CountAll(ts), last + 1, parent)
    decreases ts, 0
  {
    if ts != [] {
      EdgesNumbered(ts[0], last + 1);
      ChildEdgesNumbered(parent, ts[1..], last + CountNodes(ts[0]));
    }
  }

  /** Nodes are numbered 0 to n-1 in preorder; there are n-1 edges, the k-th of which leads to
      node k+1 from a smaller node.  Hence every node but 0 has exactly one parent. */
  lemma GraphShape(t: CallNode)
    ensures var lines := Lines(t, 0);
            && Numbered(NodesIn(lines), Preorder(t), 0)
            && EdgesUp(EdgesIn(lines), CountNodes(t) - 1, 1, 0)
    ensures var es := EdgesIn(Lines(t, 0));
            forall k, e :: 0 <= k < |es| && e in es && e.EdgeLine? && e.to == k + 1 ==> e == es[k]
  {
    LinesSplit(t, 0);
    NodesNumbered(t, 0);
    EdgesNumbered(t, 0);
  }

  // ---- The lines determine the tree --------------------------------------------

  /** What follows the edges below `id` starts with an edge from a smaller node. */
  predicate Above(rest: seq<Line>, id: nat) {
    rest != [] ==> rest[0].EdgeLine? && rest[0].from < id
  }

  lemma {:induction false} TreeUnique(a: CallNode, b: CallNode, id: nat, na: seq<Line>, nb: seq<Line>,
      ea: seq<Line>, eb: seq<Line>)
    requires Above(ea, id) && Above(eb, id)
    requires Nodes(a, id) + na == Nodes(b, id) + nb && Edges(a, id) + ea == Edges(b, id) + eb
    ensures a == b && na == nb && ea == eb
    decreases a, 1
  {
    var ha, hb := Nodes(a, id) + na, Nodes(b, id) + nb;
    assert ha[0] == hb[0];
    assert ha[1..] == ChildNodes(a.children, id) + na && hb[1..] == ChildNodes(b.children, id) + nb;
    ForestUnique(a.children, b.children, id, id, na, nb, ea, eb);
  }

  lemma {:induction false} ForestUnique(a: seq<CallNode>, b: seq<CallNode>, parent: nat, last: nat,
                                        na: seq<Line>, nb: seq<Line>, ea: seq<Line>, eb: seq<Line>)
    requires parent <= last && Above(ea, parent) && Above(eb, parent)
    requires ChildNodes(a, last) + na == ChildNodes(b, last) + nb
    requires ChildEdges(parent, a, last) + ea == ChildEdges(parent, b, last) + eb
    ensures a == b && na == nb && ea == eb
    decreases a, 0
  {
    hide Nodes, Edges, ChildNodes, ChildEdges;
    BothEmpty(a, b, parent, last, na, nb, ea, eb);
    if a != [] {
      ForestHeads(a, b, parent, last, na, nb, ea, eb);
      var la, lb := last + CountNodes(a[0]), last + CountNodes(b[0]);
      TreeUnique(a[0], b[0], last + 1, ChildNodes(a[1..], la) + na, ChildNodes(b[1..], lb) + nb,
                 ChildEdges(parent, a[1..], la) + ea, ChildEdges(parent, b[1..], lb) + eb);
      ForestUnique(a[1..], b[1..], parent, la, na, nb, ea, eb);
      assert a == [a[0]] + a[1..] && b == [b[0]] + b[1..];
    }
  }

  /** A forest is empty exactly when no edge from the parent comes next. */
  lemma BothEmpty(a: seq<CallNode>, b: seq<CallNode>, parent: nat, last: nat,
                  na: seq<Line>, nb: seq<Line>, ea: seq<Line>, eb: seq<Line>)
    requires Above(ea, parent) && Above(eb, parent)
    requires ChildNodes(a, last) + na == ChildNodes(b, last) + nb
    requires ChildEdges(parent, a, last) + ea == ChildEdges(parent, b, last) + eb
    ensures a == [] <==> b == []
    ensures a == [] ==> na == nb && ea == eb
  {
    hide Nodes, Edges;
    var xa, xb := ChildEdges(parent, a, last) + ea, ChildEdges(parent, b, last) + eb;
    assert a != [] ==> xa[0] == EdgeLine(parent, last + 1);
    assert b != [] ==> xb[0] == EdgeLine(parent, last + 1);
    if a == [] && b == [] {
      assert ChildNodes(a, last) == [] && ChildNodes(b, last) == [] && [] + na == na && [] + nb == nb;
      assert ChildEdges(parent, a, last) == [] && ChildEdges(parent, b, last) == [] && [] + ea == ea && [] + eb == eb;
    }
  }

  /** The lines of two forests, cut at their first trees. */
  lemma ForestHeads(a: seq<CallNode>, b: seq<CallNode>, parent: nat, last: nat,
                    na: seq<Line>, nb: seq<Line>, ea: seq<Line>, eb: seq<Line>)
    requires a != [] && b != [] && parent <= last && Above(ea, parent) && Above(eb, parent)
    requires ChildNodes(a, last) + na == ChildNodes(b, last) + nb
    requires ChildEdges(parent, a, last) + ea == ChildEdges(parent, b, last) + eb
    ensures var la, lb := last + CountNodes(a[0]), last + CountNodes(b[0]);
            && Nodes(a[0], last + 1) + (ChildNodes(a[1..], la) + na)
                  == Nodes(b[0], last + 1) + (ChildNodes(b[1..], lb) + nb)
            && Edges(a[0], last + 1) + (ChildEdges(parent, a[1..], la) + ea)
               == Edges(b[0], last + 1) + (ChildEdges(parent, b[1..], lb) + eb)
            && Above(ChildEdges(parent, a[1..], la) + ea, last + 1)
            && Above(ChildEdges(parent, b[1..], lb) + eb, last + 1)
  {
    CutFirst(a, parent, last, na, ea);
    CutFirst(b, parent, last, nb, eb);
  }

  lemma CutFirst(a: seq<CallNode>, parent: nat, last: nat, na: seq<Line>, ea: seq<Line>)
    requires a != [] && parent <= last && Above(ea, parent)
    ensures var la := last + CountNodes(a[0]);
            var rest := ChildEdges(parent, a[1..], la) + ea;
            && ChildNodes(a, last) + na == Nodes(a[0], last + 1) + (ChildNodes(a[1..], la) + na)
            && (ChildEdges(parent, a, last) + ea)[1..] == Edges(a[0], last + 1) + rest
            && Above(rest, last + 1)
  {
    hide Nodes, Edges;
    var la := last + CountNodes(a[0]);
    assert ChildNodes(a, last) == Nodes(a[0], last + 1) + ChildNodes(a[1..], la);
    assert ChildEdges(parent, a, last) == [EdgeLine(parent, last + 1)] + Edges(a[0], last + 1)
        + ChildEdges(parent, a[1..], la);
  }

  function AsSet(ls: seq<Line>): set<Line> {
    set l | l in ls
  }

  lemma SameMembers(x: seq<Line>, y: seq<Line>)
    requires AsSet(x) == AsSet(y)
    ensures forall l :: l in x <==> l in y
  {
    assert forall l :: l in x <==> l in AsSet(x);
    assert forall l :: l in y <==> l in AsSet(y);
  }

  /** Numbered lines are already determined as a set. */
  lemma SetDeterminesNodes(a: CallNode, b: CallNode)
    requires AsSet(Nodes(a, 0)) == AsSet(Nodes(b, 0))
    ensures Nodes(a, 0) == Nodes(b, 0)
  {
    var x, y := Nodes(a, 0), Nodes(b, 0);
    NodesNumbered(a, 0);
    NodesNumbered(b, 0);
    SameMembers(x, y);
    assert x[|x| - 1] in y && y[|y| - 1] in x;
    forall k | 0 <= k < |x| ensures x[k] == y[k] {
      assert x[k] in y;
    }
  }

  lemma SetDeterminesEdges(a: CallNode, b: CallNode)
    requires AsSet(Edges(a, 0)) == AsSet(Edges(b, 0))
    ensures Edges(a, 0) == Edges(b, 0)
  {
    var x, y := Edges(a, 0), Edges(b, 0);
    EdgesNumbered(a, 0);
    EdgesNumbered(b, 0);
    SameMembers(x, y);
    assert x != [] ==> x[|x| - 1] in y;
    assert y != [] ==> y[|y| - 1] in x;
    forall k | 0 <= k < |x| ensures x[k] == y[k] {
      assert x[k] in y;
    }
  }

  /** The node lines and the edge lines, in any order, determine the call tree. */
  lemma LinesDetermineTree(a: CallNode, b: CallNode)
    requires AsSet(NodesIn(Lines(a, 0))) == AsSet(NodesIn(Lines(b, 0)))
    requires AsSet(EdgesIn(Lines(a, 0))) == AsSet(EdgesIn(Lines(b, 0)))
    ensures a == b
  {
    LinesSplit(a, 0);
    LinesSplit(b, 0);
    SetDeterminesNodes(a, b);
    SetDeterminesEdges(a, b);
    assert Nodes(a, 0) + [] == Nodes(b, 0) + [] && Edges(a, 0) + [] == Edges(b, 0) + [];
    TreeUnique(a, b, 0, [], [], [], []);
  }

  // ---- The text determines the graph ---------------------------------------------

  /** `s` has none of the characters in `stops`. */
  predicate Without(s: string, stops: set<char>) {
    forall k :: 0 <= k < |s| ==> s[k] !in stops
  }

  /** Texts cut at their first stop character have equal parts. */
  lemma CutAtStop(a: string, b: string, x: string, y: string, stops: set<char>)
    requires Without(a, stops) && Without(b, stops) && a + x == b + y
    requires x != [] && y != [] && x[0] in stops && y[0] in stops
    ensures a == b && x == y
  {
    NotShorter(a, b, x, y, stops);
    NotShorter(b, a, y, x, stops);
    assert a == (a + x)[..|a|] && x == (a + x)[|a|..];
    assert b == (b + y)[..|b|] && y == (b + y)[|b|..];
  }

  lemma NotShorter(a: string, b: string, x: string, y: string, stops: set<char>)
    requires Without(b, stops) && a + x == b + y && x != [] && x[0] in stops
    ensures |a| >= |b|
  {
    assert (a + x)[|a|] == x[0];
    assert forall k :: 0 <= k < |b| ==> (b + y)[k] == b[k];
  }

  const NOT_DIGITS: set<char> := {' ', '[', '\n'}

  lemma {:induction false} DecimalDigits(n: nat)
    ensures Without(Decimal(n), NOT_DIGITS)
  {
    if n >= 10 {
      DecimalDigits(n / 10);
    }
  }

  lemma {:induction false} DecimalInjective(a: nat, b: nat)
    requires Decimal(a) == Decimal(b)
    ensures a == b
  {
    var s, t := Decimal(a), Decimal(b);
    assert s[|s| - 1] == Digit(a % 10) && t[|t| - 1] == Digit(b % 10);
    if a >= 10 && b >= 10 {
      assert s[..|s| - 1] == Decimal(a / 10) && t[..|t| - 1] == Decimal(b / 10);
      DecimalInjective(a / 10, b / 10);
    }
  }

  /** Labels without backslash and line break, as contract addresses and function symbols are. */
  predicate CleanLabel(s: string) {
    Without(s, {'\\', '\n'})
  }

  predicate CleanLine(l: Line) {
    l.NodeLine? ==> CleanLabel(l.contractId) && CleanLabel(l.functionName)
  }

  lemma SamePrefix(p: string, u: string, v: string)
    requires p + u == p + v
    ensures u == v
  {
    assert u == (p + u)[|p|..] && v == (p + v)[|p|..];
  }

  lemma SameSuffix(u: string, v: string, p: string)
    requires u + p == v + p
    ensures u == v
  {
    assert u == (u + p)[..|u|] && v == (v + p)[..|v|];
  }

  /** What stands after the number in a line, followed by `x`. */
  function AfterNumber(l: Line, x: string): string {
    match l
    case NodeLine(_, c, f) => "[\"" + (c + ("\\n" + (f + "\"]" + ("\n" + x))))
    case EdgeLine(_, b) => " --> n" + (Decimal(b) + ("\n" + x))
  }

  function Number(l: Line): nat {
    match l
    case NodeLine(id, _, _) => id
    case EdgeLine(a, _) => a
  }

  lemma TextShape(l: Line, x: string)
    ensures Text(l) + x == "    n" + (Decimal(Number(l)) + AfterNumber(l, x))
  {
    match l
    case NodeLine(id, c, f) =>
      var a, d := "    n", Decimal(id);
      assert Text(l) == a + d + "[\"" + c + "\\n" + f + "\"]\n";
      assert "\"]\n" == "\"]" + "\n";
    case EdgeLine(a, b) =>
      var p, d, e := "    n", Decimal(a), Decimal(b);
      assert Text(l) == p + d + " --> n" + e + "\n";
  }

  lemma SameLabels(c: string, f: string, c': string, f': string, x: string, y: string)
    requires CleanLabel(c) && CleanLabel(f) && CleanLabel(c') && CleanLabel(f')
    requires c + ("\\n" + (f + "\"]" + ("\n" + x))) == c' + ("\\n" + (f' + "\"]" + ("\n" + y)))
    ensures c == c' && f == f' && x == y
  {
    CutAtStop(c, c', "\\n" + (f + "\"]" + ("\n" + x)), "\\n" + (f' + "\"]" + ("\n" + y)), {'\\'});
    SamePrefix("\\n", f + "\"]" + ("\n" + x), f' + "\"]" + ("\n" + y));
    CutAtStop(f + "\"]", f' + "\"]", "\n" + x, "\n" + y, {'\n'});
    SameSuffix(f, f', "\"]");
    SamePrefix("\n", x, y);
  }

  lemma SameTarget(b: nat, b': nat, x: string, y: string)
    requires Decimal(b) + ("\n" + x) == Decimal(b') + ("\n" + y)
    ensures b == b' && x == y
  {
    DecimalDigits(b);
    DecimalDigits(b');
    CutAtStop(Decimal(b), Decimal(b'), "\n" + x, "\n" + y, NOT_DIGITS);
    DecimalInjective(b, b');
    SamePrefix("\n", x, y);
  }

  /** A line can be read off the front of a text in one way only. */
  lemma TextInjective(a: Line, b: Line, x: string, y: string)
    requires CleanLine(a) && CleanLine(b) && Text(a) + x == Text(b) + y
    ensures a == b && x == y
  {
    hide Text, Decimal;
    TextShape(a, x);
    TextShape(b, y);
    var da, db := Decimal(Number(a)), Decimal(Number(b));
    var ra, rb := AfterNumber(a, x), AfterNumber(b, y);
    SamePrefix("    n", da + ra, db + rb);
    DecimalDigits(Number(a));
    DecimalDigits(Number(b));
    assert ra[0] == (if a.NodeLine? then '[' else ' ') && rb[0] == (if b.NodeLine? then '[' else ' ');
    CutAtStop(da, db, ra, rb, NOT_DIGITS);
    DecimalInjective(Number(a), Number(b));
    match a
    case NodeLine(_, c, f) =>
      SamePrefix("[\"", ra[2..], rb[2..]);
      SameLabels(c, f, b.contractId, b.functionName, x, y);
    case EdgeLine(_, t) =>
      SamePrefix(" --> n", ra[6..], rb[6..]);
      SameTarget(t, b.to, x, y);
  }

  lemma RenderEmpty(ls: seq<Line>)
    ensures Render(ls) == "" <==> ls == []
  {
    if ls != [] {
      TextShape(ls[|ls| - 1], "");
    }
  }

  lemma {:induction false} RenderInjective(a: seq<Line>, b: seq<Line>)
    requires Render(a) == Render(b)
    requires (forall l :: l in a ==> CleanLine(l)) && (forall l :: l in b ==> CleanLine(l))
    ensures a == b
    decreases |a|
  {
    hide Text;
    if a == [] || b == [] {
      RenderEmpty(a);
      RenderEmpty(b);
    } else {
      assert a == [a[0]] + a[1..] && b == [b[0]] + b[1..];
      RenderAppend([a[0]], a[1..]);
      RenderAppend([b[0]], b[1..]);
      RenderOne(a[0]);
      RenderOne(b[0]);
      TextInjective(a[0], b[0], Render(a[1..]), Render(b[1..]));
      RenderInjective(a[1..], b[1..]);
    }
  }

  /** Every label in the call tree is clean. */
  predicate CleanTree(t: CallNode) {
    forall k :: 0 <= k < CountNodes(t) ==>
      CleanLabel(Preorder(t)[k].contractId) && CleanLabel(Preorder(t)[k].functionName)
  }

  lemma {:induction false} NodeLinesKept(lines: seq<Line>, l: Line)
    requires l in lines && l.NodeLine?
    ensures l in NodesIn(lines)
  {
    if lines[0] != l {
      NodeLinesKept(lines[1..], l);
    }
  }

  lemma LinesAreClean(t: CallNode)
    requires CleanTree(t)
    ensures forall l :: l in Lines(t, 0) ==> CleanLine(l)
  {
    LinesSplit(t, 0);
    NodesNumbered(t, 0);
    forall l | l in Lines(t, 0) && l.NodeLine? ensures CleanLine(l) {
      NodeLinesKept(Lines(t, 0), l);
    }
  }

  /** Two call graphs with clean labels and the same Mermaid text are the same graph. */
  lemma MermaidDeterminesGraph(g: CallGraph, h: CallGraph)
    requires CleanTree(g.root) && CleanTree(h.root) && MermaidText(g) == MermaidText(h)
    ensures g == h
  {
    hide Render;
    SamePrefix("graph TD\n", Render(Lines(g.root, 0)), Render(Lines(h.root, 0)));
    LinesAreClean(g.root);
    LinesAreClean(h.root);
    RenderInjective(Lines(g.root, 0), Lines(h.root, 0));
    LinesDetermineTree(g.root, h.root);
  }

  // ---- Numbers and lines as text ---------------------------------------------------

  /** The number that a string of digits denotes. */
  function Denotes(s: string): int {
    if s == "" then 0 else 10 * Denotes(s[..|s| - 1]) + (s[|s| - 1] as int - '0' as int)
  }

  /** Ids are printed in decimal, with digits only and without leading zeros. */
  lemma {:induction false} DecimalDenotes(n: nat)
    ensures Denotes(Decimal(n)) == n
    ensures forall k :: 0 <= k < |Decimal(n)| ==> '0' <= Decimal(n)[k] <= '9'
    ensures |Decimal(n)| > 1 ==> Decimal(n)[0] != '0'
    decreases n
  {
    var s := Decimal(n);
    if n < 10 {
      assert s[..0] == "";
    } else {
      DecimalDenotes(n / 10);
      assert s[..|s| - 1] == Decimal(n / 10);
      assert n / 10 >= 10 || |Decimal(n / 10)| == 1;
    }
  }

  /** The text for a call that makes one call. */
  lemma TwoCallText(c: string, f: string, c': string, f': string)
    ensures MermaidText(CallGraph(CallNode(c, f, [CallNode(c', f', [])]))) ==
              "graph TD\n"
              + "    n0[\"" + c + "\\n" + f + "\"]\n"
              + "    n0 --> n1\n"
              + "    n1[\"" + c' + "\\n" + f' + "\"]\n"
  {
    hide Lines, Render, Text, Decimal;
    var lines := [NodeLine(0, c, f), EdgeLine(0, 1), NodeLine(1, c', f')];
    TwoCallLines(c, f, CallNode(c', f', []), 0);
    NoCallLines(c', f', 1);
    assert [NodeLine(0, c, f), EdgeLine(0, 1)] + [NodeLine(1, c', f')] == lines;
    ThreeTexts(lines[0], lines[1], lines[2]);
    TextsOfTwo(c, f, c', f');
  }

  lemma ThreeTexts(x: Line, y: Line, z: Line)
    ensures Render([x, y, z]) == Text(x) + Text(y) + Text(z)
  {
    hide Text;
    RenderOne(x);
    RenderOne(y);
    RenderOne(z);
    assert [x, y] == [x] + [y] && [x, y, z] == [x, y] + [z];
    RenderAppend([x], [y]);
    RenderAppend([x, y], [z]);
  }

  lemma TextsOfTwo(c: string, f: string, c': string, f': string)
    ensures Text(NodeLine(0, c, f)) == "    n0[\"" + c + "\\n" + f + "\"]\n"
    ensures Text(EdgeLine(0, 1)) == "    n0 --> n1\n"
    ensures Text(NodeLine(1, c', f')) == "    n1[\"" + c' + "\\n" + f' + "\"]\n"
  {
    hide Decimal;
    Digits();
    assert "    n" + "0" + "[\"" == "    n0[\"" && "    n" + "1" + "[\"" == "    n1[\"";
    assert "    n" + "0" + " --> n" + "1" + "\n" == "    n0 --> n1\n";
  }

  lemma Digits()
    ensures Decimal(0) == "0" && Decimal(1) == "1"
  {
  }

  lemma NoCallLines(c: string, f: string, id: nat)
    ensures Lines(CallNode(c, f, []), id) == [NodeLine(id, c, f)]
  {
  }

  lemma TwoCallLines(c: string, f: string, inner: CallNode, id: nat)
    ensures Lines(CallNode(c, f, [inner]), id) == [NodeLine(id, c, f), EdgeLine(id, id + 1)] + Lines(inner, id + 1)
  {
    var ts := [inner];
    assert ts[0] == inner && ts[1..] == [];
    assert ChildLines(id, ts, id)
           == [EdgeLine(id, id + 1)] + Lines(inner, id + 1) + ChildLines(id, [], id + CountNodes(inner));
  }

  /** A call counts one more than its sub-calls together, and is one deeper than the deepest of them. */
  lemma MeasuresOfTwo(c: string, f: string, a: CallNode, b: CallNode)
    ensures CountNodes(CallNode(c, f, [])) == 1 && CallTraceTheorems.NodeDepth(CallNode(c, f, [])) == 1
    ensures CountNodes(CallNode(c, f, [a, b])) == 1 + CountNodes(a) + CountNodes(b)
    ensures var d, e := CallTraceTheorems.NodeDepth(a), CallTraceTheorems.NodeDepth(b);
            CallTraceTheorems.NodeDepth(CallNode(c, f, [a, b])) == 1 + (if d > e then d else e)
  {
    var ts := [a, b];
    assert ts[1..] == [b] && [b][1..] == [] && ts[0] == a && [b][0] == b;
    assert CountAll(ts) == CountNodes(a) + CountAll([b]) && CountAll([b]) == CountNodes(b) + CountAll([]);
    assert CallTraceTheorems.DepthOfAll([b]) == CallTraceTheorems.NodeDepth(b);
  }
}
