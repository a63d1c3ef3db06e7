/**
 Several fee collectors of core/src/fee_collector.rs on one database, with the steps of their cycles
 interleaved in any order and restarts at any moment.
 */
module FeeCollectorRuns {
  import opened Wrappers
  import opened FeeCollector
  import opened FeeCollectorTheorems

  /** Where a node's cycle stands: between two fetches of the replay, or before the latest ledger's. */
  datatype Phase = Idle | Replaying(latest: nat) | Storing(latest: nat)

  datatype Node = Node(cursor: nat, phase: Phase)

  datatype Cluster = Cluster(nodes: seq<Node>, store: Store)

  /** `fees` is None when the fetch or the save failed. */
  datatype Action =
    | Begin(node: nat, latest: Option<nat>, databaseReads: bool)
    | Replay(node: nat, fees: Option<Fees>)
    | StoreLatest(node: nat, fees: Option<Fees>)
    | Restart(node: nat)
    | Reindex(sequence: nat, fees: Option<Fees>)
    | Forget(gone: set<nat>)     // the retention task deletes samples

  function PhaseOf(s: Cluster, node: nat): Phase {
    if node < |s.nodes| then s.nodes[node].phase else Idle
  }

  /** The phase in which ledgers between the cursor and `latest` are still to be replayed, if there are any. */
  function PhaseBefore(cursor: nat, latest: nat): Phase {
    if cursor > 0 && latest > cursor + 1 then Replaying(latest) else Storing(latest)
  }

  function WithNode(s: Cluster, node: nat, cursor: nat, phase: Phase): Cluster
    requires node < |s.nodes|
  {
    s.(nodes := s.nodes[node := Node(cursor, phase)])
  }

  ghost function Begun(s: Cluster, node: nat, latest: nat, databaseReads: bool): Cluster
    requires node < |s.nodes|
  {
    var cursor := LoadedCursor(Collected(s.nodes[node].cursor, s.store), databaseReads);
    WithNode(s, node, cursor, if latest <= cursor then Idle else PhaseBefore(cursor, latest))
  }

  /** Actions that are not possible change nothing, so every action sequence is a run. */
  ghost function Step(s: Cluster, a: Action): Cluster {
    match a
    case Begin(node, latest, databaseReads) =>
      if node < |s.nodes| && s.nodes[node].phase.Idle? && latest.Some?
      then Begun(s, node, latest.value, databaseReads) else s
    case Replay(node, fees) =>
      if !PhaseOf(s, node).Replaying? then s
      else
        var Node(cursor, phase) := s.nodes[node];
        if fees.Some? then
          WithNode(s, node, cursor + 1, PhaseBefore(cursor + 1, phase.latest))
            .(store := s.store[cursor + 1 := fees.value])
        else WithNode(s, node, cursor, Storing(phase.latest))
    case StoreLatest(node, fees) =>
      if !PhaseOf(s, node).Storing? then s
      else
        var Node(cursor, phase) := s.nodes[node];
        if fees.Some? then WithNode(s, node, phase.latest, Idle).(store := s.store[phase.latest := fees.value])
        else WithNode(s, node, cursor, Idle)
    case Restart(node) => if node < |s.nodes| then WithNode(s, node, 0, Idle) else s
    case Reindex(sequence, fees) => if fees.Some? then s.(store := s.store[sequence := fees.value]) else s
    case Forget(gone) => s.(store := s.store - gone)
  }

  ghost function After(s: Cluster, run: seq<Action>): Cluster {
    if run == [] then s else Step(After(s, run[..|run| - 1]), run[|run| - 1])
  }

  // ---- What every step keeps --------------------------------------------------------

  predicate NodeAgrees(n: Node) {
    && (n.phase.Replaying? ==> 0 < n.cursor && n.cursor + 1 < n.phase.latest)
    && (n.phase.Storing? ==> n.cursor < n.phase.latest)
  }

  predicate Inv(s: Cluster) {
    forall i :: 0 <= i < |s.nodes| ==> NodeAgrees(s.nodes[i])
  }

  /** Every cursor is 0 or a stored ledger. */
  predicate CursorsStored(s: Cluster) {
    forall i :: 0 <= i < |s.nodes| ==> s.nodes[i].cursor == 0 || s.nodes[i].cursor in s.store
  }

  predicate NothingForgotten(run: seq<Action>) {
    forall i :: 0 <= i < |run| ==> !run[i].Forget?
  }

  lemma StepKeeps(s: Cluster, a: Action)
    requires Inv(s)
    ensures Inv(Step(s, a)) && |Step(s, a).nodes| == |s.nodes|
    ensures !a.Forget? && CursorsStored(s) ==> CursorsStored(Step(s, a))
    ensures !a.Forget? ==> forall k :: k in s.store ==> k in Step(s, a).store
  {
  }

  /** Whatever is interleaved, without the retention task cursors stay on stored ledgers and none is forgotten. */
  lemma {:induction false} RunKeeps(s: Cluster, run: seq<Action>)
    requires Inv(s)
    ensures Inv(After(s, run)) && |After(s, run).nodes| == |s.nodes|
    ensures NothingForgotten(run) && CursorsStored(s) ==> CursorsStored(After(s, run))
    ensures NothingForgotten(run) ==> forall k :: k in s.store ==> k in After(s, run).store
    decreases |run|
  {
    if run != [] {
      RunKeeps(s, run[..|run| - 1]);
      StepKeeps(After(s, run[..|run| - 1]), run[|run| - 1]);
      assert NothingForgotten(run) ==> NothingForgotten(run[..|run| - 1]);
    }
  }

  // ---- Gaps ---------------------------------------------------------------------------

  /** The ledger that an action stores, if any. */
  function Stores(s: Cluster, a: Action): Option<nat> {
    match a
    case Replay(node, fees) =>
      if PhaseOf(s, node).Replaying? && fees.Some? then Some(s.nodes[node].cursor + 1) else None
    case StoreLatest(node, fees) =>
      if PhaseOf(s, node).Storing? && fees.Some? then Some(PhaseOf(s, node).latest) else None
    case Reindex(sequence, fees) => if fees.Some? then Some(sequence) else None
    case _ => None
  }

  /** No stored ledger that goes lies between two that stay. */
  predicate ForgetsEnds(store: Store, gone: set<nat>) {
    forall k :: k in gone && k in store ==>
      (forall i :: i in store && i < k ==> i in gone) || (forall j :: j in store && j > k ==> j in gone)
  }

  /** A write adjoins what is stored; a deletion takes from the ends. */
  ghost predicate CleanStep(s: Cluster, a: Action) {
    && (Stores(s, a).Some? ==> Adjoins(s.store, Stores(s, a).value))
    && (a.Forget? ==> ForgetsEnds(s.store, a.gone))
  }

  ghost predicate CleanRun(s: Cluster, run: seq<Action>) {
    run != [] ==> CleanRun(s, run[..|run| - 1]) && CleanStep(After(s, run[..|run| - 1]), run[|run| - 1])
  }

  /** A replayed ledger adjoins the one before it, unless that was forgotten, even if other nodes write in between. */
  lemma ReplayIsClean(s: Cluster, node: nat, fees: Option<Fees>)
    requires Inv(s) && CursorsStored(s)
    ensures CleanStep(s, Replay(node, fees))
  {
    if PhaseOf(s, node).Replaying? && fees.Some? {
      assert NodeAgrees(s.nodes[node]);
      assert s.nodes[node].cursor in s.store;
    }
  }

  lemma MinMax(kept: set<nat>) returns (lo: nat, hi: nat)
    requires kept != {}
    ensures lo in kept && hi in kept && forall k :: k in kept ==> lo <= k <= hi
  {
    var x :| x in kept;
    lo, hi := x, x;
    var rest := kept - {x};
    while rest != {}
      invariant rest <= kept && lo in kept && hi in kept
      invariant forall k :: k in kept && k !in rest ==> lo <= k <= hi
      decreases |rest|
    {
      var y :| y in rest;
      rest := rest - {y};
      lo, hi := if y < lo then y else lo, if y > hi then y else hi;
    }
  }

  /** Forgetting leaves no gap exactly when it takes from the ends. */
  lemma ForgetKeepsGaplessIff(store: Store, gone: set<nat>)
    requires Gapless(store)
    ensures Gapless(store - gone) <==> ForgetsEnds(store, gone)
  {
    var rest := store - gone;
    if rest != map[] {
      assert store != map[];
      var lo: nat, hi: nat :| Interval(store, lo, hi);
      if Gapless(rest) {
        var lo': nat, hi': nat :| Interval(rest, lo', hi');
        EndsFromIntervals(store, gone, lo', hi');
      }
      if ForgetsEnds(store, gone) {
        var first, last := MinMax(rest.Keys);
        forall k: nat ensures k in rest <==> first <= k <= last {
          assert first in store && last in store && first !in gone && last !in gone;
          assert first <= k <= last ==> k in store;
        }
        assert Interval(rest, first, last);
      }
    } else {
      assert forall k :: k in store ==> k in gone by {
        forall k | k in store ensures k in gone {
          assert k in gone || k in rest;
        }
      }
    }
  }

  lemma EndsFromIntervals(store: Store, gone: set<nat>, lo: nat, hi: nat)
    requires Interval(store - gone, lo, hi)
    ensures ForgetsEnds(store, gone)
  {
    forall k | k in gone && k in store
      ensures (forall i :: i in store && i < k ==> i in gone) || (forall j :: j in store && j > k ==> j in gone)
    {
      assert k !in store - gone;
      assert forall i :: i in store && i !in gone ==> i in store - gone;
    }
  }

  lemma StepKeepsGaplessIff(s: Cluster, a: Action)
    requires Inv(s) && Gapless(s.store)
    ensures Gapless(Step(s, a).store) <==> CleanStep(s, a)
  {
    if Stores(s, a).Some? {
      AddKeepsGaplessIff(s.store, Stores(s, a).value, a.fees.value);
    } else if a.Forget? {
      ForgetKeepsGaplessIff(s.store, a.gone);
    }
  }

  /** The ledgers have no gap at any point of a run exactly when every step is clean. */
  lemma {:induction false} NoGapsIff(s: Cluster, run: seq<Action>)
    requires Inv(s) && Gapless(s.store)
    ensures (forall n: nat :: n <= |run| ==> Gapless(After(s, run[..n]).store)) <==> CleanRun(s, run)
    decreases |run|
  {
    assert run[..|run|] == run;
    if run != [] {
      var before := run[..|run| - 1];
      NoGapsIff(s, before);
      RunKeeps(s, before);
      assert forall n: nat :: n <= |before| ==> before[..n] == run[..n];
      assert before[..|before|] == before;
      if Gapless(After(s, before).store) {
        StepKeepsGaplessIff(After(s, before), run[|run| - 1]);
      }
    }
  }

  /** Ledger 5 is collected; when 8 is the latest, fetching 6 fails and 8 is stored nevertheless. */
  function GapRun(fees: Fees): seq<Action> {
    [Begin(0, Some(5), true), StoreLatest(0, Some(fees)),
     Begin(0, Some(8), true), Replay(0, None), StoreLatest(0, Some(fees))]
  }

  lemma FailedReplayLeavesAGap(fees: Fees)
    ensures var start := Cluster([Node(0, Idle)], map[]);
            && Inv(start) && Gapless(start.store)
            && After(start, GapRun(fees)) == Cluster([Node(8, Idle)], map[5 := fees, 8 := fees])
            && !Gapless(After(start, GapRun(fees)).store) && !CleanRun(start, GapRun(fees))
  {
    var start, run := Cluster([Node(0, Idle)], map[]), GapRun(fees);
    var r1, r2, r3, r4 := run[..1], run[..2], run[..3], run[..4];
    assert r1[..0] == [] && r2[..1] == r1 && r3[..2] == r2 && r4[..3] == r3 && run[..4] == r4;
    assert After(start, r1) == Cluster([Node(0, Storing(5))], map[]);
    assert After(start, r2) == Cluster([Node(5, Idle)], map[5 := fees]);
    assert After(start, r3) == Cluster([Node(5, Replaying(8))], map[5 := fees]);
    assert After(start, r4) == Cluster([Node(5, Storing(8))], map[5 := fees]);
    NoneBetween(map[5 := fees, 8 := fees]);
    NoGapsIff(start, run);
    assert run[..|run|] == run;
  }

  lemma NoneBetween(store: Store)
    requires 5 in store && 6 !in store && 8 in store
    ensures !Gapless(store)
  {
  }

  /** Between restarts a node's cursor never decreases. */
  lemma {:induction false} CursorNeverDecreases(s: Cluster, run: seq<Action>, node: nat)
    requires Inv(s) && node < |s.nodes|
    requires Action.Restart(node) !in run
    ensures |After(s, run).nodes| == |s.nodes| && After(s, run).nodes[node].cursor >= s.nodes[node].cursor
    decreases |run|
  {
    if run != [] {
      var before := run[..|run| - 1];
      CursorNeverDecreases(s, before, node);
      RunKeeps(s, before);
    }
  }

  // ---- A cycle is a run -----------------------------------------------------------------

  function ReplayActions(node: nat, cursor: nat, latest: nat, w: World): seq<Action>
    decreases latest - cursor
  {
    if latest <= cursor + 1 then []
    else if w.Gets(cursor + 1) then [Replay(node, w.fetch(cursor + 1))] + ReplayActions(node, cursor + 1, latest, w)
    else [Replay(node, None)]
  }

  /** The steps of one cycle in a world. */
  ghost function CycleActions(s: Cluster, node: nat, w: World): seq<Action>
    requires node < |s.nodes|
  {
    var cursor := LoadedCursor(Collected(s.nodes[node].cursor, s.store), w.databaseReads);
    if w.latest.None? || w.latest.value <= cursor then [Begin(node, w.latest, w.databaseReads)]
    else
      [Begin(node, w.latest, w.databaseReads)]
      + ((if cursor > 0 then ReplayActions(node, cursor, w.latest.value, w) else [])
         + [StoreLatest(node, w.Had(w.latest.value))])
  }

  lemma {:induction false} AfterFirst(s: Cluster, a: Action, rest: seq<Action>)
    ensures After(s, [a] + rest) == After(Step(s, a), rest)
    decreases |rest|
  {
    var run := [a] + rest;
    if rest == [] {
      assert run[..|run| - 1] == [];
    } else {
      assert run[..|run| - 1] == [a] + rest[..|rest| - 1];
      AfterFirst(s, a, rest[..|rest| - 1]);
    }
  }

  lemma AfterNone(s: Cluster)
    ensures After(s, []) == s
  {
  }

  lemma {:induction false} ReplayIsCatchUp(s: Cluster, node: nat, latest: nat, w: World, rest: seq<Action>)
    requires node < |s.nodes| && s.nodes[node].cursor > 0 && s.nodes[node].cursor < latest
    requires s.nodes[node].phase == PhaseBefore(s.nodes[node].cursor, latest)
    ensures var t := CatchUp(Collected(s.nodes[node].cursor, s.store), latest, w);
            After(s, ReplayActions(node, s.nodes[node].cursor, latest, w) + rest)
            == After(Cluster(s.nodes[node := Node(t.cursor, Storing(latest))], t.store), rest)
    decreases latest - s.nodes[node].cursor
  {
    var cursor := s.nodes[node].cursor;
    if latest <= cursor + 1 {
      assert [] + rest == rest;
      assert s.nodes[node := Node(cursor, Storing(latest))] == s.nodes;
    } else if w.Gets(cursor + 1) {
      var a := Replay(node, w.fetch(cursor + 1));
      var more := ReplayActions(node, cursor + 1, latest, w);
      var s1 := Step(s, a);
      assert ([a] + more) + rest == [a] + (more + rest);
      AfterFirst(s, a, more + rest);
      ReplayIsCatchUp(s1, node, latest, w, rest);
      var t := CatchUp(Collected(cursor, s.store), latest, w);
      ReplacedTwice(s.nodes, node, s1.nodes[node], Node(t.cursor, Storing(latest)));
    } else {
      AfterFirst(s, Replay(node, None), rest);
    }
  }

  lemma ReplacedTwice(nodes: seq<Node>, node: nat, first: Node, second: Node)
    requires node < |nodes|
    ensures nodes[node := first][node := second] == nodes[node := second]
  {
  }

  /** An undisturbed cycle of the collector's object is a run of these steps. */
  lemma CycleIsARun(s: Cluster, node: nat, w: World)
    requires node < |s.nodes| && s.nodes[node].phase.Idle?
    ensures var t := Cycle(Collected(s.nodes[node].cursor, s.store), w);
            After(s, CycleActions(s, node, w)) == Cluster(s.nodes[node := Node(t.cursor, Idle)], t.store)
  {
    hide CatchUp, ReplayActions, After;
    var begin := Begin(node, w.latest, w.databaseReads);
    var s1 := Step(s, begin);
    var cursor := LoadedCursor(Collected(s.nodes[node].cursor, s.store), w.databaseReads);
    if w.latest.None? || w.latest.value <= cursor {
      AfterFirst(s, begin, []);
      AfterNone(s1);
      assert [begin] + [] == [begin];
      assert s.nodes[node := Node(s.nodes[node].cursor, Idle)] == s.nodes;
    } else {
      var latest := w.latest.value;
      var last := StoreLatest(node, w.Had(latest));
      var replay := if cursor > 0 then ReplayActions(node, cursor, latest, w) else [];
      AfterFirst(s, begin, replay + [last]);
      CycleEnds(s, s1, node, cursor, w);
    }
  }

  lemma CycleEnds(s: Cluster, s1: Cluster, node: nat, cursor: nat, w: World)
    requires node < |s.nodes| && w.latest.Some? && cursor < w.latest.value
    requires s1 == Cluster(s.nodes[node := Node(cursor, PhaseBefore(cursor, w.latest.value))], s.store)
    ensures var latest := w.latest.value;
            var replay := if cursor > 0 then ReplayActions(node, cursor, latest, w) else [];
            var t := if cursor > 0 then CatchUp(Collected(cursor, s.store), latest, w) else Collected(cursor, s.store);
            var u := if w.Gets(latest) then Collected(latest, t.store[latest := w.fetch(latest).value]) else t;
            After(s1, replay + [StoreLatest(node, w.Had(latest))])
                == Cluster(s.nodes[node := Node(u.cursor, Idle)], u.store)
  {
    var latest := w.latest.value;
    var last := StoreLatest(node, w.Had(latest));
    var t := if cursor > 0 then CatchUp(Collected(cursor, s.store), latest, w) else Collected(cursor, s.store);
    var s2 := Cluster(s.nodes[node := Node(t.cursor, Storing(latest))], t.store);
    ReplacedTwice(s.nodes, node, s1.nodes[node], s2.nodes[node]);
    if cursor > 0 {
      ReplayIsCatchUp(s1, node, latest, w, [last]);
    } else {
      assert [] + [last] == [last];
    }
    ReplacedTwice(s.nodes, node, s2.nodes[node], Node(if w.Gets(latest) then latest else t.cursor, Idle));
    AfterFirst(s2, last, []);
    assert [last] + [] == [last];
  }
}
