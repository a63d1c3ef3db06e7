/** The semaphore-bounded dispatcher of core/src/task_queue.rs, under every interleaving of its callers. */
module TaskQueue {
  import opened Numbers

  datatype Priority = Normal | Low

  /** Where one `dispatch` call stands. */
  datatype Phase =
    | Waiting    // Normal, no permit yet
    | Granted    // Normal, holds a permit, not resumed yet
    | Running    // spawned, holds a permit
    | Finished
    | Evicted    // Low, dropped and counted
    | Refused    // Normal, dropped because the semaphore is closed
    | Abandoned  // the caller gave up waiting

  datatype Call = Call(priority: Priority, phase: Phase)

  datatype Pool = Pool(capacity: nat, closed: bool, free: nat, waiters: seq<nat>, calls: map<nat, Call>, dropped: nat)

  function NewPool(capacity: nat): Pool {
    Pool(capacity, false, capacity, [], map[], 0)
  }

  function SetPhase(calls: map<nat, Call>, id: nat, phase: Phase): map<nat, Call>
    requires id in calls
  {
    calls[id := calls[id].(phase := phase)]
  }

  /** A returned permit goes to the longest-waiting caller, if there is one. */
  function GiveBack(p: Pool): Pool {
    if p.waiters != [] && p.waiters[0] in p.calls then
      p.(calls := SetPhase(p.calls, p.waiters[0], Granted), waiters := p.waiters[1..])
    else p.(free := p.free + 1)
  }

  datatype Action =
    | Dispatch(id: nat, priority: Priority)
    | Resume(id: nat)
    | Finish(id: nat)
    | Abandon(id: nat)
    | Close

  function Remove(s: seq<nat>, x: nat): seq<nat> {
    if s == [] then [] else if s[0] == x then Remove(s[1..], x) else [s[0]] + Remove(s[1..], x)
  }

  /** A `dispatch` call up to its first wait. */
  function Dispatched(p: Pool, id: nat, priority: Priority): Pool {
    if priority.Low? then
      if p.closed || p.free == 0 then
        p.(calls := p.calls[id := Call(Low, Evicted)], dropped := (p.dropped + 1) % U64)
      else p.(calls := p.calls[id := Call(Low, Running)], free := p.free - 1)
    else if p.closed then p.(calls := p.calls[id := Call(Normal, Refused)])
    else if p.free > 0 then p.(calls := p.calls[id := Call(Normal, Running)], free := p.free - 1)
    else p.(calls := p.calls[id := Call(Normal, Waiting)], waiters := p.waiters + [id])
  }

  function Closed(p: Pool): Pool {
    p.(closed := true, waiters := [],
       calls := map id | id in p.calls ::
         if p.calls[id].phase.Waiting? then p.calls[id].(phase := Refused) else p.calls[id])
  }

  /** Actions that are not possible change nothing, so every action sequence is a run. */
  function Step(p: Pool, a: Action): Pool {
    match a
    case Dispatch(id, priority) => if id in p.calls then p else Dispatched(p, id, priority)
    case Resume(id) =>
      if id in p.calls && p.calls[id].phase.Granted? then p.(calls := SetPhase(p.calls, id, Running)) else p
    case Finish(id) =>
      if id in p.calls && p.calls[id].phase.Running? then GiveBack(p.(calls := SetPhase(p.calls, id, Finished))) else p
    case Abandon(id) =>
      if id !in p.calls then p
      else if p.calls[id].phase.Waiting? then
        p.(calls := SetPhase(p.calls, id, Abandoned), waiters := Remove(p.waiters, id))
      else if p.calls[id].phase.Granted? then GiveBack(p.(calls := SetPhase(p.calls, id, Abandoned)))
      else p
    case Close => Closed(p)
  }

  function After(p: Pool, run: seq<Action>): Pool {
    var n := |run|;
    if n == 0 then p else Step(After(p, run[..n - 1]), run[n - 1])
  }

  // ---- Conservation ---------------------------------------------------------

  /** The calls that hold a permit. */
  function Holders(p: Pool): set<nat> {
    set id | id in p.calls && (p.calls[id].phase.Granted? || p.calls[id].phase.Running?)
  }

  function Evictions(p: Pool): set<nat> {
    set id | id in p.calls && p.calls[id].phase.Evicted?
  }

  ghost predicate Distinct(s: seq<nat>) {
    forall i, j :: 0 <= i < j < |s| ==> s[i] != s[j]
  }

  ghost predicate Waits(p: Pool) {
    && Distinct(p.waiters)
    && (forall id :: id in p.waiters <==> id in p.calls && p.calls[id].phase.Waiting?)
    && (p.waiters != [] ==> p.free == 0 && !p.closed)
  }

  /** Which priority may stand in which phase. */
  ghost predicate Phased(p: Pool) {
    && (forall id :: id in p.calls && p.calls[id].phase.Evicted? ==> p.calls[id].priority.Low?)
    && (forall id :: id in p.calls && p.calls[id].phase.Refused? ==> p.closed && p.calls[id].priority.Normal?)
    && (forall id :: id in p.calls && (p.calls[id].phase.Waiting? || p.calls[id].phase.Granted?) ==>
          p.calls[id].priority.Normal?)
  }

  ghost predicate Counted(p: Pool) {
    p.free + |Holders(p)| == p.capacity && p.dropped == |Evictions(p)| % U64
  }

  ghost predicate Inv(p: Pool) {
    Waits(p) && Phased(p) && Counted(p)
  }

  lemma {:induction false} RemoveKeeps(s: seq<nat>, x: nat)
    ensures forall y :: y in Remove(s, x) <==> y in s && y != x
    ensures Distinct(s) ==> Distinct(Remove(s, x))
  {
    if s != [] {
      RemoveKeeps(s[1..], x);
      assert forall y :: y in s <==> y == s[0] || y in s[1..];
      assert Distinct(s) ==> Distinct(s[1..]);
      assert Distinct(s) ==> s[0] !in s[1..];
    }
  }

  predicate Holding(phase: Phase) {
    phase.Granted? || phase.Running?
  }

  /** One call changes phase, or appears: the holders and evictions gain or lose at most that call. */
  lemma PhaseChange(p: Pool, q: Pool, id: nat)
    requires id in q.calls && q.calls.Keys == p.calls.Keys + {id}
    requires forall i :: i in p.calls && i != id ==> q.calls[i] == p.calls[i]
    ensures |Holders(q)| == |Holders(p)| + (if Holding(q.calls[id].phase) then 1 else 0)
                                         - (if id in p.calls && Holding(p.calls[id].phase) then 1 else 0)
    ensures |Evictions(q)| == |Evictions(p)| + (if q.calls[id].phase.Evicted? then 1 else 0)
                                             - (if id in p.calls && p.calls[id].phase.Evicted? then 1 else 0)
  {
    OneDiffers(Holders(p), Holders(q), id);
    OneDiffers(Evictions(p), Evictions(q), id);
  }

  lemma OneDiffers(a: set<nat>, b: set<nat>, id: nat)
    requires forall i :: i != id ==> (i in a <==> i in b)
    ensures |b| == |a| + (if id in b then 1 else 0) - (if id in a then 1 else 0)
  {
    assert b - {id} == a - {id};
    assert id in a ==> a == (a - {id}) + {id};
    assert id in b ==> b == (b - {id}) + {id};
  }

  lemma DispatchForms(p: Pool, id: nat, priority: Priority)
    requires Waits(p) && Phased(p) && id !in p.calls
    ensures Waits(Dispatched(p, id, priority)) && Phased(Dispatched(p, id, priority))
  {
    assert id !in p.waiters;
  }

  lemma DispatchCounts(p: Pool, id: nat, priority: Priority)
    requires Counted(p) && id !in p.calls
    ensures Counted(Dispatched(p, id, priority))
  {
    PhaseChange(p, Dispatched(p, id, priority), id);
  }

  lemma DispatchKeeps(p: Pool, id: nat, priority: Priority)
    requires Inv(p) && id !in p.calls
    ensures Inv(Dispatched(p, id, priority))
  {
    DispatchForms(p, id, priority);
    DispatchCounts(p, id, priority);
  }

  /** A permit given back restores the count. */
  lemma GiveBackKeeps(p: Pool)
    requires Waits(p) && Phased(p) && p.free + |Holders(p)| + 1 == p.capacity && p.dropped == |Evictions(p)| % U64
    ensures Inv(GiveBack(p))
  {
    var q := GiveBack(p);
    if p.waiters != [] {
      var head := p.waiters[0];
      assert head in p.waiters;
      assert Waits(q) && Phased(q) by {
        assert forall x :: x in p.waiters <==> x == head || x in p.waiters[1..];
      }
      PhaseChange(p, q, head);
    } else {
      assert Holders(q) == Holders(p) && Evictions(q) == Evictions(p);
    }
  }

  lemma EndKeeps(p: Pool, id: nat, phase: Phase)
    requires Inv(p) && id in p.calls && Holding(p.calls[id].phase) && (phase.Finished? || phase.Abandoned?)
    ensures Inv(GiveBack(p.(calls := SetPhase(p.calls, id, phase))))
  {
    var q := p.(calls := SetPhase(p.calls, id, phase));
    PhaseChange(p, q, id);
    assert Waits(q) && Phased(q);
    GiveBackKeeps(q);
  }

  lemma CloseKeeps(p: Pool)
    requires Inv(p)
    ensures Inv(Closed(p))
  {
    assert Holders(Closed(p)) == Holders(p) && Evictions(Closed(p)) == Evictions(p);
  }

  lemma ResumeKeeps(p: Pool, id: nat)
    requires Inv(p) && id in p.calls && p.calls[id].phase.Granted?
    ensures Inv(p.(calls := SetPhase(p.calls, id, Running)))
  {
    var q := p.(calls := SetPhase(p.calls, id, Running));
    PhaseChange(p, q, id);
  }

  lemma AbandonKeeps(p: Pool, id: nat)
    requires Inv(p) && id in p.calls && p.calls[id].phase.Waiting?
    ensures Inv(p.(calls := SetPhase(p.calls, id, Abandoned), waiters := Remove(p.waiters, id)))
  {
    var q := p.(calls := SetPhase(p.calls, id, Abandoned), waiters := Remove(p.waiters, id));
    RemoveKeeps(p.waiters, id);
    PhaseChange(p, q, id);
  }

  lemma StepKeeps(p: Pool, a: Action)
    requires Inv(p)
    ensures Inv(Step(p, a))
  {
    hide Inv, Dispatched, GiveBack, Closed, Remove;
    match a
    case Dispatch(id, priority) => if id !in p.calls { DispatchKeeps(p, id, priority); }
    case Resume(id) => if id in p.calls && p.calls[id].phase.Granted? { ResumeKeeps(p, id); }
    case Finish(id) => if id in p.calls && p.calls[id].phase.Running? { EndKeeps(p, id, Finished); }
    case Abandon(id) =>
      if id in p.calls && p.calls[id].phase.Waiting? {
        AbandonKeeps(p, id);
      } else if id in p.calls && p.calls[id].phase.Granted? {
        EndKeeps(p, id, Abandoned);
      }
    case Close => CloseKeeps(p);
  }

  lemma {:induction false} RunKeeps(capacity: nat, run: seq<Action>)
    ensures Inv(After(NewPool(capacity), run)) && After(NewPool(capacity), run).capacity == capacity
    decreases |run|
  {
    var n := |run|;
    if n == 0 {
      assert Holders(NewPool(capacity)) == {} && Evictions(NewPool(capacity)) == {};
    } else {
      RunKeeps(capacity, run[..n - 1]);
      StepKeeps(After(NewPool(capacity), run[..n - 1]), run[n - 1]);
    }
  }

  /** Free permits plus permit holders is the capacity; the counter counts the evicted Low tasks, modulo 2^64;
      a Normal task is dropped only by closing; no one waits while a permit is free. */
  lemma Conservation(capacity: nat, run: seq<Action>)
    ensures var p := After(NewPool(capacity), run);
            && p.free + |Holders(p)| == capacity
            && p.dropped == |Evictions(p)| % U64
            && (p.free > 0 ==> forall id :: id in p.calls ==> !p.calls[id].phase.Waiting?)
            && (!p.closed ==> forall id :: id in p.calls && p.calls[id].priority.Normal? ==>
                  !p.calls[id].phase.Evicted? && !p.calls[id].phase.Refused?)
  {
    RunKeeps(capacity, run);
  }

  /** While the semaphore is open, a Low task is dropped exactly when `capacity` tasks hold permits. */
  lemma LowDroppedIffSaturated(capacity: nat, run: seq<Action>, id: nat)
    requires var p := After(NewPool(capacity), run); !p.closed && id !in p.calls
    ensures var p := After(NewPool(capacity), run);
            var q := Step(p, Dispatch(id, Low));
            && (q.calls[id].phase.Evicted? <==> |Holders(p)| == capacity)
            && (!q.calls[id].phase.Evicted? <==> q.calls[id].phase.Running?)
            && q.dropped == (if |Holders(p)| == capacity then (p.dropped + 1) % U64 else p.dropped)
  {
    RunKeeps(capacity, run);
  }

  // ---- What one step does -------------------------------------------------------

  /** A task that ends hands its permit to the caller that has waited longest, who then runs. */
  lemma WaitersAreServedInOrder(p: Pool, done: nat, first: nat, rest: seq<nat>)
    requires done in p.calls && p.calls[done].phase.Running? && p.waiters == [first] + rest
    requires first in p.calls && p.calls[first].phase.Waiting?
    ensures var q := Step(p, Finish(done));
            && q.waiters == rest && q.free == p.free && q.dropped == p.dropped
            && q.calls == p.calls[done := p.calls[done].(phase := Finished)][first := p.calls[first].(phase := Granted)]
            && Step(q, Resume(first)) == q.(calls := q.calls[first := p.calls[first].(phase := Running)])
  {
  }

  /** With nobody waiting the permit is free again. */
  lemma PermitComesBack(p: Pool, done: nat)
    requires done in p.calls && p.calls[done].phase.Running? && p.waiters == []
    ensures Step(p, Finish(done)) ==
              p.(calls := p.calls[done := p.calls[done].(phase := Finished)], free := p.free + 1)
  {
  }

  /** A new Normal task runs at once on a free permit, queues behind all others without one, is refused when closed. */
  lemma NormalIsDispatched(p: Pool, id: nat)
    requires id !in p.calls
    ensures var q := Step(p, Dispatch(id, Normal));
            if p.closed then q == p.(calls := p.calls[id := Call(Normal, Refused)])
            else if p.free == 0 then q == p.(calls := p.calls[id := Call(Normal, Waiting)], waiters := p.waiters + [id])
            else q == p.(calls := p.calls[id := Call(Normal, Running)], free := p.free - 1)
  {
  }

  /** Closing refuses everyone who waits, and nobody else. */
  lemma ClosingRefuses(p: Pool, id: nat)
    requires id in p.calls
    ensures var q := Step(p, Close);
            && q.closed && q.waiters == [] && q.free == p.free && q.dropped == p.dropped && q.calls.Keys == p.calls.Keys
            && q.calls[id] == (if p.calls[id].phase.Waiting? then p.calls[id].(phase := Refused) else p.calls[id])
  {
  }

  /** A caller that gives up leaves the queue, or passes on the permit it was just granted. */
  lemma GivingUp(p: Pool, before: seq<nat>, id: nat, behind: seq<nat>)
    requires id in p.calls && id !in before && id !in behind
    ensures p.calls[id].phase.Waiting? && p.waiters == before + [id] + behind ==>
              Step(p, Abandon(id)) ==
                p.(calls := p.calls[id := p.calls[id].(phase := Abandoned)], waiters := before + behind)
    ensures p.calls[id].phase.Granted? && p.waiters == [] ==>
              Step(p, Abandon(id)) == p.(calls := p.calls[id := p.calls[id].(phase := Abandoned)], free := p.free + 1)
  {
    RemoveOnly(before, id, behind);
  }

  lemma {:induction false} RemoveOnly(before: seq<nat>, id: nat, behind: seq<nat>)
    requires id !in before && id !in behind
    ensures Remove(before + [id] + behind, id) == before + behind
    decreases |before|
  {
    var list := before + [id] + behind;
    if before == [] {
      assert list[1..] == behind && before + behind == behind;
      RemoveNone(behind, id);
    } else {
      assert list[1..] == before[1..] + [id] + behind;
      RemoveOnly(before[1..], id, behind);
      assert before + behind == [before[0]] + (before[1..] + behind);
    }
  }

  lemma {:induction false} RemoveNone(list: seq<nat>, id: nat)
    requires id !in list
    ensures Remove(list, id) == list
    decreases |list|
  {
    if list != [] {
      RemoveNone(list[1..], id);
    }
  }

  lemma AfterNext(p: Pool, run: seq<Action>, a: Action)
    ensures After(p, run + [a]) == Step(After(p, run), a)
  {
    assert (run + [a])[..|run|] == run;
  }

  /** One permit: the second task waits, a Low one is dropped and counted, and the permit passes on to the second. */
  lemma OnePermit()
    ensures var run := [Dispatch(1, Normal), Dispatch(2, Normal), Dispatch(3, Low), Finish(1), Resume(2), Finish(2)];
            After(NewPool(1), run) ==
              Pool(1, false, 1, [],
                   map[1 := Call(Normal, Finished), 2 := Call(Normal, Finished), 3 := Call(Low, Evicted)], 1)
  {
    var p0 := Pool(1, false, 1, [], map[], 0);
    var r1 := [Dispatch(1, Normal)];
    var r2 := r1 + [Dispatch(2, Normal)];
    var r3 := r2 + [Dispatch(3, Low)];
    var r4 := r3 + [Finish(1)];
    var r5 := r4 + [Resume(2)];
    assert After(NewPool(1), []) == p0;
    AfterNext(p0, [], Dispatch(1, Normal));
    assert [] + r1 == r1;
    var p1 := p0.(free := 0, calls := map[1 := Call(Normal, Running)]);
    assert After(p0, r1) == p1;
    AfterNext(p0, r1, Dispatch(2, Normal));
    var p2 := p1.(waiters := [2], calls := p1.calls[2 := Call(Normal, Waiting)]);
    assert After(p0, r2) == p2;
    AfterNext(p0, r2, Dispatch(3, Low));
    var p3 := p2.(calls := p2.calls[3 := Call(Low, Evicted)], dropped := 1);
    assert After(p0, r3) == p3;
    AfterNext(p0, r3, Finish(1));
    var p4 := p3.(waiters := [], calls := p3.calls[1 := Call(Normal, Finished)][2 := Call(Normal, Granted)]);
    assert After(p0, r4) == p4;
    AfterNext(p0, r4, Resume(2));
    var p5 := p4.(calls := p4.calls[2 := Call(Normal, Running)]);
    assert After(p0, r5) == p5;
    AfterNext(p0, r5, Finish(2));
    assert r5 + [Finish(2)] ==
           [Dispatch(1, Normal), Dispatch(2, Normal), Dispatch(3, Low), Finish(1), Resume(2), Finish(2)];
    assert Step(p5, Finish(2)) == p5.(free := 1, calls := p5.calls[2 := Call(Normal, Finished)]);
  }

  // ---- The object -------------------------------------------------------------

  datatype Outcome = Spawned | Dropped | Pending

  class BoundedTaskDispatcher {
    const capacity: nat
    var closed: bool
    var free: nat
    var waiters: seq<nat>
    var calls: map<nat, Call>
    var dropped: nat

    constructor (capacity: nat)
      ensures View() == NewPool(capacity)
    {
      this.capacity := capacity;
      closed, free, waiters, calls, dropped := false, capacity, [], map[], 0;
    }

    ghost function View(): Pool
      reads this
    {
      Pool(capacity, closed, free, waiters, calls, dropped)
    }

    /** `dispatch`, up to its first wait; the permit, if taken, travels with the spawned task. */
    method Dispatch(id: nat, priority: Priority) returns (outcome: Outcome)
      requires id !in calls
      modifies this
      ensures View() == Step(old(View()), Action.Dispatch(id, priority))
      ensures outcome == match calls[id].phase case Running => Spawned case Waiting => Pending case _ => Dropped
    {
      if priority.Normal? {
        if closed {
          calls := calls[id := Call(Normal, Refused)];
          return Dropped;
        }
        if free == 0 {
          calls := calls[id := Call(Normal, Waiting)];
          waiters := waiters + [id];
          return Pending;
        }
      } else if closed || free == 0 {
        calls := calls[id := Call(Low, Evicted)];
        dropped := (dropped + 1) % U64;
        return Dropped;
      }
      free := free - 1;
      calls := calls[id := Call(priority, Running)];
      return Spawned;
    }

    /** A waiting `dispatch` call wakes up with its permit and spawns its task. */
    method WakeUp(id: nat) returns (outcome: Outcome)
      requires id in calls && calls[id].phase.Granted?
      modifies this
      ensures View() == Step(old(View()), Resume(id)) && outcome == Spawned
    {
      calls := calls[id := calls[id].(phase := Running)];
      return Spawned;
    }

    /** A spawned task ends and drops its permit. */
    method TaskEnds(id: nat)
      requires id in calls && calls[id].phase.Running?
      modifies this
      ensures View() == Step(old(View()), Finish(id))
    {
      calls := calls[id := calls[id].(phase := Finished)];
      if waiters != [] && waiters[0] in calls {
        calls := calls[waiters[0] := calls[waiters[0]].(phase := Granted)];
        waiters := waiters[1..];
      } else {
        free := free + 1;
      }
    }
  }
}
