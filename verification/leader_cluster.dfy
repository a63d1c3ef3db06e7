/**
 The lease of core/src/leader_lock.rs as a protocol: any number of nodes, requests and replies in
 flight, replies lost, requests overtaken by the caller's error and run later, clock ticks and expiry.
 */
module LeaderCluster {
  import opened Wrappers
  import opened LeaderLock

  /** Which await a call stands at. */
  datatype Stage = TryRenew | TrySet | Keepalive | Releasing

  datatype Reply = Pending | Ran(at: nat, effect: bool)

  datatype Call = Call(token: Token, stage: Stage, reply: Reply)

  datatype Node = Node(ttl: nat, deadline: Option<nat>)

  /** A lease interval as Redis saw it; `end` is where the key expires or was deleted. */
  datatype Lease = Lease(token: Token, start: nat, end: nat)

  datatype State = State(
    now: nat,
    entry: Option<Entry>,
    nodes: map<Token, Node>,
    calls: map<nat, Call>,
    strays: multiset<(Token, Command)>,
    leases: seq<Lease>)

  datatype Action =
    | Tick(dt: nat)
    | Expire
    | Join(token: Token, ttl: nat)
    | BeginTry(token: Token, id: nat, connects: bool)
    | BeginKeepalive(token: Token, id: nat)
    | BeginRelease(token: Token, id: nat, connects: bool)
    | Run(id: nat)          // Redis runs the request of a call
    | Deliver(id: nat)      // the reply reaches the caller
    | Lose(id: nat)         // the caller sees an error instead
    | Abort(id: nat)        // the caller's task is dropped
    | RunStray(token: Token, command: Command)

  const INIT: State := State(0, None, map[], map[], multiset{}, [])

  function CommandOf(stage: Stage): Command {
    match stage
    case TryRenew => Renew
    case TrySet => SetNx
    case Keepalive => Renew
    case Releasing => Delete
  }

  /** When an action can happen.  `maxDelay` bounds how long after Redis ran a request its
      success reply is still processed. */
  ghost predicate Enabled(maxDelay: nat, s: State, a: Action) {
    match a
    case Tick(_) => true
    case Expire => s.entry.Some? && !IsLive(s.entry, s.now)
    case Join(t, ttl) => t !in s.nodes && ttl >= 1
    case BeginTry(t, id, _) => t in s.nodes && id !in s.calls
    case BeginKeepalive(t, id) => t in s.nodes && id !in s.calls
    case BeginRelease(t, id, _) => t in s.nodes && id !in s.calls
    case Run(id) => id in s.calls && s.calls[id].reply.Pending?
    case Deliver(id) => id in s.calls && s.calls[id].reply.Ran?
                        && (s.calls[id].reply.effect ==> s.now <= s.calls[id].reply.at + maxDelay)
    case Lose(id) => id in s.calls
    case Abort(id) => id in s.calls
    case RunStray(t, c) => (t, c) in s.strays
  }

  function WithDeadline(s: State, t: Token, d: Option<nat>): State
    requires t in s.nodes
  {
    s.(nodes := s.nodes[t := s.nodes[t].(deadline := d)])
  }

  /** Redis runs a command: the key and the lease history move together. */
  function RunCommand(s: State, t: Token, c: Command): (State, bool)
    requires t in s.nodes
  {
    var (entry, effect) := Execute(s.entry, s.now, t, s.nodes[t].ttl, c);
    var n := |s.leases|;
    var leases :=
      if !effect then s.leases
      else match c
        case SetNx => s.leases + [Lease(t, s.now, s.now + s.nodes[t].ttl)]
        case Renew => if n == 0 then [] else s.leases[n - 1 := s.leases[n - 1].(end := s.now + s.nodes[t].ttl)]
        case Delete => if n == 0 then [] else s.leases[n - 1 := s.leases[n - 1].(end := s.now)];
    (s.(entry := entry, leases := leases), effect)
  }

  function EndCall(s: State, id: nat): State {
    s.(calls := s.calls - {id})
  }

  /** The caller has read `ok` as the answer of its current request. */
  function Answer(s: State, id: nat, ok: bool): State
    requires id in s.calls && s.calls[id].token in s.nodes
  {
    var Call(t, stage, _) := s.calls[id];
    var ended := EndCall(s, id);
    match stage
    case TryRenew => if ok then Lead(ended, t) else s.(calls := s.calls[id := Call(t, TrySet, Pending)])
    case TrySet => if ok then Lead(ended, t) else ended
    case Keepalive => if ok then Lead(ended, t) else WithDeadline(ended, t, None)
    case Releasing => ended
  }

  /** `update_lease_deadline` */
  function Lead(s: State, t: Token): State
    requires t in s.nodes
  {
    WithDeadline(s, t, Some(s.now + s.nodes[t].ttl))
  }

  /** A request given up before Redis ran it may still arrive later. */
  function LeaveStray(s: State, id: nat): State
    requires id in s.calls
  {
    if s.calls[id].reply.Pending? then
      s.(strays := s.strays + multiset{(s.calls[id].token, CommandOf(s.calls[id].stage))})
    else s
  }

  ghost predicate Formed(s: State) {
    && (forall id :: id in s.calls ==> s.calls[id].token in s.nodes)
    && (forall x :: x in s.strays ==> x.0 in s.nodes)
  }

  ghost function Apply(maxDelay: nat, s: State, a: Action): State
    requires Formed(s) && Enabled(maxDelay, s, a)
  {
    match a
    case Tick(dt) => s.(now := s.now + dt)
    case Expire => s.(entry := None)
    case Join(t, ttl) => s.(nodes := s.nodes[t := Node(ttl, None)])
    case BeginTry(t, id, connects) =>
      var expired := Expired(s.nodes[t].deadline, s.now);
      var s1 := WithDeadline(s, t, DropExpired(s.nodes[t].deadline, s.now));
      if connects then s1.(calls := s1.calls[id := Call(t, if expired then TrySet else TryRenew, Pending)]) else s1
    case BeginKeepalive(t, id) => s.(calls := s.calls[id := Call(t, Keepalive, Pending)])
    case BeginRelease(t, id, connects) =>
      var s1 := WithDeadline(s, t, None);
      if connects then s1.(calls := s1.calls[id := Call(t, Releasing, Pending)]) else s1
    case Run(id) =>
      var (s1, effect) := RunCommand(s, s.calls[id].token, CommandOf(s.calls[id].stage));
      s1.(calls := s1.calls[id := s1.calls[id].(reply := Ran(s.now, effect))])
    case Deliver(id) => Answer(s, id, s.calls[id].reply.effect)
    case Lose(id) => Answer(LeaveStray(s, id), id, false)
    case Abort(id) => EndCall(LeaveStray(s, id), id)
    case RunStray(t, c) => RunCommand(s.(strays := s.strays - multiset{(t, c)}), t, c).0
  }

  /** Actions that are not possible leave the state alone, so every action sequence is a run. */
  ghost function Step(maxDelay: nat, s: State, a: Action): State {
    if Formed(s) && Enabled(maxDelay, s, a) then Apply(maxDelay, s, a) else s
  }

  ghost function After(maxDelay: nat, s: State, run: seq<Action>): State
    decreases |run|
  {
    if run == [] then s else After(maxDelay, Step(maxDelay, s, run[0]), run[1..])
  }

  // ---- The invariant ------------------------------------------------------

  /** Lease intervals of the key, in order and without overlap. */
  predicate Disjoint(leases: seq<Lease>) {
    forall i, j :: 0 <= i < j < |leases| ==> leases[i].end <= leases[j].start
  }

  /** The key is the last lease as long as it is present, and nothing else is still running. */
  predicate KeyIsLastLease(s: State) {
    && (s.entry.Some? ==>
          s.leases != [] && s.leases[|s.leases| - 1].token == s.entry.value.token
          && s.leases[|s.leases| - 1].end == s.entry.value.expiresAt
          && s.entry.value.token in s.nodes
          && s.entry.value.expiresAt <= s.now + s.nodes[s.entry.value.token].ttl)
    && (forall i :: 0 <= i < |s.leases| ==> s.leases[i].start <= s.now && s.leases[i].start <= s.leases[i].end)
    && (forall i :: 0 <= i < |s.leases| && s.now < s.leases[i].end ==> i == |s.leases| - 1 && s.entry.Some?)
  }

  /** Some lease of `t` ran until `x` or later. */
  predicate Covered(leases: seq<Lease>, t: Token, x: int) {
    exists k :: 0 <= k < |leases| && leases[k].token == t && x <= leases[k].end
  }

  /** The reply is a success that may still be read in time. */
  predicate SuccessMayArrive(maxDelay: nat, s: State, id: nat) {
    && id in s.calls && s.calls[id].reply.Ran? && s.calls[id].reply.effect && !s.calls[id].stage.Releasing?
    && s.now <= s.calls[id].reply.at + maxDelay
  }

  ghost predicate CallsCovered(maxDelay: nat, s: State)
    requires Formed(s)
  {
    forall id :: SuccessMayArrive(maxDelay, s, id) ==>
      Covered(s.leases, s.calls[id].token, s.calls[id].reply.at + s.nodes[s.calls[id].token].ttl)
  }

  ghost predicate DeadlinesCovered(maxDelay: nat, s: State) {
    forall t :: t in s.nodes && s.nodes[t].deadline.Some? ==>
      Covered(s.leases, t, s.nodes[t].deadline.value - maxDelay)
  }

  /** What every run keeps: leases in order, the key as the last of them. */
  ghost predicate Ordered(s: State) {
    Formed(s) && Disjoint(s.leases) && KeyIsLastLease(s) && forall t :: t in s.nodes ==> s.nodes[t].ttl >= 1
  }

  /** Every deadline, and every success that may still be read, is covered by a lease. */
  ghost predicate Inv(maxDelay: nat, s: State) {
    Ordered(s) && CallsCovered(maxDelay, s) && DeadlinesCovered(maxDelay, s)
  }

  /** Running a command keeps the history in order, and keeps cover except for what it deletes. */
  lemma RunCommandKeeps(s: State, t: Token, c: Command)
    requires t in s.nodes && s.nodes[t].ttl >= 1 && Disjoint(s.leases) && KeyIsLastLease(s)
    ensures var (s', effect) := RunCommand(s, t, c);
            && Disjoint(s'.leases) && KeyIsLastLease(s')
            && (effect && c != Delete ==> Covered(s'.leases, t, s.now + s.nodes[t].ttl))
            && (forall u, x :: Covered(s.leases, u, x) && (c != Delete || !effect || u != t || x <= s.now)
                  ==> Covered(s'.leases, u, x))
  {
    var (s', effect) := RunCommand(s, t, c);
    if effect {
      assert c != SetNx ==> s.leases != [] && s.leases[|s.leases| - 1].token == t;
      assert s'.leases[|s'.leases| - 1].token == t;
      forall u, x | Covered(s.leases, u, x) && (c != Delete || u != t || x <= s.now)
        ensures Covered(s'.leases, u, x)
      {
        CoverGrows(s.leases, s'.leases, u, x);
      }
    }
  }

  lemma CoverGrows(leases: seq<Lease>, leases': seq<Lease>, u: Token, x: int)
    requires Covered(leases, u, x) && |leases| <= |leases'|
    requires forall i :: 0 <= i < |leases| ==> leases'[i].token == leases[i].token
    requires forall i :: 0 <= i < |leases| ==>
               leases[i].end <= leases'[i].end || leases[i].token != u || x <= leases'[i].end
    ensures Covered(leases', u, x)
  {
    var k :| 0 <= k < |leases| && leases[k].token == u && x <= leases[k].end;
    assert leases'[k].token == u && x <= leases'[k].end;
  }

  // ---- Deletions --------------------------------------------------------------

  /** Action `a` deletes the live key of token `t`. */
  predicate Deletes(s: State, a: Action, t: Token) {
    && Holds(s.entry, s.now, t)
    && match a
       case Run(id) =>
         id in s.calls && s.calls[id].token == t && s.calls[id].stage.Releasing? && s.calls[id].reply.Pending?
       case RunStray(u, c) => u == t && c == Delete && (t, Delete) in s.strays
       case _ => false
  }

  /**
   * Node `t` does not believe for longer than the reply delay, and no success of it that may still be read in time
   * is about to make it believe for longer.
   */
  ghost predicate SafeToDelete(maxDelay: nat, s: State, t: Token)
    requires Formed(s)
  {
    && (t in s.nodes && s.nodes[t].deadline.Some? ==> s.nodes[t].deadline.value <= s.now + maxDelay)
    && (forall id :: SuccessMayArrive(maxDelay, s, id) && s.calls[id].token == t ==>
          s.calls[id].reply.at + s.nodes[t].ttl <= s.now)
  }

  ghost predicate SafeStep(maxDelay: nat, s: State, a: Action) {
    Formed(s) ==> forall t :: Deletes(s, a, t) ==> SafeToDelete(maxDelay, s, t)
  }

  ghost predicate SafeRun(maxDelay: nat, s: State, run: seq<Action>)
    decreases |run|
  {
    run != [] ==> SafeStep(maxDelay, s, run[0]) && SafeRun(maxDelay, Step(maxDelay, s, run[0]), run[1..])
  }

  // ---- Every step ---------------------------------------------------------------

  /** `s'` differs in the key and the leases, and keeps cover except, if `t` was deleted, beyond now. */
  ghost predicate CoverKept(s: State, s': State, t: Token, deleted: bool) {
    && s'.now == s.now && s'.nodes == s.nodes && s'.calls == s.calls
    && (forall u, x :: Covered(s.leases, u, x) && (!deleted || u != t || x <= s.now) ==> Covered(s'.leases, u, x))
  }

  lemma CallsStayCovered(maxDelay: nat, s: State, s': State, t: Token, deleted: bool)
    requires Formed(s) && Formed(s') && CallsCovered(maxDelay, s) && CoverKept(s, s', t, deleted)
    requires deleted ==> SafeToDelete(maxDelay, s, t)
    ensures CallsCovered(maxDelay, s')
  {
    hide Covered;
    forall id | SuccessMayArrive(maxDelay, s', id)
      ensures Covered(s'.leases, s'.calls[id].token, s'.calls[id].reply.at + s'.nodes[s'.calls[id].token].ttl)
    {
      assert SuccessMayArrive(maxDelay, s, id);
    }
  }

  lemma DeadlinesStayCovered(maxDelay: nat, s: State, s': State, t: Token, deleted: bool)
    requires Formed(s) && DeadlinesCovered(maxDelay, s) && CoverKept(s, s', t, deleted)
    requires deleted ==> SafeToDelete(maxDelay, s, t)
    ensures DeadlinesCovered(maxDelay, s')
  {
    hide Covered;
  }

  lemma CommandCovers(maxDelay: nat, s: State, s1: State, t: Token, c: Command)
    requires Inv(maxDelay, s) && t in s.nodes && s1 == s.(strays := s1.strays) && Formed(s1)
    requires c == Delete && Holds(s.entry, s.now, t) ==> SafeToDelete(maxDelay, s, t)
    ensures Inv(maxDelay, RunCommand(s1, t, c).0)
    ensures RunCommand(s1, t, c).1 && c != Delete ==>
              Covered(RunCommand(s1, t, c).0.leases, t, s.now + s.nodes[t].ttl)
  {
    hide RunCommand, Covered, SafeToDelete, CallsCovered, DeadlinesCovered, Disjoint;
    RunCommandKeeps(s1, t, c);
    CommandKeepsParties(s1, t, c);
    CommandEffect(s1, t, c);
    var (s', effect) := RunCommand(s1, t, c);
    CallsStayCovered(maxDelay, s, s', t, c == Delete && effect);
    DeadlinesStayCovered(maxDelay, s, s', t, c == Delete && effect);
  }

  lemma CommandEffect(s: State, t: Token, c: Command)
    requires t in s.nodes
    ensures RunCommand(s, t, c).0.now == s.now
    ensures c == Delete && RunCommand(s, t, c).1 ==> Holds(s.entry, s.now, t)
  {
  }

  lemma RunKeeps(maxDelay: nat, s: State, id: nat)
    requires Inv(maxDelay, s) && Enabled(maxDelay, s, Run(id)) && SafeStep(maxDelay, s, Run(id))
    ensures Inv(maxDelay, Apply(maxDelay, s, Run(id)))
  {
    var Call(t, stage, _) := s.calls[id];
    assert CommandOf(stage) == Delete && Holds(s.entry, s.now, t) ==> Deletes(s, Run(id), t);
    CommandCovers(maxDelay, s, s, t, CommandOf(stage));
    var (s1, effect) := RunCommand(s, t, CommandOf(stage));
    ReplyKeeps(maxDelay, s1, id, effect);
  }

  lemma ReplyKeeps(maxDelay: nat, s: State, id: nat, effect: bool)
    requires Inv(maxDelay, s) && id in s.calls
    requires effect && !s.calls[id].stage.Releasing? ==>
               Covered(s.leases, s.calls[id].token, s.now + s.nodes[s.calls[id].token].ttl)
    ensures Inv(maxDelay, s.(calls := s.calls[id := s.calls[id].(reply := Ran(s.now, effect))]))
  {
    var s' := s.(calls := s.calls[id := s.calls[id].(reply := Ran(s.now, effect))]);
    assert forall i :: SuccessMayArrive(maxDelay, s', i) && i != id ==> SuccessMayArrive(maxDelay, s, i);
  }

  lemma RunStrayKeeps(maxDelay: nat, s: State, t: Token, c: Command)
    requires Inv(maxDelay, s) && Enabled(maxDelay, s, RunStray(t, c)) && SafeStep(maxDelay, s, RunStray(t, c))
    ensures Inv(maxDelay, Apply(maxDelay, s, RunStray(t, c)))
  {
    var s1 := s.(strays := s.strays - multiset{(t, c)});
    assert c == Delete && Holds(s.entry, s.now, t) ==> Deletes(s, RunStray(t, c), t);
    CommandCovers(maxDelay, s, s1, t, c);
  }

  lemma LeaveStrayKeeps(maxDelay: nat, s: State, id: nat)
    requires Inv(maxDelay, s) && id in s.calls
    ensures Inv(maxDelay, LeaveStray(s, id))
  {
    var s' := LeaveStray(s, id);
    assert forall i :: SuccessMayArrive(maxDelay, s', i) ==> SuccessMayArrive(maxDelay, s, i);
  }

  lemma EndCallKeeps(maxDelay: nat, s: State, id: nat)
    requires Inv(maxDelay, s)
    ensures Inv(maxDelay, EndCall(s, id))
  {
    var s' := EndCall(s, id);
    assert forall i :: i in s'.calls ==> i in s.calls && s'.calls[i] == s.calls[i];
    assert forall i :: SuccessMayArrive(maxDelay, s', i) ==> SuccessMayArrive(maxDelay, s, i);
  }

  lemma DeadlineKeeps(maxDelay: nat, s: State, t: Token, d: Option<nat>)
    requires Inv(maxDelay, s) && t in s.nodes
    requires d.Some? ==> Covered(s.leases, t, d.value - maxDelay)
    ensures Inv(maxDelay, WithDeadline(s, t, d))
  {
    var s' := WithDeadline(s, t, d);
    assert forall u :: u in s.nodes ==> s'.nodes[u].ttl == s.nodes[u].ttl;
    assert forall i :: SuccessMayArrive(maxDelay, s', i) ==> SuccessMayArrive(maxDelay, s, i);
  }

  lemma CoverWeaker(leases: seq<Lease>, t: Token, x: int, y: int)
    requires Covered(leases, t, x) && y <= x
    ensures Covered(leases, t, y)
  {
  }

  lemma SuccessCovered(maxDelay: nat, s: State, id: nat)
    requires Inv(maxDelay, s) && SuccessMayArrive(maxDelay, s, id)
    ensures s.calls[id].token in s.nodes
    ensures Covered(s.leases, s.calls[id].token, s.calls[id].reply.at + s.nodes[s.calls[id].token].ttl)
  {
  }

  lemma LeadKeeps(maxDelay: nat, s: State, id: nat)
    requires Inv(maxDelay, s) && SuccessMayArrive(maxDelay, s, id)
    ensures Inv(maxDelay, Lead(EndCall(s, id), s.calls[id].token))
  {
    hide Inv, Covered;
    var Call(t, _, reply) := s.calls[id];
    SuccessCovered(maxDelay, s, id);
    CoverWeaker(s.leases, t, reply.at + s.nodes[t].ttl, s.now + s.nodes[t].ttl - maxDelay);
    EndCallKeeps(maxDelay, s, id);
    DeadlineKeeps(maxDelay, EndCall(s, id), t, Some(s.now + s.nodes[t].ttl));
  }

  lemma AnswerKeeps(maxDelay: nat, s: State, id: nat, ok: bool)
    requires Inv(maxDelay, s) && id in s.calls
    requires ok ==> s.calls[id].reply.Ran? && s.calls[id].reply.effect && s.now <= s.calls[id].reply.at + maxDelay
    ensures Inv(maxDelay, Answer(s, id, ok))
  {
    assert s.calls[id].token in s.nodes;
    hide Inv, Covered;
    EndCallKeeps(maxDelay, s, id);
    if ok && !s.calls[id].stage.Releasing? {
      LeadKeeps(maxDelay, s, id);
    } else if s.calls[id].stage.Keepalive? {
      DeadlineKeeps(maxDelay, EndCall(s, id), s.calls[id].token, None);
    } else if s.calls[id].stage.TryRenew? {
      PendingKeeps(maxDelay, s, id, s.calls[id].token, TrySet);
    }
  }

  /** A call starts, or starts its second request. */
  lemma PendingKeeps(maxDelay: nat, s: State, id: nat, t: Token, stage: Stage)
    requires Inv(maxDelay, s) && t in s.nodes
    ensures Inv(maxDelay, s.(calls := s.calls[id := Call(t, stage, Pending)]))
  {
    var s' := s.(calls := s.calls[id := Call(t, stage, Pending)]);
    assert forall i :: SuccessMayArrive(maxDelay, s', i) ==> SuccessMayArrive(maxDelay, s, i) && i != id;
  }

  lemma JoinKeeps(maxDelay: nat, s: State, t: Token, ttl: nat)
    requires Inv(maxDelay, s) && t !in s.nodes && ttl >= 1
    ensures Inv(maxDelay, s.(nodes := s.nodes[t := Node(ttl, None)]))
  {
    var s' := s.(nodes := s.nodes[t := Node(ttl, None)]);
    assert forall u :: u in s.nodes ==> s'.nodes[u] == s.nodes[u];
    assert forall i :: SuccessMayArrive(maxDelay, s', i) ==> SuccessMayArrive(maxDelay, s, i);
  }

  lemma TimeKeeps(maxDelay: nat, s: State, a: Action)
    requires Inv(maxDelay, s) && Enabled(maxDelay, s, a) && (a.Tick? || a.Expire?)
    ensures Inv(maxDelay, Apply(maxDelay, s, a))
  {
    var s' := Apply(maxDelay, s, a);
    assert forall i :: SuccessMayArrive(maxDelay, s', i) ==> SuccessMayArrive(maxDelay, s, i);
  }

  lemma StepKeepsInv(maxDelay: nat, s: State, a: Action)
    requires Inv(maxDelay, s) && Enabled(maxDelay, s, a) && SafeStep(maxDelay, s, a)
    ensures Inv(maxDelay, Apply(maxDelay, s, a))
  {
    match a
    case Tick(_) => TimeKeeps(maxDelay, s, a);
    case Expire => TimeKeeps(maxDelay, s, a);
    case Join(t, ttl) => JoinKeeps(maxDelay, s, t, ttl);
    case BeginTry(t, id, connects) =>
      var kept := DropExpired(s.nodes[t].deadline, s.now);
      DeadlineKeeps(maxDelay, s, t, kept);
      if connects {
        PendingKeeps(maxDelay, WithDeadline(s, t, kept), id, t,
                     if Expired(s.nodes[t].deadline, s.now) then TrySet else TryRenew);
      }
    case BeginKeepalive(t, id) => PendingKeeps(maxDelay, s, id, t, Keepalive);
    case BeginRelease(t, id, connects) =>
      DeadlineKeeps(maxDelay, s, t, None);
      if connects {
        PendingKeeps(maxDelay, WithDeadline(s, t, None), id, t, Releasing);
      }
    case Run(id) => RunKeeps(maxDelay, s, id);
    case RunStray(t, c) => RunStrayKeeps(maxDelay, s, t, c);
    case Deliver(id) => AnswerKeeps(maxDelay, s, id, s.calls[id].reply.effect);
    case Lose(id) =>
      LeaveStrayKeeps(maxDelay, s, id);
      AnswerKeeps(maxDelay, LeaveStray(s, id), id, false);
    case Abort(id) =>
      LeaveStrayKeeps(maxDelay, s, id);
      EndCallKeeps(maxDelay, LeaveStray(s, id), id);
  }

  lemma {:induction false} RunKeepsInv(maxDelay: nat, s: State, run: seq<Action>)
    requires Inv(maxDelay, s) && SafeRun(maxDelay, s, run)
    ensures Inv(maxDelay, After(maxDelay, s, run))
    decreases |run|
  {
    if run != [] {
      if Enabled(maxDelay, s, run[0]) {
        StepKeepsInv(maxDelay, s, run[0]);
      }
      RunKeepsInv(maxDelay, Step(maxDelay, s, run[0]), run[1..]);
    }
  }

  // ---- The key alone ---------------------------------------------------------------

  /** Deadlines, calls and strays play no part in the order. */
  lemma SameOrder(s: State, s': State)
    requires Ordered(s) && s'.now == s.now && s'.entry == s.entry && s'.leases == s.leases && Formed(s')
    requires forall u :: u in s.nodes ==> u in s'.nodes && s'.nodes[u].ttl == s.nodes[u].ttl
    requires forall u :: u in s'.nodes ==> s'.nodes[u].ttl >= 1
    ensures Ordered(s')
  {
  }

  lemma AnswerKeepsOrder(s: State, id: nat, ok: bool)
    requires Ordered(s) && id in s.calls
    ensures Ordered(Answer(s, id, ok))
  {
    hide Ordered;
    OrderedIs(s);
    var s' := Answer(s, id, ok);
    assert forall i :: i in s'.calls ==> i in s.calls && s'.calls[i].token == s.calls[i].token;
    assert forall u :: u in s.nodes ==> u in s'.nodes && s'.nodes[u].ttl == s.nodes[u].ttl;
    assert forall u :: u in s'.nodes ==> u in s.nodes;
    SameOrder(s, s');
  }

  lemma OrderedIs(s: State)
    requires Ordered(s)
    ensures Formed(s) && forall t :: t in s.nodes ==> s.nodes[t].ttl >= 1
  {
  }

  lemma CommandKeepsOrder(s: State, t: Token, c: Command)
    requires Ordered(s) && t in s.nodes
    ensures Ordered(RunCommand(s, t, c).0)
  {
    RunCommandKeeps(s, t, c);
  }

  lemma RequestKeepsOrder(maxDelay: nat, s: State, a: Action)
    requires Ordered(s) && Enabled(maxDelay, s, a) && (a.Run? || a.RunStray?)
    ensures Ordered(Apply(maxDelay, s, a))
  {
    hide Ordered, RunCommand;
    OrderedIs(s);
    if a.Run? {
      var t, c := s.calls[a.id].token, CommandOf(s.calls[a.id].stage);
      var s1 := RunCommand(s, t, c).0;
      CommandKeepsOrder(s, t, c);
      OrderedIs(s1);
      CommandKeepsParties(s, t, c);
      SameOrder(s1, Apply(maxDelay, s, a));
    } else {
      var s1 := s.(strays := s.strays - multiset{(a.token, a.command)});
      SameOrder(s, s1);
      CommandKeepsOrder(s1, a.token, a.command);
    }
  }

  lemma RepliesKeepOrder(maxDelay: nat, s: State, a: Action)
    requires Ordered(s) && Enabled(maxDelay, s, a) && (a.Deliver? || a.Lose?)
    ensures Ordered(Apply(maxDelay, s, a))
  {
    hide Ordered, Answer;
    OrderedIs(s);
    if a.Deliver? {
      AnswerKeepsOrder(s, a.id, s.calls[a.id].reply.effect);
    } else {
      SameOrder(s, LeaveStray(s, a.id));
      AnswerKeepsOrder(LeaveStray(s, a.id), a.id, false);
    }
  }

  lemma StartsKeepOrder(maxDelay: nat, s: State, a: Action)
    requires Ordered(s) && Enabled(maxDelay, s, a)
    requires a.Join? || a.BeginTry? || a.BeginKeepalive? || a.BeginRelease? || a.Abort?
    ensures Ordered(Apply(maxDelay, s, a))
  {
    hide Ordered;
    OrderedIs(s);
    SameOrder(s, Apply(maxDelay, s, a));
  }

  lemma TimeKeepsOrder(maxDelay: nat, s: State, a: Action)
    requires Ordered(s) && Enabled(maxDelay, s, a) && (a.Tick? || a.Expire?)
    ensures Ordered(Apply(maxDelay, s, a))
  {
  }

  /** Leases stay in order whatever happens, deletions included. */
  lemma StepKeepsOrder(maxDelay: nat, s: State, a: Action)
    requires Ordered(s)
    ensures Ordered(Step(maxDelay, s, a))
  {
    hide Ordered, Apply;
    OrderedIs(s);
    if Enabled(maxDelay, s, a) {
      if a.Run? || a.RunStray? {
        RequestKeepsOrder(maxDelay, s, a);
      } else if a.Deliver? || a.Lose? {
        RepliesKeepOrder(maxDelay, s, a);
      } else if a.Tick? || a.Expire? {
        TimeKeepsOrder(maxDelay, s, a);
      } else {
        StartsKeepOrder(maxDelay, s, a);
      }
    }
  }

  lemma CommandKeepsParties(s: State, t: Token, c: Command)
    requires t in s.nodes
    ensures RunCommand(s, t, c).0.nodes == s.nodes && RunCommand(s, t, c).0.calls == s.calls
    ensures RunCommand(s, t, c).0.strays == s.strays
  {
  }

  lemma {:induction false} RunKeepsOrder(maxDelay: nat, s: State, run: seq<Action>)
    requires Ordered(s)
    ensures Ordered(After(maxDelay, s, run))
    decreases |run|
  {
    if run != [] {
      StepKeepsOrder(maxDelay, s, run[0]);
      RunKeepsOrder(maxDelay, Step(maxDelay, s, run[0]), run[1..]);
    }
  }
}
