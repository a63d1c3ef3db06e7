/** The lock object's other calls, and the watch over the key, as runs of the cluster of core/src/leader_lock.rs. */
module LeaderRefinement {
  import opened Wrappers
  import opened LeaderLock
  import opened LeaderCluster
  import opened LeaderTheorems
  import LeaderKeepalive

  // ---- Keepalive ticks and releases ------------------------------------------------

  /** What the answer to a keepalive or a release leaves behind. */
  ghost predicate CallEnded(s: State, id: nat, now: nat, ok: bool, entry: Option<Entry>, s': State)
    requires id in s.calls && s.calls[id].token in s.nodes
  {
    var Call(t, stage, _) := s.calls[id];
    && Formed(s') && s'.now == now && s'.entry == entry && s'.calls == s.calls - {id}
    && s'.nodes == if stage.Keepalive?
                   then s.nodes[t := s.nodes[t].(deadline := if ok then Some(now + s.nodes[t].ttl) else None)]
                   else s.nodes
  }

  lemma AnswerEnds(s: State, id: nat, ok: bool)
    requires Formed(s) && id in s.calls && (s.calls[id].stage.Keepalive? || s.calls[id].stage.Releasing?)
    ensures CallEnded(s, id, s.now, ok, s.entry, Answer(s, id, ok))
  {
    AnswerKeepsForm(s, id, ok);
  }

  lemma EndingRun(maxDelay: nat, s: State, id: nat, wait: nat, delay: nat, fate: Fate)
    requires Formed(s) && id in s.calls && s.calls[id].reply.Pending? && delay <= maxDelay
    requires s.calls[id].stage.Keepalive? || s.calls[id].stage.Releasing?
    ensures var Call(t, stage, _) := s.calls[id];
            var (entry, ok) := Send(s.entry, s.now + wait, t, s.nodes[t].ttl, CommandOf(stage), fate);
            CallEnded(s, id, s.now + wait + delay, ok, entry, After(maxDelay, s, RequestRun(id, wait, delay, fate)))
  {
    hide Step, After, LeaveStray, Answer;
    var s3 := RequestMiddle(maxDelay, s, id, wait, delay, fate);
    assert s3.calls - {id} == s.calls - {id};
    if fate.Answered? {
      StepDeliver(maxDelay, s3, id);
      AnswerEnds(s3, id, s3.calls[id].reply.effect);
    } else {
      StepLose(maxDelay, s3, id);
      StrayOutcome(s3, id);
      AnswerEnds(LeaveStray(s3, id), id, false);
    }
  }

  function TickRun(t: Token, id: nat, connects: bool, wait: nat, delay: nat, fate: Fate): seq<Action> {
    if connects then [BeginKeepalive(t, id)] + RequestRun(id, wait, delay, fate) else []
  }

  /** What one keepalive iteration does to the key and to its own deadline is what that run does. */
  lemma TickCallIsARun(maxDelay: nat, s: State, t: Token, id: nat, connects: bool, fate: Fate, runAt: nat, replyAt: nat)
    requires Free(s, t, id) && s.now <= runAt <= replyAt <= runAt + maxDelay
    ensures var Node(ttl, deadline) := s.nodes[t];
            CallDone(s, t, TickCall(s.entry, deadline, t, ttl, connects, fate, runAt, replyAt),
                     After(maxDelay, s, TickRun(t, id, connects, runAt - s.now, replyAt - runAt, fate)))
  {
    hide Step, After, Send;
    if connects {
      var begin, rest := BeginKeepalive(t, id), RequestRun(id, runAt - s.now, replyAt - runAt, fate);
      AfterFirst(maxDelay, s, [begin] + rest);
      StartKeepalive(maxDelay, s, t, id);
      var s1 := Step(maxDelay, s, begin);
      EndingRun(maxDelay, s1, id, runAt - s.now, replyAt - runAt, fate);
      assert s1.calls - {id} == s.calls;
    } else {
      AfterNone(maxDelay, s);
    }
  }

  lemma StartKeepalive(maxDelay: nat, s: State, t: Token, id: nat)
    requires Free(s, t, id)
    ensures Step(maxDelay, s, BeginKeepalive(t, id)) == s.(calls := s.calls[id := Call(t, Keepalive, Pending)])
    ensures Formed(Step(maxDelay, s, BeginKeepalive(t, id)))
  {
  }

  function ReleaseRun(t: Token, id: nat, connects: bool, wait: nat, delay: nat, fate: Fate): seq<Action> {
    [BeginRelease(t, id, connects)] + (if connects then RequestRun(id, wait, delay, fate) else [])
  }

  /** So it is with a release. */
  lemma ReleaseCallIsARun(maxDelay: nat, s: State, t: Token, id: nat, connects: bool, fate: Fate, runAt: nat,
                          delay: nat)
    requires Free(s, t, id) && s.now <= runAt && delay <= maxDelay
    ensures CallDone(s, t, ReleaseCall(s.entry, t, s.nodes[t].ttl, connects, fate, runAt),
                     After(maxDelay, s, ReleaseRun(t, id, connects, runAt - s.now, delay, fate)))
  {
    hide Step, After, Send;
    var begin := BeginRelease(t, id, connects);
    var rest := if connects then RequestRun(id, runAt - s.now, delay, fate) else [];
    AfterFirst(maxDelay, s, [begin] + rest);
    StartRelease(maxDelay, s, t, id, connects);
    var s1 := Step(maxDelay, s, begin);
    if connects {
      EndingRun(maxDelay, s1, id, runAt - s.now, delay, fate);
      assert s1.calls - {id} == s.calls;
    } else {
      AfterNone(maxDelay, s1);
    }
  }

  lemma StartRelease(maxDelay: nat, s: State, t: Token, id: nat, connects: bool)
    requires Free(s, t, id)
    ensures var s' := Step(maxDelay, s, BeginRelease(t, id, connects));
            && Formed(s') && s'.now == s.now && s'.entry == s.entry
            && s'.nodes == s.nodes[t := s.nodes[t].(deadline := None)]
            && s'.calls == if connects then s.calls[id := Call(t, Releasing, Pending)] else s.calls
  {
  }

  // ---- The watch ----------------------------------------------------------------------

  /** What an action of the cluster is to the watch over `holder`, whose keepalive task makes its calls as `task`. */
  function Seen(s: State, a: Action, holder: Token, task: nat): LeaderKeepalive.Event
    requires Formed(s)
  {
    match a
    case Tick(dt) => LeaderKeepalive.Advance(dt)
    case BeginKeepalive(t, id) =>
      if t == holder && id == task then LeaderKeepalive.TakeTick else LeaderKeepalive.Advance(0)
    case Run(id) =>
      if id !in s.calls then LeaderKeepalive.Advance(0)
      else if id == task then LeaderKeepalive.RunRenewal
      else Other(s, s.calls[id].token, CommandOf(s.calls[id].stage), holder)
    case RunStray(t, c) => if t in s.nodes then Other(s, t, c, holder) else LeaderKeepalive.Advance(0)
    case Deliver(id) => if id == task then LeaderKeepalive.Finish(true) else LeaderKeepalive.Advance(0)
    case Lose(id) => if id == task then LeaderKeepalive.Finish(false) else LeaderKeepalive.Advance(0)
    case _ => LeaderKeepalive.Advance(0)
  }

  function Other(s: State, t: Token, c: Command, holder: Token): LeaderKeepalive.Event
    requires t in s.nodes
  {
    if t == holder then LeaderKeepalive.OwnCall(c) else LeaderKeepalive.OtherCall(t, s.nodes[t].ttl, c)
  }

  /** The watch shows the cluster's clock and key. */
  ghost predicate Shows(s: State, w: LeaderKeepalive.Watch, holder: Token, ttl: nat, task: nat) {
    && Formed(s) && w.now == s.now && w.entry == s.entry && holder in s.nodes && s.nodes[holder].ttl == ttl
    && (task in s.calls ==> s.calls[task].token == holder && s.calls[task].stage.Keepalive?)
  }

  /** What happens is possible, the keepalive task keeps its timing, and its calls are not mixed up with others. */
  ghost predicate OnTime(maxDelay: nat, s: State, a: Action, w: LeaderKeepalive.Watch, holder: Token, ttl: nat,
                         lag: nat, task: nat)
  {
    Formed(s) && Enabled(maxDelay, s, a) ==>
      && LeaderKeepalive.Allowed(holder, ttl, lag, w, Seen(s, a, holder, task))
      && !(a.BeginTry? && a.id == task) && !(a.BeginRelease? && a.id == task)
      && (a.BeginKeepalive? && a.id == task ==> a.token == holder)
  }

  /** The cluster step `a` is the event that the watch sees. */
  ghost predicate IsSeen(maxDelay: nat, s: State, a: Action, w: LeaderKeepalive.Watch, holder: Token, ttl: nat,
                         lag: nat, task: nat)
    requires Formed(s) && Enabled(maxDelay, s, a)
  {
    Shows(Apply(maxDelay, s, a), LeaderKeepalive.Next(holder, ttl, lag, w, Seen(s, a, holder, task)), holder, ttl, task)
  }

  /** The key is live, and the step on time. */
  ghost predicate Timely(maxDelay: nat, s: State, a: Action, w: LeaderKeepalive.Watch, holder: Token, ttl: nat,
                         lag: nat, task: nat)
  {
    && Shows(s, w, holder, ttl, task) && OnTime(maxDelay, s, a, w, holder, ttl, lag, task)
    && Enabled(maxDelay, s, a) && Holds(s.entry, s.now, holder)
  }

  lemma RunIsSeen(maxDelay: nat, s: State, a: Action, w: LeaderKeepalive.Watch, holder: Token, ttl: nat, lag: nat,
                  task: nat)
    requires Timely(maxDelay, s, a, w, holder, ttl, lag, task) && a.Run?
    ensures IsSeen(maxDelay, s, a, w, holder, ttl, lag, task)
  {
    CommandIsSeen(s, s.calls[a.id].token, CommandOf(s.calls[a.id].stage));
    hide RunCommand, Execute;
  }

  lemma StrayIsSeen(maxDelay: nat, s: State, a: Action, w: LeaderKeepalive.Watch, holder: Token, ttl: nat, lag: nat,
                    task: nat)
    requires Timely(maxDelay, s, a, w, holder, ttl, lag, task) && a.RunStray?
    ensures IsSeen(maxDelay, s, a, w, holder, ttl, lag, task)
  {
    CommandIsSeen(s.(strays := s.strays - multiset{(a.token, a.command)}), a.token, a.command);
    hide RunCommand, Execute;
  }

  lemma ReplyIsSeen(maxDelay: nat, s: State, a: Action, w: LeaderKeepalive.Watch, holder: Token, ttl: nat, lag: nat,
                    task: nat)
    requires Timely(maxDelay, s, a, w, holder, ttl, lag, task) && (a.Deliver? || a.Lose?)
    ensures IsSeen(maxDelay, s, a, w, holder, ttl, lag, task)
  {
    hide Answer;
    if a.Deliver? {
      AnswerIsSeen(s, a.id, s.calls[a.id].reply.effect, holder, task);
    } else {
      StepLose(maxDelay, s, a.id);
      StrayOutcome(s, a.id);
      AnswerIsSeen(LeaveStray(s, a.id), a.id, false, holder, task);
    }
  }

  lemma StartIsSeen(maxDelay: nat, s: State, a: Action, w: LeaderKeepalive.Watch, holder: Token, ttl: nat, lag: nat,
                    task: nat)
    requires Timely(maxDelay, s, a, w, holder, ttl, lag, task)
    requires a.BeginTry? || a.BeginKeepalive? || a.BeginRelease? || a.Join?
    ensures IsSeen(maxDelay, s, a, w, holder, ttl, lag, task)
  {
  }

  lemma OtherIsSeen(maxDelay: nat, s: State, a: Action, w: LeaderKeepalive.Watch, holder: Token, ttl: nat, lag: nat,
                    task: nat)
    requires Timely(maxDelay, s, a, w, holder, ttl, lag, task) && (a.Tick? || a.Expire? || a.Abort?)
    ensures IsSeen(maxDelay, s, a, w, holder, ttl, lag, task)
  {
  }

  lemma StepIsSeen(maxDelay: nat, s: State, a: Action, w: LeaderKeepalive.Watch, holder: Token, ttl: nat, lag: nat,
                   task: nat)
    requires Formed(s) && Enabled(maxDelay, s, a) && Timely(maxDelay, s, a, w, holder, ttl, lag, task)
    ensures IsSeen(maxDelay, s, a, w, holder, ttl, lag, task)
  {
    hide Timely, IsSeen;
    if a.Run? {
      RunIsSeen(maxDelay, s, a, w, holder, ttl, lag, task);
    } else if a.RunStray? {
      StrayIsSeen(maxDelay, s, a, w, holder, ttl, lag, task);
    } else if a.Deliver? || a.Lose? {
      ReplyIsSeen(maxDelay, s, a, w, holder, ttl, lag, task);
    } else if a.Tick? || a.Expire? || a.Abort? {
      OtherIsSeen(maxDelay, s, a, w, holder, ttl, lag, task);
    } else {
      StartIsSeen(maxDelay, s, a, w, holder, ttl, lag, task);
    }
  }

  lemma CommandIsSeen(s: State, t: Token, c: Command)
    requires Formed(s) && t in s.nodes
    ensures var s' := RunCommand(s, t, c).0;
            && s'.entry == Execute(s.entry, s.now, t, s.nodes[t].ttl, c).0
            && s'.now == s.now && s'.nodes == s.nodes && s'.calls == s.calls && s'.strays == s.strays
  {
  }

  lemma AnswerIsSeen(s: State, id: nat, ok: bool, holder: Token, task: nat)
    requires Formed(s) && id in s.calls && holder in s.nodes
    requires task in s.calls ==> s.calls[task].token == holder && s.calls[task].stage.Keepalive?
    ensures var s' := Answer(s, id, ok);
            && Formed(s') && s'.entry == s.entry && s'.now == s.now
            && holder in s'.nodes && s'.nodes[holder].ttl == s.nodes[holder].ttl
            && (task in s'.calls ==> s'.calls[task].token == holder && s'.calls[task].stage.Keepalive?)
  {
    AnswerKeepsForm(s, id, ok);
  }

  /** Along the run, everything the watch sees is on time. */
  ghost predicate RunsOnTime(maxDelay: nat, s: State, run: seq<Action>, w: LeaderKeepalive.Watch, holder: Token,
                             ttl: nat, lag: nat, task: nat)
    decreases |run|
  {
    run != [] && Formed(s) ==>
      && OnTime(maxDelay, s, run[0], w, holder, ttl, lag, task)
      && RunsOnTime(maxDelay, Step(maxDelay, s, run[0]), run[1..],
                    if Enabled(maxDelay, s, run[0])
                    then LeaderKeepalive.Next(holder, ttl, lag, w, Seen(s, run[0], holder, task)) else w,
                    holder, ttl, lag, task)
  }

  /** Over every run of the cluster in which the keepalive keeps its timing, the holder's key never lapses. */
  lemma {:induction false} KeyNeverLapses(maxDelay: nat, s: State, run: seq<Action>, w: LeaderKeepalive.Watch,
                                          holder: Token, ttl: nat, lag: nat, task: nat)
    requires Shows(s, w, holder, ttl, task) && LeaderKeepalive.Kept(holder, ttl, lag, w)
    requires 2 * LeaderKeepalive.Pace(ttl, lag) + lag < ttl && RunsOnTime(maxDelay, s, run, w, holder, ttl, lag, task)
    ensures var s' := After(maxDelay, s, run);
            Holds(s'.entry, s'.now, holder) && forall other :: other != holder ==> !Holds(s'.entry, s'.now, other)
    decreases |run|
  {
    hide LeaderKeepalive.Kept, LeaderKeepalive.Next, Shows, Apply;
    LeaderKeepalive.KeptIsLive(holder, ttl, lag, w);
    assert w.now == s.now && w.entry == s.entry && Formed(s) by {
      ShowsKey(s, w, holder, ttl, task);
    }
    if run != [] {
      var a := run[0];
      if Enabled(maxDelay, s, a) {
        var e := Seen(s, a, holder, task);
        StepIsSeen(maxDelay, s, a, w, holder, ttl, lag, task);
        LeaderKeepalive.NextKeeps(holder, ttl, lag, w, e);
        KeyNeverLapses(maxDelay, Step(maxDelay, s, a), run[1..], LeaderKeepalive.Next(holder, ttl, lag, w, e),
                       holder, ttl, lag, task);
      } else {
        KeyNeverLapses(maxDelay, s, run[1..], w, holder, ttl, lag, task);
      }
    }
  }

  lemma ShowsKey(s: State, w: LeaderKeepalive.Watch, holder: Token, ttl: nat, task: nat)
    requires Shows(s, w, holder, ttl, task)
    ensures w.now == s.now && w.entry == s.entry && Formed(s)
  {
  }
}
