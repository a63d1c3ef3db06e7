/** What the lease of core/src/leader_lock.rs guarantees over every run of the cluster. */
module LeaderTheorems {
  import opened Wrappers
  import opened LeaderLock
  import opened LeaderCluster

  /** Lease intervals on the key never overlap, whichever tokens they belong to. */
  lemma LeasesNeverOverlap(maxDelay: nat, run: seq<Action>)
    ensures Disjoint(After(maxDelay, INIT, run).leases)
  {
    RunKeepsOrder(maxDelay, INIT, run);
  }

  predicate Believes(s: State, t: Token) {
    t in s.nodes && LocallyValid(s.nodes[t].deadline, s.now)
  }

  /** A lease of `t` ended less than `maxDelay` ago. */
  predicate EndedWithin(maxDelay: nat, s: State, t: Token) {
    exists k :: 0 <= k < |s.leases| && s.leases[k].token == t && s.leases[k].end <= s.now < s.leases[k].end + maxDelay
  }

  /** A node that believes owns the live key, or its lease ended less than the reply delay ago. */
  ghost predicate Backed(maxDelay: nat, s: State) {
    forall t :: Believes(s, t) ==> Holds(s.entry, s.now, t) || EndedWithin(maxDelay, s, t)
  }

  lemma BeliefIsBackedBy(maxDelay: nat, s: State, t: Token)
    requires Inv(maxDelay, s) && Believes(s, t)
    ensures Holds(s.entry, s.now, t) || EndedWithin(maxDelay, s, t)
  {
    var k :| 0 <= k < |s.leases| && s.leases[k].token == t && s.nodes[t].deadline.value - maxDelay <= s.leases[k].end;
    if s.leases[k].end <= s.now {
      assert s.leases[k].token == t && s.leases[k].end <= s.now < s.leases[k].end + maxDelay;
    }
  }

  /** In every run with safe deletions, belief is backed by a lease. */
  lemma BeliefIsBacked(maxDelay: nat, run: seq<Action>)
    requires SafeRun(maxDelay, INIT, run)
    ensures Backed(maxDelay, After(maxDelay, INIT, run))
  {
    RunKeepsInv(maxDelay, INIT, run);
    forall t | Believes(After(maxDelay, INIT, run), t)
      ensures Holds(After(maxDelay, INIT, run).entry, After(maxDelay, INIT, run).now, t)
              || EndedWithin(maxDelay, After(maxDelay, INIT, run), t)
    {
      BeliefIsBackedBy(maxDelay, After(maxDelay, INIT, run), t);
    }
  }

  // ---- Deletions: exactly when belief stays backed ----------------------------

  /** Only time passes, and replies arrive. */
  predicate Waits(more: seq<Action>) {
    forall i :: 0 <= i < |more| ==> more[i].Tick? || more[i].Deliver?
  }

  /** However long one waits for replies, belief is backed. */
  ghost predicate StaysBacked(maxDelay: nat, s: State) {
    forall more: seq<Action> :: Waits(more) ==> Backed(maxDelay, After(maxDelay, s, more))
  }

  lemma {:induction false} WaitingIsSafe(maxDelay: nat, s: State, more: seq<Action>)
    requires Waits(more)
    ensures SafeRun(maxDelay, s, more)
    decreases |more|
  {
    if more != [] {
      assert Waits(more[1..]);
      WaitingIsSafe(maxDelay, Step(maxDelay, s, more[0]), more[1..]);
    }
  }

  lemma InvStaysBacked(maxDelay: nat, s: State)
    requires Inv(maxDelay, s)
    ensures StaysBacked(maxDelay, s)
  {
    forall more: seq<Action> | Waits(more) ensures Backed(maxDelay, After(maxDelay, s, more)) {
      WaitingIsSafe(maxDelay, s, more);
      RunKeepsInv(maxDelay, s, more);
      var s' := After(maxDelay, s, more);
      forall t | Believes(s', t) ensures Holds(s'.entry, s'.now, t) || EndedWithin(maxDelay, s', t) {
        BeliefIsBackedBy(maxDelay, s', t);
      }
    }
  }

  /** Every lease of `t` is over by `x`. */
  predicate OverBy(leases: seq<Lease>, t: Token, x: nat) {
    forall k :: 0 <= k < |leases| && leases[k].token == t ==> leases[k].end <= x
  }

  /** Deleting the live key ends all leases of its token. */
  lemma DeletionEnds(maxDelay: nat, s: State, a: Action, t: Token)
    requires Ordered(s) && Deletes(s, a, t) && Enabled(maxDelay, s, a)
    ensures var s' := Step(maxDelay, s, a);
            && s'.now == s.now && s'.nodes == s.nodes && s'.entry == None && OverBy(s'.leases, t, s.now)
    ensures forall id :: SuccessMayArrive(maxDelay, s, id) ==>
              id in Step(maxDelay, s, a).calls && Step(maxDelay, s, a).calls[id] == s.calls[id]
  {
    var s' := Step(maxDelay, s, a);
    var n := |s.leases|;
    assert t in s.nodes;
    assert s'.leases == s.leases[n - 1 := s.leases[n - 1].(end := s.now)];
  }

  /** A belief that outlasts all leases by the reply delay is not backed. */
  lemma BareBelief(maxDelay: nat, s: State, t: Token, x: nat)
    requires s.entry == None && OverBy(s.leases, t, x) && s.now >= x + maxDelay && Believes(s, t)
    ensures !Backed(maxDelay, s)
  {
  }

  lemma TwoSteps(maxDelay: nat, s: State, a: Action, b: Action)
    ensures After(maxDelay, s, [a, b]) == Step(maxDelay, Step(maxDelay, s, a), b)
  {
    AfterFirst(maxDelay, s, [a, b]);
    AfterOne(maxDelay, Step(maxDelay, s, a), b);
  }

  lemma ThreeSteps(maxDelay: nat, s: State, a: Action, b: Action, c: Action)
    ensures After(maxDelay, s, [a, b, c]) == Step(maxDelay, Step(maxDelay, Step(maxDelay, s, a), b), c)
  {
    AfterFirst(maxDelay, s, [a, b, c]);
    TwoSteps(maxDelay, Step(maxDelay, s, a), b, c);
  }

  /** After all leases of `t` are over, a deadline beyond the reply delay is a belief that waiting shows to be bare. */
  lemma LateDeadlineShows(maxDelay: nat, s: State, t: Token)
    requires Formed(s) && t in s.nodes && s.entry == None && OverBy(s.leases, t, s.now)
    requires s.nodes[t].deadline.Some? && s.nodes[t].deadline.value > s.now + maxDelay
    ensures !StaysBacked(maxDelay, s)
  {
    var wait := [Tick(maxDelay)];
    AfterOne(maxDelay, s, Tick(maxDelay));
    StepTick(maxDelay, s, maxDelay);
    BareBelief(maxDelay, After(maxDelay, s, wait), t, s.now);
    assert Waits(wait);
  }

  /** So is a success that is read as late as possible. */
  lemma LateSuccessShows(maxDelay: nat, s: State, id: nat)
    requires Formed(s) && SuccessMayArrive(maxDelay, s, id) && s.entry == None
    requires OverBy(s.leases, s.calls[id].token, s.now) && s.calls[id].reply.at <= s.now
    requires s.calls[id].reply.at + s.nodes[s.calls[id].token].ttl > s.now
    ensures !StaysBacked(maxDelay, s)
  {
    hide Step, After;
    var Call(t, _, Ran(at, _)) := s.calls[id];
    var wait := [Tick(at + maxDelay - s.now), Deliver(id), Tick(s.now - at)];
    ThreeSteps(maxDelay, s, wait[0], wait[1], wait[2]);
    StepTick(maxDelay, s, at + maxDelay - s.now);
    var s1 := s.(now := at + maxDelay);
    StepDeliver(maxDelay, s1, id);
    SuccessLeads(s1, id);
    var s2 := Answer(s1, id, true);
    StepTick(maxDelay, s2, s.now - at);
    var s3 := s2.(now := s.now + maxDelay);
    assert s3 == After(maxDelay, s, wait);
    BareBelief(maxDelay, s3, t, s.now);
    assert Waits(wait);
  }

  lemma SuccessLeads(s: State, id: nat)
    requires Formed(s) && id in s.calls && !s.calls[id].stage.Releasing?
    ensures var t := s.calls[id].token;
            var s' := Answer(s, id, true);
            && Formed(s') && s'.now == s.now && s'.entry == s.entry && s'.leases == s.leases
            && t in s'.nodes && s'.nodes[t].deadline == Some(s.now + s.nodes[t].ttl)
  {
    AnswerKeepsForm(s, id, true);
  }

  /** Nothing Redis has run is later than now. */
  ghost predicate RepliesPast(s: State) {
    forall id :: id in s.calls && s.calls[id].reply.Ran? ==> s.calls[id].reply.at <= s.now
  }

  lemma AnswerKeepsReplies(s: State, id: nat, ok: bool)
    requires Formed(s) && id in s.calls && RepliesPast(s)
    ensures RepliesPast(Answer(s, id, ok))
  {
  }

  lemma StepKeepsReplies(maxDelay: nat, s: State, a: Action)
    requires RepliesPast(s)
    ensures RepliesPast(Step(maxDelay, s, a))
  {
    hide RunCommand, Answer;
    if Formed(s) && Enabled(maxDelay, s, a) {
      if a.Run? {
        CommandKeepsParties(s, s.calls[a.id].token, CommandOf(s.calls[a.id].stage));
        CommandKeepsNow(s, s.calls[a.id].token, CommandOf(s.calls[a.id].stage));
      } else if a.RunStray? {
        var s1 := s.(strays := s.strays - multiset{(a.token, a.command)});
        CommandKeepsParties(s1, a.token, a.command);
        CommandKeepsNow(s1, a.token, a.command);
      } else if a.Deliver? {
        AnswerKeepsReplies(s, a.id, s.calls[a.id].reply.effect);
      } else if a.Lose? {
        AnswerKeepsReplies(LeaveStray(s, a.id), a.id, false);
      }
    }
  }

  lemma CommandKeepsNow(s: State, t: Token, c: Command)
    requires t in s.nodes
    ensures RunCommand(s, t, c).0.now == s.now
  {
  }

  lemma {:induction false} RepliesArePast(maxDelay: nat, s: State, run: seq<Action>)
    requires RepliesPast(s)
    ensures RepliesPast(After(maxDelay, s, run))
    decreases |run|
  {
    if run != [] {
      StepKeepsReplies(maxDelay, s, run[0]);
      RepliesArePast(maxDelay, Step(maxDelay, s, run[0]), run[1..]);
    }
  }

  /** An unsafe deletion leaves a belief that waiting shows to be bare. */
  lemma UnsafeDeletionShows(maxDelay: nat, s: State, a: Action)
    requires Ordered(s) && RepliesPast(s) && !SafeStep(maxDelay, s, a)
    ensures !StaysBacked(maxDelay, Step(maxDelay, s, a))
  {
    hide Step, After, StaysBacked;
    var t :| Deletes(s, a, t) && !SafeToDelete(maxDelay, s, t);
    DeletesIsEnabled(maxDelay, s, a, t);
    DeletionEnds(maxDelay, s, a, t);
    var s' := Step(maxDelay, s, a);
    StepKeepsOrder(maxDelay, s, a);
    if t in s.nodes && s.nodes[t].deadline.Some? && s.nodes[t].deadline.value > s.now + maxDelay {
      LateDeadlineShows(maxDelay, s', t);
    } else {
      var id :| SuccessMayArrive(maxDelay, s, id) && s.calls[id].token == t
                && s.calls[id].reply.at + s.nodes[t].ttl > s.now;
      LateSuccessShows(maxDelay, s', id);
    }
  }

  lemma DeletesIsEnabled(maxDelay: nat, s: State, a: Action, t: Token)
    requires Deletes(s, a, t)
    ensures Enabled(maxDelay, s, a)
  {
  }

  /**
   * In every run, belief is backed at every point and stays so however long one waits for replies,
   * if and only if every deletion of a live key is safe.
   */
  lemma {:induction false} BeliefIsBackedIff(maxDelay: nat, s: State, run: seq<Action>)
    requires Inv(maxDelay, s) && RepliesPast(s)
    ensures (forall k: nat :: k <= |run| ==> StaysBacked(maxDelay, After(maxDelay, s, run[..k])))
            <==> SafeRun(maxDelay, s, run)
    decreases |run|
  {
    hide Inv, StaysBacked, SafeStep, RepliesPast, Step;
    InvStaysBacked(maxDelay, s);
    assert run[..0] == [];
    if run != [] {
      var s' := Step(maxDelay, s, run[0]);
      assert run[..1] == [run[0]];
      AfterOne(maxDelay, s, run[0]);
      if SafeStep(maxDelay, s, run[0]) {
        SafeStepKeeps(maxDelay, s, run[0]);
        StepKeepsReplies(maxDelay, s, run[0]);
        BeliefIsBackedIff(maxDelay, s', run[1..]);
        forall k: nat | 0 < k <= |run|
          ensures After(maxDelay, s, run[..k]) == After(maxDelay, s', run[1..][..k - 1])
        {
          AfterFirst(maxDelay, s, run[..k]);
          assert run[..k][1..] == run[1..][..k - 1];
        }
        Shifted(maxDelay, s, s', run);
      } else {
        InvIsOrdered(maxDelay, s);
        UnsafeDeletionShows(maxDelay, s, run[0]);
      }
    }
  }

  lemma SafeStepKeeps(maxDelay: nat, s: State, a: Action)
    requires Inv(maxDelay, s) && SafeStep(maxDelay, s, a)
    ensures Inv(maxDelay, Step(maxDelay, s, a))
  {
    if Enabled(maxDelay, s, a) {
      StepKeepsInv(maxDelay, s, a);
    }
  }

  lemma InvIsOrdered(maxDelay: nat, s: State)
    requires Inv(maxDelay, s)
    ensures Ordered(s)
  {
  }

  lemma Shifted(maxDelay: nat, s: State, s': State, run: seq<Action>)
    requires run != [] && StaysBacked(maxDelay, After(maxDelay, s, run[..0]))
    requires forall k: nat :: 0 < k <= |run| ==> After(maxDelay, s, run[..k]) == After(maxDelay, s', run[1..][..k - 1])
    ensures (forall k: nat :: k <= |run| ==> StaysBacked(maxDelay, After(maxDelay, s, run[..k]))) <==>
            (forall k: nat :: k <= |run[1..]| ==> StaysBacked(maxDelay, After(maxDelay, s', run[1..][..k])))
  {
    hide StaysBacked, After;
    if forall k: nat :: k <= |run| ==> StaysBacked(maxDelay, After(maxDelay, s, run[..k])) {
      forall k: nat | k <= |run[1..]| ensures StaysBacked(maxDelay, After(maxDelay, s', run[1..][..k])) {
        assert After(maxDelay, s, run[..k + 1]) == After(maxDelay, s', run[1..][..k + 1 - 1]);
      }
    }
    if forall k: nat :: k <= |run[1..]| ==> StaysBacked(maxDelay, After(maxDelay, s', run[1..][..k])) {
      forall k: nat | k <= |run| ensures StaysBacked(maxDelay, After(maxDelay, s, run[..k])) {
        if k > 0 {
          assert StaysBacked(maxDelay, After(maxDelay, s', run[1..][..k - 1]));
        }
      }
    }
  }

  // ---- The documented use of release ----------------------------------------------

  /** A deletion for `t` is in flight, or was given up and may still arrive. */
  ghost predicate DeletionOutstanding(s: State, t: Token) {
    || (exists id :: id in s.calls && s.calls[id].token == t && s.calls[id].stage.Releasing?)
    || (t, Delete) in s.strays
  }

  ghost predicate Idle(s: State, t: Token) {
    forall id :: id in s.calls ==> s.calls[id].token != t
  }

  /** Release with nothing in flight, and start nothing while the deletion is outstanding. */
  ghost predicate Documented(s: State, a: Action) {
    match a
    case BeginRelease(t, _, _) => Idle(s, t)
    case BeginTry(t, _, _) => !DeletionOutstanding(s, t)
    case BeginKeepalive(t, _) => !DeletionOutstanding(s, t)
    case _ => true
  }

  ghost predicate DocumentedRun(maxDelay: nat, s: State, run: seq<Action>)
    decreases |run|
  {
    run != [] ==> Documented(s, run[0]) && DocumentedRun(maxDelay, Step(maxDelay, s, run[0]), run[1..])
  }

  /** Whoever has a deletion outstanding neither believes nor asks for the lease. */
  ghost predicate Quiet(s: State) {
    forall t :: DeletionOutstanding(s, t) ==>
      && (t in s.nodes ==> s.nodes[t].deadline == None)
      && (forall id :: id in s.calls && s.calls[id].token == t ==> s.calls[id].stage.Releasing?)
  }

  /** `s'` gives `t` a new deadline or request only through what `t` already asks for. */
  ghost predicate OwnOnly(s: State, s': State, t: Token, starts: bool) {
    && (t in s'.nodes && t !in s.nodes ==> s'.nodes[t].deadline == None)
    && (t in s.nodes && t in s'.nodes && s'.nodes[t].deadline != s.nodes[t].deadline && s'.nodes[t].deadline.Some? ==>
          exists id :: id in s.calls && s.calls[id].token == t && !s.calls[id].stage.Releasing?)
    && (forall id :: id in s'.calls && s'.calls[id].token == t && !s'.calls[id].stage.Releasing? ==>
          starts || (id in s.calls && s.calls[id].token == t && !s.calls[id].stage.Releasing?))
  }

  lemma AnswerOwn(s: State, id: nat, ok: bool, t: Token)
    requires Formed(s) && id in s.calls
    ensures OwnOnly(s, Answer(s, id, ok), t, false)
  {
    var u := s.calls[id].token;
    var s' := Answer(s, id, ok);
    assert u in s.nodes;
    if t in s.nodes && s'.nodes[t].deadline != s.nodes[t].deadline {
      assert u == t && !s.calls[id].stage.Releasing?;
    }
  }

  lemma CommandOwn(maxDelay: nat, s: State, a: Action, t: Token)
    requires Formed(s) && Enabled(maxDelay, s, a) && (a.Run? || a.RunStray?)
    ensures OwnOnly(s, Apply(maxDelay, s, a), t, false)
  {
    hide RunCommand;
    if a.Run? {
      CommandKeepsParties(s, s.calls[a.id].token, CommandOf(s.calls[a.id].stage));
    } else {
      CommandKeepsParties(s.(strays := s.strays - multiset{(a.token, a.command)}), a.token, a.command);
    }
  }

  lemma TimeOwn(maxDelay: nat, s: State, a: Action, t: Token)
    requires Formed(s) && Enabled(maxDelay, s, a) && (a.Tick? || a.Expire? || a.Join? || a.Abort?)
    ensures OwnOnly(s, Apply(maxDelay, s, a), t, false)
  {
  }

  lemma BeginOwn(maxDelay: nat, s: State, a: Action, t: Token)
    requires Formed(s) && Enabled(maxDelay, s, a) && (a.BeginTry? || a.BeginKeepalive? || a.BeginRelease?)
    ensures OwnOnly(s, Apply(maxDelay, s, a), t, !a.BeginRelease? && a.token == t)
  {
  }

  /** A step changes a node's deadline or requests only by its own start, or by the answer to one of its requests. */
  lemma OwnSteps(maxDelay: nat, s: State, a: Action, t: Token)
    requires Formed(s) && Enabled(maxDelay, s, a)
    ensures OwnOnly(s, Apply(maxDelay, s, a), t, (a.BeginTry? || a.BeginKeepalive?) && a.token == t)
  {
    hide Apply, OwnOnly;
    if a.Run? || a.RunStray? {
      CommandOwn(maxDelay, s, a, t);
    } else if a.Deliver? || a.Lose? {
      RepliesOwn(maxDelay, s, a, t);
    } else if a.BeginTry? || a.BeginKeepalive? || a.BeginRelease? {
      BeginOwn(maxDelay, s, a, t);
    } else {
      TimeOwn(maxDelay, s, a, t);
    }
  }

  lemma RepliesOwn(maxDelay: nat, s: State, a: Action, t: Token)
    requires Formed(s) && Enabled(maxDelay, s, a) && (a.Deliver? || a.Lose?)
    ensures OwnOnly(s, Apply(maxDelay, s, a), t, false)
  {
    hide Answer;
    if a.Deliver? {
      AnswerOwn(s, a.id, s.calls[a.id].reply.effect, t);
    } else {
      AnswerOwn(LeaveStray(s, a.id), a.id, false, t);
    }
  }

  /** Releases in flight and stray deletions of `s'` are those of `s`. */
  ghost predicate NothingNew(s: State, s': State, t: Token) {
    && (forall id :: id in s'.calls && s'.calls[id].token == t && s'.calls[id].stage.Releasing? ==>
          id in s.calls && s.calls[id].token == t && s.calls[id].stage.Releasing?)
    && ((t, Delete) in s'.strays ==>
          || (t, Delete) in s.strays
          || exists id :: id in s.calls && s.calls[id].token == t && s.calls[id].stage.Releasing?)
  }

  lemma AnswerNothingNew(s: State, s1: State, id: nat, ok: bool, t: Token)
    requires Formed(s1) && id in s1.calls && NothingNew(s, s1, t)
    ensures NothingNew(s, Answer(s1, id, ok), t)
  {
  }

  lemma StrayNothingNew(s: State, id: nat, t: Token)
    requires Formed(s) && id in s.calls
    ensures NothingNew(s, LeaveStray(s, id), t)
  {
    if s.calls[id].reply.Pending? && CommandOf(s.calls[id].stage) == Delete {
      assert s.calls[id].stage.Releasing?;
    }
  }

  lemma CommandNothingNew(maxDelay: nat, s: State, a: Action, t: Token)
    requires Formed(s) && Enabled(maxDelay, s, a) && (a.Run? || a.RunStray?)
    ensures NothingNew(s, Apply(maxDelay, s, a), t)
  {
    hide RunCommand;
    if a.Run? {
      CommandKeepsParties(s, s.calls[a.id].token, CommandOf(s.calls[a.id].stage));
    } else {
      CommandKeepsParties(s.(strays := s.strays - multiset{(a.token, a.command)}), a.token, a.command);
    }
  }

  lemma OthersNothingNew(maxDelay: nat, s: State, a: Action, t: Token)
    requires Formed(s) && Enabled(maxDelay, s, a) && !a.Run? && !a.RunStray? && !a.Deliver? && !a.Lose? && !a.Abort?
    requires a.BeginRelease? ==> a.token != t
    ensures NothingNew(s, Apply(maxDelay, s, a), t)
  {
  }

  lemma RepliesNothingNew(maxDelay: nat, s: State, a: Action, t: Token)
    requires Formed(s) && Enabled(maxDelay, s, a) && (a.Deliver? || a.Lose? || a.Abort?)
    ensures NothingNew(s, Apply(maxDelay, s, a), t)
  {
    hide Answer;
    StrayNothingNew(s, a.id, t);
    if a.Deliver? {
      AnswerNothingNew(s, s, a.id, s.calls[a.id].reply.effect, t);
    } else if a.Lose? {
      AnswerNothingNew(s, LeaveStray(s, a.id), a.id, false, t);
    }
  }

  /** Deletions come from releases alone. */
  lemma NewDeletions(maxDelay: nat, s: State, a: Action, t: Token)
    requires Formed(s) && Enabled(maxDelay, s, a)
    ensures DeletionOutstanding(Apply(maxDelay, s, a), t) ==>
              DeletionOutstanding(s, t) || (a.BeginRelease? && a.token == t)
  {
    if a.BeginRelease? && a.token == t {
      return;
    }
    hide Apply;
    if a.Run? || a.RunStray? {
      CommandNothingNew(maxDelay, s, a, t);
    } else if a.Deliver? || a.Lose? || a.Abort? {
      RepliesNothingNew(maxDelay, s, a, t);
    } else {
      OthersNothingNew(maxDelay, s, a, t);
    }
  }

  lemma DocumentedKeepsQuiet(maxDelay: nat, s: State, a: Action)
    requires Formed(s) && Quiet(s) && Documented(s, a)
    ensures Quiet(Step(maxDelay, s, a))
  {
    if Enabled(maxDelay, s, a) {
      var s' := Apply(maxDelay, s, a);
      hide Apply, DeletionOutstanding;
      forall t | DeletionOutstanding(s', t)
        ensures t in s'.nodes ==> s'.nodes[t].deadline == None
        ensures forall id :: id in s'.calls && s'.calls[id].token == t ==> s'.calls[id].stage.Releasing?
      {
        OwnSteps(maxDelay, s, a, t);
        NewDeletions(maxDelay, s, a, t);
        if a.BeginRelease? && a.token == t {
          ReleaseClears(maxDelay, s, a);
        }
      }
    }
  }

  lemma ReleaseClears(maxDelay: nat, s: State, a: Action)
    requires Formed(s) && a.BeginRelease? && Enabled(maxDelay, s, a)
    ensures a.token in Apply(maxDelay, s, a).nodes && Apply(maxDelay, s, a).nodes[a.token].deadline == None
  {
  }

  lemma QuietIsSafe(maxDelay: nat, s: State, a: Action)
    requires Quiet(s)
    ensures SafeStep(maxDelay, s, a)
  {
  }

  /** Used as documented, release never deletes under a node that believes or is about to. */
  lemma {:induction false} DocumentedIsSafe(maxDelay: nat, s: State, run: seq<Action>)
    requires Ordered(s) && Quiet(s) && DocumentedRun(maxDelay, s, run)
    ensures SafeRun(maxDelay, s, run)
    decreases |run|
  {
    if run != [] {
      hide Step, Quiet, Documented, SafeStep, Ordered;
      OrderedIs(s);
      QuietIsSafe(maxDelay, s, run[0]);
      DocumentedKeepsQuiet(maxDelay, s, run[0]);
      StepKeepsOrder(maxDelay, s, run[0]);
      DocumentedIsSafe(maxDelay, Step(maxDelay, s, run[0]), run[1..]);
    }
  }

  ghost predicate OneLeaderAtMost(s: State) {
    forall t, u :: Believes(s, t) && Believes(s, u) ==> t == u
  }

  /**
   * "Exactly one node at a time" holds of local belief, in all runs with safe deletions,
   * exactly when success replies are never delayed.
   */
  lemma MutualExclusionIff(maxDelay: nat)
    ensures (forall run: seq<Action> :: SafeRun(maxDelay, INIT, run) ==> OneLeaderAtMost(After(maxDelay, INIT, run)))
            <==> maxDelay == 0
  {
    if maxDelay == 0 {
      forall run: seq<Action> | SafeRun(maxDelay, INIT, run) ensures OneLeaderAtMost(After(maxDelay, INIT, run)) {
        BeliefIsBacked(0, run);
      }
    } else {
      var run := TwoLeadersRun(maxDelay, 1, 1);
      TwoLeaders(maxDelay, 1, 1);
      NobodyReleases(maxDelay, 1, 1);
      NoReleaseIsSafe(maxDelay, INIT, run);
      assert !OneLeaderAtMost(After(maxDelay, INIT, run));
    }
  }

  ghost predicate NoDeletion(s: State) {
    forall t :: !DeletionOutstanding(s, t)
  }

  predicate NoRelease(run: seq<Action>) {
    forall i :: 0 <= i < |run| ==> !run[i].BeginRelease?
  }

  lemma NoReleaseKeeps(maxDelay: nat, s: State, a: Action)
    requires Formed(s) && NoDeletion(s) && !a.BeginRelease?
    ensures NoDeletion(Step(maxDelay, s, a))
  {
    if Enabled(maxDelay, s, a) {
      forall t ensures !DeletionOutstanding(Apply(maxDelay, s, a), t) {
        NewDeletions(maxDelay, s, a, t);
      }
    }
  }

  lemma {:induction false} NoReleaseIsSafe(maxDelay: nat, s: State, run: seq<Action>)
    requires Ordered(s) && NoDeletion(s) && NoRelease(run)
    ensures SafeRun(maxDelay, s, run)
    decreases |run|
  {
    if run != [] {
      hide Step, NoDeletion, SafeStep, Ordered;
      OrderedIs(s);
      NothingDeleted(maxDelay, s, run[0]);
      NoReleaseKeeps(maxDelay, s, run[0]);
      StepKeepsOrder(maxDelay, s, run[0]);
      assert NoRelease(run[1..]);
      NoReleaseIsSafe(maxDelay, Step(maxDelay, s, run[0]), run[1..]);
    }
  }

  lemma NothingDeleted(maxDelay: nat, s: State, a: Action)
    requires NoDeletion(s)
    ensures SafeStep(maxDelay, s, a)
  {
    forall t ensures !Deletes(s, a, t) {
      assert !DeletionOutstanding(s, t);
    }
  }

  // ---- The lock object's calls are runs of the cluster ----------------------

  lemma {:induction false} AfterAppend(maxDelay: nat, s: State, a: seq<Action>, b: seq<Action>)
    ensures After(maxDelay, s, a + b) == After(maxDelay, After(maxDelay, s, a), b)
    decreases |a|
  {
    if a == [] {
      assert a + b == b;
    } else {
      assert (a + b)[0] == a[0] && (a + b)[1..] == a[1..] + b;
      AfterAppend(maxDelay, Step(maxDelay, s, a[0]), a[1..], b);
    }
  }

  lemma AfterFirst(maxDelay: nat, s: State, run: seq<Action>)
    requires run != []
    ensures After(maxDelay, s, run) == After(maxDelay, Step(maxDelay, s, run[0]), run[1..])
  {
  }

  lemma AfterNone(maxDelay: nat, s: State)
    ensures After(maxDelay, s, []) == s
  {
  }

  lemma AfterOne(maxDelay: nat, s: State, a: Action)
    ensures After(maxDelay, s, [a]) == Step(maxDelay, s, a)
  {
    AfterFirst(maxDelay, s, [a]);
  }

  /** One request: a wait, Redis running it (or not), a wait, the answer (or an error). */
  function RequestRun(id: nat, wait: nat, delay: nat, fate: Fate): seq<Action> {
    [Tick(wait), if fate.RequestLost? then Tick(0) else Run(id),
     Tick(delay), if fate.Answered? then Deliver(id) else Lose(id)]
  }

  lemma AfterFour(maxDelay: nat, s: State, a: Action, b: Action, c: Action, d: Action)
    ensures After(maxDelay, s, [a, b, c, d])
            == Step(maxDelay, Step(maxDelay, Step(maxDelay, Step(maxDelay, s, a), b), c), d)
  {
    var s1 := Step(maxDelay, s, a);
    var s2 := Step(maxDelay, s1, b);
    AfterFirst(maxDelay, s, [a, b, c, d]);
    AfterFirst(maxDelay, s1, [b, c, d]);
    AfterFirst(maxDelay, s2, [c, d]);
    AfterOne(maxDelay, Step(maxDelay, s2, c), d);
  }

  /** Redis has run, or never sees, the request of call `id`. */
  lemma RunOutcome(maxDelay: nat, s: State, id: nat, fate: Fate)
    requires Formed(s) && id in s.calls && s.calls[id].reply.Pending?
    ensures var Call(t, stage, _) := s.calls[id];
            var s' := Step(maxDelay, s, if fate.RequestLost? then Tick(0) else Run(id));
            var (after, effect) := Execute(s.entry, s.now, t, s.nodes[t].ttl, CommandOf(stage));
            && Formed(s') && s'.now == s.now && s'.nodes == s.nodes
            && s'.entry == (if fate.RequestLost? then s.entry else after)
            && s'.calls == s.calls[id := Call(t, stage, if fate.RequestLost? then Pending else Ran(s.now, effect))]
  {
    var c := s.calls[id];
    if fate.RequestLost? {
      assert s.calls[id := Call(c.token, c.stage, Pending)] == s.calls;
    }
  }

  lemma StepTick(maxDelay: nat, s: State, dt: nat)
    requires Formed(s)
    ensures Step(maxDelay, s, Tick(dt)) == s.(now := s.now + dt)
  {
  }

  lemma StepDeliver(maxDelay: nat, s: State, id: nat)
    requires Formed(s) && Enabled(maxDelay, s, Deliver(id))
    ensures Step(maxDelay, s, Deliver(id)) == Answer(s, id, s.calls[id].reply.effect)
  {
  }

  lemma StepLose(maxDelay: nat, s: State, id: nat)
    requires Formed(s) && id in s.calls
    ensures Step(maxDelay, s, Lose(id)) == Answer(LeaveStray(s, id), id, false)
    ensures Formed(LeaveStray(s, id))
  {
  }

  /** What an answer `ok` to a renewal or SET of `try_acquire_or_renew` leaves behind. */
  lemma AnswerOutcome(s: State, id: nat, ok: bool)
    requires Formed(s) && id in s.calls && (s.calls[id].stage.TryRenew? || s.calls[id].stage.TrySet?)
    ensures var Call(t, stage, _) := s.calls[id];
            var s' := Answer(s, id, ok);
            && Formed(s') && s'.now == s.now && s'.entry == s.entry
            && s'.nodes == (if ok then s.nodes[t := s.nodes[t].(deadline := Some(s.now + s.nodes[t].ttl))] else s.nodes)
            && s'.calls == (if stage.TryRenew? && !ok then s.calls[id := Call(t, TrySet, Pending)] else s.calls - {id})
  {
    AnswerKeepsForm(s, id, ok);
  }

  lemma AnswerKeepsForm(s: State, id: nat, ok: bool)
    requires Formed(s) && id in s.calls
    ensures Formed(Answer(s, id, ok))
  {
    var s' := Answer(s, id, ok);
    assert forall i :: i in s'.calls ==> i in s.calls && s'.calls[i].token == s.calls[i].token;
  }

  /** A request up to the moment before its answer. */
  lemma RequestMiddle(maxDelay: nat, s: State, id: nat, wait: nat, delay: nat, fate: Fate) returns (s3: State)
    requires Formed(s) && id in s.calls && s.calls[id].reply.Pending?
    ensures var Call(t, stage, _) := s.calls[id];
            var (after, effect) := Execute(s.entry, s.now + wait, t, s.nodes[t].ttl, CommandOf(stage));
            && Formed(s3) && s3.now == s.now + wait + delay && s3.nodes == s.nodes
            && s3.entry == (if fate.RequestLost? then s.entry else after)
            && s3.calls ==
                 s.calls[id := Call(t, stage, if fate.RequestLost? then Pending else Ran(s.now + wait, effect))]
            && After(maxDelay, s, RequestRun(id, wait, delay, fate))
               == Step(maxDelay, s3, if fate.Answered? then Deliver(id) else Lose(id))
  {
    hide Step, After;
    var run := RequestRun(id, wait, delay, fate);
    AfterFour(maxDelay, s, run[0], run[1], run[2], run[3]);
    StepTick(maxDelay, s, wait);
    var s1 := s.(now := s.now + wait);
    RunOutcome(maxDelay, s1, id, fate);
    var s2 := Step(maxDelay, s1, run[1]);
    StepTick(maxDelay, s2, delay);
    s3 := s2.(now := s2.now + delay);
  }

  /** Whether a caller whose request met `fate` reads a success. */
  predicate ReadsSuccess(entry: Option<Entry>, at: nat, t: Token, ttl: nat, c: Command, fate: Fate) {
    Send(entry, at, t, ttl, c, fate).1
  }

  lemma AnsweredSteps(maxDelay: nat, s: State, id: nat, wait: nat, delay: nat)
    requires Formed(s) && id in s.calls && s.calls[id].reply.Pending? && delay <= maxDelay
    requires s.calls[id].stage.TryRenew? || s.calls[id].stage.TrySet?
    ensures var Call(t, stage, _) := s.calls[id];
            var ok := ReadsSuccess(s.entry, s.now + wait, t, s.nodes[t].ttl, CommandOf(stage), Answered);
            RequestDone(s, id, s.now + wait + delay, ok,
                        Send(s.entry, s.now + wait, t, s.nodes[t].ttl, CommandOf(stage), Answered).0,
                        After(maxDelay, s, RequestRun(id, wait, delay, Answered)))
  {
    hide Step, After, LeaveStray, Formed, Answer;
    var s3 := RequestMiddle(maxDelay, s, id, wait, delay, Answered);
    assert s3.calls - {id} == s.calls - {id};
    StepDeliver(maxDelay, s3, id);
    AnswerOutcome(s3, id, s3.calls[id].reply.effect);
  }

  lemma UnansweredSteps(maxDelay: nat, s: State, id: nat, wait: nat, delay: nat, fate: Fate)
    requires Formed(s) && id in s.calls && s.calls[id].reply.Pending? && !fate.Answered?
    requires s.calls[id].stage.TryRenew? || s.calls[id].stage.TrySet?
    ensures var Call(t, stage, _) := s.calls[id];
            RequestDone(s, id, s.now + wait + delay, false,
                        Send(s.entry, s.now + wait, t, s.nodes[t].ttl, CommandOf(stage), fate).0,
                        After(maxDelay, s, RequestRun(id, wait, delay, fate)))
  {
    hide Step, After, LeaveStray, Answer, Formed;
    var s3 := RequestMiddle(maxDelay, s, id, wait, delay, fate);
    assert s3.calls - {id} == s.calls - {id};
    StepLose(maxDelay, s3, id);
    StrayOutcome(s3, id);
    AnswerOutcome(LeaveStray(s3, id), id, false);
  }

  lemma StrayOutcome(s: State, id: nat)
    requires id in s.calls
    ensures var s' := LeaveStray(s, id);
            s'.now == s.now && s'.entry == s.entry && s'.nodes == s.nodes && s'.calls == s.calls
  {
  }

  /**
   * A request given up before Redis ran it can still run, any time later: the key changes as if the caller had waited,
   * but no node takes notice.  One that Redis has run does not run again.
   */
  lemma LateRequest(maxDelay: nat, s: State, id: nat, dt: nat)
    requires Formed(s) && id in s.calls
    ensures var Call(t, stage, reply) := s.calls[id];
            var c := match stage case TryRenew => Renew case TrySet => SetNx case Keepalive => Renew case _ => Delete;
            var s' := After(maxDelay, s, [Abort(id), Tick(dt), RunStray(t, c)]);
            && (reply.Pending? ==>
                  && s'.entry == Execute(s.entry, s.now + dt, t, s.nodes[t].ttl, c).0
                  && s'.nodes == s.nodes && s'.calls == s.calls - {id} && s'.strays == s.strays)
            && (reply.Ran? ==> After(maxDelay, s, [Abort(id)]).strays == s.strays)
  {
    hide Execute, Step, After;
    var c := CommandOf(s.calls[id].stage);
    var run := [Abort(id), Tick(dt), RunStray(s.calls[id].token, c)];
    AfterOne(maxDelay, s, Abort(id));
    AfterFirst(maxDelay, s, run);
    GivenUp(maxDelay, s, id);
    var s1 := Step(maxDelay, s, Abort(id));
    AfterFirst(maxDelay, s1, run[1..]);
    StepTick(maxDelay, s1, dt);
    var s2 := Step(maxDelay, s1, Tick(dt));
    assert run[1..][1..] == run[2..] && run[2..] == [run[2]];
    AfterOne(maxDelay, s2, run[2]);
    if s.calls[id].reply.Pending? {
      StrayRuns(maxDelay, s2, s.calls[id].token, c);
      assert s.strays + multiset{(s.calls[id].token, c)} - multiset{(s.calls[id].token, c)} == s.strays;
    }
  }

  lemma GivenUp(maxDelay: nat, s: State, id: nat)
    requires Formed(s) && id in s.calls
    ensures var Call(t, stage, reply) := s.calls[id];
            var left := if reply.Pending? then multiset{(t, CommandOf(stage))} else multiset{};
            var s' := Step(maxDelay, s, Abort(id));
            Formed(s') && s' == s.(calls := s.calls - {id}, strays := s.strays + left)
  {
    assert s.strays + multiset{} == s.strays;
  }

  lemma StrayRuns(maxDelay: nat, s: State, t: Token, c: Command)
    requires Formed(s) && (t, c) in s.strays
    ensures var s' := Step(maxDelay, s, RunStray(t, c));
            && s'.entry == Execute(s.entry, s.now, t, s.nodes[t].ttl, c).0
            && s'.nodes == s.nodes && s'.calls == s.calls && s'.strays == s.strays - multiset{(t, c)}
  {
    hide Execute;
  }

  /** `s'` is `s` when the request of call `id` has been answered at `now`, with `ok` read. */
  ghost predicate RequestDone(s: State, id: nat, now: nat, ok: bool, entry: Option<Entry>, s': State)
    requires id in s.calls && s.calls[id].token in s.nodes
  {
    var Call(t, stage, _) := s.calls[id];
    && Formed(s') && s'.now == now && s'.entry == entry
    && s'.nodes == (if ok then s.nodes[t := s.nodes[t].(deadline := Some(now + s.nodes[t].ttl))] else s.nodes)
    && s'.calls == (if stage.TryRenew? && !ok then s.calls[id := Call(t, TrySet, Pending)] else s.calls - {id})
  }

  lemma RequestSteps(maxDelay: nat, s: State, id: nat, wait: nat, delay: nat, fate: Fate)
    requires Formed(s) && id in s.calls && s.calls[id].reply.Pending? && delay <= maxDelay
    requires s.calls[id].stage.TryRenew? || s.calls[id].stage.TrySet?
    ensures var Call(t, stage, _) := s.calls[id];
            var (entry, ok) := Send(s.entry, s.now + wait, t, s.nodes[t].ttl, CommandOf(stage), fate);
            RequestDone(s, id, s.now + wait + delay, ok, entry, After(maxDelay, s, RequestRun(id, wait, delay, fate)))
  {
    assert s.calls[id].token in s.nodes;
    hide Step, After, RequestDone, Formed;
    if fate.Answered? {
      AnsweredSteps(maxDelay, s, id, wait, delay);
    } else {
      UnansweredSteps(maxDelay, s, id, wait, delay, fate);
    }
  }

  /** The cluster actions of one `try_acquire_or_renew` call: its start, its renewal, its SET. */
  function RenewalRun(id: nat, link: Link, at: Clock): seq<Action>
    requires InOrder(at)
  {
    RequestRun(id, at.renewRun - at.check, at.renewReply - at.renewRun, link.renewal)
  }

  function TryRest(entry: Option<Entry>, deadline: Option<nat>, t: Token, ttl: nat, id: nat, link: Link, at: Clock)
    : seq<Action>
    requires InOrder(at)
  {
    if !link.connects then []
    else if Expired(deadline, at.check) then
      RequestRun(id, at.setRun - at.check, at.setReply - at.setRun, link.acquisition)
    else if Send(entry, at.renewRun, t, ttl, Renew, link.renewal).1 then RenewalRun(id, link, at)
    else RenewalRun(id, link, at) + RequestRun(id, at.setRun - at.renewReply, at.setReply - at.setRun, link.acquisition)
  }

  function TryRun(entry: Option<Entry>, deadline: Option<nat>, t: Token, ttl: nat, id: nat, link: Link, at: Clock)
    : seq<Action>
    requires InOrder(at)
  {
    [BeginTry(t, id, link.connects)] + TryRest(entry, deadline, t, ttl, id, link, at)
  }

  ghost predicate Free(s: State, t: Token, id: nat) {
    Formed(s) && t in s.nodes && id !in s.calls
  }

  lemma BeginOutcome(maxDelay: nat, s: State, t: Token, id: nat, connects: bool)
    requires Free(s, t, id)
    ensures var expired := Expired(s.nodes[t].deadline, s.now);
            var s' := After(maxDelay, s, [BeginTry(t, id, connects)]);
            && Formed(s') && s'.now == s.now && s'.entry == s.entry
            && s'.nodes == s.nodes[t := s.nodes[t].(deadline := DropExpired(s.nodes[t].deadline, s.now))]
            && s'.calls ==
                 (if connects then s.calls[id := Call(t, if expired then TrySet else TryRenew, Pending)] else s.calls)
            && s'.calls - {id} == s.calls
  {
    AfterOne(maxDelay, s, BeginTry(t, id, connects));
  }

  /** State `s'` is `s` after a call of `t` with outcome `r`. */
  ghost predicate CallDone(s: State, t: Token, r: CallState, s': State)
    requires t in s.nodes
  {
    && Formed(s') && s'.entry == r.entry && s'.calls == s.calls
    && s'.nodes == s.nodes[t := s.nodes[t].(deadline := r.deadline)]
    && (r.result ==> r.deadline == Some(s'.now + s.nodes[t].ttl))
  }

  /** After its start, a call that skips the renewal. */
  lemma SetOnly(maxDelay: nat, s: State, s1: State, t: Token, id: nat, wait: nat, delay: nat, fate: Fate)
    requires t in s.nodes && t in s1.nodes && Formed(s1) && delay <= maxDelay && id !in s.calls
    requires s1.entry == s.entry && s1.calls == s.calls[id := Call(t, TrySet, Pending)]
    requires s1.nodes == s.nodes[t := s.nodes[t].(deadline := s1.nodes[t].deadline)]
    ensures var (entry, ok) := Send(s.entry, s1.now + wait, t, s.nodes[t].ttl, SetNx, fate);
            var deadline := if ok then Some(s1.now + wait + delay + s.nodes[t].ttl) else s1.nodes[t].deadline;
            CallDone(s, t, CallState(entry, deadline, ok), After(maxDelay, s1, RequestRun(id, wait, delay, fate)))
  {
    hide Step, After;
    RequestSteps(maxDelay, s1, id, wait, delay, fate);
    assert s1.calls - {id} == s.calls;
  }

  /** The renewal of a call that starts with one, and what it leaves for a SET. */
  lemma Renewal(maxDelay: nat, s: State, s1: State, t: Token, id: nat, link: Link, at: Clock) returns (s2: State)
    requires t in s.nodes && id !in s.calls && InOrder(at) && at.renewReply - at.renewRun <= maxDelay
    requires Formed(s1) && s1.now == at.check && s1.entry == s.entry && s1.nodes == s.nodes
    requires s1.calls == s.calls[id := Call(t, TryRenew, Pending)]
    ensures s2 == After(maxDelay, s1, RenewalRun(id, link, at))
    ensures var ttl := s.nodes[t].ttl;
            var (entry, renewed) := Send(s.entry, at.renewRun, t, ttl, Renew, link.renewal);
            && s2.now == at.renewReply
            && (renewed ==> CallDone(s, t, CallState(entry, Some(at.renewReply + ttl), true), s2))
            && (!renewed ==> Formed(s2) && s2.entry == entry && s2.nodes == s.nodes
                             && s2.calls == s.calls[id := Call(t, TrySet, Pending)])
  {
    hide Step, After;
    s2 := After(maxDelay, s1, RenewalRun(id, link, at));
    RequestSteps(maxDelay, s1, id, at.renewRun - at.check, at.renewReply - at.renewRun, link.renewal);
    assert s1.calls - {id} == s.calls;
  }

  /** After its start, a call that renews first. */
  lemma RenewFirst(maxDelay: nat, s: State, s1: State, t: Token, id: nat, link: Link, at: Clock)
    requires Free(s, t, id) && InOrder(at) && s.now == at.check && !Expired(s.nodes[t].deadline, s.now)
    requires at.renewReply - at.renewRun <= maxDelay && at.setReply - at.setRun <= maxDelay && link.connects
    requires Formed(s1) && s1.now == s.now && s1.entry == s.entry
    requires s1.calls == s.calls[id := Call(t, TryRenew, Pending)] && s1.nodes == s.nodes
    ensures var Node(ttl, deadline) := s.nodes[t];
            CallDone(s, t, TryCall(s.entry, deadline, t, ttl, link, at),
                     After(maxDelay, s1, TryRest(s.entry, deadline, t, ttl, id, link, at)))
  {
    hide Step, After, Formed;
    var s2 := Renewal(maxDelay, s, s1, t, id, link, at);
    if !Send(s.entry, at.renewRun, t, s.nodes[t].ttl, Renew, link.renewal).1 {
      var wait, delay := at.setRun - at.renewReply, at.setReply - at.setRun;
      AfterAppend(maxDelay, s1, RenewalRun(id, link, at), RequestRun(id, wait, delay, link.acquisition));
      SetOnly(maxDelay, s.(entry := s2.entry), s2, t, id, wait, delay, link.acquisition);
    }
  }

  /** What `try_acquire_or_renew` does to the key and to its own deadline is what that run does. */
  lemma TryCallIsARun(maxDelay: nat, s: State, t: Token, id: nat, link: Link, at: Clock)
    requires Free(s, t, id) && InOrder(at) && s.now == at.check
    requires at.renewReply - at.renewRun <= maxDelay && at.setReply - at.setRun <= maxDelay
    ensures var Node(ttl, deadline) := s.nodes[t];
            CallDone(s, t, TryCall(s.entry, deadline, t, ttl, link, at),
                     After(maxDelay, s, TryRun(s.entry, deadline, t, ttl, id, link, at)))
  {
    hide Step, After;
    var Node(ttl, deadline) := s.nodes[t];
    var begin := [BeginTry(t, id, link.connects)];
    BeginOutcome(maxDelay, s, t, id, link.connects);
    AfterAppend(maxDelay, s, begin, TryRest(s.entry, deadline, t, ttl, id, link, at));
    var s1 := After(maxDelay, s, begin);
    if link.connects {
      if Expired(deadline, at.check) {
        SetOnly(maxDelay, s, s1, t, id, at.setRun - at.check, at.setReply - at.setRun, link.acquisition);
      } else {
        assert s1.nodes == s.nodes;
        RenewFirst(maxDelay, s, s1, t, id, link, at);
      }
    } else {
      AfterNone(maxDelay, s1);
    }
  }

  // ---- Two nodes that both believe -----------------------------------------

  /** A call on a free key whose SET is answered after `delay`. */
  function Slow(now: nat, delay: nat): Clock {
    Clock(now, now, now, now, now + delay)
  }

  function Later(a: nat, b: nat): nat {
    if a > b then a else b
  }

  /** Node 0 acquires, its success reply takes the whole allowed delay, its lease runs out,
      and node 1 acquires. */
  function TwoLeadersRun(maxDelay: nat, ttl0: nat, ttl1: nat): seq<Action> {
    [Join(0, ttl0)] + ([Join(1, ttl1)]
    + (TryRun(None, None, 0, ttl0, 0, PERFECT, Slow(0, maxDelay))
    + ([Tick(Later(ttl0, maxDelay) - maxDelay)]
    + TryRun(Some(Entry(0, ttl0)), None, 1, ttl1, 0, PERFECT, Slow(Later(ttl0, maxDelay), 0)))))
  }

  lemma TwoJoined(maxDelay: nat, ttl0: nat, ttl1: nat, rest: seq<Action>)
    requires ttl0 >= 1 && ttl1 >= 1
    ensures var joined := INIT.(nodes := map[0 := Node(ttl0, None), 1 := Node(ttl1, None)]);
            Formed(joined) && After(maxDelay, INIT, [Join(0, ttl0)] + ([Join(1, ttl1)] + rest))
                == After(maxDelay, joined, rest)
  {
    var s0 := INIT.(nodes := map[0 := Node(ttl0, None)]);
    AfterFirst(maxDelay, INIT, [Join(0, ttl0)] + ([Join(1, ttl1)] + rest));
    assert Step(maxDelay, INIT, Join(0, ttl0)) == s0;
    AfterFirst(maxDelay, s0, [Join(1, ttl1)] + rest);
  }

  lemma TwoLeaders(maxDelay: nat, ttl0: nat, ttl1: nat)
    requires maxDelay > 0 && ttl0 >= 1 && ttl1 >= 1
    ensures var s := After(maxDelay, INIT, TwoLeadersRun(maxDelay, ttl0, ttl1));
            Believes(s, 0) && Believes(s, 1)
  {
    hide Step, After;
    var free := Later(ttl0, maxDelay);
    var first := TryRun(None, None, 0, ttl0, 0, PERFECT, Slow(0, maxDelay));
    var second := TryRun(Some(Entry(0, ttl0)), None, 1, ttl1, 0, PERFECT, Slow(free, 0));
    var tick := Tick(free - maxDelay);
    TwoJoined(maxDelay, ttl0, ttl1, first + ([tick] + second));
    var s1 := INIT.(nodes := map[0 := Node(ttl0, None), 1 := Node(ttl1, None)]);
    AfterAppend(maxDelay, s1, first, [tick] + second);
    TryCallIsARun(maxDelay, s1, 0, 0, PERFECT, Slow(0, maxDelay));
    var s2 := After(maxDelay, s1, first);
    assert s2.now == maxDelay;
    AfterFirst(maxDelay, s2, [tick] + second);
    var s3 := s2.(now := free);
    StepTick(maxDelay, s2, free - maxDelay);
    TryCallIsARun(maxDelay, s3, 1, 0, PERFECT, Slow(free, 0));
    var s4 := After(maxDelay, s3, second);
    assert s4.now == free;
  }

  lemma NobodyReleases(maxDelay: nat, ttl0: nat, ttl1: nat)
    ensures NoRelease(TwoLeadersRun(maxDelay, ttl0, ttl1))
  {
    TryReleasesNot(None, None, 0, ttl0, 0, PERFECT, Slow(0, maxDelay));
    TryReleasesNot(Some(Entry(0, ttl0)), None, 1, ttl1, 0, PERFECT, Slow(Later(ttl0, maxDelay), 0));
  }

  lemma TryReleasesNot(entry: Option<Entry>, deadline: Option<nat>, t: Token, ttl: nat, id: nat, link: Link, at: Clock)
    requires InOrder(at)
    ensures NoRelease(TryRun(entry, deadline, t, ttl, id, link, at))
  {
  }

  // ---- A call while a release is in flight ------------------------------------

  /** A leader releases with nothing in flight, renews before the deletion is run, and is deleted. */
  function RenewedDuringRelease(): seq<Action> {
    [Join(0, 5)] + (TryRun(None, None, 0, 5, 0, PERFECT, Slow(0, 0))
    + ([BeginRelease(0, 9, true)]
    + (TryRun(Some(Entry(0, 5)), None, 0, 5, 0, PERFECT, Slow(0, 0))
    + [Run(9)])))
  }

  /** Even with no reply delayed, the node believes in a lease that is gone. */
  lemma DeletedUnderBelief()
    ensures var s := After(0, INIT, RenewedDuringRelease());
            Believes(s, 0) && !Backed(0, s) && !SafeRun(0, INIT, RenewedDuringRelease())
  {
    hide Step, After;
    var try1 := TryRun(None, None, 0, 5, 0, PERFECT, Slow(0, 0));
    var try2 := TryRun(Some(Entry(0, 5)), None, 0, 5, 0, PERFECT, Slow(0, 0));
    var run := RenewedDuringRelease();
    var rest := try2 + [Run(9)];
    var s1 := INIT.(nodes := map[0 := Node(5, None)]);
    AfterFirst(0, INIT, run);
    JoinStep();
    AfterAppend(0, s1, try1, [BeginRelease(0, 9, true)] + rest);
    TryCallIsARun(0, s1, 0, 0, PERFECT, Slow(0, 0));
    var s2 := After(0, s1, try1);
    AfterFirst(0, s2, [BeginRelease(0, 9, true)] + rest);
    var s3 := Step(0, s2, BeginRelease(0, 9, true));
    ReleaseStep(s2);
    AfterAppend(0, s3, try2, [Run(9)]);
    TryCallIsARun(0, s3, 0, 0, PERFECT, Slow(0, 0));
    var s4 := After(0, s3, try2);
    AfterOne(0, s4, Run(9));
    DeleteStep(s4);
    if SafeRun(0, INIT, run) {
      BeliefIsBacked(0, run);
    }
  }

  lemma JoinStep()
    ensures Step(0, INIT, Join(0, 5)) == INIT.(nodes := map[0 := Node(5, None)])
  {
  }

  lemma ReleaseStep(s: State)
    requires Formed(s) && 0 in s.nodes && s.calls == map[]
    ensures var s' := Step(0, s, BeginRelease(0, 9, true));
            && Formed(s') && s'.now == s.now && s'.entry == s.entry
            && s'.nodes == s.nodes[0 := s.nodes[0].(deadline := None)]
            && s'.calls == map[9 := Call(0, Releasing, Pending)]
  {
  }

  lemma DeleteStep(s: State)
    requires Formed(s) && Holds(s.entry, s.now, 0) && 9 in s.calls && s.calls[9] == Call(0, Releasing, Pending)
    ensures var s' := Step(0, s, Run(9));
            s'.entry == None && s'.nodes == s.nodes && s'.now == s.now
  {
  }
}
