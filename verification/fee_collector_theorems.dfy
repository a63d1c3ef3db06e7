/** One collection cycle as a whole: progress, and when the collected ledgers have no gap. */
module FeeCollectorTheorems {
  import opened Wrappers
  import opened FeeCollector

  // ---- One cycle ----------------------------------------------------------------

  /** The last ledger that replay from `cursor` reaches: everything up to it was had, and the next was not. */
  function Reach(cursor: nat, latest: nat, w: World): (r: nat)
    requires cursor < latest
    ensures cursor <= r < latest
    ensures forall k: nat :: cursor < k <= r ==> w.Gets(k)
    ensures r + 1 < latest ==> !w.Gets(r + 1)
    decreases latest - cursor
  {
    if cursor + 1 < latest && w.Gets(cursor + 1) then Reach(cursor + 1, latest, w) else cursor
  }

  lemma {:induction false} CatchUpReaches(s: Collected, latest: nat, w: World)
    requires s.cursor < latest
    ensures var t, r := CatchUp(s, latest, w), Reach(s.cursor, latest, w);
            && t.cursor == r
            && (forall k: nat :: k in t.store <==> k in s.store || s.cursor < k <= r)
            && (forall k: nat :: k in t.store ==>
                  if s.cursor < k <= r then w.fetch(k) == Some(t.store[k])
                  else k in s.store && t.store[k] == s.store[k])
    decreases latest - s.cursor
  {
    if s.cursor + 1 < latest && w.Gets(s.cursor + 1) {
      CatchUpReaches(Collected(s.cursor + 1, s.store[s.cursor + 1 := w.fetch(s.cursor + 1).value]), latest, w);
    }
  }

  /** How far a cycle gets before it turns to the latest ledger; without a cursor there is no replay. */
  ghost function Replayed(s: Collected, w: World): nat
    requires w.latest.Some? && w.latest.value > Loaded(s, w)
  {
    if Loaded(s, w) > 0 then Reach(Loaded(s, w), w.latest.value, w) else 0
  }

  /** Exactly what a cycle stores, and where it leaves the cursor. */
  lemma CycleIs(s: Collected, w: World)
    requires w.latest.Some? && w.latest.value > Loaded(s, w)
    ensures var t, c, r, l := Cycle(s, w), Loaded(s, w), Replayed(s, w), w.latest.value;
            && t.cursor == (if w.Gets(l) then l else r)
            && (forall k: nat :: k in t.store <==> k in s.store || c < k <= r || (k == l && w.Gets(l)))
            && (forall k: nat :: k in t.store ==>
                  if c < k <= r || (k == l && w.Gets(l)) then w.fetch(k) == Some(t.store[k])
                  else k in s.store && t.store[k] == s.store[k])
  {
    CatchUpReaches(Collected(Loaded(s, w), s.store), w.latest.value, w);
  }

  /** A cycle never moves the cursor back, forgets no ledger, and leaves alone those up to the cursor it starts from. */
  lemma CycleProgresses(s: Collected, w: World)
    ensures var t := Cycle(s, w);
            && t.cursor >= s.cursor
            && (forall k :: k in s.store ==> k in t.store)
            && (forall k: nat :: k in s.store && k <= Loaded(s, w) ==> t.store[k] == s.store[k])
    ensures s.cursor > 0 ==> Loaded(s, w) == s.cursor
  {
    if w.latest.Some? && w.latest.value > Loaded(s, w) {
      CycleIs(s, w);
    }
  }

  // ---- Gaps -----------------------------------------------------------------------

  ghost predicate Interval(store: Store, lo: nat, hi: nat) {
    lo <= hi && forall k: nat :: k in store <==> lo <= k <= hi
  }

  /** The stored ledgers are all those from some first to some last. */
  ghost predicate Gapless(store: Store) {
    store == map[] || exists lo: nat, hi: nat :: Interval(store, lo, hi)
  }

  predicate Adjoins(store: Store, k: nat) {
    store == map[] || k in store || k + 1 in store || (k > 0 && k - 1 in store)
  }

  lemma AddedAdjoins(store: Store, lo: nat, hi: nat, k: nat, fees: Fees, lo': nat, hi': nat)
    requires Interval(store, lo, hi) && Interval(store[k := fees], lo', hi')
    ensures Adjoins(store, k)
  {
    var t := store[k := fees];
    assert lo in t && hi in t && k in t;
    assert k < lo ==> lo - 1 in t;
    assert k > hi ==> hi + 1 in t;
  }

  /** Adding a ledger to a gapless store leaves no gap exactly when it adjoins what is there. */
  lemma AddKeepsGaplessIff(store: Store, k: nat, fees: Fees)
    requires Gapless(store)
    ensures Gapless(store[k := fees]) <==> Adjoins(store, k)
  {
    var t := store[k := fees];
    if store == map[] {
      assert Interval(t, k, k);
    } else {
      var lo: nat, hi: nat :| Interval(store, lo, hi);
      if Gapless(t) {
        var lo': nat, hi': nat :| Interval(t, lo', hi');
        AddedAdjoins(store, lo, hi, k, fees, lo', hi');
      }
      if Adjoins(store, k) {
        assert Interval(t, if k < lo then k else lo, if k > hi then k else hi);
      }
    }
  }

  /** Replaying from a stored ledger leaves no gap. */
  lemma ReplayKeepsGapless(s: Collected, latest: nat, w: World)
    requires Gapless(s.store) && s.cursor in s.store && s.cursor < latest
    ensures Gapless(CatchUp(s, latest, w).store) && CatchUp(s, latest, w).cursor in CatchUp(s, latest, w).store
  {
    CatchUpReaches(s, latest, w);
    var lo: nat, hi: nat :| Interval(s.store, lo, hi);
    var r := Reach(s.cursor, latest, w);
    assert Interval(CatchUp(s, latest, w).store, lo, if r > hi then r else hi);
  }

  /** The cursor is 0 or a stored ledger. */
  predicate CursorStored(s: Collected) {
    s.cursor == 0 || s.cursor in s.store
  }

  /** The one step that can leave a gap, storing the latest ledger, is not taken unless it adjoins what is stored. */
  ghost predicate Clean(s: Collected, w: World) {
    StoresLatest(s, w) ==> Adjoins(Prepared(s, w.latest.value, w).store, w.latest.value)
  }

  lemma LoadedIsStored(s: Collected, w: World)
    requires CursorStored(s)
    ensures Loaded(s, w) == 0 || Loaded(s, w) in s.store
  {
  }

  lemma PreparedKeeps(s: Collected, w: World)
    requires CursorStored(s) && Gapless(s.store) && w.latest.Some? && w.latest.value > Loaded(s, w)
    ensures Gapless(Prepared(s, w.latest.value, w).store) && CursorStored(Prepared(s, w.latest.value, w))
  {
    LoadedIsStored(s, w);
    if Loaded(s, w) > 0 {
      ReplayKeepsGapless(Collected(Loaded(s, w), s.store), w.latest.value, w);
    }
  }

  /** Whatever fails or works, a cycle leaves a gap exactly when it is not clean. */
  lemma CycleKeepsGaplessIff(s: Collected, w: World)
    requires CursorStored(s) && Gapless(s.store)
    ensures CursorStored(Cycle(s, w))
    ensures Gapless(Cycle(s, w).store) <==> Clean(s, w)
  {
    LoadedIsStored(s, w);
    if w.latest.Some? && w.latest.value > Loaded(s, w) {
      var l := w.latest.value;
      PreparedKeeps(s, w);
      if w.Gets(l) {
        AddKeepsGaplessIff(Prepared(s, l, w).store, l, w.fetch(l).value);
      }
    }
  }

  /** From a cursor on the last stored ledger: no gap exactly when all missed ledgers were had, or the latest
      was not. */
  lemma CleanFromTheTopIff(s: Collected, lo: nat, w: World)
    requires s.cursor > 0 && Interval(s.store, lo, s.cursor) && w.latest.Some? && w.latest.value > s.cursor
    ensures Clean(s, w) <==>
              (w.Gets(w.latest.value) ==> forall k: nat :: s.cursor < k < w.latest.value ==> w.Gets(k))
  {
    var l := w.latest.value;
    CatchUpReaches(s, l, w);
    assert Prepared(s, l, w) == CatchUp(s, l, w);
    assert s.cursor in s.store;
    assert Reach(s.cursor, l, w) + 1 < l ==> !w.Gets(Reach(s.cursor, l, w) + 1);
  }

  // ---- A single collector ------------------------------------------------------------

  /** Database reads work, and so does every catch-up fetch and save of the cycle; the latest ledger may fail. */
  ghost predicate CatchUpSucceeds(s: Collected, w: World) {
    w.databaseReads && (w.latest.Some? ==> forall k: nat :: Loaded(s, w) < k < w.latest.value ==> w.Gets(k))
  }

  /** The database is empty and the cursor 0, or the cursor is 0 or on the last of consecutive ledgers, none of
      them 0. */
  ghost predicate OnTop(s: Collected) {
    if s.store == map[] then s.cursor == 0
    else exists lo: nat, hi: nat :: 0 < lo && Interval(s.store, lo, hi) && (s.cursor == 0 || s.cursor == hi)
  }

  /** With catch-up working, a single collector's ledgers are consecutive and end at its cursor once that is loaded. */
  lemma CycleStaysOnTop(s: Collected, w: World)
    requires OnTop(s) && CatchUpSucceeds(s, w)
    ensures OnTop(Cycle(s, w))
  {
    if s.store == map[] {
      if w.latest.Some? && w.latest.value > 0 {
        CycleIs(s, w);
        if w.Gets(w.latest.value) {
          assert Interval(Cycle(s, w).store, w.latest.value, w.latest.value);
        } else {
          assert Cycle(s, w).store == map[];
        }
      }
    } else {
      var lo: nat, hi: nat :| 0 < lo && Interval(s.store, lo, hi) && (s.cursor == 0 || s.cursor == hi);
      assert hi in s.store.Keys;
      assert Loaded(s, w) == hi;
      if w.latest.Some? && w.latest.value > hi {
        CycleIs(s, w);
        var l := w.latest.value;
        assert Replayed(s, w) == l - 1;
        assert Interval(Cycle(s, w).store, lo, if w.Gets(l) then l else l - 1);
      } else {
        assert Interval(Cycle(s, w).store, lo, hi);
      }
    }
  }

  /** A collector runs cycles and is restarted, which forgets its cursor. */
  datatype Event = CycleRuns(w: World) | Restart

  ghost function Next(s: Collected, e: Event): Collected {
    if e.CycleRuns? then Cycle(s, e.w) else s.(cursor := 0)
  }

  ghost function AfterEvents(s: Collected, run: seq<Event>): Collected {
    if run == [] then s else Next(AfterEvents(s, run[..|run| - 1]), run[|run| - 1])
  }

  /** Every cycle of the run succeeds in catching up. */
  ghost predicate AlwaysCatchesUp(s: Collected, run: seq<Event>) {
    run != [] ==>
      && AlwaysCatchesUp(s, run[..|run| - 1])
      && (run[|run| - 1].CycleRuns? ==> CatchUpSucceeds(AfterEvents(s, run[..|run| - 1]), run[|run| - 1].w))
  }

  lemma {:induction false} SingleCollectorStaysOnTop(s: Collected, run: seq<Event>)
    requires OnTop(s) && AlwaysCatchesUp(s, run)
    ensures OnTop(AfterEvents(s, run))
    decreases |run|
  {
    if run != [] {
      var before, e := run[..|run| - 1], run[|run| - 1];
      SingleCollectorStaysOnTop(s, before);
      if e.CycleRuns? {
        CycleStaysOnTop(AfterEvents(s, before), e.w);
      }
    }
  }
}
