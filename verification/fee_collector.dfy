/** The ledger fee collector of core/src/fee_collector.rs: one collection cycle. */
module FeeCollector {
  import opened Wrappers

  /** The fee figures of one ledger. */
  datatype Fees = Fees(baseFee: int, maxFee: int, feeCharged: int, transactions: nat)

  datatype FeeCollectorError = RpcFailed | StoreFailed

  /** The samples by ledger sequence, which is their key in the database. */
  type Store = map<nat, Fees>

  /** What the RPC node and the database do during a cycle: each fetch and each save works or fails. */
  datatype World = World(latest: Option<nat>, databaseReads: bool, fetch: nat -> Option<Fees>, saves: nat -> bool) {
    predicate Gets(sequence: nat) { fetch(sequence).Some? && saves(sequence) }

    /** The fees of a ledger that was fetched and saved. */
    function Had(sequence: nat): Option<Fees> { if saves(sequence) then fetch(sequence) else None }
  }

  datatype Collected = Collected(cursor: nat, store: Store)

  ghost function MaxOf(s: set<nat>): (m: nat)
    requires s != {}
    ensures m in s && forall x :: x in s ==> x <= m
  {
    var x :| x in s;
    if s == {x} then x
    else
      assert s == (s - {x}) + {x};
      var rest := MaxOf(s - {x});
      if rest > x then rest else x
  }

  /** The cursor, read from the database while it is 0. */
  ghost function LoadedCursor(s: Collected, databaseReads: bool): nat {
    if s.cursor == 0 && databaseReads && s.store != map[] then MaxOf(s.store.Keys) else s.cursor
  }

  ghost function Loaded(s: Collected, w: World): nat {
    LoadedCursor(s, w.databaseReads)
  }

  /** Replay of the ledgers after the cursor and before `latest`, up to the first that cannot be had. */
  function CatchUp(s: Collected, latest: nat, w: World): Collected
    decreases latest - s.cursor
  {
    if s.cursor + 1 < latest && w.Gets(s.cursor + 1) then
      CatchUp(Collected(s.cursor + 1, s.store[s.cursor + 1 := w.fetch(s.cursor + 1).value]), latest, w)
    else s
  }

  /** The state in which the latest ledger is fetched: after loading the cursor and catching up. */
  ghost function Prepared(s: Collected, latest: nat, w: World): Collected {
    var loaded := Collected(Loaded(s, w), s.store);
    if loaded.cursor > 0 then CatchUp(loaded, latest, w) else loaded
  }

  ghost function Cycle(s: Collected, w: World): Collected {
    if w.latest.None? then s
    else if w.latest.value <= Loaded(s, w) then Collected(Loaded(s, w), s.store)
    else
      var latest, t := w.latest.value, Prepared(s, w.latest.value, w);
      if w.Gets(latest) then Collected(latest, t.store[latest := w.fetch(latest).value]) else t
  }

  /** A cycle ends by storing the latest ledger. */
  ghost predicate StoresLatest(s: Collected, w: World) {
    w.latest.Some? && w.latest.value > Loaded(s, w) && w.Gets(w.latest.value)
  }

  class FeeCollector {
    var lastCollected: nat
    var store: Store

    constructor (store: Store)
      ensures State() == Collected(0, store)
    {
      lastCollected, this.store := 0, store;
    }

    ghost function State(): Collected
      reads this
    {
      Collected(lastCollected, store)
    }

    method LatestStored() returns (latest: Option<nat>)
      ensures latest == if store == map[] then None else Some(MaxOf(store.Keys))
    {
      latest := None;
      var rest := store.Keys;
      while rest != {}
        invariant rest <= store.Keys
        invariant latest == None ==> rest == store.Keys
        invariant latest.Some? ==> latest.value in store && forall x :: x in store && x !in rest ==> x <= latest.value
        decreases |rest|
      {
        var x :| x in rest;
        rest := rest - {x};
        if latest == None || x > latest.value {
          latest := Some(x);
        }
      }
      assert store == map[] <==> store.Keys == {};
      assert latest.Some? ==> store.Keys != {} && latest.value <= MaxOf(store.Keys) <= latest.value;
    }

    /** Whether a new ledger was stored; an error ends the cycle early. */
    method CollectLatestFees(w: World) returns (r: Result<bool, FeeCollectorError>)
      modifies this
      ensures State() == Cycle(old(State()), w)
      ensures r == Ok(true) <==> StoresLatest(old(State()), w)
      ensures r == Ok(false) <==> w.latest.Some? && w.latest.value <= Loaded(old(State()), w)
    {
      if w.latest == None {
        return Err(RpcFailed);
      }
      var latest := w.latest.value;
      var cursor := lastCollected;
      if cursor == 0 && w.databaseReads {
        var stored := LatestStored();
        if stored.Some? {
          cursor := stored.value;
          lastCollected := cursor;
        }
      }
      if latest <= cursor {
        return Ok(false);
      }
      if cursor > 0 && latest > cursor + 1 {
        ghost var loaded := State();
        var next := cursor + 1;
        while next <= latest - 1
          invariant next == lastCollected + 1 <= latest
          invariant CatchUp(State(), latest, w) == CatchUp(loaded, latest, w)
        {
          var fees := w.fetch(next);
          if fees == None || !w.saves(next) {
            break;
          }
          store := store[next := fees.value];
          lastCollected := next;
          next := next + 1;
        }
      }
      var fees := w.fetch(latest);
      if fees == None {
        return Err(RpcFailed);
      }
      if !w.saves(latest) {
        return Err(StoreFailed);
      }
      store := store[latest := fees.value];
      lastCollected := latest;
      return Ok(true);
    }

    /** Re-index one ledger; the cursor plays no part. */
    method FetchAndStoreLedger(sequence: nat, w: World) returns (r: Result<(), FeeCollectorError>)
      modifies this`store
      ensures r.Ok? <==> w.Gets(sequence)
      ensures store == if w.Gets(sequence) then old(store)[sequence := w.fetch(sequence).value] else old(store)
    {
      var fees := w.fetch(sequence);
      if fees == None {
        return Err(RpcFailed);
      }
      if !w.saves(sequence) {
        return Err(StoreFailed);
      }
      store := store[sequence := fees.value];
      return Ok(());
    }
  }
}
