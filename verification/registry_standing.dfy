/** What runs of the registry of core/src/rpc_provider.rs leave of its peers, seeds and request order, in numbers. */
module RegistryStanding {
  import opened Wrappers
  import opened Numbers
  import opened CircuitBreaker
  import opened Gossip
  import opened GossipTheorems
  import opened Routing
  import opened RegistrySteps
  import opened RegistryRuns

  function Min(a: int, b: int): int {
    if a < b then a else b
  }

  function Max(a: int, b: int): int {
    if a > b then a else b
  }

  // ---- One contact --------------------------------------------------------------------

  /** An answer or an error of a known peer. */
  lemma ContactInNumbers(p: Peer, at: int, error: string)
    requires 0 <= p.score <= 100 && p.failures < 0xFFFF_FFFF_FFFF_FFFF
    ensures PeerSucceeded(p, at) == Peer(p.instanceId, Min(100, p.score + 8), 0, Some(at), p.discoveredFrom, None)
    ensures PeerFailed(p, error) ==
              Peer(p.instanceId, Max(0, p.score - 20), p.failures + 1, p.lastSeenAt, p.discoveredFrom, Some(error))
  {
  }

  // ---- A peer over every run ------------------------------------------------------------

  predicate Reaches(url: string, op: Op) {
    op.Contact? && NormalizeBaseUrl(op.baseUrl) == url
  }

  predicate Misses(url: string, op: Op) {
    op.ContactError? && NormalizeBaseUrl(op.baseUrl) == url
  }

  /** When the peer was reached last. */
  function LastContact(url: string, ops: seq<Op>): Option<int> {
    if ops == [] then None
    else if Reaches(url, ops[|ops| - 1]) then Some(ops[|ops| - 1].Time())
    else LastContact(url, ops[..|ops| - 1])
  }

  /** How often it has been missed since. */
  function ErrorsSince(url: string, ops: seq<Op>): (n: nat)
    ensures n <= |ops|
  {
    if ops == [] || Reaches(url, ops[|ops| - 1]) then 0
    else ErrorsSince(url, ops[..|ops| - 1]) + (if Misses(url, ops[|ops| - 1]) then 1 else 0)
  }

  /** What the latest of these errors said. */
  function ErrorSince(url: string, ops: seq<Op>): Option<string> {
    if ops == [] || Reaches(url, ops[|ops| - 1]) then None
    else if Misses(url, ops[|ops| - 1]) then Some(ops[|ops| - 1].error)
    else ErrorSince(url, ops[..|ops| - 1])
  }

  function Standing(start: int, url: string, ops: seq<Op>): int {
    if ops == [] then start
    else
      var before := Standing(start, url, ops[..|ops| - 1]);
      if Reaches(url, ops[|ops| - 1]) then Min(100, before + 8)
      else if Misses(url, ops[|ops| - 1]) then Max(0, before - 20)
      else before
  }

  /** `after` has the standing that a peer like `before` has at the end of `ops`. */
  predicate Stands(before: Peer, url: string, ops: seq<Op>, after: Peer) {
    && after.score == Standing(before.score, url, ops) && 0 <= after.score <= 100
    && after.failures == ErrorsSince(url, ops) + (if LastContact(url, ops).Some? then 0 else before.failures)
    && after.lastSeenAt == Or(LastContact(url, ops), before.lastSeenAt)
    && after.lastError ==
         Or(ErrorSince(url, ops), if LastContact(url, ops).Some? then None else before.lastError)
  }

  predicate SameStanding(a: Peer, b: Peer) {
    a.score == b.score && a.failures == b.failures && a.lastSeenAt == b.lastSeenAt && a.lastError == b.lastError
  }

  /** An operation that neither reaches nor misses a peer leaves its standing; a new peer has none to lose. */
  lemma OthersStandAsBefore(r: Registry, op: Op, url: string)
    requires !Reaches(url, op) && !Misses(url, op) && url in Apply(r, op).peers
    ensures SameStanding(Apply(r, op).peers[url], PeerIn(r.peers, url))
  {
    hide NormalizeBaseUrl;
    if op.MergeSnapshot? {
      PeerAfter(r.peers, r.own, Announced(op.snapshot), url);
    }
  }

  lemma OwnContact(r: Registry, op: Op, url: string)
    requires Reaches(url, op) || Misses(url, op)
    requires url in Apply(r, op).peers && (url in r.peers || NormalizeBaseUrl(url) == url)
    requires 0 <= PeerIn(r.peers, url).score <= 100 && PeerIn(r.peers, url).failures + 1 < U64
    ensures var p := PeerIn(r.peers, url);
            SameStanding(Apply(r, op).peers[url],
                         if Reaches(url, op) then PeerSucceeded(p, op.Time()) else PeerFailed(p, op.error))
  {
    hide NormalizeBaseUrl;
  }

  /** A peer that is not known, but is nobody's own URL, has been neither reached nor missed. */
  lemma {:induction false} UnknownIsUntouched(r: Registry, ops: seq<Op>, url: string)
    requires NormalizeBaseUrl(url) == url != "" && r.own != Some(url)
    requires url !in ApplyAll(r, ops).peers
    ensures url !in r.peers && LastContact(url, ops) == None && ErrorsSince(url, ops) == 0
    ensures ErrorSince(url, ops) == None && forall start :: Standing(start, url, ops) == start
    decreases |ops|
  {
    hide NormalizeBaseUrl;
    if ops != [] {
      var before, op := ApplyAll(r, ops[..|ops| - 1]), ops[|ops| - 1];
      OwnIsKept(r, ops[..|ops| - 1]);
      PeersAreKept(before, op, url);
      UnknownIsUntouched(r, ops[..|ops| - 1], url);
    }
  }

  lemma {:induction false} OwnIsKept(r: Registry, ops: seq<Op>)
    ensures ApplyAll(r, ops).own == r.own
    decreases |ops|
  {
    if ops != [] {
      OwnIsKept(r, ops[..|ops| - 1]);
    }
  }

  lemma PeersAreKept(r: Registry, op: Op, url: string)
    ensures url in r.peers ==> url in Apply(r, op).peers
  {
    if op.MergeSnapshot? {
      MergeKeepsPeers(r, op.snapshot, url);
    }
  }

  /**
   * Over every run a peer's failures are its errors since it was last reached, its last contact and last error are
   * those of the run, and its score has moved by 8 up or 20 down at a time, within 0..100; a peer learnt on the way
   * starts at 60.  Nothing else moves any of these.
   */
  lemma {:induction false} PeerStands(r: Registry, ops: seq<Op>, url: string)
    requires url in r.peers || (NormalizeBaseUrl(url) == url != "" && r.own != Some(url))
    requires ScoresInRange(r.peers) && (url in r.peers ==> r.peers[url].failures + |ops| < U64) && |ops| < U64
    requires url in ApplyAll(r, ops).peers
    ensures Stands(if url in r.peers then r.peers[url] else Peer(None, 60, 0, None, {}, None), url, ops,
                   ApplyAll(r, ops).peers[url])
    decreases |ops|
  {
    hide NormalizeBaseUrl, Apply, Stands;
    var start := PeerIn(r.peers, url);
    if ops == [] {
      NothingHappened(start, url);
    } else {
      var first, op := ops[..|ops| - 1], ops[|ops| - 1];
      var before := ApplyAll(r, first);
      PeersStay(r, first, url);
      OwnIsKept(r, first);
      if url in before.peers {
        PeerStands(r, first, url);
      } else {
        UnknownIsUntouched(r, first, url);
        NewStands(start, url, first);
      }
      StandsNext(before, ops, url, start);
    }
  }

  lemma NothingHappened(start: Peer, url: string)
    requires 0 <= start.score <= 100
    ensures Stands(start, url, [], start)
  {
  }

  lemma NewStands(start: Peer, url: string, ops: seq<Op>)
    requires 0 <= start.score <= 100
    requires LastContact(url, ops) == None && ErrorsSince(url, ops) == 0 && ErrorSince(url, ops) == None
    requires Standing(start.score, url, ops) == start.score
    ensures Stands(start, url, ops, start)
  {
  }

  lemma StandsNext(before: Registry, ops: seq<Op>, url: string, start: Peer)
    requires ops != [] && start.failures + |ops| < U64
    requires Stands(start, url, ops[..|ops| - 1], PeerIn(before.peers, url))
    requires url in Apply(before, ops[|ops| - 1]).peers
    requires url in before.peers || NormalizeBaseUrl(url) == url
    ensures Stands(start, url, ops, Apply(before, ops[|ops| - 1]).peers[url])
  {
    hide NormalizeBaseUrl, Apply;
    var op, p := ops[|ops| - 1], PeerIn(before.peers, url);
    if Reaches(url, op) || Misses(url, op) {
      OwnContact(before, op, url);
      ContactInNumbers(p, op.Time(), if op.ContactError? then op.error else "");
    } else {
      OthersStandAsBefore(before, op, url);
    }
  }

  lemma {:induction false} PeersStay(r: Registry, ops: seq<Op>, url: string)
    ensures url in r.peers ==> url in ApplyAll(r, ops).peers
    decreases |ops|
  {
    hide NormalizeBaseUrl, Apply;
    if ops != [] {
      PeersStay(r, ops[..|ops| - 1], url);
      PeersAreKept(ApplyAll(r, ops[..|ops| - 1]), ops[|ops| - 1], url);
    }
  }

  lemma {:induction false} StandingIsInRange(start: int, url: string, ops: seq<Op>)
    requires 0 <= start <= 100
    ensures 0 <= Standing(start, url, ops) <= 100
    decreases |ops|
  {
    hide Reaches, Misses;
    if ops != [] {
      StandingIsInRange(start, url, ops[..|ops| - 1]);
    }
  }

  /** Since its last contact a peer has lost 20 for each error, down to zero. */
  lemma {:induction false} StandingSinceContact(start: int, url: string, ops: seq<Op>, i: nat)
    requires 0 <= start <= 100
    requires i < |ops| && Reaches(url, ops[i]) && forall k :: i < k < |ops| ==> !Reaches(url, ops[k])
    ensures Standing(start, url, ops) ==
              Max(0, Min(100, Standing(start, url, ops[..i]) + 8) - 20 * ErrorsSince(url, ops))
    ensures LastContact(url, ops) == Some(ops[i].Time())
    decreases |ops|
  {
    hide Reaches, Misses;
    var first := ops[..|ops| - 1];
    if i < |first| {
      assert first[..i] == ops[..i];
      StandingSinceContact(start, url, first, i);
    } else {
      StandingIsInRange(start, url, first);
    }
  }

  // ---- Providers ------------------------------------------------------------------------

  /** No run changes a known provider's name, URL, credentials or source; only merges change what peers say of it. */
  lemma {:induction false} IdentityIsKept(r: Registry, ops: seq<Op>, url: string)
    requires url in r.providers
    ensures url in ApplyAll(r, ops).providers
    ensures var before, after := r.providers[url], ApplyAll(r, ops).providers[url];
            && after.info == before.info && after.source == before.source
            && ((forall k :: 0 <= k < |ops| ==> !ops[k].MergeSnapshot?) ==> after.observations == before.observations)
    decreases |ops|
  {
    hide Merge, Succeeded, Failed, Checked, Probed;
    if ops != [] {
      var before, op := ApplyAll(r, ops[..|ops| - 1]), ops[|ops| - 1];
      IdentityIsKept(r, ops[..|ops| - 1], url);
      if op.MergeSnapshot? {
        MergeKeepsKnown(before, op.snapshot, url);
      }
    }
  }

  /** Of several seeds with one URL the last stays; every seed provider starts at 70, with nothing counted. */
  lemma {:induction false} LastSeedStays(seeds: seq<RpcProvider>, i: nat)
    requires i < |seeds| && forall k :: i < k < |seeds| ==> seeds[k].url != seeds[i].url
    ensures seeds[i].url in Seeded(seeds)
    ensures Seeded(seeds)[seeds[i].url] == Provider(seeds[i], "seed", Health(70, 0, None, 0), map[])
    decreases |seeds|
  {
    if i < |seeds| - 1 {
      LastSeedStays(seeds[..|seeds| - 1], i);
    }
  }

  lemma {:induction false} OnlySeedsAreKnown(seeds: seq<RpcProvider>, url: string)
    ensures url in Seeded(seeds) ==> exists k :: 0 <= k < |seeds| && seeds[k].url == url
    decreases |seeds|
  {
    if seeds != [] {
      OnlySeedsAreKnown(seeds[..|seeds| - 1], url);
    }
  }

  // ---- Requests -------------------------------------------------------------------------

  /** The provider visited at place `k` was offered then. */
  predicate OfferedAt(providers: Providers, visits: seq<Visit>, k: nat)
    requires k < |visits| && visits[k].url in providers
  {
    Offered(providers[visits[k].url].health, visits[k].at)
  }

  /** With five samples for each offered provider a request's list runs by average latency, then by place. */
  lemma RequestRunsByLatency(providers: Providers, rtts: map<string, Rtt>, visits: seq<Visit>, cursor: nat,
                             a: nat, b: nat)
    requires VisitsAll(providers, visits) && rtts.Keys == providers.Keys
    requires forall k: nat :: k < |visits| && OfferedAt(providers, visits, k) ==> rtts[visits[k].url].samples >= 5
    requires a < b < |LatencyOrder(ViewsOf(providers, rtts, visits), cursor)|
    ensures var order := LatencyOrder(ViewsOf(providers, rtts, visits), cursor);
            && order[a] < |visits| && order[b] < |visits|
            && var x, y := rtts[visits[order[a]].url].emaRttUs, rtts[visits[order[b]].url].emaRttUs;
               x < y || (x == y && order[a] < order[b])
    ensures NextCursor(ViewsOf(providers, rtts, visits), cursor) == cursor
  {
    hide LatencyOrder;
    var views := ViewsOf(providers, rtts, visits);
    forall k | 0 <= k < |views| && views[k].isHealthy ensures views[k].sampleCount > 4 {
      assert OfferedAt(providers, visits, k);
    }
    WarmedIs(views);
    WarmedOrderIsByLatency(views, cursor, a, b);
    OnceEach(LatencyOrder(views, cursor), Healthy(views));
  }

  lemma CursorMovesOn(views: seq<ProviderView>, cursor: nat)
    requires Healthy(views) != [] && !AllWarmed(views) && cursor < U64
    ensures NextCursor(views, cursor) == if cursor == 0xFFFF_FFFF_FFFF_FFFF then 0 else cursor + 1
  {
  }

  /** With fewer samples for one of them the list starts at the cursor's place, and the cursor moves on. */
  lemma RequestTakesTurns(providers: Providers, rtts: map<string, Rtt>, visits: seq<Visit>, cursor: nat, cold: nat)
    requires VisitsAll(providers, visits) && rtts.Keys == providers.Keys && cursor < U64
    requires cold < |visits| && OfferedAt(providers, visits, cold) && rtts[visits[cold].url].samples < 5
    ensures var views := ViewsOf(providers, rtts, visits);
            var h := Healthy(views);
            && h != [] && LatencyOrder(views, cursor) == h[cursor % |h|..] + h[..cursor % |h|]
            && NextCursor(views, cursor) == (if cursor == 0xFFFF_FFFF_FFFF_FFFF then 0 else cursor + 1)
            && (forall j, k :: 0 <= j < k < |h| ==> h[j] < h[k])
            && (forall k: nat :: k in h <==> k < |visits| && OfferedAt(providers, visits, k))
  {
    var views := ViewsOf(providers, rtts, visits);
    hide LatencyOrder, Offered;
    assert views[cold].isHealthy && cold in Healthy(views);
    WarmedIs(views);
    Rotated(views, cursor);
    CursorMovesOn(views, cursor);
    hide NextCursor;
  }
}
