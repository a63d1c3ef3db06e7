/** The provider registry of core/src/rpc_provider.rs: its objects, and what each operation does to what they hold. */
module ProviderRegistry {
  import opened Wrappers
  import opened Numbers
  import opened ProviderStats
  import opened CircuitBreaker
  import opened Gossip
  import opened Sorting
  import opened Routing
  import opened RegistrySteps

  const EMA_WINDOW: nat := 20

  class ProviderState {
    const info: RpcProvider
    const source: string
    const stats: Stats
    var localScore: int
    var failures: nat
    var trippedAt: Option<nat>
    var latestLedger: nat
    var observations: map<string, Observation>

    constructor (info: RpcProvider, source: string, score: int)
      ensures this.info == info && fresh(stats) && stats.Valid() && stats.window == EMA_WINDOW
      ensures View() == Provider(info, source, Fresh(score), map[])
    {
      this.info, this.source, localScore, failures, trippedAt, latestLedger := info, source, score, 0, None, 0;
      observations := map[];
      stats := new Stats(EMA_WINDOW);
    }

    ghost function Health(): Health
      reads this
    {
      CircuitBreaker.Health(localScore, failures, trippedAt, latestLedger)
    }

    ghost function View(): Provider
      reads this
    {
      Provider(info, source, Health(), observations)
    }

    method ReportSuccess()
      modifies this
      ensures View() == old(View()).(health := Succeeded(old(View()).health))
    {
      failures := 0;
      localScore := RecoveredScore(localScore);
      trippedAt := None;
    }

    method ReportFailure(now: nat)
      modifies this
      ensures View() == old(View()).(health := Failed(old(View()).health, LOCAL_FAILURE_PENALTY, now))
    {
      failures := (failures + 1) % U64;
      localScore := AdjustScore(localScore, -LOCAL_FAILURE_PENALTY);
      if failures >= CIRCUIT_BREAKER_THRESHOLD {
        trippedAt := Some(now);
      }
    }

    /** What a health check does with the ledger the provider named, or with its failure to name one. */
    method TakeProbe(answer: Option<nat>, now: nat)
      modifies this
      ensures View() == old(View()).(health := ProbeTaken(old(View()).health, answer, now))
    {
      if answer.Some? {
        latestLedger := answer.value;
        failures := 0;
        localScore := AdjustScore(localScore, PROBE_SUCCESS_BONUS);
        trippedAt := None;
      } else {
        failures := (failures + 1) % U64;
        localScore := AdjustScore(localScore, -PROBE_FAILURE_PENALTY);
        if failures >= CIRCUIT_BREAKER_THRESHOLD {
          trippedAt := Some(now);
        }
      }
    }

    method IsProviderTripped(now: nat) returns (tripped: bool)
      modifies this
      ensures tripped == Refuses(old(View()).health, now)
      ensures View() == old(View()).(health := Checked(old(View()).health, now))
    {
      if trippedAt == None {
        return false;
      }
      if now >= trippedAt.value + CIRCUIT_BREAKER_COOLDOWN {
        trippedAt := None;
        return false;
      }
      return true;
    }

    method IsAvailable(now: nat) returns (available: bool)
      modifies this
      ensures available == Offered(old(View()).health, now)
      ensures View() == old(View()).(health := Checked(old(View()).health, now))
    {
      var tripped := IsProviderTripped(now);
      return !tripped && (localScore >= MIN_PROVIDER_SCORE || failures < CIRCUIT_BREAKER_THRESHOLD);
    }

    method Observe(source: string, o: Observation)
      modifies this
      ensures View() == Seen(old(View()), source, o)
    {
      observations := observations[source := o];
    }
  }

  class PeerState {
    const baseUrl: string
    var instanceId: Option<string>
    var score: int
    var failures: nat
    var lastSeenAt: Option<int>
    var discoveredFrom: set<string>
    var lastError: Option<string>

    constructor (baseUrl: string, instanceId: Option<string>)
      ensures this.baseUrl == baseUrl && View() == FreshPeer(instanceId)
    {
      this.baseUrl, this.instanceId, score, failures, lastSeenAt := baseUrl, instanceId, PEER_STARTING_SCORE, 0, None;
      discoveredFrom, lastError := {}, None;
    }

    ghost function View(): Peer
      reads this
    {
      Peer(instanceId, score, failures, lastSeenAt, discoveredFrom, lastError)
    }

    method Hear(instanceId: Option<string>, from: Option<string>)
      modifies this
      ensures View() == Heard(old(View()), instanceId, from)
    {
      if instanceId.Some? {
        this.instanceId := instanceId;
      }
      if from.Some? {
        discoveredFrom := discoveredFrom + {from.value};
      }
    }

    method ReportSuccess(now: int)
      modifies this
      ensures View() == PeerSucceeded(old(View()), now)
    {
      failures := 0;
      score := AdjustScore(score, PEER_SUCCESS_BONUS);
      lastSeenAt, lastError := Some(now), None;
    }

    method ReportFailure(error: string)
      modifies this
      ensures View() == PeerFailed(old(View()), error)
    {
      failures := (failures + 1) % U64;
      score := AdjustScore(score, -PEER_FAILURE_PENALTY);
      lastError := Some(error);
    }
  }

  class ProviderRegistry {
    var states: map<string, ProviderState>
    var peers: map<string, PeerState>
    const instanceId: string
    const own: Option<string>
    var latencyCursor: nat
    ghost var knownProviders: Providers     // what the objects hold
    ghost var knownPeers: Peers

    ghost predicate PeersHold()
      reads this`peers, this`knownPeers, peers.Values
    {
      && peers.Keys == knownPeers.Keys
      && (forall u :: u in peers ==> peers[u].baseUrl == u && peers[u].View() == knownPeers[u])
    }

    ghost predicate StatesHold()
      reads this`states, this`knownProviders, states.Values
    {
      && states.Keys == knownProviders.Keys
      && (forall u :: u in states ==> states[u].info.url == u && states[u].View() == knownProviders[u])
    }

    ghost predicate Valid()
      reads this, states.Values, peers.Values
    {
      latencyCursor < U64 && StatesHold() && PeersHold()
    }

    constructor (providers: seq<RpcProvider>, instanceId: string, publicBaseUrl: Option<string>, seedPeers: seq<string>)
      ensures Valid() && latencyCursor == 0 && this.instanceId == instanceId
      ensures own == if publicBaseUrl.Some? then Some(NormalizeBaseUrl(publicBaseUrl.value)) else None
      ensures knownProviders == Seeded(providers)
      ensures knownPeers == SeededPeers(seedPeers, publicBaseUrl)
      ensures fresh(states.Values) && fresh(peers.Values)
    {
      this.instanceId := instanceId;
      own := if publicBaseUrl.Some? then Some(NormalizeBaseUrl(publicBaseUrl.value)) else None;
      states, peers, latencyCursor, knownProviders, knownPeers := map[], map[], 0, map[], map[];
      new;
      SeedProviders(providers);
      SeedPeers(seedPeers, publicBaseUrl);
    }

    method SeedProviders(providers: seq<RpcProvider>)
      requires Valid() && states == map[]
      modifies this`states, this`knownProviders
      ensures Valid() && knownProviders == Seeded(providers)
      ensures forall u :: u in states ==> fresh(states[u])
    {
      hide Valid;
      Names();
      assert knownProviders == map[];
      for k := 0 to |providers|
        invariant Valid() && knownProviders == Seeded(providers[..k])
        invariant forall u :: u in states ==> fresh(states[u])
      {
        assert providers[..k + 1][..k] == providers[..k];
        Seed(providers[k]);
      }
      assert providers[..|providers|] == providers;
    }

    method Seed(info: RpcProvider)
      requires Valid()
      modifies this`states, this`knownProviders
      ensures Valid()
      ensures forall u :: u in states ==> fresh(states[u]) || (u in old(states) && states[u] == old(states)[u])
      ensures knownProviders ==
                old(knownProviders)[info.url := Provider(info, "seed", Fresh(LOCAL_PROVIDER_STARTING_SCORE), map[])]
    {
      hide PeersHold, PeerState.View, ProviderState.View;
      var state := new ProviderState(info, "seed", LOCAL_PROVIDER_STARTING_SCORE);
      states := states[info.url := state];
      knownProviders := knownProviders[info.url := Provider(info, "seed", Fresh(LOCAL_PROVIDER_STARTING_SCORE), map[])];
    }

    method SeedPeers(seedPeers: seq<string>, configured: Option<string>)
      requires Valid() && peers == map[]
      modifies this`peers, this`knownPeers
      ensures Valid() && PeersGrew() && knownPeers == SeededPeers(seedPeers, configured)
    {
      hide StatesHold, PeerState.View, ProviderState.View, NormalizeBaseUrl;
      for k := 0 to |seedPeers|
        invariant Valid() && PeersGrew() && knownPeers == SeededPeers(seedPeers[..k], configured)
      {
        assert seedPeers[..k + 1][..k] == seedPeers[..k];
        var url := NormalizeBaseUrl(seedPeers[k]);
        if url != "" && configured != Some(url) {
          var peer := new PeerState(url, None);
          peers := peers[url := peer];
          knownPeers := knownPeers[url := FreshPeer(None)];
        }
      }
      assert seedPeers[..|seedPeers|] == seedPeers;
    }

    ghost function StateAt(url: string): set<object>
      reads this
    {
      if url in states then {states[url]} else {}
    }

    method ReportSuccess(url: string)
      requires Valid()
      modifies this`knownProviders, StateAt(url)
      ensures Valid()
      ensures knownProviders == AfterSuccess(old(knownProviders), url)
    {
      hide ProviderState.View, PeersHold, Succeeded;
      if url in states {
        var state := states[url];
        state.ReportSuccess();
        knownProviders := AfterSuccess(knownProviders, url);
      }
    }

    method ReportFailure(url: string, now: nat)
      requires Valid()
      modifies this`knownProviders, StateAt(url)
      ensures Valid()
      ensures knownProviders == AfterFailure(old(knownProviders), url, now)
    {
      hide ProviderState.View, PeersHold, Failed;
      if url in states {
        var state := states[url];
        state.ReportFailure(now);
        knownProviders := AfterFailure(knownProviders, url, now);
      }
    }

    method TakeProbe(o: Outcome)
      requires Valid()
      modifies this`knownProviders, StateAt(o.url)
      ensures Valid()
      ensures knownProviders == Probe(old(knownProviders), o)
    {
      hide ProviderState.View, PeersHold, ProbeTaken;
      if o.url in states {
        var state := states[o.url];
        state.TakeProbe(o.answer, o.at);
        knownProviders := Probe(knownProviders, o);
      }
    }

    /** One round of health checks; the probes' outcomes come from outside. */
    method RunHealthChecks(outcomes: seq<Outcome>)
      requires Valid()
      modifies this`knownProviders, states.Values
      ensures Valid()
      ensures knownProviders == ProbeAll(old(knownProviders), outcomes)
    {
      hide PeersHold, StatesHold;
      for k := 0 to |outcomes|
        invariant Valid()
        invariant knownProviders == ProbeAll(old(knownProviders), outcomes[..k])
      {
        TakeProbe(outcomes[k]);
        assert outcomes[..k + 1][..k] == outcomes[..k];
      }
      assert outcomes[..|outcomes|] == outcomes;
    }

    // ---- Requests -------------------------------------------------------------------

    ghost function Rtts(): (rtts: map<string, Rtt>)
      reads this`states, set u | u in states :: states[u].stats
      ensures rtts.Keys == states.Keys
    {
      map u | u in states :: Rtt(states[u].stats.emaRttUs, states[u].stats.sampleCount)
    }

    method CheckAvailable(v: Visit) returns (available: bool)
      requires Valid() && v.url in states
      modifies this`knownProviders, states[v.url]
      ensures Valid()
      ensures available == Offered(old(knownProviders)[v.url].health, v.at)
      ensures knownProviders == CheckAt(old(knownProviders), v)
    {
      hide PeersHold, Offered, Checked, ProviderState.View, PeerState.View;
      var state := states[v.url];
      available := state.IsAvailable(v.at);
      knownProviders := CheckAt(knownProviders, v);
    }

    method CheckEach(visits: seq<Visit>) returns (offered: seq<bool>)
      requires Valid() && VisitsAll(knownProviders, visits)
      modifies this`knownProviders, states.Values
      ensures Valid()
      ensures knownProviders == CheckAll(old(knownProviders), visits)
      ensures |offered| == |visits|
      ensures forall k :: 0 <= k < |visits| ==>
                offered[k] == Offered(old(knownProviders)[visits[k].url].health, visits[k].at)
    {
      hide Valid, Offered, CheckAt, CheckAll, VisitsAll;
      ghost var before := knownProviders;
      Names();
      MustVisit(before, visits);
      NothingChecked(before, visits);
      offered := [];
      for k: nat := 0 to |visits|
        invariant Valid() && knownProviders == CheckAll(before, visits[..k])
        invariant |offered| == k
        invariant forall j :: 0 <= j < k ==> offered[j] == Offered(before[visits[j].url].health, visits[j].at)
      {
        CheckNext(before, visits, k);
        var ok := CheckAvailable(visits[k]);
        offered := offered + [ok];
      }
      assert visits[..|visits|] == visits;
    }

    /** The views of the providers visited, and the places of those available. */
    method ReadViews(visits: seq<Visit>, offered: seq<bool>, ghost before: Providers)
        returns (views: seq<ProviderView>, available: seq<nat>)
      requires |offered| == |visits| && forall k :: 0 <= k < |visits| ==>
                 visits[k].url in before && visits[k].url in states
      requires forall k :: 0 <= k < |visits| ==> offered[k] == Offered(before[visits[k].url].health, visits[k].at)
      requires forall u :: u in before && u in states ==> states[u].info == before[u].info
      ensures views == ViewsOf(before, Rtts(), visits) && available == Healthy(views)
    {
      hide Offered, Healthy, HealthyFrom, Found;
      ghost var all := ViewsOf(before, Rtts(), visits);
      NoneFound(all);
      views, available := [], [];
      for k: nat := 0 to |visits|
        invariant Found(all, k, views, available)
      {
        FindNext(all, k, views, available);
        var state := states[visits[k].url];
        views := views + [ProviderView(state.info.name, offered[k], state.stats.emaRttUs, state.stats.sampleCount)];
        if offered[k] {
          available := available + [k];
        }
      }
      AllFound(all, views, available);
    }

    twostate lemma RttsKept()
      requires unchanged(this`states) && forall u :: u in states ==> unchanged(states[u].stats)
      ensures Rtts() == old(Rtts())
    {
    }

    lemma Names()
      requires Valid()
      ensures peers.Keys == knownPeers.Keys
      ensures states.Keys == knownProviders.Keys && forall u :: u in states ==> states[u].info == knownProviders[u].info
    {
    }

    /** The providers to try, in order; the visits come in the hash map's iteration order. */
    method ProvidersByLatency(visits: seq<Visit>) returns (result: seq<RpcProvider>)
      requires Valid() && VisitsAll(knownProviders, visits)
      modifies this`knownProviders, this`latencyCursor, states.Values
      ensures Valid()
      ensures knownProviders == CheckAll(old(knownProviders), visits)
      ensures var views := ViewsOf(old(knownProviders), old(Rtts()), visits);
              && result == Infos(old(knownProviders), visits, LatencyOrder(views, old(latencyCursor)))
              && latencyCursor == NextCursor(views, old(latencyCursor))
    {
      hide Valid, Rtts, CheckAll, VisitsAll, Infos, ViewsOf, Healthy, NextCursor, Arranged, Offered;
      Names();
      ghost var before := knownProviders;
      MustVisit(before, visits);
      var offered := CheckEach(visits);
      RttsKept();
      var views, available := ReadViews(visits, offered, before);
      var order := Arrange(views, available);
      result := Read(before, visits, order);
    }

    method Arrange(views: seq<ProviderView>, available: seq<nat>) returns (order: seq<nat>)
      requires Valid() && available == Healthy(views)
      modifies this`latencyCursor
      ensures Valid()
      ensures order == LatencyOrder(views, old(latencyCursor)) && latencyCursor == NextCursor(views, old(latencyCursor))
    {
      hide PeersHold, StatesHold;
      AllWarmedIff(views);
      order := Arranged(views, latencyCursor, available);
      var warmed := forall k :: 0 <= k < |available| ==> views[available[k]].sampleCount >= MIN_SAMPLES_FOR_EMA;
      if available != [] && !warmed {
        latencyCursor := (latencyCursor + 1) % U64;
      }
    }

    lemma MustVisit(providers: Providers, visits: seq<Visit>)
      requires VisitsAll(providers, visits)
      ensures forall k :: 0 <= k < |visits| ==> visits[k].url in providers
    {
    }

    method Read(ghost before: Providers, visits: seq<Visit>, picks: seq<nat>) returns (infos: seq<RpcProvider>)
      requires forall u :: u in before ==> u in states && states[u].info == before[u].info
      requires forall k :: 0 <= k < |visits| ==> visits[k].url in before
      requires forall k :: 0 <= k < |picks| ==> picks[k] < |visits|
      ensures infos == Infos(before, visits, picks)
    {
      hide StatesHold, PeersHold;
      infos := [];
      for k := 0 to |picks|
        invariant infos == Infos(before, visits, picks)[..k]
      {
        infos := infos + [states[visits[picks[k]].url].info];
      }
    }

    // ---- Gossip ---------------------------------------------------------------------

    /** The objects of peers already known stay; others are new. */
    twostate predicate PeersGrew()
      reads this`peers
    {
      && (forall u :: u in old(peers) ==> u in peers && peers[u] == old(peers)[u])
      && (forall u :: u in peers && u !in old(peers) ==> fresh(peers[u]))
    }

    twostate predicate StatesGrew()
      reads this`states
    {
      && (forall u :: u in old(states) ==> u in states && states[u] == old(states)[u])
      && (forall u :: u in states && u !in old(states) ==> fresh(states[u]))
    }

    method GetOrInsertPeer(url: string, instanceId: Option<string>) returns (peer: PeerState)
      requires Valid()
      modifies this`peers, this`knownPeers
      ensures Valid() && PeersGrew() && url in peers && peer == peers[url]
      ensures knownPeers == if url in old(knownPeers) then old(knownPeers)
                else old(knownPeers)[url := FreshPeer(instanceId)]
    {
      hide StatesHold, PeerState.View, ProviderState.View;
      if url !in peers {
        peer := new PeerState(url, instanceId);
        peers := peers[url := peer];
        knownPeers := knownPeers[url := FreshPeer(instanceId)];
      } else {
        peer := peers[url];
      }
    }

    method Hear(url: string, instanceId: Option<string>, from: Option<string>)
      requires Valid() && url in peers
      modifies this`knownPeers, peers[url]
      ensures Valid()
      ensures url in old(knownPeers)
      ensures knownPeers == old(knownPeers)[url := Heard(old(knownPeers)[url], instanceId, from)]
    {
      hide StatesHold, Heard, PeerState.View, ProviderState.View;
      var peer := peers[url];
      peer.Hear(instanceId, from);
      knownPeers := knownPeers[url := Heard(knownPeers[url], instanceId, from)];
    }

    method RegisterPeer(baseUrl: string, instanceId: Option<string>, from: Option<string>)
      requires Valid()
      modifies this`peers, this`knownPeers, peers.Values
      ensures Valid() && PeersGrew()
      ensures knownPeers == Register(old(knownPeers), own, Announcement(baseUrl, instanceId, from))
    {
      hide Valid, NormalizeBaseUrl, Heard;
      var url := NormalizeBaseUrl(baseUrl);
      if url == "" || own == Some(url) {
        return;
      }
      var peer := GetOrInsertPeer(url, instanceId);
      Hear(url, instanceId, from);
    }

    method ReportPeerSuccess(baseUrl: string, now: int)
      requires Valid()
      modifies this`peers, this`knownPeers, peers.Values
      ensures Valid() && PeersGrew()
      ensures knownPeers == AfterContact(old(knownPeers), own, baseUrl, now)
    {
      hide Valid, NormalizeBaseUrl, Register, PeerSucceeded;
      var url := NormalizeBaseUrl(baseUrl);
      RegisterPeer(url, None, None);
      Names();
      if url in peers {
        Credit(url, now);
      }
    }

    method Credit(url: string, now: int)
      requires Valid() && url in peers
      modifies this`knownPeers, peers[url]
      ensures Valid()
      ensures url in old(knownPeers) && knownPeers == old(knownPeers)[url := PeerSucceeded(old(knownPeers)[url], now)]
    {
      hide StatesHold, PeerSucceeded, PeerState.View, ProviderState.View;
      var peer := peers[url];
      peer.ReportSuccess(now);
      knownPeers := knownPeers[url := PeerSucceeded(knownPeers[url], now)];
    }

    method ReportPeerFailure(baseUrl: string, error: string)
      requires Valid()
      modifies this`peers, this`knownPeers, peers.Values
      ensures Valid() && PeersGrew()
      ensures knownPeers == AfterError(old(knownPeers), own, baseUrl, error)
    {
      hide Valid, NormalizeBaseUrl, Register, PeerFailed;
      var url := NormalizeBaseUrl(baseUrl);
      RegisterPeer(url, None, None);
      Names();
      if url in peers {
        Blame(url, error);
      }
    }

    method Blame(url: string, error: string)
      requires Valid() && url in peers
      modifies this`knownPeers, peers[url]
      ensures Valid()
      ensures url in old(knownPeers) && knownPeers == old(knownPeers)[url := PeerFailed(old(knownPeers)[url], error)]
    {
      hide StatesHold, PeerFailed, PeerState.View, ProviderState.View;
      var peer := peers[url];
      peer.ReportFailure(error);
      knownPeers := knownPeers[url := PeerFailed(knownPeers[url], error)];
    }

    method GetOrInsertProvider(info: RpcProvider, source: string, score: int) returns (state: ProviderState)
      requires Valid()
      modifies this`states, this`knownProviders
      ensures Valid() && StatesGrew() && info.url in states && state == states[info.url]
      ensures knownProviders == if info.url in old(knownProviders) then old(knownProviders)
                                else old(knownProviders)[info.url := Provider(info, source, Fresh(score), map[])]
    {
      hide PeersHold, PeerState.View, ProviderState.View;
      if info.url in states {
        return states[info.url];
      }
      state := new ProviderState(info, source, score);
      states := states[info.url := state];
      knownProviders := knownProviders[info.url := Provider(info, source, Fresh(score), map[])];
    }

    method ObserveAt(url: string, source: string, o: Observation)
      requires Valid() && url in states
      modifies this`knownProviders, states[url]
      ensures Valid()
      ensures url in old(knownProviders)
      ensures knownProviders == old(knownProviders)[url := Seen(old(knownProviders)[url], source, o)]
    {
      hide PeersHold, PeerState.View, ProviderState.View, Seen;
      var state := states[url];
      state.Observe(source, o);
      knownProviders := knownProviders[url := Seen(knownProviders[url], source, o)];
    }

    method MergeProvider(p: ProviderSnapshot, source: string)
      requires Valid()
      modifies this`states, this`knownProviders, states.Values
      ensures Valid() && StatesGrew()
      ensures knownProviders == Gossip.Observe(old(knownProviders), source, p)
    {
      hide Valid, ObservationOf, Seen;
      var info := RpcProvider(p.name, p.url, None, None, Some(true));
      var state := GetOrInsertProvider(info, "gossip", DISCOVERED_PROVIDER_STARTING_SCORE);
      ObserveAt(p.url, source, ObservationOf(p));
    }

    method MergePeers(s: Snapshot)
      requires Valid()
      modifies this`peers, this`knownPeers, peers.Values
      ensures Valid() && PeersGrew()
      ensures knownPeers == RegisterAll(old(knownPeers), own, Announced(s))
    {
      hide Valid, Register, RegisterAll, NormalizeBaseUrl, Announced;
      ghost var ads := Announced(s);
      ghost var before := knownPeers;
      ghost var first := if s.baseUrl.Some? then 1 else 0;
      AnnouncedAre(s);
      NoneRegistered(before, own, ads);
      if s.baseUrl.Some? {
        RegisterNext(before, own, ads, 0);
        RegisterPeer(s.baseUrl.value, Some(s.instanceId), None);
      }
      for k := 0 to |s.peers|
        invariant Valid() && PeersGrew()
        invariant knownPeers == RegisterAll(before, own, ads[..first + k])
      {
        RegisterNext(before, own, ads, first + k);
        RegisterPeer(s.peers[k].baseUrl, s.peers[k].instanceId, s.baseUrl);
      }
      assert ads[..|ads|] == ads;
    }

    /** Take in a peer's snapshot; statistics, and the health of every provider, are out of its reach. */
    method MergeSnapshot(s: Snapshot)
      requires Valid()
      modifies this`states, this`knownProviders, this`peers, this`knownPeers, states.Values, peers.Values
      ensures Valid() && StatesGrew() && PeersGrew()
      ensures Gossip.Registry(knownProviders, knownPeers, own)
                == Merge(old(Gossip.Registry(knownProviders, knownPeers, own)), s)
    {
      hide Valid, Gossip.Observe, RegisterAll;
      MergePeers(s);
      ghost var before, met, files := knownProviders, knownPeers, peers;
      ghost var ps := s.providers;
      assert ps[..0] == [];
      for k := 0 to |s.providers|
        invariant Valid() && StatesGrew() && knownPeers == met && peers == files
        invariant knownProviders == ObserveAll(before, SourceOf(s), ps[..k])
      {
        assert ps[..k + 1][..k] == ps[..k];
        MergeProvider(s.providers[k], SourceOf(s));
      }
      assert ps[..|ps|] == ps;
    }
  }
}
