/** What the operations of the provider registry do to the providers and peers it holds (core/src/rpc_provider.rs). */
module RegistrySteps {
  import opened Wrappers
  import opened Numbers
  import opened ProviderStats
  import opened CircuitBreaker
  import opened Gossip
  import opened Routing

  const PEER_SUCCESS_BONUS: int := 8
  const PEER_FAILURE_PENALTY: int := 20

  function ProbeTaken(h: Health, answer: Option<nat>, now: nat): Health {
    if answer.Some? then Probed(h, answer.value) else Failed(h, PROBE_FAILURE_PENALTY, now)
  }

  function AfterSuccess(providers: Providers, url: string): Providers {
    if url in providers then providers[url := providers[url].(health := Succeeded(providers[url].health))]
    else providers
  }

  function AfterFailure(providers: Providers, url: string, now: nat): Providers {
    if url in providers then
      providers[url := providers[url].(health := Failed(providers[url].health, LOCAL_FAILURE_PENALTY, now))]
    else providers
  }

  /** What one provider's health check found: its ledger if it answered, and when. */
  datatype Outcome = Outcome(url: string, answer: Option<nat>, at: nat)

  function Probe(providers: Providers, o: Outcome): Providers {
    if o.url in providers then
      providers[o.url := providers[o.url].(health := ProbeTaken(providers[o.url].health, o.answer, o.at))]
    else providers
  }

  function ProbeAll(providers: Providers, outcomes: seq<Outcome>): Providers {
    if outcomes == [] then providers
    else Probe(ProbeAll(providers, outcomes[..|outcomes| - 1]), outcomes[|outcomes| - 1])
  }

  /** One provider visited by a request, at some time. */
  datatype Visit = Visit(url: string, at: nat)

  ghost predicate VisitsAll(providers: Providers, visits: seq<Visit>) {
    && (forall k :: 0 <= k < |visits| ==> visits[k].url in providers)
    && (forall u :: u in providers ==> exists k :: 0 <= k < |visits| && visits[k].url == u)
    && (forall j, k :: 0 <= j < k < |visits| ==> visits[j].url != visits[k].url)
  }

  function CheckAt(providers: Providers, v: Visit): Providers
    requires v.url in providers
  {
    providers[v.url := providers[v.url].(health := Checked(providers[v.url].health, v.at))]
  }

  function CheckAll(providers: Providers, visits: seq<Visit>): (after: Providers)
    requires forall k :: 0 <= k < |visits| ==> visits[k].url in providers
    ensures after.Keys == providers.Keys
  {
    if visits == [] then providers
    else CheckAt(CheckAll(providers, visits[..|visits| - 1]), visits[|visits| - 1])
  }

  datatype Rtt = Rtt(emaRttUs: nat, samples: nat)

  function ViewOf(p: Provider, rtt: Rtt, now: nat): ProviderView {
    ProviderView(p.info.name, Offered(p.health, now), rtt.emaRttUs, rtt.samples)
  }

  /** The providers as the pure routing functions see them, in the order in which they are visited. */
  function ViewsOf(providers: Providers, rtts: map<string, Rtt>, visits: seq<Visit>): (views: seq<ProviderView>)
    requires forall k :: 0 <= k < |visits| ==> visits[k].url in providers && visits[k].url in rtts
    ensures |views| == |visits|
  {
    seq(|visits|, k requires 0 <= k < |visits| => ViewOf(providers[visits[k].url], rtts[visits[k].url], visits[k].at))
  }

  function Infos(providers: Providers, visits: seq<Visit>, picks: seq<nat>): (infos: seq<RpcProvider>)
    requires forall k :: 0 <= k < |visits| ==> visits[k].url in providers
    requires forall k :: 0 <= k < |picks| ==> picks[k] < |visits|
    ensures |infos| == |picks|
  {
    seq(|picks|, k requires 0 <= k < |picks| => providers[visits[picks[k]].url].info)
  }

  /** Checking providers leaves those not visited as they were. */
  lemma {:induction false} CheckAllElsewhere(providers: Providers, visits: seq<Visit>, url: string)
    requires forall k :: 0 <= k < |visits| ==> visits[k].url in providers && visits[k].url != url
    requires url in providers
    ensures CheckAll(providers, visits)[url] == providers[url]
    decreases |visits|
  {
    if visits != [] {
      CheckAllElsewhere(providers, visits[..|visits| - 1], url);
    }
  }

  lemma NothingChecked(providers: Providers, visits: seq<Visit>)
    ensures CheckAll(providers, visits[..0]) == providers
  {
  }

  lemma CheckNext(providers: Providers, visits: seq<Visit>, k: nat)
    requires VisitsAll(providers, visits) && k < |visits|
    ensures visits[k].url in providers && visits[k].url in CheckAll(providers, visits[..k])
    ensures CheckAll(providers, visits[..k + 1]) == CheckAt(CheckAll(providers, visits[..k]), visits[k])
    ensures CheckAll(providers, visits[..k])[visits[k].url] == providers[visits[k].url]
  {
    assert visits[..k + 1][..k] == visits[..k];
    CheckAllElsewhere(providers, visits[..k], visits[k].url);
  }

  /** Only rotating advances the cursor, which wraps with the word size. */
  function NextCursor(views: seq<ProviderView>, cursor: nat): nat {
    if Healthy(views) == [] || AllWarmed(views) then cursor else (cursor + 1) % U64
  }

  /** The first `k` views, and the healthy ones among them. */
  ghost predicate Found(all: seq<ProviderView>, k: nat, views: seq<ProviderView>, available: seq<nat>) {
    k <= |all| && views == all[..k] && Healthy(all) == available + HealthyFrom(all, k)
  }

  lemma NoneFound(all: seq<ProviderView>)
    ensures Found(all, 0, [], [])
  {
  }

  lemma FindNext(all: seq<ProviderView>, k: nat, views: seq<ProviderView>, available: seq<nat>)
    requires k < |all| && Found(all, k, views, available)
    ensures Found(all, k + 1, views + [all[k]], if all[k].isHealthy then available + [k] else available)
  {
  }

  lemma AllFound(all: seq<ProviderView>, views: seq<ProviderView>, available: seq<nat>)
    requires Found(all, |all|, views, available)
    ensures views == all && available == Healthy(all)
  {
  }

  lemma AllWarmedIff(views: seq<ProviderView>)
    ensures AllWarmed(views) <==>
              forall k :: 0 <= k < |Healthy(views)| ==> views[Healthy(views)[k]].sampleCount >= MIN_SAMPLES_FOR_EMA
  {
    var h := Healthy(views);
    if forall k :: 0 <= k < |h| ==> views[h[k]].sampleCount >= MIN_SAMPLES_FOR_EMA {
      forall i | 0 <= i < |views| && views[i].isHealthy ensures views[i].sampleCount >= MIN_SAMPLES_FOR_EMA {
        assert i in h;
      }
    }
  }

  function PeerSucceeded(p: Peer, now: int): Peer {
    p.(failures := 0, score := AdjustScore(p.score, PEER_SUCCESS_BONUS), lastSeenAt := Some(now), lastError := None)
  }

  function PeerFailed(p: Peer, error: string): Peer {
    p.(failures := (p.failures + 1) % U64, score := AdjustScore(p.score, -PEER_FAILURE_PENALTY),
       lastError := Some(error))
  }

  lemma AnnouncedAre(s: Snapshot)
    ensures var ads, first := Announced(s), if s.baseUrl.Some? then 1 else 0;
            && |ads| == first + |s.peers|
            && (s.baseUrl.Some? ==> ads[0] == Announcement(s.baseUrl.value, Some(s.instanceId), None))
            && (forall k :: 0 <= k < |s.peers| ==>
                  ads[first + k] == Announcement(s.peers[k].baseUrl, s.peers[k].instanceId, s.baseUrl))
  {
  }

  lemma NoneRegistered(peers: Peers, own: Option<string>, ads: seq<Announcement>)
    ensures RegisterAll(peers, own, ads[..0]) == peers
  {
  }

  lemma RegisterNext(peers: Peers, own: Option<string>, ads: seq<Announcement>, k: nat)
    requires k < |ads|
    ensures RegisterAll(peers, own, ads[..k + 1]) == Register(RegisterAll(peers, own, ads[..k]), own, ads[k])
  {
    assert ads[..k + 1][..k] == ads[..k];
  }

  function AfterContact(peers: Peers, own: Option<string>, baseUrl: string, now: int): Peers {
    var url := NormalizeBaseUrl(baseUrl);
    var known := Register(peers, own, Announcement(url, None, None));
    if url in known then known[url := PeerSucceeded(known[url], now)] else known
  }

  function AfterError(peers: Peers, own: Option<string>, baseUrl: string, error: string): Peers {
    var url := NormalizeBaseUrl(baseUrl);
    var known := Register(peers, own, Announcement(url, None, None));
    if url in known then known[url := PeerFailed(known[url], error)] else known
  }

  /**
   * A contact with the peer filed under `NormalizeBaseUrl(configured)` is credited to that peer exactly when its URL
   * does not end in white space; otherwise normalising it again makes it another URL, and the peer stays as it was.
   */
  lemma ContactIsCreditedIff(peers: Peers, own: Option<string>, configured: string, now: int)
    requires var url := NormalizeBaseUrl(configured); url in peers && url != ""
    ensures var url, after := NormalizeBaseUrl(configured), AfterContact(peers, own, NormalizeBaseUrl(configured), now);
            && url in after
            && (!IsSpace(url[|url| - 1]) ==> after == peers[url := PeerSucceeded(peers[url], now)])
            && (IsSpace(url[|url| - 1]) ==> after[url] == peers[url])
  {
    hide NormalizeBaseUrl;
    var url := NormalizeBaseUrl(configured);
    NormalizedAgainIff(configured);
    NormalizeShortens(url);
    NormalizeShortens(NormalizeBaseUrl(url));
  }

  function Seeded(seeds: seq<RpcProvider>): Providers {
    if seeds == [] then map[]
    else
      var last := seeds[|seeds| - 1];
      Seeded(seeds[..|seeds| - 1])[last.url := Provider(last, "seed", Fresh(LOCAL_PROVIDER_STARTING_SCORE), map[])]
  }

  /** The seed peers; `configured` is the node's own URL as written in the configuration, not normalised. */
  function SeededPeers(urls: seq<string>, configured: Option<string>): Peers {
    if urls == [] then map[]
    else
      var before := SeededPeers(urls[..|urls| - 1], configured);
      var url := NormalizeBaseUrl(urls[|urls| - 1]);
      if url == "" || configured == Some(url) then before else before[url := FreshPeer(None)]
  }

  lemma {:induction false} SeededPeersAre(urls: seq<string>, configured: Option<string>, url: string)
    ensures url in SeededPeers(urls, configured) <==>
              url != "" && configured != Some(url) && exists k :: 0 <= k < |urls| && NormalizeBaseUrl(urls[k]) == url
    decreases |urls|
  {
    if urls != [] {
      SeededPeersAre(urls[..|urls| - 1], configured, url);
    }
  }

  /**
   * A new registry has the node itself among its peers exactly when a seed peer is the node's own URL and the
   * configured URL was not written in normal form.
   */
  lemma NodeSeedsItselfIff(urls: seq<string>, configured: string)
    ensures NormalizeBaseUrl(configured) in SeededPeers(urls, Some(configured)) <==>
              && NormalizeBaseUrl(configured) != configured && NormalizeBaseUrl(configured) != ""
              && exists k :: 0 <= k < |urls| && NormalizeBaseUrl(urls[k]) == NormalizeBaseUrl(configured)
  {
    SeededPeersAre(urls, Some(configured), NormalizeBaseUrl(configured));
  }

  /** Contacts with the peer that a seed "a/ /" leaves under "a/ " go to a new peer "a". */
  lemma ContactGoesElsewhere(now: int)
    ensures SeededPeers(["a/ /"], None) == map["a/ " := FreshPeer(None)]
    ensures AfterContact(SeededPeers(["a/ /"], None), None, "a/ ", now)
            == map["a/ " := FreshPeer(None), "a" := PeerSucceeded(FreshPeer(None), now)]
  {
    hide NormalizeBaseUrl;
    NormalizeTwiceDiffers();
    NormalizedAgainIff("a/ ");
    assert ["a/ /"][..0] == [];
  }

  /** A node configured as "http://n/" with a seed peer "http://n" is its own peer. */
  lemma NodeSeedsItself()
    ensures NormalizeBaseUrl("http://n/") == "http://n"
    ensures "http://n" in SeededPeers(["http://n"], Some("http://n/"))
  {
    var slash := (c: char) => c == '/';
    EndsIn("http://n/", slash);
    assert "http://n/"[..8] == "http://n";
    assert ["http://n"][0] == "http://n";
    SeededPeersAre(["http://n"], Some("http://n/"), "http://n");
  }

  /**
   * A request's list holds exactly the providers offered when they were visited, and is led by the one that
   * `select_provider_index` picks for the same views and cursor.
   */
  lemma RequestFollowsSelection(providers: Providers, rtts: map<string, Rtt>, visits: seq<Visit>, cursor: nat)
    requires VisitsAll(providers, visits) && rtts.Keys == providers.Keys
    ensures var views := ViewsOf(providers, rtts, visits);
            var order, pick := LatencyOrder(views, cursor), Select(views, cursor);
            var list := Infos(providers, visits, order);
            && (list == [] <==> pick == None)
            && (list != [] ==> pick.Some? && pick.value < |visits| && list[0] == providers[visits[pick.value].url].info)
            && (forall k: nat :: k < |visits| ==>
                  (k in order <==> Offered(providers[visits[k].url].health, visits[k].at)))
            && (forall j, k :: 0 <= j < k < |order| ==> order[j] != order[k])
  {
    hide Offered;
    var views := ViewsOf(providers, rtts, visits);
    var order := LatencyOrder(views, cursor);
    LatencyOrderAgrees(views, cursor);
    forall k: nat | k < |visits| ensures k in order <==> Offered(providers[visits[k].url].health, visits[k].at) {
      assert k in order <==> k in multiset(Healthy(views));
      assert k in Healthy(views) <==> views[k].isHealthy;
    }
    OnceEach(order, Healthy(views));
  }

  /** A permutation of distinct elements has distinct elements. */
  lemma OnceEach(a: seq<nat>, b: seq<nat>)
    requires multiset(a) == multiset(b) && forall j, k :: 0 <= j < k < |b| ==> b[j] < b[k]
    ensures forall j, k :: 0 <= j < k < |a| ==> a[j] != a[k]
  {
    forall j, k | 0 <= j < k < |a| ensures a[j] != a[k] {
      Twice(a, j, k);
      AtMostOnce(b, a[j]);
    }
  }

  lemma Twice(a: seq<nat>, j: nat, k: nat)
    requires j < k < |a|
    ensures a[j] == a[k] ==> multiset(a)[a[j]] >= 2
  {
    assert a == a[..k] + [a[k]] + a[k + 1..];
    assert a[j] == a[..k][j];
  }

  lemma {:induction false} AtMostOnce(b: seq<nat>, x: nat)
    requires forall j, k :: 0 <= j < k < |b| ==> b[j] < b[k]
    ensures multiset(b)[x] <= 1
    decreases |b|
  {
    if b != [] {
      assert b == [b[0]] + b[1..];
      AtMostOnce(b[1..], x);
      assert b[0] !in b[1..];
    }
  }
}
