/** What a node knows of providers and peers, and how a peer's snapshot is merged (core/src/rpc_provider.rs). */
module Gossip {
  import opened Wrappers
  import opened CircuitBreaker

  const PEER_STARTING_SCORE: int := 60

  datatype RpcProvider = RpcProvider(
    name: string, url: string, authHeader: Option<string>, authValue: Option<string>, advertise: Option<bool>)

  datatype Observation = Observation(score: int, latestLedger: nat, failures: nat, healthy: bool, observedAt: int)

  datatype Provider = Provider(
    info: RpcProvider, source: string, health: Health, observations: map<string, Observation>)

  datatype Peer = Peer(
    instanceId: Option<string>, score: int, failures: nat, lastSeenAt: Option<int>,
    discoveredFrom: set<string>, lastError: Option<string>)

  datatype PeerAdvertisement = PeerAdvertisement(instanceId: Option<string>, baseUrl: string)

  datatype ProviderSnapshot = ProviderSnapshot(
    name: string, url: string, score: int, latestLedger: Option<nat>, failures: nat, healthy: bool, observedAt: int)

  datatype Snapshot = Snapshot(
    instanceId: string, baseUrl: Option<string>, peers: seq<PeerAdvertisement>, providers: seq<ProviderSnapshot>)

  type Providers = map<string, Provider>
  type Peers = map<string, Peer>

  datatype Registry = Registry(providers: Providers, peers: Peers, own: Option<string>)

  // ---- Base URLs ------------------------------------------------------------------

  /** The Unicode White_Space property. */
  predicate IsSpace(c: char) {
    || '\t' <= c <= '\r' || c == ' ' || c == '\U{85}' || c == '\U{A0}' || c == '\U{1680}'
    || '\U{2000}' <= c <= '\U{200A}' || c == '\U{2028}' || c == '\U{2029}' || c == '\U{202F}'
    || c == '\U{205F}' || c == '\U{3000}'
  }

  function TrimStart(s: string): string {
    if s != "" && IsSpace(s[0]) then TrimStart(s[1..]) else s
  }

  function TrimEnd(s: string, drop: char -> bool): string {
    if s != "" && drop(s[|s| - 1]) then TrimEnd(s[..|s| - 1], drop) else s
  }

  function NormalizeBaseUrl(url: string): string {
    TrimEnd(TrimEnd(TrimStart(url), IsSpace), c => c == '/')
  }

  lemma {:induction false} TrimEndIs(s: string, drop: char -> bool)
    ensures var t := TrimEnd(s, drop);
            && |t| <= |s| && t == s[..|t|] && (t != "" ==> !drop(t[|t| - 1]))
            && (forall k :: |t| <= k < |s| ==> drop(s[k]))
    decreases |s|
  {
    if s != "" && drop(s[|s| - 1]) {
      TrimEndIs(s[..|s| - 1], drop);
    }
  }

  lemma {:induction false} TrimStartIs(s: string)
    ensures |TrimStart(s)| <= |s| && (|TrimStart(s)| == |s| ==> TrimStart(s) == s)
    ensures TrimStart(s) != "" ==> !IsSpace(TrimStart(s)[0])
    decreases |s|
  {
    if s != "" && IsSpace(s[0]) {
      TrimStartIs(s[1..]);
    }
  }

  lemma NormalizeShortens(url: string)
    ensures |NormalizeBaseUrl(url)| <= |url| && (|NormalizeBaseUrl(url)| == |url| ==> NormalizeBaseUrl(url) == url)
  {
    TrimStartIs(url);
    TrimEndIs(TrimStart(url), IsSpace);
    TrimEndIs(TrimEnd(TrimStart(url), IsSpace), c => c == '/');
  }

  /** Normalising twice changes nothing exactly when the first result does not end in white space. */
  lemma NormalizedAgainIff(url: string)
    ensures var n := NormalizeBaseUrl(url);
            NormalizeBaseUrl(n) == n <==> (n == "" || !IsSpace(n[|n| - 1]))
  {
    var slash := (c: char) => c == '/';
    var a := TrimStart(url);
    var b := TrimEnd(a, IsSpace);
    var n := NormalizeBaseUrl(url);
    TrimStartIs(url);
    TrimEndIs(a, IsSpace);
    TrimEndIs(b, slash);
    assert n == TrimEnd(b, slash);
    assert n != "" ==> n[0] == b[0] == a[0];
    assert TrimStart(n) == n;
    TrimEndIs(n, IsSpace);
    var m := TrimEnd(n, IsSpace);
    TrimEndIs(m, slash);
  }

  predicate All(s: string, p: char -> bool) {
    forall k :: 0 <= k < |s| ==> p(s[k])
  }

  lemma {:induction false} TrimsEnd(s: string, t: string, drop: char -> bool)
    requires All(t, drop) && (s != "" ==> !drop(s[|s| - 1]))
    ensures TrimEnd(s + t, drop) == s
    decreases |t|
  {
    if t == "" {
      assert s + t == s;
    } else {
      assert (s + t)[..|s + t| - 1] == s + t[..|t| - 1];
      TrimsEnd(s, t[..|t| - 1], drop);
    }
  }

  lemma {:induction false} TrimsStart(t: string, s: string)
    requires All(t, IsSpace) && (s != "" ==> !IsSpace(s[0]))
    ensures TrimStart(t + s) == s
    decreases |t|
  {
    if t == "" {
      assert t + s == s;
    } else {
      assert (t + s)[1..] == t[1..] + s;
      TrimsStart(t[1..], s);
    }
  }

  /** Of a URL the white space around it goes, and then the slashes at its end. */
  lemma NormalizeIs(lead: string, n: string, slashes: string, trail: string)
    requires All(lead, IsSpace) && All(slashes, c => c == '/') && All(trail, IsSpace)
    requires n + slashes != "" && (n != "" ==> !IsSpace(n[0]) && n[|n| - 1] != '/')
    requires slashes == "" ==> !IsSpace(n[|n| - 1])
    ensures NormalizeBaseUrl(lead + n + slashes + trail) == n
  {
    var kept := n + slashes;
    assert lead + n + slashes + trail == lead + (kept + trail);
    assert (kept + trail)[0] == kept[0];
    TrimsStart(lead, kept + trail);
    TrimsEnd(kept, trail, IsSpace);
    TrimsEnd(n, slashes, c => c == '/');
  }

  /** The 25 code points that Unicode calls white space. */
  predicate IsSpaceCode(n: int) {
    || n in {9, 10, 11, 12, 13, 32, 133, 160, 5760, 8232, 8233, 8239, 8287, 12288} || 8192 <= n < 8203
  }

  /** White space alone leaves nothing, and any other character but a slash is kept. */
  lemma BlankIsNothing(url: string, c: char)
    requires forall k :: 0 <= k < |url| ==> IsSpaceCode(url[k] as int)
    ensures NormalizeBaseUrl(url) == ""
    ensures !IsSpaceCode(c as int) && c != '/' ==> NormalizeBaseUrl([c]) == [c]
  {
    assert url + "" == url;
    TrimsStart(url, "");
    if !IsSpaceCode(c as int) && c != '/' {
      assert "" + [c] + "" + "" == [c];
      NormalizeIs("", [c], "", "");
    }
  }

  lemma EndsIn(s: string, drop: char -> bool)
    requires s != "" && drop(s[|s| - 1])
    ensures TrimEnd(s, drop) == TrimEnd(s[..|s| - 1], drop)
  {
  }

  /** White space behind a slash survives the first time and takes the slash along the second time. */
  lemma NormalizeTwiceDiffers()
    ensures NormalizeBaseUrl("a/ /") == "a/ " && NormalizeBaseUrl("a/ ") == "a"
  {
    var slash := (c: char) => c == '/';
    EndsIn("a/ /", slash);
    assert "a/ /"[..3] == "a/ ";
    EndsIn("a/ ", IsSpace);
    assert "a/ "[..2] == "a/";
    EndsIn("a/", slash);
    assert "a/"[..1] == "a";
  }

  // ---- Merging ----------------------------------------------------------------------

  /** One call of `register_peer`. */
  datatype Announcement = Announcement(baseUrl: string, instanceId: Option<string>, from: Option<string>) {
    function Url(): string { NormalizeBaseUrl(baseUrl) }

    predicate Names(own: Option<string>, url: string) {
      Url() == url && url != "" && own != Some(url)
    }
  }

  function FreshPeer(instanceId: Option<string>): Peer {
    Peer(instanceId, PEER_STARTING_SCORE, 0, None, {}, None)
  }

  /** An announcement's instance id replaces the known one, and its sender joins those who told of the peer. */
  function Heard(peer: Peer, instanceId: Option<string>, from: Option<string>): Peer {
    var named := if instanceId.Some? then peer.(instanceId := instanceId) else peer;
    if from.Some? then named.(discoveredFrom := named.discoveredFrom + {from.value}) else named
  }

  function Register(peers: Peers, own: Option<string>, ad: Announcement): Peers {
    var url := NormalizeBaseUrl(ad.baseUrl);
    if url == "" || own == Some(url) then peers
    else peers[url := Heard(if url in peers then peers[url] else FreshPeer(ad.instanceId), ad.instanceId, ad.from)]
  }

  function RegisterAll(peers: Peers, own: Option<string>, ads: seq<Announcement>): Peers {
    if ads == [] then peers
    else Register(RegisterAll(peers, own, ads[..|ads| - 1]), own, ads[|ads| - 1])
  }

  /** The peers a snapshot announces: its sender, then those the sender lists. */
  function Announced(s: Snapshot): seq<Announcement> {
    (if s.baseUrl.Some? then [Announcement(s.baseUrl.value, Some(s.instanceId), None)] else [])
    + seq(|s.peers|, k requires 0 <= k < |s.peers| =>
        Announcement(s.peers[k].baseUrl, s.peers[k].instanceId, s.baseUrl))
  }

  function Discovered(name: string, url: string): Provider {
    Provider(RpcProvider(name, url, None, None, Some(true)), "gossip", Fresh(DISCOVERED_PROVIDER_STARTING_SCORE), map[])
  }

  function ObservationOf(p: ProviderSnapshot): Observation {
    Observation(p.score, if p.latestLedger.Some? then p.latestLedger.value else 0, p.failures, p.healthy, p.observedAt)
  }

  function Seen(p: Provider, source: string, o: Observation): Provider {
    p.(observations := p.observations[source := o])
  }

  function Observe(providers: Providers, source: string, p: ProviderSnapshot): Providers {
    var state := if p.url in providers then providers[p.url] else Discovered(p.name, p.url);
    providers[p.url := Seen(state, source, ObservationOf(p))]
  }

  function ObserveAll(providers: Providers, source: string, ps: seq<ProviderSnapshot>): Providers {
    if ps == [] then providers
    else Observe(ObserveAll(providers, source, ps[..|ps| - 1]), source, ps[|ps| - 1])
  }

  function SourceOf(s: Snapshot): string {
    if s.baseUrl.Some? then s.baseUrl.value else s.instanceId
  }

  function Merge(r: Registry, s: Snapshot): Registry {
    Registry(ObserveAll(r.providers, SourceOf(s), s.providers), RegisterAll(r.peers, r.own, Announced(s)), r.own)
  }

  function MergeAll(r: Registry, ss: seq<Snapshot>): Registry {
    if ss == [] then r else Merge(MergeAll(r, ss[..|ss| - 1]), ss[|ss| - 1])
  }
}
