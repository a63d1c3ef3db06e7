/** What merging keeps, and when the order of merges matters. */
module GossipTheorems {
  import opened Wrappers
  import opened CircuitBreaker
  import opened Gossip

  // ---- What a list of announcements says about one peer ---------------------------

  predicate NamesPeer(own: Option<string>, ads: seq<Announcement>, url: string) {
    ads != [] && (NamesPeer(own, ads[..|ads| - 1], url) || ads[|ads| - 1].Names(own, url))
  }

  /** The instance id announced last for `url`, if any announcement carries one. */
  function LastId(own: Option<string>, ads: seq<Announcement>, url: string): Option<string> {
    if ads == [] then None
    else if ads[|ads| - 1].Names(own, url) && ads[|ads| - 1].instanceId.Some? then ads[|ads| - 1].instanceId
    else LastId(own, ads[..|ads| - 1], url)
  }

  function Tellers(own: Option<string>, ads: seq<Announcement>, url: string): set<string> {
    if ads == [] then {}
    else Tellers(own, ads[..|ads| - 1], url)
         + (if ads[|ads| - 1].Names(own, url) && ads[|ads| - 1].from.Some? then {ads[|ads| - 1].from.value} else {})
  }

  function Or<T>(o: Option<T>, otherwise: Option<T>): Option<T> {
    if o.Some? then o else otherwise
  }

  function PeerIn(peers: Peers, url: string): Peer {
    if url in peers then peers[url] else FreshPeer(None)
  }

  function Told(peer: Peer, own: Option<string>, ads: seq<Announcement>, url: string): Peer {
    peer.(instanceId := Or(LastId(own, ads, url), peer.instanceId),
          discoveredFrom := peer.discoveredFrom + Tellers(own, ads, url))
  }

  lemma RegisterAt(peers: Peers, own: Option<string>, ad: Announcement, url: string)
    ensures var after := Register(peers, own, ad);
            && (url in after <==> url in peers || ad.Names(own, url))
            && (url in after && ad.Names(own, url) ==>
                  after[url] == PeerIn(peers, url).(instanceId := Or(ad.instanceId, PeerIn(peers, url).instanceId),
                    discoveredFrom := PeerIn(peers, url).discoveredFrom
                        + (if ad.from.Some? then {ad.from.value} else {})))
            && (url in after && !ad.Names(own, url) ==> after[url] == peers[url])
  {
  }

  /** Registering announcements one by one: who is known afterwards, and as what. */
  lemma {:induction false} PeerAfter(peers: Peers, own: Option<string>, ads: seq<Announcement>, url: string)
    ensures var after := RegisterAll(peers, own, ads);
            && (url in after <==> url in peers || NamesPeer(own, ads, url))
            && (url in after ==> after[url] == Told(PeerIn(peers, url), own, ads, url))
    ensures !NamesPeer(own, ads, url) ==> LastId(own, ads, url) == None && Tellers(own, ads, url) == {}
    decreases |ads|
  {
    hide Register;
    if ads != [] {
      PeerAfter(peers, own, ads[..|ads| - 1], url);
      RegisterAt(RegisterAll(peers, own, ads[..|ads| - 1]), own, ads[|ads| - 1], url);
    }
  }

  // ---- What a list of observed providers says about one URL ------------------------

  function LastSeen(ps: seq<ProviderSnapshot>, url: string): Option<Observation> {
    if ps == [] then None
    else if ps[|ps| - 1].url == url then Some(ObservationOf(ps[|ps| - 1]))
    else LastSeen(ps[..|ps| - 1], url)
  }

  function FirstName(ps: seq<ProviderSnapshot>, url: string): Option<string> {
    if ps == [] then None
    else Or(FirstName(ps[..|ps| - 1], url), if ps[|ps| - 1].url == url then Some(ps[|ps| - 1].name) else None)
  }

  function ProviderIn(providers: Providers, ps: seq<ProviderSnapshot>, url: string): Provider
    requires url in providers || FirstName(ps, url).Some?
  {
    if url in providers then providers[url] else Discovered(FirstName(ps, url).value, url)
  }

  lemma {:induction false} ProviderAfter(providers: Providers, source: string, ps: seq<ProviderSnapshot>, url: string)
    ensures var after := ObserveAll(providers, source, ps);
            && (LastSeen(ps, url).Some? <==> FirstName(ps, url).Some?)
            && (url in after <==> url in providers || LastSeen(ps, url).Some?)
            && (LastSeen(ps, url).Some? ==>
                  after[url] == Seen(ProviderIn(providers, ps, url), source, LastSeen(ps, url).value))
            && (LastSeen(ps, url).None? && url in providers ==> after[url] == providers[url])
    decreases |ps|
  {
    if ps != [] {
      ProviderAfter(providers, source, ps[..|ps| - 1], url);
    }
  }

  // ---- What every merge keeps --------------------------------------------------------

  /** A known provider keeps all but its observations, and of those all but the sender's. */
  lemma MergeKeepsKnown(r: Registry, s: Snapshot, url: string)
    requires url in r.providers
    ensures url in Merge(r, s).providers
    ensures var before, after := r.providers[url], Merge(r, s).providers[url];
            && after == before.(observations := after.observations)
            && after.observations - {SourceOf(s)} == before.observations - {SourceOf(s)}
  {
    ProviderAfter(r.providers, SourceOf(s), s.providers, url);
  }

  /** A provider learnt by gossip carries no credentials and the score of a discovered provider. */
  lemma MergeDiscovers(r: Registry, s: Snapshot, url: string)
    requires url !in r.providers && url in Merge(r, s).providers
    ensures var p := Merge(r, s).providers[url];
            && p.info.url == url && p.info.authHeader.None? && p.info.authValue.None?
            && (exists k :: 0 <= k < |s.providers| && s.providers[k].url == url && s.providers[k].name == p.info.name)
            && LastSeen(s.providers, url).Some?
            && p == Seen(Discovered(p.info.name, url), SourceOf(s), LastSeen(s.providers, url).value)
  {
    ProviderAfter(r.providers, SourceOf(s), s.providers, url);
    FirstNameIsListed(s.providers, url);
  }

  lemma {:induction false} FirstNameIsListed(ps: seq<ProviderSnapshot>, url: string)
    ensures FirstName(ps, url).Some? ==>
              exists k :: 0 <= k < |ps| && ps[k].url == url && ps[k].name == FirstName(ps, url).value
    decreases |ps|
  {
    if ps != [] {
      FirstNameIsListed(ps[..|ps| - 1], url);
    }
  }

  /** A known peer keeps its score, failures, last contact and last error, and merging never adds the node's own URL. */
  lemma MergeKeepsPeers(r: Registry, s: Snapshot, url: string)
    ensures url in r.peers ==>
              && url in Merge(r, s).peers
              && Merge(r, s).peers[url] == r.peers[url].(instanceId := Merge(r, s).peers[url].instanceId,
                                                        discoveredFrom := Merge(r, s).peers[url].discoveredFrom)
              && r.peers[url].discoveredFrom <= Merge(r, s).peers[url].discoveredFrom
    ensures r.own == Some(url) ==> (url in Merge(r, s).peers <==> url in r.peers)
  {
    PeerAfter(r.peers, r.own, Announced(s), url);
    if r.own == Some(url) {
      OwnIsNotNamed(r.own, Announced(s), url);
    }
  }

  lemma {:induction false} OwnIsNotNamed(own: Option<string>, ads: seq<Announcement>, url: string)
    requires own == Some(url)
    ensures !NamesPeer(own, ads, url)
    decreases |ads|
  {
    if ads != [] {
      OwnIsNotNamed(own, ads[..|ads| - 1], url);
    }
  }

  lemma SameRegistry(a: Registry, b: Registry)
    requires a.own == b.own
    requires forall u :: u in a.providers <==> u in b.providers
    requires forall u :: u in a.providers ==> a.providers[u] == b.providers[u]
    requires forall u :: u in a.peers <==> u in b.peers
    requires forall u :: u in a.peers ==> a.peers[u] == b.peers[u]
    ensures a == b
  {
    assert a.providers == b.providers;
    assert a.peers == b.peers;
  }

  lemma MergeTwiceAt(r: Registry, s: Snapshot, url: string)
    ensures var one, two := Merge(r, s), Merge(Merge(r, s), s);
            && (url in one.providers <==> url in two.providers)
            && (url in one.providers ==> one.providers[url] == two.providers[url])
            && (url in one.peers <==> url in two.peers)
            && (url in one.peers ==> one.peers[url] == two.peers[url])
  {
    var one := Merge(r, s);
    ProviderAfter(r.providers, SourceOf(s), s.providers, url);
    ProviderAfter(one.providers, SourceOf(s), s.providers, url);
    PeerAfter(r.peers, r.own, Announced(s), url);
    PeerAfter(one.peers, r.own, Announced(s), url);
  }

  /** Receiving a snapshot again changes nothing. */
  lemma MergeIsIdempotent(r: Registry, s: Snapshot)
    ensures Merge(Merge(r, s), s) == Merge(r, s)
  {
    forall u ensures (u in Merge(r, s).providers <==> u in Merge(Merge(r, s), s).providers)
                  && (u in Merge(r, s).peers <==> u in Merge(Merge(r, s), s).peers) {
      MergeTwiceAt(r, s, u);
    }
    forall u | u in Merge(r, s).providers ensures Merge(r, s).providers[u] == Merge(Merge(r, s), s).providers[u] {
      MergeTwiceAt(r, s, u);
    }
    forall u | u in Merge(r, s).peers ensures Merge(r, s).peers[u] == Merge(Merge(r, s), s).peers[u] {
      MergeTwiceAt(r, s, u);
    }
    SameRegistry(Merge(Merge(r, s), s), Merge(r, s));
  }

  // ---- Merging two snapshots in either order -----------------------------------------

  /** The two snapshots give a newly discovered provider different names, or the same sender's word on it differs. */
  predicate ProviderClash(r: Registry, s: Snapshot, t: Snapshot, url: string) {
    && LastSeen(s.providers, url).Some? && LastSeen(t.providers, url).Some?
    && ((url !in r.providers && FirstName(s.providers, url) != FirstName(t.providers, url))
        || (SourceOf(s) == SourceOf(t) && LastSeen(s.providers, url) != LastSeen(t.providers, url)))
  }

  /** The two snapshots announce different instance ids for a peer. */
  predicate PeerClash(r: Registry, s: Snapshot, t: Snapshot, url: string) {
    var a, b := LastId(r.own, Announced(s), url), LastId(r.own, Announced(t), url);
    a.Some? && b.Some? && a != b
  }

  lemma ProvidersEitherWay(r: Registry, s: Snapshot, t: Snapshot, url: string)
    ensures var a, b := Merge(Merge(r, s), t), Merge(Merge(r, t), s);
            && (url in a.providers <==> url in b.providers)
            && (url in a.providers ==> (a.providers[url] == b.providers[url] <==> !ProviderClash(r, s, t, url)))
            && (url in a.providers && SourceOf(s) != SourceOf(t) ==>
                  a.providers[url].(info := b.providers[url].info) == b.providers[url])
            && (url !in a.providers ==> !ProviderClash(r, s, t, url))
  {
    hide LastSeen, FirstName, ObserveAll, RegisterAll, Announced;
    var src, trc := SourceOf(s), SourceOf(t);
    ProviderAfter(r.providers, src, s.providers, url);
    ProviderAfter(r.providers, trc, t.providers, url);
    ProviderAfter(Merge(r, s).providers, trc, t.providers, url);
    ProviderAfter(Merge(r, t).providers, src, s.providers, url);
    var x, y := LastSeen(s.providers, url), LastSeen(t.providers, url);
    if x.Some? && y.Some? {
      var p, q := ProviderIn(r.providers, s.providers, url), ProviderIn(r.providers, t.providers, url);
      assert p.observations == q.observations;
      SeenEitherWay(p.observations, src, trc, x.value, y.value);
    }
  }

  lemma SeenEitherWay(m: map<string, Observation>, a: string, b: string, x: Observation, y: Observation)
    ensures m[a := x][b := y] == m[b := y][a := x] <==> (a != b || x == y)
  {
    if a == b {
      assert m[a := x][b := y][a] == y && m[b := y][a := x][a] == x;
    }
  }

  lemma PeersEitherWay(r: Registry, s: Snapshot, t: Snapshot, url: string)
    ensures var a, b := Merge(Merge(r, s), t), Merge(Merge(r, t), s);
            && (url in a.peers <==> url in b.peers)
            && (url in a.peers ==> (a.peers[url] == b.peers[url] <==> !PeerClash(r, s, t, url)))
            && (url in a.peers ==> a.peers[url].(instanceId := b.peers[url].instanceId) == b.peers[url])
            && (url !in a.peers ==> !PeerClash(r, s, t, url))
  {
    hide LastId, Tellers, ObserveAll, RegisterAll, Announced;
    PeerAfter(r.peers, r.own, Announced(s), url);
    PeerAfter(r.peers, r.own, Announced(t), url);
    PeerAfter(Merge(r, s).peers, r.own, Announced(t), url);
    PeerAfter(Merge(r, t).peers, r.own, Announced(s), url);
  }

  /** The order of two merges matters exactly where they clash. */
  lemma MergesCommuteIff(r: Registry, s: Snapshot, t: Snapshot)
    ensures Merge(Merge(r, s), t) == Merge(Merge(r, t), s) <==>
              forall u :: !ProviderClash(r, s, t, u) && !PeerClash(r, s, t, u)
  {
    hide Merge, ProviderClash, PeerClash;
    var a, b := Merge(Merge(r, s), t), Merge(Merge(r, t), s);
    forall u ensures (u in a.providers <==> u in b.providers) && (u in a.peers <==> u in b.peers) {
      ProvidersEitherWay(r, s, t, u);
      PeersEitherWay(r, s, t, u);
    }
    forall u ensures !ProviderClash(r, s, t, u) <==> (u in a.providers ==> a.providers[u] == b.providers[u]) {
      ProvidersEitherWay(r, s, t, u);
    }
    forall u ensures !PeerClash(r, s, t, u) <==> (u in a.peers ==> a.peers[u] == b.peers[u]) {
      PeersEitherWay(r, s, t, u);
    }
    MergeKeepsOwn(r, s, t);
    MergeKeepsOwn(r, t, s);
    if forall u :: !ProviderClash(r, s, t, u) && !PeerClash(r, s, t, u) {
      SameRegistry(a, b);
    }
  }

  function OneProvider(sender: string, name: string, url: string): Snapshot {
    Snapshot(sender, None, [], [ProviderSnapshot(name, url, 70, None, 0, true, 0)])
  }

  /** Two nodes that name the same new provider differently: the first name stays. */
  lemma NamesDependOnOrder()
    ensures var r, s, t := Registry(map[], map[], None), OneProvider("a", "x", "u"), OneProvider("b", "y", "u");
            && Merge(Merge(r, s), t).providers["u"].info.name == "x"
            && Merge(Merge(r, t), s).providers["u"].info.name == "y"
            && Merge(Merge(r, s), t) != Merge(Merge(r, t), s)
  {
    var r, s, t := Registry(map[], map[], None), OneProvider("a", "x", "u"), OneProvider("b", "y", "u");
    assert s.providers[..0] == [] && t.providers[..0] == [];
    assert Merge(r, s).providers["u"].info.name == "x" && Merge(r, t).providers["u"].info.name == "y";
  }

  lemma MergeKeepsOwn(r: Registry, s: Snapshot, t: Snapshot)
    ensures Merge(Merge(r, s), t).own == r.own
  {
  }

  /** Snapshots of different senders commute on everything but new providers' names and peers' instance ids. */
  lemma DistinctSendersCommute(r: Registry, s: Snapshot, t: Snapshot, url: string)
    requires SourceOf(s) != SourceOf(t)
    ensures var a, b := Merge(Merge(r, s), t), Merge(Merge(r, t), s);
            && (url in a.providers <==> url in b.providers)
            && (url in a.providers ==>
                  && a.providers[url].info == b.providers[url].info.(name := a.providers[url].info.name)
                  && a.providers[url] == b.providers[url].(info := a.providers[url].info))
            && (url in a.peers <==> url in b.peers)
            && (url in a.peers ==> a.peers[url] == b.peers[url].(instanceId := a.peers[url].instanceId))
  {
    hide Merge;
    ProvidersEitherWay(r, s, t, url);
    PeersEitherWay(r, s, t, url);
    if url in Merge(Merge(r, s), t).providers {
      InfoEitherWay(r, s, t, url);
    }
  }

  lemma InfoEitherWay(r: Registry, s: Snapshot, t: Snapshot, url: string)
    requires url in Merge(Merge(r, s), t).providers && url in Merge(Merge(r, t), s).providers
    ensures var a, b := Merge(Merge(r, s), t).providers[url].info, Merge(Merge(r, t), s).providers[url].info;
            a == b.(name := a.name)
  {
    hide LastSeen, FirstName, ObserveAll, RegisterAll, Announced;
    ProviderAfter(r.providers, SourceOf(s), s.providers, url);
    ProviderAfter(r.providers, SourceOf(t), t.providers, url);
    ProviderAfter(Merge(r, s).providers, SourceOf(t), t.providers, url);
    ProviderAfter(Merge(r, t).providers, SourceOf(s), s.providers, url);
  }

  // ---- Any number of merges ------------------------------------------------------------

  predicate Lists(ps: seq<ProviderSnapshot>, url: string) {
    exists k :: 0 <= k < |ps| && ps[k].url == url
  }

  lemma {:induction false} SeenIfListed(ps: seq<ProviderSnapshot>, url: string)
    ensures LastSeen(ps, url).Some? <==> Lists(ps, url)
    decreases |ps|
  {
    if ps != [] {
      SeenIfListed(ps[..|ps| - 1], url);
    }
  }

  predicate SomeoneLists(ss: seq<Snapshot>, url: string) {
    exists k :: 0 <= k < |ss| && Lists(ss[k].providers, url)
  }

  predicate SomeoneNames(own: Option<string>, ss: seq<Snapshot>, url: string) {
    exists k :: 0 <= k < |ss| && NamesPeer(own, Announced(ss[k]), url)
  }

  /** The providers known after any merges are those known before and those merged: the order plays no part. */
  lemma {:induction false} ProvidersAfterMerges(r: Registry, ss: seq<Snapshot>, url: string)
    ensures url in MergeAll(r, ss).providers <==> url in r.providers || SomeoneLists(ss, url)
    decreases |ss|
  {
    hide LastSeen, Lists, ObserveAll, RegisterAll;
    if ss != [] {
      var before, s := ss[..|ss| - 1], ss[|ss| - 1];
      ProvidersAfterMerges(r, before, url);
      ProviderAfter(MergeAll(r, before).providers, SourceOf(s), s.providers, url);
      SeenIfListed(s.providers, url);
    }
  }

  /** So are the peers, except that nobody can announce the node itself. */
  lemma {:induction false} PeersAfterMerges(r: Registry, ss: seq<Snapshot>, url: string)
    ensures url in MergeAll(r, ss).peers <==> url in r.peers || SomeoneNames(r.own, ss, url)
    ensures r.own == Some(url) ==> !SomeoneNames(r.own, ss, url)
    decreases |ss|
  {
    hide NamesPeer, ObserveAll, RegisterAll, Announced;
    if ss != [] {
      var before, s := ss[..|ss| - 1], ss[|ss| - 1];
      PeersAfterMerges(r, before, url);
      MergesKeep(r, before, url);
      PeerAfter(MergeAll(r, before).peers, r.own, Announced(s), url);
      if r.own == Some(url) {
        OwnIsNotNamed(r.own, Announced(s), url);
      }
    }
  }

  /** No sequence of merges makes the node its own peer, or touches a known provider's health or credentials. */
  lemma {:induction false} MergesKeep(r: Registry, ss: seq<Snapshot>, url: string)
    ensures MergeAll(r, ss).own == r.own
    ensures r.own == Some(url) && url !in r.peers ==> url !in MergeAll(r, ss).peers
    ensures url in r.providers ==>
              && url in MergeAll(r, ss).providers
              && MergeAll(r, ss).providers[url] ==
                   r.providers[url].(observations := MergeAll(r, ss).providers[url].observations)
    decreases |ss|
  {
    if ss != [] {
      var before, s := ss[..|ss| - 1], ss[|ss| - 1];
      MergesKeep(r, before, url);
      MergeKeepsPeers(MergeAll(r, before), s, url);
      if url in r.providers {
        MergeKeepsKnown(MergeAll(r, before), s, url);
      }
    }
  }

  // ---- What a snapshot leaves behind, field by field --------------------------------------

  /** The sender's last word on a provider is recorded under its base URL, or under its instance id without one. */
  lemma MergeRecords(r: Registry, s: Snapshot, before: seq<ProviderSnapshot>, p: ProviderSnapshot,
                     behind: seq<ProviderSnapshot>)
    requires s.providers == before + [p] + behind && forall k :: 0 <= k < |behind| ==> behind[k].url != p.url
    ensures p.url in Merge(r, s).providers
    ensures var seen := Merge(r, s).providers[p.url].observations;
            var sender := if s.baseUrl.Some? then s.baseUrl.value else s.instanceId;
            && sender in seen
            && seen[sender].score == p.score && seen[sender].failures == p.failures
            && seen[sender].healthy == p.healthy && seen[sender].observedAt == p.observedAt
            && seen[sender].latestLedger == if p.latestLedger == None then 0 else p.latestLedger.value
  {
    LastListed(before, p, behind);
    ProviderAfter(r.providers, SourceOf(s), s.providers, p.url);
  }

  lemma {:induction false} LastListed(before: seq<ProviderSnapshot>, p: ProviderSnapshot, behind: seq<ProviderSnapshot>)
    requires forall k :: 0 <= k < |behind| ==> behind[k].url != p.url
    ensures LastSeen(before + [p] + behind, p.url) == Some(ObservationOf(p))
    decreases |behind|
  {
    var ps := before + [p] + behind;
    if behind == [] {
      assert ps[..|ps| - 1] == before;
    } else {
      assert ps[..|ps| - 1] == before + [p] + behind[..|behind| - 1];
      LastListed(before, p, behind[..|behind| - 1]);
    }
  }

  /** A provider learnt from one listing: as listed, without credentials, to be advertised, score 55. */
  lemma NewProviderIs(r: Registry, s: Snapshot, p: ProviderSnapshot)
    requires s.providers == [p] && p.url !in r.providers
    ensures p.url in Merge(r, s).providers
    ensures var n := Merge(r, s).providers[p.url];
            && n.info == RpcProvider(p.name, p.url, None, None, Some(true)) && n.source == "gossip"
            && n.health.score == 55 && n.health.failures == 0 && n.health.trippedAt == None
            && n.health.latestLedger == 0 && |n.observations| == 1
  {
    hide Observe;
    var providers := ObserveAll(r.providers, SourceOf(s), s.providers);
    assert s.providers[..|s.providers| - 1] == [] && s.providers[|s.providers| - 1] == p;
    assert ObserveAll(r.providers, SourceOf(s), []) == r.providers;
    assert providers == Observe(r.providers, SourceOf(s), p);
    ObservedNew(r.providers, SourceOf(s), p);
  }

  lemma ObservedNew(providers: Providers, source: string, p: ProviderSnapshot)
    requires p.url !in providers
    ensures Observe(providers, source, p)
            == providers[p.url := Provider(RpcProvider(p.name, p.url, None, None, Some(true)), "gossip",
                                           Health(55, 0, None, 0), map[source := ObservationOf(p)])]
  {
  }

  /** The sender becomes a peer under its own instance id; those it lists become peers it has told of. */
  lemma MergeAnnounces(r: Registry, s: Snapshot, listed: PeerAdvertisement, sender: string)
    requires s.baseUrl == Some(sender) && s.peers == [listed]
    requires NormalizeBaseUrl(sender) == sender != "" && NormalizeBaseUrl(listed.baseUrl) == listed.baseUrl != ""
    requires sender != listed.baseUrl && r.own != Some(sender) && r.own != Some(listed.baseUrl)
    requires sender !in r.peers && listed.baseUrl !in r.peers
    ensures Merge(r, s).peers ==
              r.peers[sender := Peer(Some(s.instanceId), 60, 0, None, {}, None)]
                     [listed.baseUrl := Peer(listed.instanceId, 60, 0, None, {sender}, None)]
  {
    var ads := Announced(s);
    assert ads == [Announcement(sender, Some(s.instanceId), None),
                   Announcement(listed.baseUrl, listed.instanceId, Some(sender))];
    assert ads[..1] == [ads[0]] && ads[..1][..0] == [];
    RegisterNew(r.peers, r.own, sender, Some(s.instanceId), None);
    var once := RegisterAll(r.peers, r.own, ads[..1]);
    assert RegisterAll(r.peers, r.own, []) == r.peers;
    assert once == Register(r.peers, r.own, ads[0]);
    RegisterNew(once, r.own, listed.baseUrl, listed.instanceId, Some(sender));
  }

  lemma RegisterNew(peers: Peers, own: Option<string>, url: string, id: Option<string>, from: Option<string>)
    requires NormalizeBaseUrl(url) == url != "" && own != Some(url) && url !in peers
    ensures Register(peers, own, Announcement(url, id, from))
            == peers[url := Peer(id, 60, 0, None, if from.Some? then {from.value} else {}, None)]
  {
    var ad := Announcement(url, id, from);
    assert NormalizeBaseUrl(ad.baseUrl) == url;
    assert from.Some? ==> {} + {from.value} == {from.value};
    assert Heard(FreshPeer(id), id, from) == Peer(id, 60, 0, None, if from.Some? then {from.value} else {}, None);
  }
}
