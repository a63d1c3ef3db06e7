# Verification of the SoroScope core

SoroScope is a Rust backend for analysing Soroban contracts. This project models the stateful cores of `core/src` and
proves what they keep over every run and every input:

- the **leader lease** in Redis, held by one of several nodes (`leader_lock.rs`): the lock object, the Redis key, and a
  cluster of nodes whose requests and replies are delayed, lost and interleaved;
- the **Merkle tree** (`merkle_tree.rs`): completeness, soundness, commitment, shape, batch proofs;
- the **call-trace parser** and the **Mermaid printer** (`call_trace_parser.rs`): each is inverted;
- the **provider registry** (`rpc_provider.rs`, `routing.rs`): circuit breaker, moving average, latency order, gossip;
- the **job queue** and the **bounded dispatcher** (`jobs.rs`, `task_queue.rs`) as interleaved steps;
- the **fee collector** (`fee_collector.rs`) and the **fee percentiles and bids** (`fee_analytics.rs`).

Code that works on objects is modelled by classes whose methods are proved against step functions on values; the theorems
are about runs of those steps. SHA-256 is an arbitrary function (`sha`), so soundness is stated as "the claim holds, or
here are two different inputs with the same hash". The outcomes of Redis, the database, the network and the clock are
parameters. Actions that are not possible in a state leave it alone, so every sequence of actions is a run.

`dafny verify dfyconfig.toml` checks the whole project.

## What the proofs say about the code

Where a natural property is false of the code, the project shows a failing input and proves exactly when it holds.

- **"Exactly one node at a time"** (`leader_lock.rs:3-6`): leases on the key never overlap, but a node's own belief can
  outlive its lease by the time its success reply took (`:316-321`). With safe deletions at most one node believes in its
  lease exactly when that delay is zero (`MutualExclusionIff`, with a run of two leaders otherwise).
- **Release** clears the deadline at once, but its deletion may run later. A call of the same lock object in between can
  renew the lease, and the deletion then takes it from under a node that believes, even with no delay
  (`DeletedUnderBelief`). Belief stays backed by a lease exactly when no live key is deleted under a node that will still
  believe after the reply delay (`BeliefIsBackedIff`); releasing with nothing in flight, and starting nothing while the
  deletion is outstanding, is enough (`DocumentedIsSafe`).
- **Keepalive**: when each tick is served within a lag, ticking every third of the lease survives single failed ticks
  exactly when two paces and one lag fit into the lease, the pace being the longer of interval and lag (`KeepaliveIff`);
  with no lag, exactly for leases of 3 ms or more (`PromptKeepaliveIff`).
- **Retry delays** are computed in u64 with wrap-around: the first m delays add up to 30·(2^m − 1) seconds exactly when
  m ≤ 60 (`DelaySumIff`).
- **Circuit breaker**: reports and probes count, score and then wait for locks before they write the trip time
  (`rpc_provider.rs:404-455`, `:638-684`); an availability check reads the trip time and clears it in a second step
  (`:948-958`). Reports run inside requests and jobs with a timeout, so they may also be dropped at those waits. A check or
  a success can clear the trip of failures that came after it (`FailureDuringCheckIsLost`, `FailuresDuringSuccessAreLost`),
  a failure can trip a provider that has succeeded since (`LateTripRefusesTheRecovered`), a dropped success leaves its
  provider refused (`DroppedSuccessStaysRefused`), and a dropped failure leaves it open (`DroppedFailureIsLost`,
  `ClearedThenDroppedIsLost`). The cooldown is kept exactly when, with three failures counted, every clearing write that
  comes with no trip still to be written finds no trip in force, and every drop of the last pending trip finds one written
  since the latest failure (`CooldownIsKeptIff`). A recovered provider is never refused exactly when no trip is written
  without three failures counted or a clear to come, and no last clear is dropped with a trip in force
  (`RecoveredIsWelcomeIff`). Reports that run in one go meet both (`WholeReport`).
- **Scores** are read and stored in two steps, so concurrent reports overwrite each other. The score is that of the
  reports that survive (`ScoreIsFold`); a provider with three failures is offered again exactly when the penalties of the
  surviving failures leave 25 of the score after the last surviving success (`EligibleIff`). Scored in turn, none is lost
  and six failures are final (`SixFailuresAreFinal`); out of turn they need not be (`SixFailuresOutOfTurn`).
- **Own URL among the peers**: the constructor compares seed peers with the configured URL before normalising it
  (`rpc_provider.rs:283`, `:295`), so a node configured as `"http://n/"` with the seed `"http://n"` is
  its own peer (`NodeSeedsItself`, `NodeSeedsItselfIff`); later registrations cannot do that.
- **`normalize_base_url`** is not idempotent: `"a/ /"` gives `"a/ "`, which gives `"a"` (`NormalizeTwiceDiffers`). A
  contact with a peer filed under a URL that ends in white space is credited to another entry (`ContactGoesElsewhere`,
  `ContactIsCreditedIff`).
- **Gossip merges** commute exactly when no new provider is named differently, no peer gets two instance ids, and one
  sender does not contradict itself (`MergesCommuteIff`, `NamesDependOnOrder`).
- **Ledger catch-up**: after a failed catch-up fetch the latest ledger is stored nevertheless and the cursor passes the
  gap (`fee_collector.rs:200-220`, `FailedReplayLeavesAGap`). Ledgers stay without gaps exactly when every ledger stored
  adjoins those there, and those deleted are taken from the ends (`NoGapsIff`).
- **Bids**: economy ≤ standard ≤ priority ≤ urgent for all i64 fees exactly when the margin exceeds
  0.9 − 0.1/9223372036854775799, the excess being rounding (`BidsOrderedIff`).
- **Merkle payload**: with an all-zero `leaf_hash` an accepted proof of any length binds its `leaf` bytes; with any other
  it says nothing about them (`PayloadBinding`).
- **`generate_proofs_batch`** on an empty index list fails on an unbuilt tree although no single call does; otherwise it
  fails exactly when some single call fails.
- **`parse_call_trace`** is documented to need one complete call/return pair (`call_trace_parser.rs:68-70`). There is a
  graph exactly when a call is entered (`GraphIff`), so the promise holds of a trace exactly when no call is entered or a
  return follows one (`PairPromiseIff`); it fails of every trace cut off after its first call (`OpenCallGivesGraph`).

## Model

| member | source | states |
|---|---|---|
| LeaderLock.RedisKey.Run | core/src/leader_lock.rs:54-70 | the two Lua scripts and SET NX PX act on the key as the command semantics says, and report whether they took effect |
| LeaderLock.RedisLeaderLock.constructor | core/src/leader_lock.rs:101-115 | the lease length is clamped to 1 ms .. u64::MAX and there is no local deadline |
| LeaderLock.RedisLeaderLock.UpdateLeaseDeadline | core/src/leader_lock.rs:316-322 | the deadline is one lease after the moment the reply is processed |
| LeaderLock.RedisLeaderLock.TryAcquireOrRenew | core/src/leader_lock.rs:122-183 | key, deadline and answer of a call, for every combination of lost requests, lost replies and connection failure |
| LeaderLock.RedisLeaderLock.KeepaliveTick | core/src/leader_lock.rs:205-242 | one keepalive tick renews the key and the deadline, or clears the deadline on any failure but a failed connection |
| LeaderLock.RedisLeaderLock.Release | core/src/leader_lock.rs:253-279 | the deadline is cleared first, and the key deleted only if it carries this node's token |
| LeaderLock.ErrorFreeCall | core/src/leader_lock.rs:122-183 | while the node's token is live, an error-free call succeeds unless it finds a passed local deadline, which it drops |
| LeaderLock.UncontestedCall | core/src/leader_lock.rs:122-183 | a call that finds no live key acquires the lease, from when SET ran, and counts its deadline from the reply |
| LeaderLock.ContestedCall | core/src/leader_lock.rs:122-183 | a call that finds another node's live token fails and changes nothing but a deadline that has passed |
| LeaderLock.UnheardCall | core/src/leader_lock.rs:122-183 | so does one that cannot connect, or whose requests are lost |
| LeaderLock.UnreadRenewal | core/src/leader_lock.rs:150-183 | after a lost renewal reply the lease is extended, yet the caller reads failure and keeps its old deadline |
| LeaderLock.TickIs | core/src/leader_lock.rs:204-242 | every outcome of a keepalive tick: extended, refused or unanswered, the last two without a deadline |
| LeaderLock.ReleaseIs | core/src/leader_lock.rs:253-279 | a release deletes the node's own live key and no other, and leaves no deadline even if it cannot connect |
| LeaderLock.LeaseLength | core/src/leader_lock.rs:101-102 | a lease of 0 ms becomes 1 ms, one beyond 64 bits the longest that fits |
| LeaderLock.SecondCallRegains | core/src/leader_lock.rs:122-183 | after lost replies, a node whose token is still live leads again by its second error-free call |
| LeaderCluster.StepKeepsOrder | core/src/leader_lock.rs:54-70 | every step of a cluster keeps leases in order and the key as the last of them, deletions and late requests included |
| LeaderCluster.StepKeepsInv | core/src/leader_lock.rs:122-322 | every step whose deletions are safe keeps every deadline, and every success that may still be read, covered by a lease |
| LeaderCluster.RunKeepsInv | core/src/leader_lock.rs:122-322 | hence every run with safe deletions keeps that |
| LeaderTheorems.LeasesNeverOverlap | core/src/leader_lock.rs:54-70 | over every run with any nodes, delays, losses, releases and strays, lease intervals on the key never overlap |
| LeaderTheorems.BeliefIsBacked | core/src/leader_lock.rs:285-322 | with safe deletions a node that believes owns the live key, or its lease ended less than the reply delay ago |
| LeaderTheorems.BeliefIsBackedIff | core/src/leader_lock.rs:253-322 | over every run, belief is backed at every point however long one waits for replies, if and only if every deletion of a live key is safe |
| LeaderTheorems.UnsafeDeletionShows | core/src/leader_lock.rs:253-279 | an unsafe deletion leaves a belief that waiting shows to be bare |
| LeaderTheorems.DeletedUnderBelief | core/src/leader_lock.rs:253-279 | a renewal between a release and its deletion ends in a belief in a lease that is gone, with no reply delayed |
| LeaderTheorems.DocumentedIsSafe | core/src/leader_lock.rs:246-279 | release with nothing in flight, and nothing started while the deletion is outstanding, is safe |
| LeaderTheorems.MutualExclusionIff | core/src/leader_lock.rs:285-322 | at most one node believes in its lease, in all runs with safe deletions, if and only if success replies are never delayed |
| LeaderTheorems.TwoLeaders | core/src/leader_lock.rs:316-322 | for every positive delay bound and all lease lengths, a run in which two nodes believe at once |
| LeaderTheorems.LateRequest | core/src/leader_lock.rs:150-183 | a request given up before Redis ran it can still change the key later, unseen by any node; one that ran does not run again |
| LeaderTheorems.TryCallIsARun | core/src/leader_lock.rs:122-183 | what the lock object's call does is what a run of the cluster's steps does |
| LeaderKeepalive.PlayedKeeps | core/src/leader_lock.rs:195-244 | with ticks taken when due, served within a lag and never failing twice in a row, the key outlives the ticks that may still fail |
| LeaderKeepalive.KeepaliveIff | core/src/leader_lock.rs:195-244 | the holder's key never lapses and no other SET NX succeeds in any such run, if and only if two paces and one lag fit into the lease |
| LeaderKeepalive.PromptKeepaliveIff | core/src/leader_lock.rs:195-244 | served at once: if and only if the lease is at least 3 ms |
| LeaderKeepalive.KeepaliveInNumbers | core/src/leader_lock.rs:195-244 | the key never lapses if and only if the lease is at least 3 ms and longer than three lags |
| LeaderKeepalive.TickComesEveryThird | core/src/leader_lock.rs:198 | after a tick served at once the next one is due a third of the lease later, rounded down, but at least 1 ms |
| LeaderKeepalive.LateRenewalsLapse | core/src/leader_lock.rs:198-242 | a renewal answered late, a failed tick and one served late: the lease is two paces and a lag old and not renewed |
| LeaderRefinement.TickCallIsARun | core/src/leader_lock.rs:204-242 | what the lock object's keepalive tick does is what a run of the cluster's steps does |
| LeaderRefinement.ReleaseCallIsARun | core/src/leader_lock.rs:253-279 | so it is with its release |
| LeaderRefinement.StepIsSeen | core/src/leader_lock.rs:122-279 | every step of the cluster is an event of the keepalive's timing, and changes clock and key alike |
| LeaderRefinement.KeyNeverLapses | core/src/leader_lock.rs:195-244 | over every run of the cluster in which the keepalive keeps its timing, the holder's key never lapses |
| MerkleHash.LexTotal | core/src/merkle_tree.rs:342-353 | the byte order that sorts a pair is total |
| MerkleHash.PairHashesSmallerFirst | core/src/merkle_tree.rs:342-353 | of two hashes, the one with the smaller first differing byte is digested first, whatever the argument order |
| MerkleHash.TwinPairHash | core/src/merkle_tree.rs:342-353 | two equal hashes are digested one after the other |
| MerkleTrees.BuildLevels | core/src/merkle_tree.rs:367-397 | the loop builds exactly the levels up to a single node, odd nodes paired with themselves |
| MerkleTrees.NextLevel | core/src/merkle_tree.rs:378-392 | one level's parents, in order |
| MerkleTrees.VerifyProof | core/src/merkle_tree.rs:281-297 | accepts exactly the proofs that climb from the start hash to the given root |
| MerkleTrees.Verify | core/src/merkle_tree.rs:52-68 | accepts exactly the proofs that climb to their own root |
| MerkleTrees.AdvancePaths | core/src/merkle_tree.rs:237-259 | one level of the batch walk moves every requested path one step along its own proof |
| MerkleTrees.MerkleTree.Build | core/src/merkle_tree.rs:110-143 | fails exactly on no leaves or more than the capacity, leaving the tree as it was; otherwise the tree is that of the leaves |
| MerkleTrees.MerkleTree.GenerateProof | core/src/merkle_tree.rs:151-195 | the honest sibling path of the leaf, or the error for an unbuilt tree or an index out of bounds |
| MerkleTrees.MerkleTree.GenerateProofsBatch | core/src/merkle_tree.rs:213-276 | the pointwise single proofs, duplicates included; fails exactly on an unbuilt tree or when some single call fails |
| MerkleTheorems.OneLeafRoot | core/src/merkle_tree.rs:335-339 | a tree of one leaf is its double digest |
| MerkleTheorems.TwoLeafRoot | core/src/merkle_tree.rs:342-397 | a tree of two leaves digests the smaller leaf hash before the greater, in either order of the leaves |
| MerkleTheorems.ParentIs | core/src/merkle_tree.rs:378-392 | an odd last node is digested with itself, every other one with its neighbour, the smaller hash first |
| MerkleTheorems.BuiltRoot | core/src/merkle_tree.rs:130-136 | the built object's root for one and for two leaves |
| MerkleTheorems.ClimbInBytes | core/src/merkle_tree.rs:288-294 | a node flagged left puts the running hash before its own, any other after it |
| MerkleTheorems.StartInBytes | core/src/merkle_tree.rs:282-286 | verification starts from the leaf hash, or from the payload's double digest if that is all zeros |
| MerkleTheorems.CapacityIs | core/src/merkle_tree.rs:114-118 | one leaf for no level, twice as many for each further level, the word size from 64 on |
| MerkleTheorems.HonestClimb | core/src/merkle_tree.rs:52-68 | from every node of every level the honest path climbs to the root |
| MerkleTheorems.Completeness | core/src/merkle_tree.rs:52-68 | every generated proof is accepted, all-zero leaf hashes included |
| MerkleTheorems.BuiltTreeProvesItsLeaves | core/src/merkle_tree.rs:110-195 | a built tree proves exactly its leaves to both verifiers, with paths of its depth, which is within the configured levels |
| MerkleTheorems.Soundness | core/src/merkle_tree.rs:281-297 | a climb of full length that reaches the root starts at a leaf hash, or two different inputs with equal hash are constructed |
| MerkleTheorems.AcceptedProofNamesALeaf | core/src/merkle_tree.rs:281-297 | the same for the verifiers: an accepted proof of the tree's depth names a leaf, or a collision is constructed |
| MerkleTheorems.InnerNodesClimbToo | core/src/merkle_tree.rs:281-297 | the length condition is needed: inner nodes are accepted with shorter paths |
| MerkleTheorems.PayloadClimbs | core/src/merkle_tree.rs:335-362 | a payload that climbs to a node of the tree, by a proof of any length, is a payload of the tree, or two byte strings with equal digests are constructed |
| MerkleTheorems.PayloadBinding | core/src/merkle_tree.rs:52-68 | an accepted proof of any length binds its payload bytes to the tree exactly when its leaf hash is all zeros |
| MerkleTheorems.LeafIsShared | core/src/merkle_tree.rs:367-397 | with equal depth and root, each leaf hash of one tree is in the other, or its path collides there |
| MerkleTheorems.RootCommitsToLeafSet | core/src/merkle_tree.rs:367-397 | depth and root determine the set of leaf hashes, whatever the leaf counts, or a path of the trees exhibits a collision |
| MerkleTheorems.LevelSize | core/src/merkle_tree.rs:367-397 | level l has ceil(n / 2^l) nodes |
| MerkleTheorems.DepthIsLeast | core/src/merkle_tree.rs:313-315 | the depth is the least d with 2^d at least the leaf count |
| MerkleTheorems.CapacityBoundsDepth | core/src/merkle_tree.rs:114-123 | the capacity check keeps the depth within the configured levels |
| CallTrace.ParseCallTrace | core/src/call_trace_parser.rs:75-147 | the stack loop computes the machine's result on the classified events |
| CallTraceTheorems.NoiseIsIgnored | core/src/call_trace_parser.rs:79-135 | undecodable, unsuccessful and other events change nothing, wherever they stand |
| CallTraceTheorems.InputIsAccounted | core/src/call_trace_parser.rs:75-147 | every input is, up to skipped events, completed calls and stray returns followed by the calls still open, as the machine holds them |
| CallTraceTheorems.AccountIsFedBack | core/src/call_trace_parser.rs:75-147 | feeding completed calls, stray returns and open calls leaves exactly those open calls and the last completed one |
| CallTraceTheorems.RoundTrip | core/src/call_trace_parser.rs:75-147 | parsing the events of any call tree, with any noise between them, returns exactly that tree |
| CallTraceTheorems.EventRoundTrip | core/src/call_trace_parser.rs:80-147 | the same from the tree's raw diagnostic events |
| CallTraceEvents.NoiseChangesNothing | core/src/call_trace_parser.rs:79-135 | an undecodable, unsuccessful, topicless or otherwise uninteresting event changes nothing, wherever it stands |
| CallTraceEvents.LoneCall | core/src/call_trace_parser.rs:94-124 | a call without contract id is the host's, one whose third topic is no symbol is unknown |
| CallTraceEvents.EventsRoundTrip | core/src/call_trace_parser.rs:75-147 | any raw events that tell a call tree, with skipped ones anywhere between them, give that tree back |
| CallTraceEvents.EventsCutOff | core/src/call_trace_parser.rs:137-147 | cut off, they give the outermost call with exactly its completed direct sub-calls |
| CallTraceTheorems.ResultOfAnyInput | core/src/call_trace_parser.rs:137-147 | the result for an arbitrary input: the last call that returned at top level, else the outermost open call |
| CallTraceTheorems.GraphIff | core/src/call_trace_parser.rs:137-147 | there is a graph if and only if some call is entered |
| CallTraceTheorems.PairIff | core/src/call_trace_parser.rs:119-131 | an open call returns somewhere if and only if a return follows a call |
| CallTraceTheorems.PairPromiseIff | core/src/call_trace_parser.rs:68-70 | a graph only with a complete pair: true of a trace if and only if no call is entered or a return follows one |
| CallTraceTheorems.OpenCallGivesGraph | core/src/call_trace_parser.rs:137-145 | a trace of one call event yields a graph without any complete pair |
| CallTraceTheorems.TruncatedTrace | core/src/call_trace_parser.rs:137-147 | every non-empty proper prefix yields the outermost call with exactly its completed direct sub-calls |
| CallTraceTheorems.DepthIsPeak | core/src/call_trace_parser.rs:171-177 | the depth of a tree is the largest number of calls open at once in its trace |
| Mermaid.Output.AppendMermaidNodes | core/src/call_trace_parser.rs:153-165 | appends the rendered lines of the call and advances the counter by the number of its sub-calls |
| Mermaid.ToMermaid | core/src/call_trace_parser.rs:47-51 | the header followed by the lines of the root, numbered from 0 |
| MermaidTheorems.NodesNumbered | core/src/call_trace_parser.rs:153-165 | from any first id, the node lines are those of the calls in preorder, numbered consecutively |
| MermaidTheorems.EdgesNumbered | core/src/call_trace_parser.rs:158-163 | from any first id, the k-th edge leads to the k-th next number from a smaller one |
| MermaidTheorems.GraphShape | core/src/call_trace_parser.rs:153-169 | nodes are numbered 0 .. n-1 in preorder with n = total_calls; n-1 edges, the k-th leading to k+1 from a smaller number |
| MermaidTheorems.LinesDetermineTree | core/src/call_trace_parser.rs:153-165 | node lines and edge lines, in any order, determine the call tree |
| MermaidTheorems.TextInjective | core/src/call_trace_parser.rs:153-165 | a line can be read off the front of a text in one way only |
| MermaidTheorems.RenderInjective | core/src/call_trace_parser.rs:153-165 | clean lines with the same rendering are the same lines |
| MermaidTheorems.MermaidDeterminesGraph | core/src/call_trace_parser.rs:47-51 | two graphs with clean labels and the same Mermaid text are the same graph |
| MermaidTheorems.DecimalDenotes | core/src/call_trace_parser.rs:155-162 | ids are printed in decimal, digits only, without leading zeros |
| MermaidTheorems.TwoCallText | core/src/call_trace_parser.rs:47-165 | the whole text for a call that makes one call |
| MermaidTheorems.MeasuresOfTwo | core/src/call_trace_parser.rs:167-177 | a call counts one more than its sub-calls together and is one deeper than the deepest |
| ProviderStats.Stats.constructor | core/src/rpc_provider.rs:39-45 | no samples; a window of 0 becomes 1 |
| ProviderStats.Stats.Record | core/src/rpc_provider.rs:47-60 | from the first sample on the stored average is that of all samples, although computed in u64 and u128; only the window 2^64 - 1 makes later samples panic |
| ProviderStats.NoOverflow | core/src/rpc_provider.rs:54-59 | for windows below 2^64 - 1 no intermediate overflows and the cast to u64 loses nothing |
| ProviderStats.EmaNext | core/src/rpc_provider.rs:47-60 | the first sample is the average, each further one moves it by 2 / (window + 1) of the difference, rounded down |
| ProviderStats.EmaWithin | core/src/rpc_provider.rs:47-60 | the average lies between the least and the greatest sample |
| ProviderStats.EmaMonotone | core/src/rpc_provider.rs:47-60 | slower samples never make the average smaller |
| ProviderStats.StepFromAbove | core/src/rpc_provider.rs:54-59 | above the sample every step comes down by at least one, not below it |
| ProviderStats.StepFromBelow | core/src/rpc_provider.rs:54-59 | below the sample a step stays below it, and moves exactly when more than half a window away |
| ProviderStats.StationaryIff | core/src/rpc_provider.rs:54-59 | a constant sample leaves the average alone exactly when it is at most half a window above it |
| ProviderStats.ConstantSamples | core/src/rpc_provider.rs:47-60 | under k constant samples the average comes down to the sample, or up to within half a window, by at least one a step until it does |
| ProviderStats.Settles | core/src/rpc_provider.rs:47-60 | after as many constant samples as the distance: exact from above, within floor(window / 2) from below, and then stationary |
| Sorting.SortByIsStable | core/src/rpc_provider.rs:340-341 | the library sort keeps the order of providers with equal latency |
| Routing.SelectProviderIndex | core/src/routing.rs:38-73 | the least (latency, index) among healthy providers when all are warmed, the cursor's turn otherwise, none when none is healthy |
| Routing.LatencyOrderAgrees | core/src/rpc_provider.rs:324-352 | the registry's list is led by the pure selector's choice for the same views and cursor, warmed or cold |
| Routing.WarmedOrderIsByLatency | core/src/rpc_provider.rs:340-341 | when all are warmed the list runs by (latency, index) |
| Routing.ColdOrder | core/src/rpc_provider.rs:342-345 | otherwise it runs round the available ones in order, from the cursor's place on |
| Routing.WarmedIs | core/src/rpc_provider.rs:70-72 | warmed is five samples for each available provider |
| Routing.OneRound | core/src/rpc_provider.rs:342-345 | of n <= h consecutive cold calls, the provider at a place leads the one whose cursor hits that place, if any |
| Routing.RotationIsFair | core/src/rpc_provider.rs:342-345 | over any k·h consecutive cold calls on h available providers each leads exactly k times |
| Routing.ComputeInverseRttWeights | core/src/routing.rs:81-95 | each weight is the slowest latency over one's own, rounded down; at least 1, never smaller for a faster provider |
| Routing.RttsAre | core/src/routing.rs:82-86 | a latency of 0 counts as 1 among the weights |
| BreakerRuns.HealthTracksTheRun | core/src/rpc_provider.rs:404-455 | over every interleaved run the score stays in 0..100, the counter counts the failures since the last success, and a trip in place is the latest one written |
| BreakerTheorems.TimelyIsShielded | core/src/rpc_provider.rs:404-455 | with timely clears and drops, and no trip still to be written, three failures in a row have a trip in place written since the latest one, or the cooldown is over |
| BreakerTheorems.CooldownIsKeptIff | core/src/rpc_provider.rs:404-455 | whenever no trip is still to be written the cooldown of the latest failure and trip is kept, however long one waits, if and only if every clearing write and every dropped trip is timely |
| BreakerTheorems.RecoveredIsWelcomeIff | core/src/rpc_provider.rs:404-455 | a provider with fewer than three failures since its last success is never refused, once no clear is pending, if and only if trips are written and resets dropped in time |
| BreakerTheorems.OfferedIff | core/src/rpc_provider.rs:859-866 | with timely writes and drops, none pending: offered exactly with fewer than three failures since the last success, or with the cooldown over and a score of 25 |
| BreakerTheorems.SixFailuresAreFinal | core/src/rpc_provider.rs:630-687 | after six failures in a row, scored in turn, only a success brings a provider back, however long one waits |
| BreakerScores.ScoreIsFold | core/src/rpc_provider.rs:407-435 | over every interleaved run the score is that of the reports whose stores survive, made one after the other |
| BreakerScores.FoldIsBaseLessPenalties | core/src/rpc_provider.rs:965-971 | the score after a chain of reports is that after its last success less the penalties since, down to zero |
| BreakerScores.EligibleIff | core/src/rpc_provider.rs:859-866 | after three failures, once nothing refuses, offered if and only if the penalties of the surviving failures leave 25 of the score after the last surviving success |
| BreakerScores.InTurnNothingIsLost | core/src/rpc_provider.rs:407-435 | scored in turn, every report survives, in the order of counting |
| BreakerScores.EligibleInTurnIff | core/src/rpc_provider.rs:859-866 | scored in turn, eligibility in terms of all reports counted |
| BreakerNumbers.ReportInNumbers | core/src/rpc_provider.rs:404-455 | a success leaves min(100, max(s, 55) + 12), a good probe min(100, s + 6), a failure max(0, s - 25), a failed probe max(0, s - 15), and a trip from the third failure on |
| BreakerNumbers.TripInNumbers | core/src/rpc_provider.rs:859-866 | a trip refuses for five minutes and is then forgotten; without one, 25 points or fewer than three failures are offered |
| BreakerNumbers.StartInNumbers | core/src/rpc_provider.rs:17-18 | seed providers start at 70, discovered ones at 55 |
| BreakerNumbers.SeriesLeaves | core/src/rpc_provider.rs:404-455 | what a series of failures leaves of a provider that has just succeeded |
| BreakerNumbers.SuccessThenFailures | core/src/rpc_provider.rs:404-455 | from at most 55: after one success, f failures and p failed probes, at least three, offered again after five minutes if and only if 25 f + 15 p <= 42 |
| BreakerAtomic.WholeReport | core/src/rpc_provider.rs:404-455 | a report in one go does what the objects' methods do, and its writes are timely |
| BreakerAtomic.WholeCheckIs | core/src/rpc_provider.rs:948-958 | so does a check in one go |
| BreakerWitnesses.FailureDuringCheckIsLost | core/src/rpc_provider.rs:948-958 | a failure between a check's read and its write is forgotten, and the provider offered at once |
| BreakerWitnesses.FailuresDuringSuccessAreLost | core/src/rpc_provider.rs:404-423 | three failures while a success waits for the trip lock are forgotten, and the provider offered at once |
| BreakerWitnesses.LateTripRefusesTheRecovered | core/src/rpc_provider.rs:440-453 | a failure that waits for the trip lock while a success comes and goes refuses the recovered provider |
| BreakerWitnesses.DroppedSuccessStaysRefused | core/src/rpc_provider.rs:415-421 | a success dropped while it waits leaves the recovered provider refused for the rest of the cooldown |
| BreakerWitnesses.DroppedFailureIsLost | core/src/rpc_provider.rs:434-452 | a third failure dropped while it waits leaves the provider offered at once |
| BreakerWitnesses.ClearedThenDroppedIsLost | core/src/rpc_provider.rs:404-455 | a clear that counts on a pending trip, which is then dropped, loses the cooldown of the trip written |
| BreakerWitnesses.FiveFailuresAreNot | core/src/rpc_provider.rs:630-687 | five probe failures from a full score leave a provider eligible after its cooldown |
| BreakerWitnesses.SixFailuresOutOfTurn | core/src/rpc_provider.rs:404-414 | a success scored after six failures it was counted before leaves the provider eligible |
| Gossip.NormalizeTwiceDiffers | core/src/rpc_provider.rs:961-963 | `"a/ /"` normalises to `"a/ "`, and that to `"a"` |
| Gossip.NormalizeIs | core/src/rpc_provider.rs:961-963 | of a URL the white space around it goes, and then the slashes at its end |
| Gossip.BlankIsNothing | core/src/rpc_provider.rs:961-963 | white space alone leaves nothing; any other character but a slash is kept |
| Gossip.NormalizedAgainIff | core/src/rpc_provider.rs:961-963 | normalising twice changes nothing exactly when the first result does not end in white space |
| GossipTheorems.PeerAfter | core/src/rpc_provider.rs:797-828 | who is a known peer after any registrations, with which instance id and which tellers |
| GossipTheorems.ProviderAfter | core/src/rpc_provider.rs:919-944 | which providers are known after a list of observations, with the last one under the sender's name |
| GossipTheorems.MergeKeepsKnown | core/src/rpc_provider.rs:905-946 | a merge leaves a known provider's score, failures, trip and credentials alone, and all other senders' observations |
| GossipTheorems.MergeDiscovers | core/src/rpc_provider.rs:919-931 | a provider learnt by gossip has no credentials and a discovered provider's score |
| GossipTheorems.MergeKeepsPeers | core/src/rpc_provider.rs:797-828 | a merge keeps a known peer's score, failures, last contact and last error, and never adds the node's own URL |
| GossipTheorems.MergeIsIdempotent | core/src/rpc_provider.rs:905-946 | receiving a snapshot again changes nothing |
| GossipTheorems.MergesCommuteIff | core/src/rpc_provider.rs:905-946 | two merges commute if and only if they do not clash in a new provider's name, a sender's word or a peer's instance id |
| GossipTheorems.NamesDependOnOrder | core/src/rpc_provider.rs:919-931 | two senders' snapshots that name a new provider differently do not commute |
| GossipTheorems.DistinctSendersCommute | core/src/rpc_provider.rs:905-946 | merges from distinct senders commute on everything but new providers' names and peers' instance ids |
| GossipTheorems.ProvidersAfterMerges | core/src/rpc_provider.rs:905-946 | over any order of merges the provider URLs are the initial ones and all merged ones |
| GossipTheorems.PeersAfterMerges | core/src/rpc_provider.rs:905-946 | so are the peers, and no snapshot can announce the node itself |
| GossipTheorems.MergesKeep | core/src/rpc_provider.rs:905-946 | no sequence of merges changes a known provider but for its observations, or makes the node its own peer |
| GossipTheorems.MergeRecords | core/src/rpc_provider.rs:932-944 | the sender's last word on a provider is recorded, field by field, under its base URL, or its instance id without one |
| GossipTheorems.NewProviderIs | core/src/rpc_provider.rs:919-931 | every field of a provider learnt from one listing |
| GossipTheorems.MergeAnnounces | core/src/rpc_provider.rs:905-917 | the sender becomes a peer under its own instance id, those it lists become peers it has told of |
| RegistryRuns.RegistryRunsTheBreaker | core/src/rpc_provider.rs:404-455 | over every run of reports, probes, checks, merges and contacts, a provider's health is that of a new provider after exactly its own events |
| RegistryRuns.OfferedInRegistryIff | core/src/rpc_provider.rs:859-866 | hence over every such run the score stays in 0..100, and the provider is offered exactly with fewer than three failures since its last success, or with the latest one's cooldown over and a score of 25, and never after six |
| RegistryRuns.NodeNeverBecomesItsPeer | core/src/rpc_provider.rs:797-857 | over every such run a node that is not its own peer never becomes one, and peer scores stay in 0..100 |
| RegistryRuns.SeededAreNew | core/src/rpc_provider.rs:265-274 | the registry's constructor makes every seed provider new |
| RegistryStanding.ContactInNumbers | core/src/rpc_provider.rs:830-857 | an answer adds 8, up to 100, and clears errors; an error takes 20, down to 0, and is counted and kept |
| RegistryStanding.PeerStands | core/src/rpc_provider.rs:797-857 | over every run of the registry a peer known from the start, or filed under a URL in normal form, has the failures since it was last reached, its last contact and last error, and the score of its own contacts alone, from 60 if learnt on the way |
| RegistryStanding.StandingSinceContact | core/src/rpc_provider.rs:830-857 | since its last contact a peer has lost 20 for each error, down to zero |
| RegistryStanding.IdentityIsKept | core/src/rpc_provider.rs:404-455 | no run changes a known provider's name, URL, credentials or source; only merges change what peers say of it |
| RegistryStanding.LastSeedStays | core/src/rpc_provider.rs:265-274 | of several seeds with one URL the last stays, at 70 and with nothing counted |
| RegistryStanding.RequestRunsByLatency | core/src/rpc_provider.rs:324-352 | with five samples for each offered provider, a list by average latency, then by place, and the cursor stays |
| RegistryStanding.RequestTakesTurns | core/src/rpc_provider.rs:324-352 | otherwise the offered providers in turn from the cursor's place on, and the cursor moves on |
| RegistrySteps.SeededPeersAre | core/src/rpc_provider.rs:276-288 | the seed peers are the normalised, non-empty seed URLs other than the configured URL as written |
| RegistrySteps.NodeSeedsItselfIff | core/src/rpc_provider.rs:276-296 | a new registry has the node among its peers exactly when a seed is its own URL and the configured URL is not in normal form |
| RegistrySteps.ContactIsCreditedIff | core/src/rpc_provider.rs:830-843 | a contact is credited to the peer exactly when its filed URL does not end in white space |
| RegistrySteps.NodeSeedsItself | core/src/rpc_provider.rs:276-296 | a node configured as `"http://n/"` with the seed `"http://n"` is its own peer |
| RegistrySteps.ContactGoesElsewhere | core/src/rpc_provider.rs:830-843 | a contact with the peer that the seed `"a/ /"` leaves under `"a/ "` goes to a new peer `"a"` |
| RegistrySteps.RequestFollowsSelection | core/src/rpc_provider.rs:324-352 | a request's list holds exactly the providers offered, once each, led by the one `select_provider_index` picks |
| ProviderRegistry.ProviderState.ReportSuccess | core/src/rpc_provider.rs:404-423 | score recovery, failures and trip cleared |
| ProviderRegistry.ProviderState.ReportFailure | core/src/rpc_provider.rs:425-455 | score penalty, failure counted, trip at the third |
| ProviderRegistry.ProviderState.TakeProbe | core/src/rpc_provider.rs:638-684 | what a health check's answer or failure does to the provider |
| ProviderRegistry.ProviderState.IsProviderTripped | core/src/rpc_provider.rs:948-958 | tripped exactly within the cooldown; an expired trip is cleared |
| ProviderRegistry.ProviderState.IsAvailable | core/src/rpc_provider.rs:859-866 | not tripped, and the score suffices or failures are few |
| ProviderRegistry.ProviderRegistry.constructor | core/src/rpc_provider.rs:262-298 | seed providers by URL, seed peers by normalised URL, cursor 0 |
| ProviderRegistry.ProviderRegistry.ReportSuccess | core/src/rpc_provider.rs:404-423 | only the provider under the URL changes, and only its health |
| ProviderRegistry.ProviderRegistry.ReportFailure | core/src/rpc_provider.rs:425-455 | only the provider under the URL changes, and only its health |
| ProviderRegistry.ProviderRegistry.RunHealthChecks | core/src/rpc_provider.rs:630-687 | the outcomes of a round of probes, applied one after the other |
| ProviderRegistry.ProviderRegistry.ProvidersByLatency | core/src/rpc_provider.rs:324-352 | the available providers in the latency order of their views, and the cursor's next value |
| ProviderRegistry.ProviderRegistry.RegisterPeer | core/src/rpc_provider.rs:797-828 | the peer is created or updated; the node's own URL and empty ones are ignored |
| ProviderRegistry.ProviderRegistry.ReportPeerSuccess | core/src/rpc_provider.rs:830-843 | what a contact does to the peers, the second normalisation included |
| ProviderRegistry.ProviderRegistry.ReportPeerFailure | core/src/rpc_provider.rs:845-857 | what a failed contact does to the peers |
| ProviderRegistry.ProviderRegistry.GetOrInsertProvider | core/src/rpc_provider.rs:777-795 | the known object, or a new one that leaves all others in place |
| ProviderRegistry.ProviderRegistry.MergeSnapshot | core/src/rpc_provider.rs:905-946 | the objects hold exactly the merged registry, and known objects stay in place |
| TaskQueue.BoundedTaskDispatcher.Dispatch | core/src/task_queue.rs:72-102 | spawned, dropped or waiting, with permits and counter, by priority and saturation |
| TaskQueue.BoundedTaskDispatcher.WakeUp | core/src/task_queue.rs:77-78 | a waiting caller that was granted a permit spawns its task |
| TaskQueue.BoundedTaskDispatcher.TaskEnds | core/src/task_queue.rs:96-99 | the permit goes to the longest-waiting caller, or back to the semaphore |
| TaskQueue.StepKeeps | core/src/task_queue.rs:72-102 | every step keeps the permit count, the queue of waiters and the drop counter |
| TaskQueue.RunKeeps | core/src/task_queue.rs:47-102 | hence every run keeps them |
| TaskQueue.Conservation | core/src/task_queue.rs:47-102 | over every interleaving: free permits plus holders is the capacity, each evicted Low task is counted once, no Normal task is dropped while open, nobody waits beside a free permit |
| TaskQueue.LowDroppedIffSaturated | core/src/task_queue.rs:82-93 | while open, a Low task is dropped if and only if all permits are held |
| TaskQueue.WaitersAreServedInOrder | core/src/task_queue.rs:77-99 | a task that ends hands its permit to the caller that has waited longest, who then runs |
| TaskQueue.PermitComesBack | core/src/task_queue.rs:96-99 | with nobody waiting the permit is free again |
| TaskQueue.NormalIsDispatched | core/src/task_queue.rs:77-81 | a Normal task runs on a free permit, queues behind all others without one, and is refused when closed |
| TaskQueue.ClosingRefuses | core/src/task_queue.rs:79-80 | closing refuses everyone who waits and nobody else |
| TaskQueue.GivingUp | core/src/task_queue.rs:77 | a caller that gives up leaves the queue, or returns the permit it was just granted |
| TaskQueue.OnePermit | core/src/task_queue.rs:72-102 | a run with one permit: the second task waits, a Low one is dropped and counted, the permit passes on |
| Jobs.JobQueue.Submit | core/src/jobs.rs:364-439 | the row is inserted; the job is queued exactly when the push succeeded |
| Jobs.JobQueue.SetRowStatus | core/src/jobs.rs:614-733 | status updates carry no guard; a missing row stays missing |
| Jobs.JobQueue.RetryJob | core/src/jobs.rs:798-853 | the retry is counted in the row the worker read; a delayed requeue is scheduled exactly when the limit allows and a permit is free |
| Jobs.JobQueue.Requeue | core/src/jobs.rs:830-850 | a delayed retry pushes its job and returns its permit |
| Jobs.JobQueue.Cancel | core/src/jobs.rs:737-766 | a job is cancelled exactly when its row is queued or being processed |
| Jobs.JobWorker.PopNext | core/src/jobs.rs:1177-1192 | the oldest queued job moves to the processing list; a lost reply loses its token |
| Jobs.JobWorker.BeginJob | core/src/jobs.rs:1259-1269 | the row is read and marked before the job is executed |
| Jobs.JobWorker.EndJob | core/src/jobs.rs:1272-1370 | the outcome is recorded; only a recorded failure is considered for a retry |
| Jobs.JobWorker.CleanUpTask | core/src/jobs.rs:1224-1231 | one entry leaves the processing list |
| JobsTheorems.StepKeeps | core/src/jobs.rs:364-853 | every step keeps at most one token per job, and rows and history in agreement |
| JobsTheorems.RunKeeps | core/src/jobs.rs:364-1370 | hence every run keeps them |
| JobsTheorems.JobsAreSerialised | core/src/jobs.rs:1177-1370 | over every interleaving each job has at most one live token, and no two executions of a job overlap |
| JobsTheorems.ExecutionsAreBounded | core/src/jobs.rs:798-853 | a job is executed at most once more than it was retried, and retried at most as often as the limit says |
| JobsTheorems.DelayWraps | core/src/jobs.rs:798-853 | retry delays are 30·2^(k-1) seconds up to the sixtieth, and shorter beyond |
| JobsTheorems.DelaySumIff | core/src/jobs.rs:798-853 | the first m delays add up to 30·(2^m − 1) seconds if and only if m <= 60 |
| JobsTheorems.BackoffIsRespected | core/src/jobs.rs:798-853 | while a job retried m times runs, at least the m delays have passed since its submission |
| JobsScenarios.RetryIsScheduled | core/src/jobs.rs:798-843 | below the limit with a free permit, the row becomes queued with r + 1 retries and exactly one requeue is due in 30·2^r seconds |
| JobsScenarios.RetryIsDropped | core/src/jobs.rs:831-850 | without a permit the retry is counted and nothing is scheduled |
| JobsScenarios.RetryIsRefused | core/src/jobs.rs:799-802 | at the limit, or with the database failing, only the task settles |
| JobsScenarios.FirstInFirstOut | core/src/jobs.rs:433-436 | over every run jobs are taken in the order in which they were pushed, and the rest are those still queued |
| JobsScenarios.ExecutionsAreAttained | core/src/jobs.rs:798-853 | for every limit there is a run with one execution more than the limit |
| JobsScenarios.SuccessEnds | core/src/jobs.rs:1280-1284 | a job that succeeds is completed, leaves both lists and is not retried |
| JobsScenarios.DatabaseFailures | core/src/jobs.rs:1259-1318 | an unread job settles its task, an unmarked one is not executed, an unrecorded end stays |
| JobsScenarios.Losses | core/src/jobs.rs:1177-1240 | a lost reply loses the job to the processing list, lost tasks and delays leave all else alone |
| JobsScenarios.CancelAndExpunge | core/src/jobs.rs:737-796 | cancelling marks a queued or processing row, old rows are deleted only at an end |
| JobsScenarios.CleanUpIs | core/src/jobs.rs:1224-1231 | cleaning up takes the job off the processing list once |
| FeeCollector.FeeCollector.CollectLatestFees | core/src/fee_collector.rs:146-230 | a cycle's cursor, store and answer, for every pattern of failing fetches, saves and reads |
| FeeCollector.FeeCollector.LatestStored | core/src/fee_store.rs:200-210 | the greatest stored sequence, if any |
| FeeCollector.FeeCollector.FetchAndStoreLedger | core/src/fee_collector.rs:484-493 | one ledger is stored or nothing happens; the cursor is untouched |
| FeeCollectorTheorems.CycleIs | core/src/fee_collector.rs:172-230 | exactly which ledgers a cycle stores: those replayed up to the first failure, and the latest one |
| FeeCollectorTheorems.CycleProgresses | core/src/fee_collector.rs:146-230 | a cycle never moves the cursor back, forgets no ledger, and leaves those up to its cursor alone |
| FeeCollectorTheorems.CycleKeepsGaplessIff | core/src/fee_collector.rs:146-230 | whatever fails, a cycle leaves a gap if and only if it stores a latest ledger that adjoins nothing stored |
| FeeCollectorTheorems.CleanFromTheTopIff | core/src/fee_collector.rs:172-206 | from the last stored ledger: no gap if and only if all missed ledgers were had, or the latest was not |
| FeeCollectorTheorems.AddKeepsGaplessIff | core/src/fee_store.rs:90-124 | storing a ledger in a gapless store leaves no gap if and only if it adjoins what is there |
| FeeCollectorRuns.RunKeeps | core/src/fee_collector.rs:146-230 | with the cycles of several nodes interleaved step by step, and no retention, every cursor is 0 or a stored ledger and no ledger is forgotten |
| FeeCollectorRuns.ReplayIsClean | core/src/fee_collector.rs:172-206 | a replayed ledger adjoins the one before it, whatever other nodes write in between |
| FeeCollectorRuns.ForgetKeepsGaplessIff | core/src/fee_store.rs:235-253 | deleting samples leaves no gap if and only if none of them lies between two that stay |
| FeeCollectorRuns.FailedReplayLeavesAGap | core/src/fee_collector.rs:197-228 | a run in which fetching ledger 6 fails and 8 is stored nevertheless |
| FeeCollectorRuns.StepKeepsGaplessIff | core/src/fee_collector.rs:172-230 | a step leaves a gap exactly when it stores a ledger that adjoins nothing stored, or deletes one between two that stay |
| FeeCollectorRuns.NoGapsIff | core/src/fee_collector.rs:146-230 | over every interleaved run of several collectors, with restarts at any moment, re-indexing and retention, there is never a gap if and only if every step is clean |
| FeeCollectorRuns.CursorNeverDecreases | core/src/fee_collector.rs:146-230 | between restarts a node's cursor never decreases, whatever other nodes do |
| FeeCollectorRuns.CycleIsARun | core/src/fee_collector.rs:146-230 | an undisturbed cycle of the collector object is a run of those steps |
| FeeCollectorTheorems.SingleCollectorStaysOnTop | core/src/fee_collector.rs:146-230 | with database reads and every needed catch-up working, a single collector's ledgers are one interval that ends at its loaded cursor |
| FeeAnalytics.PercentileIgnoresOrder | core/src/fee_analytics.rs:317-336 | percentiles do not depend on the order of the samples |
| FeeAnalytics.PercentileMonotone | core/src/fee_analytics.rs:317-336 | a higher percentile is never smaller |
| FeeAnalytics.PercentileWithin | core/src/fee_analytics.rs:317-336 | a percentile lies between the least and the greatest sample, negative ones counting as 0 |
| FeeAnalytics.PercentileAt | core/src/fee_analytics.rs:324-335 | between two neighbouring order statistics a percentile is their linear interpolation, rounded |
| FeeAnalytics.PercentileInNumbers | core/src/fee_analytics.rs:322-335 | the same with the position given by percentile · (n - 1) = 100 · position |
| FeeAnalytics.BidsInNumbers | core/src/fee_analytics.rs:117-166 | of 20 k + 1 samples, the bids are nine tenths of the sample at 10 k, and the margin times those at 10 k, 15 k and 19 k, rounded up |
| FeeAnalytics.FewSamples | core/src/fee_analytics.rs:117-320 | one sample is all its percentiles; without samples the defaults 100, 100, 150, 200 |
| FeeAnalytics.BidsOrdered | core/src/fee_analytics.rs:117-166 | economy <= standard <= priority <= urgent for every sample list and sufficient margin |
| FeeAnalytics.BidsOrderedIff | core/src/fee_analytics.rs:117-166 | that order holds for all i64 fee lists if and only if the margin is above the stated threshold, just below 0.9 |
| FeeAnalytics.CalculateEma | core/src/fee_analytics.rs:301-314 | the loop computes the recursive average of the first values, clamped and rounded |
| FeeAnalytics.SmoothedInNumbers | core/src/fee_analytics.rs:306-311 | the average starts at the first value, each further one moves it by 2 / (period + 1) of the difference |
| FeeAnalytics.SmoothedWithin | core/src/fee_analytics.rs:301-314 | the average stays between the least and the greatest value used |
| FeeAnalytics.SmoothedMonotone | core/src/fee_analytics.rs:301-314 | higher fees never lower the average |

## Left out

- LeaderTheorems.BeliefIsBackedIff: assumes a bound on the time from Redis running a request to its success reply being processed; failure replies and strays may be delayed at will. Clocks of Redis and nodes run at the same rate.
- LeaderKeepalive.KeepaliveIff: ticks are taken when due, or as soon as the previous one is served, as `MissedTickBehavior::Delay` has it; the timer itself is not modelled.
- LeaderLock.RedisLeaderLock.KeepaliveTick: the infinite loop around one tick is the sequence of ticks in `LeaderKeepalive`.
- MerkleTheorems.Soundness: SHA-256 is an arbitrary function; a collision is one of the two-hash input of `hash_concat`, and in `PayloadBinding` of byte strings.
- MerkleTrees.MerkleTree.Build: parallel hashing, capacity hints, `from_hex_strings` and `get_root_hex` do not affect the result and are left out.
- CallTrace.ParseCallTrace: base64 and XDR decoding are an event type; topics that are not symbols carry no further detail.
- MermaidTheorems.MermaidDeterminesGraph: for labels without backslash and line break, which contract addresses and function symbols satisfy; the printer does not escape labels.
- ProviderStats.ConstantSamples: for fewer than 2^64 samples; after that the sample counter wraps and the average restarts. Concurrent `record` calls are not interleaved.
- Routing.RotationIsFair: ignores the wrap-around of the cursor, after 2^64 calls, which breaks one round.
- BreakerRuns.HealthTracksTheRun: for runs shorter than 2^64 events; the failure counter wraps.
- BreakerTheorems.OfferedIff: the answer of a check is that of the moment in which it reads the trip time; the score and the counter it reads right after are taken from the same moment.
- BreakerTheorems.SixFailuresAreFinal: asks for score updates in turn, none starting before the previous one has stored; the exact condition without that is `BreakerScores.EligibleIff`.
- ProviderRegistry.ProviderState.IsProviderTripped: the object method reads and clears in one step; the interleavings are the runs in `BreakerRuns`. The time of the last local observation, used in reports only, is not kept.
- ProviderRegistry.ProviderRegistry.ProvidersByLatency: the hash map's iteration order is a parameter; a provider is checked and read without another task in between. `healthy_providers` makes the same checks without ordering.
- ProviderRegistry.ProviderRegistry.MergeSnapshot: merges run one at a time; snapshots of the registry, their limits of 64 entries, and health reports are left out.
- GossipTheorems.MergesCommuteIff: provider names and peer instance ids depend on the order of merges; the condition says when.
- TaskQueue.Conservation: the semaphore is first in, first out, as tokio documents; what a spawned task does is opaque.
- Jobs.JobQueue.RetryJob: the row update and the attempt to get a retry permit are one step; a dropped retry is not requeued by anything shown.
- JobsTheorems.DelaySumIff: u64 arithmetic as in a release build; a build with overflow checks would stop instead of wrapping.
- RegistryRuns.OfferedInRegistryIff: operations are atomic here; their interleavings are in `BreakerTheorems`.
- Jobs.JobWorker.PopNext: `max_concurrent_jobs` only delays a task and is left out. Job ids are fresh.
- Jobs.JobQueue.Cancel: cancellation is not terminal, since later status updates carry no guard.
- Jobs.JobQueue.Submit: payloads, webhooks, results, progress and listing are left out.
- FeeCollectorRuns.NoGapsIff: sequences of 2^63 and more are left out. The leader lease is not needed for it, so nodes that both believe to lead are covered.
- FeeCollectorTheorems.SingleCollectorStaysOnTop: without retention; `FeeCollectorRuns.NoGapsIff` covers it.
- FeeCollector.FeeCollector.CollectLatestFees: how a ledger's fees are computed from an RPC response is left out; fees are opaque figures.
- FeeAnalytics.BidsOrderedIff: arithmetic is over reals, so rounding in f64 is not modelled; sums, means, standard deviation, trend and confidence are left out.
- HTTP, gRPC, GraphQL, metrics, authentication and the command line, and SQL and Redis beyond the operations above, are plumbing over libraries.
