/**
 One node's half of the Redis lease of core/src/leader_lock.rs: the two Lua scripts,
 SET NX PX, and the lock object that keeps a local deadline.  Times are milliseconds.
 */
module LeaderLock {
  import opened Wrappers
  import opened Numbers

  type Token = nat

  // ---- The Redis key ------------------------------------------------------

  datatype Entry = Entry(token: Token, expiresAt: nat)

  predicate IsLive(entry: Option<Entry>, now: nat) {
    entry.Some? && now < entry.value.expiresAt
  }

  predicate Holds(entry: Option<Entry>, now: nat, token: Token) {
    IsLive(entry, now) && entry.value.token == token
  }

  datatype Command = Renew | SetNx | Delete

  /** What Redis does with one command: the new entry and whether it took effect. */
  function Execute(entry: Option<Entry>, now: nat, token: Token, ttl: nat, c: Command): (Option<Entry>, bool) {
    match c
    case Renew => if Holds(entry, now, token) then (Some(Entry(token, now + ttl)), true) else (entry, false)
    case SetNx => if IsLive(entry, now) then (entry, false) else (Some(Entry(token, now + ttl)), true)
    case Delete => if Holds(entry, now, token) then (None, true) else (entry, false)
  }

  class RedisKey {
    var entry: Option<Entry>

    constructor ()
      ensures entry == None
    {
      entry := None;
    }

    method Run(now: nat, token: Token, ttl: nat, c: Command) returns (effect: bool)
      modifies this
      ensures (entry, effect) == Execute(old(entry), now, token, ttl, c)
    {
      match c
      case Renew =>
        effect := Holds(entry, now, token);
        if effect { entry := Some(Entry(token, now + ttl)); }
      case SetNx =>
        effect := !IsLive(entry, now);
        if effect { entry := Some(Entry(token, now + ttl)); }
      case Delete =>
        effect := Holds(entry, now, token);
        if effect { entry := None; }
    }
  }

  // ---- The local deadline -------------------------------------------------

  predicate LocallyValid(deadline: Option<nat>, now: nat) {
    deadline.Some? && now < deadline.value
  }

  predicate Expired(deadline: Option<nat>, now: nat) {
    deadline.Some? && deadline.value <= now
  }

  /** `try_acquire_or_renew` first drops a deadline that has passed. */
  function DropExpired(deadline: Option<nat>, now: nat): Option<nat> {
    if Expired(deadline, now) then None else deadline
  }

  /** What became of one request: a lost reply and a lost request look the same to the caller. */
  datatype Fate = Answered | ReplyLost | RequestLost

  /** The network as one `try_acquire_or_renew` call meets it. */
  datatype Link = Link(connects: bool, renewal: Fate, acquisition: Fate)

  /** The instants of one call: deadline check, renewal run, its reply, SET run, its reply. */
  datatype Clock = Clock(check: nat, renewRun: nat, renewReply: nat, setRun: nat, setReply: nat)

  datatype CallState = CallState(entry: Option<Entry>, deadline: Option<nat>, result: bool)

  /** One command sent over one link: the new entry and what the caller reads (errors read as failure). */
  function Send(entry: Option<Entry>, now: nat, token: Token, ttl: nat, c: Command, fate: Fate): (Option<Entry>, bool) {
    if fate.RequestLost? then (entry, false)
    else
      var (after, effect) := Execute(entry, now, token, ttl, c);
      (after, effect && fate.Answered?)
  }

  /** A whole `try_acquire_or_renew` call with nobody else at work in between. */
  function TryCall(entry: Option<Entry>, deadline: Option<nat>, token: Token, ttl: nat, link: Link, at: Clock)
    : CallState
  {
    var expired := Expired(deadline, at.check);
    var kept := DropExpired(deadline, at.check);
    if !link.connects then CallState(entry, kept, false)
    else
      var (e1, renewed) :=
        if expired then (entry, false) else Send(entry, at.renewRun, token, ttl, Renew, link.renewal);
      if renewed then CallState(e1, Some(at.renewReply + ttl), true)
      else
        var (e2, acquired) := Send(e1, at.setRun, token, ttl, SetNx, link.acquisition);
        CallState(e2, if acquired then Some(at.setReply + ttl) else kept, acquired)
  }

  /** One iteration of the keepalive loop. */
  function TickCall(entry: Option<Entry>, deadline: Option<nat>, token: Token, ttl: nat, connects: bool, fate: Fate,
                    runAt: nat, replyAt: nat): CallState
  {
    if !connects then CallState(entry, deadline, false)
    else
      var (after, renewed) := Send(entry, runAt, token, ttl, Renew, fate);
      CallState(after, if renewed then Some(replyAt + ttl) else None, renewed)
  }

  /** A whole `release` call. */
  function ReleaseCall(entry: Option<Entry>, token: Token, ttl: nat, connects: bool, fate: Fate, runAt: nat): CallState
  {
    CallState(if connects then Send(entry, runAt, token, ttl, Delete, fate).0 else entry, None, false)
  }

  function ClampTtl(ms: nat): (ttl: nat)
    ensures 1 <= ttl < U64
  {
    if ms >= U64 then U64 - 1 else if ms < 1 then 1 else ms
  }

  class RedisLeaderLock {
    const token: Token
    const ttlMs: nat
    var leaseDeadline: Option<nat>

    constructor (token: Token, ttl: nat)
      ensures this.token == token && ttlMs == ClampTtl(ttl) && leaseDeadline == None
    {
      this.token := token;
      ttlMs := ClampTtl(ttl);
      leaseDeadline := None;
    }

    method UpdateLeaseDeadline(now: nat)
      modifies this
      ensures leaseDeadline == Some(now + ttlMs)
    {
      leaseDeadline := Some(now + ttlMs);
    }

    method Request(redis: RedisKey, now: nat, c: Command, fate: Fate) returns (answer: bool)
      modifies redis
      ensures (redis.entry, answer) == Send(old(redis.entry), now, token, ttlMs, c, fate)
    {
      if fate.RequestLost? {
        return false;
      }
      var effect := redis.Run(now, token, ttlMs, c);
      answer := effect && fate.Answered?;
    }

    method TryAcquireOrRenew(redis: RedisKey, link: Link, at: Clock) returns (leader: bool)
      modifies this, redis
      ensures CallState(redis.entry, leaseDeadline, leader)
              == TryCall(old(redis.entry), old(leaseDeadline), token, ttlMs, link, at)
    {
      var expired := leaseDeadline.Some? && at.check >= leaseDeadline.value;
      if expired {
        leaseDeadline := None;
      }
      if !link.connects {
        return false;
      }
      var renewed := false;
      if !expired {
        renewed := Request(redis, at.renewRun, Renew, link.renewal);
      }
      if renewed {
        UpdateLeaseDeadline(at.renewReply);
        return true;
      }
      var acquired := Request(redis, at.setRun, SetNx, link.acquisition);
      if acquired {
        UpdateLeaseDeadline(at.setReply);
      }
      return acquired;
    }

    /** One iteration of the keepalive loop. */
    method KeepaliveTick(redis: RedisKey, connects: bool, fate: Fate, runAt: nat, replyAt: nat)
      modifies this, redis
      ensures var r := TickCall(old(redis.entry), old(leaseDeadline), token, ttlMs, connects, fate, runAt, replyAt);
              redis.entry == r.entry && leaseDeadline == r.deadline
    {
      if !connects {
        return;
      }
      var renewed := Request(redis, runAt, Renew, fate);
      if renewed {
        UpdateLeaseDeadline(replyAt);
      } else {
        leaseDeadline := None;
      }
    }

    method Release(redis: RedisKey, connects: bool, fate: Fate, runAt: nat)
      modifies this, redis
      ensures var r := ReleaseCall(old(redis.entry), token, ttlMs, connects, fate, runAt);
              redis.entry == r.entry && leaseDeadline == r.deadline
    {
      leaseDeadline := None;
      if !connects {
        return;
      }
      var deleted := Request(redis, runAt, Delete, fate);
    }
  }

  // ---- Regaining the lease after a lost reply ------------------------------

  const PERFECT: Link := Link(true, Answered, Answered)

  predicate InOrder(c: Clock) {
    c.check <= c.renewRun <= c.renewReply <= c.setRun <= c.setReply
  }

  /** While the node's own token is live, an error-free call succeeds, unless it finds a passed
      deadline; then it clears the deadline, so that the next error-free call renews. */
  lemma ErrorFreeCall(entry: Option<Entry>, deadline: Option<nat>, token: Token, ttl: nat, at: Clock)
    requires InOrder(at) && Holds(entry, at.setReply, token)
    ensures var r := TryCall(entry, deadline, token, ttl, PERFECT, at);
            && (r.result <==> !Expired(deadline, at.check))
            && (r.result ==>
                  r.deadline == Some(at.renewReply + ttl) && r.entry == Some(Entry(token, at.renewRun + ttl)))
            && (!r.result ==> r.deadline == None && r.entry == entry)
  {
  }

  /** A call that finds no live key acquires the lease, from the moment when SET ran. */
  lemma UncontestedCall(entry: Option<Entry>, deadline: Option<nat>, token: Token, ttl: nat, renewal: Fate, at: Clock)
    requires InOrder(at) && (entry.Some? ==> entry.value.expiresAt <= at.renewRun)
    ensures TryCall(entry, deadline, token, ttl, Link(true, renewal, Answered), at)
            == CallState(Some(Entry(token, at.setRun + ttl)), Some(at.setReply + ttl), true)
  {
  }

  /** A call that finds another node's live token changes nothing but a deadline that has passed. */
  lemma ContestedCall(entry: Option<Entry>, deadline: Option<nat>, token: Token, ttl: nat, link: Link, at: Clock)
    requires InOrder(at) && entry.Some? && entry.value.token != token && at.setRun < entry.value.expiresAt
    ensures var kept := if deadline.Some? && deadline.value <= at.check then None else deadline;
            TryCall(entry, deadline, token, ttl, link, at) == CallState(entry, kept, false)
  {
  }

  /** So does a call that cannot connect, and one whose requests are lost. */
  lemma UnheardCall(entry: Option<Entry>, deadline: Option<nat>, token: Token, ttl: nat, link: Link, at: Clock)
    requires !link.connects || (link.renewal.RequestLost? && link.acquisition.RequestLost?)
    ensures var kept := if deadline.Some? && deadline.value <= at.check then None else deadline;
            TryCall(entry, deadline, token, ttl, link, at) == CallState(entry, kept, false)
  {
  }

  /** A lost renewal reply: the lease is extended, and yet the caller reads failure and keeps its old deadline. */
  lemma UnreadRenewal(entry: Option<Entry>, deadline: nat, token: Token, ttl: nat, acquisition: Fate, at: Clock)
    requires InOrder(at) && entry.Some? && entry.value.token == token && at.renewRun < entry.value.expiresAt
    requires at.check < deadline && at.setRun < at.renewRun + ttl
    ensures TryCall(entry, Some(deadline), token, ttl, Link(true, ReplyLost, acquisition), at)
            == CallState(Some(Entry(token, at.renewRun + ttl)), Some(deadline), false)
  {
  }

  /** A keepalive tick: extended, refused or unanswered, and no deadline after either of the last two. */
  lemma TickIs(entry: Option<Entry>, deadline: Option<nat>, token: Token, ttl: nat, fate: Fate, runAt: nat,
               replyAt: nat)
    ensures TickCall(entry, deadline, token, ttl, false, fate, runAt, replyAt) == CallState(entry, deadline, false)
    ensures var own := entry.Some? && entry.value.token == token && runAt < entry.value.expiresAt;
            TickCall(entry, deadline, token, ttl, true, fate, runAt, replyAt)
            == CallState(if own && fate != RequestLost then Some(Entry(token, runAt + ttl)) else entry,
                         if own && fate == Answered then Some(replyAt + ttl) else None, own && fate == Answered)
  {
  }

  /** A release deletes the node's own live key and no other, and leaves no deadline even if it cannot connect. */
  lemma ReleaseIs(entry: Option<Entry>, token: Token, ttl: nat, connects: bool, fate: Fate, runAt: nat)
    ensures var own := entry.Some? && entry.value.token == token && runAt < entry.value.expiresAt;
            ReleaseCall(entry, token, ttl, connects, fate, runAt)
            == CallState(if own && connects && fate != RequestLost then None else entry, None, false)
  {
  }

  /** A lease of 0 ms becomes one of 1 ms, and one beyond 64 bits the longest that fits. */
  lemma LeaseLength(ms: nat)
    ensures ClampTtl(ms) == if ms == 0 then 1 else if ms <= 0xFFFF_FFFF_FFFF_FFFF then ms else 0xFFFF_FFFF_FFFF_FFFF
  {
  }

  /** Whatever deadline earlier calls left behind, the second error-free call finds the node leader,
      provided its token is still live then. */
  lemma SecondCallRegains(entry: Option<Entry>, deadline: Option<nat>, token: Token, ttl: nat, first: Clock,
      second: Clock)
    requires InOrder(first) && InOrder(second) && first.setReply <= second.check
    requires Holds(entry, second.setReply, token)
    ensures var r1 := TryCall(entry, deadline, token, ttl, PERFECT, first);
            var r2 := TryCall(r1.entry, r1.deadline, token, ttl, PERFECT, second);
            r1.result || (r2.result && r2.deadline == Some(second.renewReply + ttl))
  {
    ErrorFreeCall(entry, deadline, token, ttl, first);
    var r1 := TryCall(entry, deadline, token, ttl, PERFECT, first);
    if !r1.result {
      ErrorFreeCall(r1.entry, r1.deadline, token, ttl, second);
    }
  }
}
