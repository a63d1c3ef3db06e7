/** The keepalive task of core/src/leader_lock.rs keeps the lease, against any other nodes. */
module LeaderKeepalive {
  import opened Wrappers
  import opened LeaderLock

  /** Ticks come every third of the lease, at least a millisecond apart. */
  function Interval(ttl: nat): nat {
    if ttl / 3 < 1 then 1 else ttl / 3
  }

  /** What the task does: wait for its next tick, or serve the tick it took at `since`. */
  datatype Task = Waiting(next: nat) | Serving(since: nat, ran: bool)

  /** `missed`: the last tick served failed. */
  datatype Watch = Watch(now: nat, entry: Option<Entry>, task: Task, missed: bool)

  datatype Event =
    | Advance(dt: nat)
    | TakeTick
    | RunRenewal                                          // Redis runs the tick's renewal
    | Finish(ok: bool)                                    // its answer, or an error
    | OwnCall(command: Command)                           // any other request of the holder
    | OtherCall(other: Token, ttl: nat, command: Command) // any request of any other node

  /** Between one tick and the next: the interval, or longer when serving the tick takes longer. */
  function Pace(ttl: nat, lag: nat): nat {
    if lag > Interval(ttl) then lag else Interval(ttl)
  }

  /**
   * The task takes ticks when they are due and serves each within `lag`; an answer comes only of a renewal that was
   * run, and no two ticks in a row fail; the holder does not release.
   */
  predicate Allowed(holder: Token, ttl: nat, lag: nat, w: Watch, e: Event) {
    match e
    case Advance(dt) => w.now + dt <= (if w.task.Waiting? then w.task.next else w.task.since + lag)
    case TakeTick => w.task.Waiting? && w.now == w.task.next
    case RunRenewal => w.task.Serving? && !w.task.ran
    case Finish(ok) => w.task.Serving? && (ok ==> w.task.ran) && (w.missed ==> ok)
    case OwnCall(c) => c != Delete
    case OtherCall(other, _, _) => other != holder
  }

  /** A tick that is due while the last one is still being served is taken late, and delays those after it. */
  function Next(holder: Token, ttl: nat, lag: nat, w: Watch, e: Event): Watch {
    if !Allowed(holder, ttl, lag, w, e) then w
    else match e
      case Advance(dt) => w.(now := w.now + dt)
      case TakeTick => w.(task := Serving(w.now, false))
      case RunRenewal =>
        w.(entry := Execute(w.entry, w.now, holder, ttl, Renew).0, task := Serving(w.task.since, true))
      case Finish(ok) =>
        var due := w.task.since + Interval(ttl);
        w.(task := Waiting(if due < w.now then w.now else due), missed := !ok)
      case OwnCall(c) => w.(entry := Execute(w.entry, w.now, holder, ttl, c).0)
      case OtherCall(other, otherTtl, c) => w.(entry := Execute(w.entry, w.now, other, otherTtl, c).0)
  }

  function Played(holder: Token, ttl: nat, lag: nat, w: Watch, events: seq<Event>): Watch
    decreases |events|
  {
    if events == [] then w else Played(holder, ttl, lag, Next(holder, ttl, lag, w, events[0]), events[1..])
  }

  /** The lease was just acquired or renewed, and the next tick is at most one interval away. */
  predicate Fresh(holder: Token, ttl: nat, w: Watch) {
    && w.entry == Some(Entry(holder, w.now + ttl)) && !w.missed
    && w.task.Waiting? && w.now <= w.task.next <= w.now + Interval(ttl)
  }

  /** The latest tick was taken soon after the last renewal that Redis has run. */
  predicate Kept(holder: Token, ttl: nat, lag: nat, w: Watch) {
    && w.entry.Some? && w.entry.value.token == holder && w.entry.value.expiresAt <= w.now + ttl
    && match w.task
       case Waiting(next) => w.now <= next <= w.now + Interval(ttl) && InPace(ttl, lag, w, next)
       case Serving(since, ran) =>
         && since <= w.now <= since + lag
         && (if ran then since + ttl <= w.entry.value.expiresAt else InPace(ttl, lag, w, since))
  }

  predicate InPace(ttl: nat, lag: nat, w: Watch, tick: nat)
    requires w.entry.Some?
  {
    tick + ttl <= w.entry.value.expiresAt + Pace(ttl, lag) * (if w.missed then 2 else 1)
  }

  lemma KeptIsLive(holder: Token, ttl: nat, lag: nat, w: Watch)
    requires 2 * Pace(ttl, lag) + lag < ttl && Kept(holder, ttl, lag, w)
    ensures Holds(w.entry, w.now, holder)
  {
  }

  lemma NextKeeps(holder: Token, ttl: nat, lag: nat, w: Watch, e: Event)
    requires 2 * Pace(ttl, lag) + lag < ttl && Kept(holder, ttl, lag, w)
    ensures Kept(holder, ttl, lag, Next(holder, ttl, lag, w, e))
  {
    KeptIsLive(holder, ttl, lag, w);
  }

  lemma {:induction false} PlayedKeeps(holder: Token, ttl: nat, lag: nat, w: Watch, events: seq<Event>)
    requires 2 * Pace(ttl, lag) + lag < ttl && Kept(holder, ttl, lag, w)
    ensures Kept(holder, ttl, lag, Played(holder, ttl, lag, w, events))
    decreases |events|
  {
    if events != [] {
      NextKeeps(holder, ttl, lag, w, events[0]);
      PlayedKeeps(holder, ttl, lag, Next(holder, ttl, lag, w, events[0]), events[1..]);
    }
  }

  /** The holder's key is live after every run, so no other node's SET NX can succeed. */
  ghost predicate NeverLapses(holder: Token, ttl: nat, lag: nat, w: Watch) {
    forall events: seq<Event> ::
      var after := Played(holder, ttl, lag, w, events);
      && Holds(after.entry, after.now, holder)
      && forall other, otherTtl :: !Execute(after.entry, after.now, other, otherTtl, SetNx).1
  }

  /**
   * With every tick served within `lag`, ticking every third of the lease survives single failures exactly when two
   * paces and one lag fit into the lease.
   */
  lemma KeepaliveIff(holder: Token, ttl: nat, lag: nat)
    requires ttl >= 1
    ensures (forall w :: Fresh(holder, ttl, w) ==> NeverLapses(holder, ttl, lag, w)) <==>
              2 * Pace(ttl, lag) + lag < ttl
  {
    if 2 * Pace(ttl, lag) + lag < ttl {
      forall w, events: seq<Event> | Fresh(holder, ttl, w)
        ensures var after := Played(holder, ttl, lag, w, events);
                Holds(after.entry, after.now, holder)
      {
        PlayedKeeps(holder, ttl, lag, w, events);
        KeptIsLive(holder, ttl, lag, Played(holder, ttl, lag, w, events));
      }
    } else {
      var w := Watch(0, Some(Entry(holder, ttl)), Waiting(0), false);
      LateRenewalsLapse(holder, ttl, lag);
      assert Fresh(holder, ttl, w);
      assert !NeverLapses(holder, ttl, lag, w) by {
        var after := Played(holder, ttl, lag, w, LateRenewals(ttl, lag));
        assert !Holds(after.entry, after.now, holder);
      }
    }
  }

  /** Served at once, that is every lease of 3 ms or more. */
  lemma PromptKeepaliveIff(holder: Token, ttl: nat)
    requires ttl >= 1
    ensures (forall w :: Fresh(holder, ttl, w) ==> NeverLapses(holder, ttl, 0, w)) <==> ttl >= 3
  {
    KeepaliveIff(holder, ttl, 0);
  }

  /** In numbers: exactly when the lease is at least 3 ms and longer than three lags. */
  lemma KeepaliveInNumbers(holder: Token, ttl: nat, lag: nat)
    requires ttl >= 1
    ensures (forall w :: Fresh(holder, ttl, w) ==> NeverLapses(holder, ttl, lag, w)) <==> ttl >= 3 && 3 * lag < ttl
  {
    KeepaliveIff(holder, ttl, lag);
  }

  /** After a tick served at once, the task waits for a third of the lease, rounded down, but at least 1 ms. */
  lemma TickComesEveryThird(holder: Token, ttl: nat, lag: nat, w: Watch)
    requires ttl >= 1 && w.task == Waiting(w.now)
    ensures var after := Played(holder, ttl, lag, w, [TakeTick, RunRenewal, Finish(true)]);
            && after.now == w.now && after.task.Waiting? && after.task.next >= w.now && !after.missed
            && var d := after.task.next - w.now;
               if ttl >= 3 then 3 * d <= ttl < 3 * (d + 1) else d == 1
  {
    var events := [TakeTick, RunRenewal, Finish(true)];
    PlayedFirst(holder, ttl, lag, w, events);
    var w1 := Next(holder, ttl, lag, w, TakeTick);
    PlayedFirst(holder, ttl, lag, w1, events[1..]);
    var w2 := Next(holder, ttl, lag, w1, RunRenewal);
    PlayedFirst(holder, ttl, lag, w2, events[2..]);
  }

  /** A renewal at its tick and answered late, a tick that fails late, and a tick whose renewal is not run in time. */
  function LateRenewals(ttl: nat, lag: nat): seq<Event> {
    var rest := Pace(ttl, lag) - lag;
    [TakeTick, RunRenewal, Advance(lag), Finish(true), Advance(rest)]
    + [TakeTick, Advance(lag), Finish(false), Advance(rest)]
    + [TakeTick, Advance(lag)]
  }

  lemma {:induction false} PlayedAppend(holder: Token, ttl: nat, lag: nat, w: Watch, a: seq<Event>, b: seq<Event>)
    ensures Played(holder, ttl, lag, w, a + b) == Played(holder, ttl, lag, Played(holder, ttl, lag, w, a), b)
    decreases |a|
  {
    if a == [] {
      assert a + b == b;
    } else {
      assert (a + b)[0] == a[0] && (a + b)[1..] == a[1..] + b;
      PlayedAppend(holder, ttl, lag, Next(holder, ttl, lag, w, a[0]), a[1..], b);
    }
  }

  lemma PlayedFirst(holder: Token, ttl: nat, lag: nat, w: Watch, events: seq<Event>)
    requires events != []
    ensures Played(holder, ttl, lag, w, events) ==
              Played(holder, ttl, lag, Next(holder, ttl, lag, w, events[0]), events[1..])
  {
  }

  /** The lease is gone two paces and a lag after the renewal. */
  lemma LateRenewalsLapse(holder: Token, ttl: nat, lag: nat)
    requires 1 <= ttl
    ensures var w := Watch(0, Some(Entry(holder, ttl)), Waiting(0), false);
            var pace := Pace(ttl, lag);
            Played(holder, ttl, lag, w, LateRenewals(ttl, lag))
            == Watch(2 * pace + lag, Some(Entry(holder, ttl)), Serving(2 * pace, false), true)
  {
    var pace, rest := Pace(ttl, lag), Pace(ttl, lag) - lag;
    var w := Watch(0, Some(Entry(holder, ttl)), Waiting(0), false);
    var first := [TakeTick, RunRenewal, Advance(lag), Finish(true), Advance(rest)];
    var second := [TakeTick, Advance(lag), Finish(false), Advance(rest)];
    var third := [TakeTick, Advance(lag)];
    var w1 := Watch(pace, Some(Entry(holder, ttl)), Waiting(pace), false);
    var w2 := Watch(2 * pace, Some(Entry(holder, ttl)), Waiting(2 * pace), true);
    assert LateRenewals(ttl, lag) == first + (second + third);
    PlayedAppend(holder, ttl, lag, w, first, second + third);
    AnsweredLate(holder, ttl, lag);
    PlayedAppend(holder, ttl, lag, w1, second, third);
    FailedLate(holder, ttl, lag);
    PlayedFirst(holder, ttl, lag, w2, third);
    PlayedFirst(holder, ttl, lag, w2.(task := Serving(2 * pace, false)), third[1..]);
  }

  lemma AnsweredLate(holder: Token, ttl: nat, lag: nat)
    requires 1 <= ttl
    ensures var pace, rest := Pace(ttl, lag), Pace(ttl, lag) - lag;
            Played(holder, ttl, lag, Watch(0, Some(Entry(holder, ttl)), Waiting(0), false),
                   [TakeTick, RunRenewal, Advance(lag), Finish(true), Advance(rest)])
            == Watch(pace, Some(Entry(holder, ttl)), Waiting(pace), false)
  {
    var pace, rest := Pace(ttl, lag), Pace(ttl, lag) - lag;
    var key := Some(Entry(holder, ttl));
    var events := [TakeTick, RunRenewal, Advance(lag), Finish(true), Advance(rest)];
    PlayedFirst(holder, ttl, lag, Watch(0, key, Waiting(0), false), events);
    PlayedFirst(holder, ttl, lag, Watch(0, key, Serving(0, false), false), events[1..]);
    PlayedFirst(holder, ttl, lag, Watch(0, key, Serving(0, true), false), events[2..]);
    PlayedFirst(holder, ttl, lag, Watch(lag, key, Serving(0, true), false), events[3..]);
    PlayedFirst(holder, ttl, lag, Watch(lag, key, Waiting(pace), false), events[4..]);
  }

  lemma FailedLate(holder: Token, ttl: nat, lag: nat)
    ensures var pace, rest := Pace(ttl, lag), Pace(ttl, lag) - lag;
            Played(holder, ttl, lag, Watch(pace, Some(Entry(holder, ttl)), Waiting(pace), false),
                   [TakeTick, Advance(lag), Finish(false), Advance(rest)])
            == Watch(2 * pace, Some(Entry(holder, ttl)), Waiting(2 * pace), true)
  {
    var pace, rest := Pace(ttl, lag), Pace(ttl, lag) - lag;
    var key := Some(Entry(holder, ttl));
    var events := [TakeTick, Advance(lag), Finish(false), Advance(rest)];
    PlayedFirst(holder, ttl, lag, Watch(pace, key, Waiting(pace), false), events);
    PlayedFirst(holder, ttl, lag, Watch(pace, key, Serving(pace, false), false), events[1..]);
    PlayedFirst(holder, ttl, lag, Watch(pace + lag, key, Serving(pace, false), false), events[2..]);
    PlayedFirst(holder, ttl, lag, Watch(pace + lag, key, Waiting(2 * pace), true), events[3..]);
  }
}
