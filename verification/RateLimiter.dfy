/** The sliding-window rate limiter: the in-memory list of admitted requests, and the Redis
    sorted set of all attempts. Both are compared with the full log of attempts. */
module RateLimiter {

  type Time = real

  /** A log of times, latest last. */
  datatype Log = Empty | Then(front: Log, last: Time)

  function Count(ts: Log): nat {
    match ts
    case Empty => 0
    case Then(front, _) => Count(front) + 1
  }

  predicate Has(ts: Log, t: Time) {
    ts.Then? && (ts.last == t || Has(ts.front, t))
  }

  /** No time is after x. */
  predicate UpTo(ts: Log, x: Time) {
    ts.Then? ==> ts.last <= x && UpTo(ts.front, x)
  }

  predicate Nondecreasing(ts: Log) {
    ts.Then? ==> UpTo(ts.front, ts.last) && Nondecreasing(ts.front)
  }

  /** Strictly increasing times, not before the epoch. */
  predicate Clocked(ts: Log) {
    ts.Then? ==> 0.0 <= ts.last && Clocked(ts.front) && (ts.front.Then? ==> ts.front.last < ts.last)
  }

  // ----- windows -----

  /** The times after lo. */
  function Prune(ts: Log, lo: Time): Log {
    match ts
    case Empty => Empty
    case Then(front, t) => if t > lo then Then(Prune(front, lo), t) else Prune(front, lo)
  }

  /** The times in (lo, hi]. */
  function Between(ts: Log, lo: Time, hi: Time): Log {
    match ts
    case Empty => Empty
    case Then(front, t) => if lo < t <= hi then Then(Between(front, lo, hi), t) else Between(front, lo, hi)
  }

  lemma {:induction false} PruneTwice(ts: Log, lo: Time, later: Time)
    requires lo <= later
    ensures Prune(Prune(ts, lo), later) == Prune(ts, later)
  {
    if ts.Then? {
      PruneTwice(ts.front, lo, later);
    }
  }

  lemma {:induction false} PruneShortens(ts: Log, lo: Time)
    ensures Count(Prune(ts, lo)) <= Count(ts)
  {
    if ts.Then? {
      PruneShortens(ts.front, lo);
    }
  }

  lemma {:induction false} BetweenIsPrune(ts: Log, lo: Time, hi: Time)
    requires UpTo(ts, hi)
    ensures Between(ts, lo, hi) == Prune(ts, lo)
  {
    if ts.Then? {
      BetweenIsPrune(ts.front, lo, hi);
    }
  }

  lemma {:induction false} UpToLater(ts: Log, x: Time, y: Time)
    requires UpTo(ts, x) && x <= y
    ensures UpTo(ts, y)
  {
    if ts.Then? {
      UpToLater(ts.front, x, y);
    }
  }

  /** The log of admitted times after one more request. */
  function Logged(log: Log, now: Time, admitted: bool): Log {
    if admitted then Then(log, now) else log
  }

  // ----- in memory -----

  datatype Outcome = Outcome(window: Log, admitted: bool)

  /** One request: forget what left the window, then admit if there is room. */
  function MemCheck(window: Log, calls: nat, period: Time, now: Time): Outcome {
    var recent := Prune(window, now - period);
    if Count(recent) >= calls then Outcome(recent, false) else Outcome(Then(recent, now), true)
  }

  function AsLog(ts: seq<Time>): Log {
    if ts == [] then Empty else Then(AsLog(ts[..|ts| - 1]), ts[|ts| - 1])
  }

  lemma AsLogAppend(ts: seq<Time>, t: Time)
    ensures AsLog(ts + [t]) == Then(AsLog(ts), t)
  {
    assert (ts + [t])[..|ts|] == ts;
  }

  lemma {:induction false} AsLogCount(ts: seq<Time>)
    ensures Count(AsLog(ts)) == |ts|
  {
    if ts != [] {
      AsLogCount(ts[..|ts| - 1]);
    }
  }

  class MemoryStore {
    var store: map<string, seq<Time>>

    constructor ()
      ensures store == map[]
    {
      store := map[];
    }

    function WindowOf(key: string): Log
      reads this
    {
      if key in store then AsLog(store[key]) else Empty
    }

    /** A key never seen has an empty window; no other key is touched. */
    method Check(key: string, calls: nat, period: Time, now: Time) returns (allowed: bool)
      modifies this
      ensures allowed == MemCheck(old(WindowOf(key)), calls, period, now).admitted
      ensures WindowOf(key) == MemCheck(old(WindowOf(key)), calls, period, now).window
      ensures store.Keys == old(store).Keys + {key}
      ensures forall k :: k in old(store) && k != key ==> store[k] == old(store)[k]
    {
      var ts := if key in store then store[key] else [];
      var kept := [];
      for n := 0 to |ts|
        invariant AsLog(kept) == Prune(AsLog(ts[..n]), now - period)
        invariant store == old(store)
      {
        assert ts[..n + 1] == ts[..n] + [ts[n]];
        AsLogAppend(ts[..n], ts[n]);
        if ts[n] > now - period {
          AsLogAppend(kept, ts[n]);
          kept := kept + [ts[n]];
        }
      }
      assert ts[..|ts|] == ts;
      AsLogCount(kept);
      AsLogAppend(kept, now);
      allowed := |kept| < calls;
      store := store[key := if allowed then kept + [now] else kept];
    }

    method Reset(key: string)
      modifies this
      ensures WindowOf(key) == Empty
      ensures store.Keys == old(store).Keys - {key}
      ensures forall k :: k in store ==> store[k] == old(store)[k]
    {
      store := store - {key};
    }

    /** A sequence of requests for one key leaves the window of its log and admits the attempts
        that the log says. */
    method CheckAll(key: string, calls: nat, period: Time, times: seq<Time>) returns (admitted: seq<Time>)
      requires key !in store
      modifies this
      ensures WindowOf(key) == MemWindow(AsLog(times), calls, period)
      ensures AsLog(admitted) == MemAdmitted(AsLog(times), calls, period)
      ensures forall k :: k in old(store) ==> k in store && store[k] == old(store)[k]
    {
      admitted := [];
      for n := 0 to |times|
        invariant WindowOf(key) == MemWindow(AsLog(times[..n]), calls, period)
        invariant AsLog(admitted) == MemAdmitted(AsLog(times[..n]), calls, period)
        invariant forall k :: k in old(store) ==> k in store && store[k] == old(store)[k]
      {
        assert times[..n + 1] == times[..n] + [times[n]];
        AsLogAppend(times[..n], times[n]);
        AsLogAppend(admitted, times[n]);
        var allowed := Check(key, calls, period, times[n]);
        admitted := if allowed then admitted + [times[n]] else admitted;
      }
      assert times[..|times|] == times;
    }
  }

  /** The stored window after a log of attempts on one key. */
  function MemWindow(times: Log, calls: nat, period: Time): Log {
    match times
    case Empty => Empty
    case Then(front, now) => MemCheck(MemWindow(front, calls, period), calls, period, now).window
  }

  /** Whether an attempt after this log is admitted. */
  predicate MemAdmits(times: Log, calls: nat, period: Time, now: Time) {
    MemCheck(MemWindow(times, calls, period), calls, period, now).admitted
  }

  /** The admitted attempts of the log. */
  function MemAdmitted(times: Log, calls: nat, period: Time): Log {
    match times
    case Empty => Empty
    case Then(front, now) => Logged(MemAdmitted(front, calls, period), now, MemAdmits(front, calls, period, now))
  }

  lemma {:induction false} MemAdmittedUpTo(times: Log, calls: nat, period: Time, x: Time)
    requires UpTo(times, x)
    ensures UpTo(MemAdmitted(times, calls, period), x)
  {
    if times.Then? {
      MemAdmittedUpTo(times.front, calls, period, x);
    }
  }

  /** What a later request finds after pruning: the admitted attempts of the log that are
      still in its window. */
  lemma {:induction false} MemPruned(times: Log, calls: nat, period: Time, lo: Time)
    requires Nondecreasing(times) && period > 0.0 && (times.Then? ==> times.last - period <= lo)
    ensures Prune(MemWindow(times, calls, period), lo) == Prune(MemAdmitted(times, calls, period), lo)
  {
    if times.Then? {
      var was, log := MemWindow(times.front, calls, period), MemAdmitted(times.front, calls, period);
      MemPruned(times.front, calls, period, times.last - period);
      PruneTwice(was, times.last - period, lo);
      PruneTwice(log, times.last - period, lo);
    }
  }

  /** The store remembers exactly the admitted attempts of the log that are still in the
      window of the last one. */
  lemma MemWindowIsRecent(times: Log, calls: nat, period: Time)
    requires times.Then? && Nondecreasing(times) && period > 0.0
    ensures MemWindow(times, calls, period) == Prune(MemAdmitted(times, calls, period), times.last - period)
  {
    MemPruned(times.front, calls, period, times.last - period);
  }

  lemma {:induction false} MemWindowBounded(times: Log, calls: nat, period: Time)
    ensures Count(MemWindow(times, calls, period)) <= calls
  {
    if times.Then? {
      MemWindowBounded(times.front, calls, period);
      PruneShortens(MemWindow(times.front, calls, period), times.last - period);
    }
  }

  /** No window of one period, wherever it lies, holds more than the allowed number of
      admitted requests. */
  lemma {:induction false} MemRate(times: Log, calls: nat, period: Time, x: Time)
    requires Nondecreasing(times) && period > 0.0
    ensures Count(Between(MemAdmitted(times, calls, period), x - period, x)) <= calls
  {
    if times.Then? {
      if times.last > x {
        MemRate(times.front, calls, period, x);
      } else {
        UpToLater(times.front, times.last, x);
        MemAdmittedUpTo(times, calls, period, x);
        BetweenIsPrune(MemAdmitted(times, calls, period), x - period, x);
        MemPruned(times, calls, period, x - period);
        MemWindowBounded(times, calls, period);
        PruneShortens(MemWindow(times, calls, period), x - period);
      }
    }
  }

  /** A request is turned away exactly when the window that ends with it already holds the
      allowed number of admitted requests. */
  lemma MemRejectsExactlyWhenFull(times: Log, calls: nat, period: Time, now: Time)
    requires Nondecreasing(times) && UpTo(times, now) && period > 0.0
    ensures !MemAdmits(times, calls, period, now)
       <==> Count(Between(MemAdmitted(times, calls, period), now - period, now)) == calls
  {
    MemRate(times, calls, period, now);
    MemAdmittedUpTo(times, calls, period, now);
    BetweenIsPrune(MemAdmitted(times, calls, period), now - period, now);
    MemPruned(times, calls, period, now - period);
  }

  // ----- Redis -----

  /** A sorted set whose members are their own scores, and when its key expires. */
  datatype SortedSet = SortedSet(members: set<Time>, expiresAt: Time)

  /** A key whose time is up is gone. */
  function Left(s: SortedSet, now: Time): set<Time> {
    if s.expiresAt > now then s.members else {}
  }

  /** zremrangebyscore(0, lo), zadd(now): rejected attempts are added too. */
  function Attempted(members: set<Time>, lo: Time, now: Time): set<Time> {
    (set t | t in members && !(0.0 <= t <= lo)) + {now}
  }

  class RedisStore {
    var db: map<string, SortedSet>

    constructor ()
      ensures db == map[]
    {
      db := map[];
    }

    /** The pipeline of one request. A key whose time is up is gone before it starts. */
    method Check(key: string, calls: nat, period: Time, now: Time) returns (allowed: bool)
      modifies this
      ensures var was := if key in old(db) then Left(old(db)[key], now) else {};
              var members := Attempted(was, now - period, now);
              && allowed == (|members| <= calls)
              && db == old(db)[key := SortedSet(members, now + period)]
    {
      var members: set<Time> := if key in db then Left(db[key], now) else {};
      members := set t | t in members && !(0.0 <= t <= now - period);
      members := members + {now};
      var count := |members|;
      db := db[key := SortedSet(members, now + period)];
      allowed := count <= calls;
    }

    /** The counter of one key is forgotten. */
    method Reset(key: string)
      modifies this
      ensures key !in db && db.Keys == old(db).Keys - {key}
      ensures forall k :: k in db ==> db[k] == old(db)[k]
    {
      db := db - {key};
    }

    /** The key holds the sorted set that a log of attempts leaves. */
    predicate Holds(key: string, log: Log, period: Time)
      reads this
    {
      if log.Empty? then key !in db else key in db && db[key] == ExpiringAttempts(log, period)
    }

    /** One more request after a log of attempts. */
    method CheckNext(key: string, calls: nat, period: Time, now: Time, ghost log: Log) returns (allowed: bool)
      requires Holds(key, log, period) && period > 0.0 && Clocked(Then(log, now))
      modifies this
      ensures Holds(key, Then(log, now), period)
      ensures allowed == RedisAdmits(log, calls, period, now)
      ensures forall k :: k in old(db) && k != key ==> k in db && db[k] == old(db)[k]
    {
      NextAttempt(log, now, calls, period);
      allowed := Check(key, calls, period, now);
    }

    /** A sequence of requests for one key leaves the sorted set of its log and admits the attempts
        that the log says. */
    method CheckAll(key: string, calls: nat, period: Time, times: seq<Time>) returns (admitted: seq<Time>)
      requires key !in db && period > 0.0 && Clocked(AsLog(times))
      modifies this
      ensures Holds(key, AsLog(times), period)
      ensures AsLog(admitted) == RedisAdmitted(AsLog(times), calls, period)
      ensures forall k :: k in old(db) ==> k in db && db[k] == old(db)[k]
    {
      admitted := [];
      for n := 0 to |times|
        invariant Holds(key, AsLog(times[..n]), period)
        invariant AsLog(admitted) == RedisAdmitted(AsLog(times[..n]), calls, period)
        invariant forall k :: k in old(db) ==> k in db && db[k] == old(db)[k]
      {
        assert times[..n + 1] == times[..n] + [times[n]];
        AsLogAppend(times[..n], times[n]);
        AsLogAppend(admitted, times[n]);
        ClockedPrefix(times, n + 1);
        var allowed := CheckNext(key, calls, period, times[n], AsLog(times[..n]));
        admitted := if allowed then admitted + [times[n]] else admitted;
      }
      assert times[..|times|] == times;
    }
  }

  /** What the next request finds in the sorted set of a log, leaves there and decides. */
  lemma NextAttempt(log: Log, now: Time, calls: nat, period: Time)
    requires Clocked(Then(log, now)) && period > 0.0
    ensures var was := if log.Then? then Left(ExpiringAttempts(log, period), now) else {};
            var members := Attempted(was, now - period, now);
            && ExpiringAttempts(Then(log, now), period) == SortedSet(members, now + period)
            && (RedisAdmits(log, calls, period, now) <==> |members| <= calls)
  {
    ExpiryChangesNothing(Then(log, now), period);
  }

  lemma {:induction false} ClockedPrefix(times: seq<Time>, n: nat)
    requires n <= |times| && Clocked(AsLog(times))
    ensures Clocked(AsLog(times[..n]))
    decreases |times|
  {
    if n < |times| {
      ClockedPrefix(times[..|times| - 1], n);
      assert times[..|times| - 1][..n] == times[..n];
    } else {
      assert times[..n] == times;
    }
  }

  /** The sorted set after a log of attempts, when the key never expires. */
  function Attempts(times: Log, period: Time): set<Time> {
    match times
    case Empty => {}
    case Then(front, now) => Attempted(Attempts(front, period), now - period, now)
  }

  /** The same with the expiry that every request sets again. */
  function ExpiringAttempts(times: Log, period: Time): SortedSet
    requires times.Then?
  {
    var now := times.last;
    var was := if times.front.Then? then Left(ExpiringAttempts(times.front, period), now) else {};
    SortedSet(Attempted(was, now - period, now), now + period)
  }

  predicate RedisAdmits(times: Log, calls: nat, period: Time, now: Time) {
    |Attempts(Then(times, now), period)| <= calls
  }

  function RedisAdmitted(times: Log, calls: nat, period: Time): Log {
    match times
    case Empty => Empty
    case Then(front, now) => Logged(RedisAdmitted(front, calls, period), now, RedisAdmits(front, calls, period, now))
  }

  lemma {:induction false} RedisAdmittedUpTo(times: Log, calls: nat, period: Time, x: Time)
    requires UpTo(times, x)
    ensures UpTo(RedisAdmitted(times, calls, period), x)
  {
    if times.Then? {
      RedisAdmittedUpTo(times.front, calls, period, x);
    }
  }

  lemma {:induction false} ClockedOrder(times: Log)
    requires Clocked(times)
    ensures Nondecreasing(times)
    ensures forall t :: Has(times, t) ==> 0.0 <= t <= times.last
    ensures times.Then? ==> forall t :: Has(times.front, t) ==> t < times.last
  {
    if times.Then? {
      ClockedOrder(times.front);
      if times.front.Then? {
        UpToLater(times.front.front, times.front.last, times.last);
      }
    }
  }

  /** The sorted set holds the attempts of the last period. */
  lemma {:induction false} AttemptsAreRecent(times: Log, period: Time)
    requires times.Then? && Clocked(times) && period > 0.0
    ensures forall t :: t in Attempts(times, period) <==> Has(times, t) && t > times.last - period
  {
    ClockedOrder(times);
    var front, lo := times.front, times.last - period;
    if front.Then? {
      AttemptsAreRecent(front, period);
    }
    forall t
      ensures t in Attempts(times, period) <==> Has(times, t) && t > lo
    {
      assert t in Attempts(front, period) ==> Has(front, t) && Has(times, t) && 0.0 <= t;
      assert Has(front, t) && t > lo ==> t in Attempts(front, period);
    }
  }

  /** The expiry never matters: when the key is dropped, pruning would have emptied it. */
  lemma {:induction false} ExpiryChangesNothing(times: Log, period: Time)
    requires times.Then? && Clocked(times) && period > 0.0
    ensures ExpiringAttempts(times, period) == SortedSet(Attempts(times, period), times.last + period)
  {
    var now := times.last;
    if times.front.Then? {
      ExpiryChangesNothing(times.front, period);
      if times.front.last + period <= now {
        AttemptsAreRecent(times.front, period);
        ClockedOrder(times.front);
        assert Attempted(Attempts(times.front, period), now - period, now) == {now};
        assert Attempted({}, now - period, now) == {now};
      }
    }
  }

  lemma NothingInEmpty(times: Log, t: Time)
    requires times.Empty?
    ensures !Has(times, t)
  {
  }

  lemma {:induction false} CountMembers(times: Log, lo: Time, s: set<Time>)
    requires Clocked(times)
    requires forall t :: t in s <==> Has(times, t) && t > lo
    ensures |s| == Count(Prune(times, lo))
  {
    if times.Empty? {
      forall t | t in s
        ensures false
      {
        NothingInEmpty(times, t);
      }
    } else {
      var t := times.last;
      ClockedOrder(times);
      CountMembers(times.front, lo, s - {t});
      if t !in s {
        assert s - {t} == s;
      }
    }
  }

  /** Counting the sorted set counts the attempts of the last period. */
  lemma AttemptsCount(times: Log, period: Time)
    requires times.Then? && Clocked(times) && period > 0.0
    ensures |Attempts(times, period)| == Count(Prune(times, times.last - period))
  {
    AttemptsAreRecent(times, period);
    CountMembers(times, times.last - period, Attempts(times, period));
  }

  lemma {:induction false} AdmittedAreFewer(times: Log, calls: nat, period: Time, lo: Time)
    ensures Count(Prune(MemAdmitted(times, calls, period), lo)) <= Count(Prune(times, lo))
    ensures Count(Prune(RedisAdmitted(times, calls, period), lo)) <= Count(Prune(times, lo))
  {
    if times.Then? {
      AdmittedAreFewer(times.front, calls, period, lo);
    }
  }

  /** An admitted attempt finds room for itself among the attempts of its window. */
  lemma RoomLeft(times: Log, calls: nat, period: Time, now: Time)
    requires Clocked(Then(times, now)) && period > 0.0
    requires RedisAdmits(times, calls, period, now)
    ensures Count(Prune(times, now - period)) < calls
  {
    AttemptsCount(Then(times, now), period);
  }

  lemma MemRoom(times: Log, calls: nat, period: Time, now: Time)
    requires Nondecreasing(times) && UpTo(times, now) && period > 0.0
    requires Count(Prune(times, now - period)) < calls
    ensures MemAdmits(times, calls, period, now)
  {
    AdmittedAreFewer(times, calls, period, now - period);
    MemPruned(times, calls, period, now - period);
  }

  /** The sorted set counts every attempt, admitted or not: a request is admitted exactly when fewer
      than the allowed number of them lie in the window that ends with it. */
  lemma RedisAdmitsExactly(times: Log, calls: nat, period: Time, now: Time)
    requires Clocked(Then(times, now)) && period > 0.0
    ensures RedisAdmits(times, calls, period, now) <==> Count(Between(times, now - period, now)) < calls
  {
    AttemptsCount(Then(times, now), period);
    ClockedOrder(Then(times, now));
    BetweenIsPrune(times, now - period, now);
  }

  /** Redis is the stricter one: on any attempts, what it admits the memory would admit too. */
  lemma RedisStricter(times: Log, calls: nat, period: Time, now: Time)
    requires Clocked(Then(times, now)) && period > 0.0
    requires RedisAdmits(times, calls, period, now)
    ensures MemAdmits(times, calls, period, now)
  {
    RoomLeft(times, calls, period, now);
    ClockedOrder(Then(times, now));
    MemRoom(times, calls, period, now);
  }

  /** Redis keeps the rate as well: no window of one period holds more admitted requests. */
  lemma {:induction false} RedisRate(times: Log, calls: nat, period: Time, x: Time)
    requires Clocked(times) && period > 0.0
    ensures Count(Between(RedisAdmitted(times, calls, period), x - period, x)) <= calls
  {
    if times.Then? {
      if times.last <= x && RedisAdmits(times.front, calls, period, times.last) {
        RedisFull(times, calls, period, x);
      } else {
        RedisRate(times.front, calls, period, x);
      }
    }
  }

  lemma RedisFull(times: Log, calls: nat, period: Time, x: Time)
    requires times.Then? && Clocked(times) && period > 0.0 && times.last <= x
    requires RedisAdmits(times.front, calls, period, times.last)
    ensures Count(Between(RedisAdmitted(times, calls, period), x - period, x)) <= calls
  {
    var log := RedisAdmitted(times, calls, period);
    AttemptsCount(times, period);
    AdmittedAreFewer(times, calls, period, times.last - period);
    ClockedOrder(times);
    UpToLater(times, times.last, x);
    RedisAdmittedUpTo(times, calls, period, x);
    LaterWindow(log, times.last - period, x - period, x);
  }

  /** A later window that ends after the log holds no more of it. */
  lemma LaterWindow(log: Log, lo: Time, later: Time, x: Time)
    requires lo <= later && UpTo(log, x)
    ensures Count(Between(log, later, x)) <= Count(Prune(log, lo))
  {
    BetweenIsPrune(log, later, x);
    PruneTwice(log, lo, later);
    PruneShortens(Prune(log, lo), later);
  }

  /** Memory may admit what Redis turns away: with one request a period, an attempt that Redis
      rejected still counts against the next one. */
  lemma MemoryMoreLenient()
    ensures var times := Then(Then(Empty, 0.0), 6.0);
            && Clocked(Then(times, 12.0))
            && MemAdmits(times, 1, 10.0, 12.0) && !RedisAdmits(times, 1, 10.0, 12.0)
  {
    var times := Then(Then(Empty, 0.0), 6.0);
    assert MemWindow(Then(Empty, 0.0), 1, 10.0) == Then(Empty, 0.0);
    assert MemWindow(times, 1, 10.0) == Then(Empty, 0.0);
    AttemptsCount(Then(times, 12.0), 10.0);
    assert Prune(times, 2.0) == Then(Empty, 6.0);
  }
}
