/** The login failure limiter, kept in step with a log that forgets nothing. */
module Limiters {
  import opened Wrappers

  /** Monotonic time in nanoseconds. */
  type Instant = nat

  const SECOND := 1_000_000_000
  const FAILURE_THRESHOLD := 5
  const FAILURE_WINDOW := 10 * 60 * SECOND
  const FAILURE_DELAY := SECOND
  const MAX_FAILURE_IPS := 4096

  datatype LoginOutcome = Accepted | Rejected

  datatype LimiterError = TooManyAttempts

  datatype Failure<Address> = Failure(ip: Address, at: Instant)

  predicate InWindow(at: Instant, now: Instant) {
    now - at < FAILURE_WINDOW
  }

  /** `history.retain(…)`: the failures still inside the window. */
  function Kept(history: seq<Instant>, now: Instant): seq<Instant> {
    if history == [] then []
    else Kept(history[..|history| - 1], now)
         + (if InWindow(history[|history| - 1], now) then [history[|history| - 1]] else [])
  }

  function Times<Address(==)>(log: seq<Failure<Address>>, ip: Address): seq<Instant> {
    if log == [] then []
    else Times(log[..|log| - 1], ip) + (if log[|log| - 1].ip == ip then [log[|log| - 1].at] else [])
  }

  /** Every logged failure of one address inside the window. */
  function Recent<Address(==)>(log: seq<Failure<Address>>, ip: Address, now: Instant): seq<Instant> {
    Kept(Times(log, ip), now)
  }

  function LastFive(history: seq<Instant>): seq<Instant> {
    if |history| <= FAILURE_THRESHOLD then history else history[|history| - FAILURE_THRESHOLD..]
  }

  predicate Sorted(history: seq<Instant>) {
    forall i, j | 0 <= i < j < |history| :: history[i] <= history[j]
  }

  /** The number of leading failures that have left the window. */
  function Stale(history: seq<Instant>, now: Instant): (count: nat)
    ensures count <= |history|
  {
    if history == [] || InWindow(history[0], now) then 0 else 1 + Stale(history[1..], now)
  }

  /** The addresses with a logged failure inside the window. */
  function RecentlyFailing<Address(==)>(log: seq<Failure<Address>>, now: Instant): set<Address> {
    set failure | failure in log && Recent(log, failure.ip, now) != [] :: failure.ip
  }

  lemma {:induction false} LoggedAddress<Address>(log: seq<Failure<Address>>, ip: Address)
    requires Times(log, ip) != []
    ensures exists failure <- log :: failure.ip == ip
  {
    var front, last := log[..|log| - 1], log[|log| - 1];
    assert log == front + [last];
    if last.ip == ip {
      assert last in log;
    } else {
      LoggedAddress(front, ip);
      var failure :| failure in front && failure.ip == ip;
      assert failure in log;
    }
  }

  /** A sorted history keeps a suffix, so every suffix of it keeps a suffix of that. */
  lemma {:induction false} KeptIsSuffix(history: seq<Instant>, from: nat, now: Instant)
    requires Sorted(history) && from <= |history|
    ensures Kept(history[from..], now)
         == history[if from >= Stale(history, now) then from else Stale(history, now)..]
    decreases |history| - from
  {
    if from == |history| {
      assert history[from..] == [];
    } else {
      KeptIsSuffix(history, from + 1, now);
      KeptPrepend(history[from], history[from + 1..], now);
      StaleAt(history, from, now);
      assert [history[from]] + history[from + 1..] == history[from..];
    }
  }

  lemma StaleAt(history: seq<Instant>, i: nat, now: Instant)
    requires Sorted(history) && i < |history|
    ensures InWindow(history[i], now) <==> i >= Stale(history, now)
  {
    StaleSplits(history, now);
  }

  lemma {:induction false} KeptPrepend(first: Instant, rest: seq<Instant>, now: Instant)
    ensures Kept([first] + rest, now) == (if InWindow(first, now) then [first] else []) + Kept(rest, now)
  {
    if rest == [] {
      assert [first] + rest == [first];
    } else {
      var all := [first] + rest;
      assert all[..|all| - 1] == [first] + rest[..|rest| - 1];
      KeptPrepend(first, rest[..|rest| - 1], now);
    }
  }

  lemma {:induction false} StaleSplits(history: seq<Instant>, now: Instant)
    requires Sorted(history)
    ensures forall i | 0 <= i < |history| :: InWindow(history[i], now) <==> i >= Stale(history, now)
  {
    if history != [] && !InWindow(history[0], now) {
      StaleSplits(history[1..], now);
      forall i | 0 < i < |history| ensures InWindow(history[i], now) <==> i >= Stale(history, now) {
        assert history[1..][i - 1] == history[i];
      }
    }
  }

  /** Truncating to five and pruning commute, and pruning twice is pruning once. */
  lemma PruningTruncated(history: seq<Instant>, before: Instant, now: Instant)
    requires Sorted(history) && before <= now
    ensures Kept(LastFive(Kept(history, before)), now) == LastFive(Kept(history, now))
  {
    StaleGrows(history, before, now);
    LastFiveKept(history, before);
    LastFiveKept(history, now);
    KeptIsSuffix(history, LastFiveFrom(history, Stale(history, before)), now);
  }

  lemma LastFiveKept(history: seq<Instant>, now: Instant)
    requires Sorted(history)
    ensures LastFive(Kept(history, now)) == history[LastFiveFrom(history, Stale(history, now))..]
  {
    assert history[0..] == history;
    KeptIsSuffix(history, 0, now);
    LastFiveOfSuffix(history, Stale(history, now));
  }

  /** Where the last five of a suffix start. */
  function LastFiveFrom(history: seq<Instant>, from: nat): nat
    requires from <= |history|
  {
    if |history| - from <= FAILURE_THRESHOLD then from else |history| - FAILURE_THRESHOLD
  }

  lemma LastFiveOfSuffix(history: seq<Instant>, from: nat)
    requires from <= |history|
    ensures LastFive(history[from..]) == history[LastFiveFrom(history, from)..]
  {}

  lemma StaleGrows(history: seq<Instant>, before: Instant, now: Instant)
    requires Sorted(history) && before <= now
    ensures Stale(history, before) <= Stale(history, now)
  {
    StaleSplits(history, before);
    StaleSplits(history, now);
    var stale := Stale(history, now);
    if stale < |history| { assert InWindow(history[stale], now) && InWindow(history[stale], before); }
  }

  /** The log's times never decrease and none is later than the clock. */
  ghost predicate Ordered<Address>(log: seq<Failure<Address>>, clock: Instant) {
    && (forall i, j | 0 <= i < j < |log| :: log[i].at <= log[j].at)
    && (forall failure <- log :: failure.at <= clock)
  }

  lemma {:induction false} TimesAreSorted<Address>(log: seq<Failure<Address>>, ip: Address, clock: Instant)
    requires Ordered(log, clock)
    ensures Sorted(Times(log, ip)) && forall at <- Times(log, ip) :: at <= clock
  {
    if log != [] {
      var front, last := log[..|log| - 1], log[|log| - 1];
      OrderedFront(log, clock);
      TimesAreSorted(front, ip, last.at);
      SortedAppend(Times(front, ip), last.at);
    }
  }

  lemma OrderedFront<Address>(log: seq<Failure<Address>>, clock: Instant)
    requires Ordered(log, clock) && log != []
    ensures Ordered(log[..|log| - 1], log[|log| - 1].at) && log[|log| - 1].at <= clock
  {
    var front, last := log[..|log| - 1], log[|log| - 1];
    assert last in log;
    forall failure <- front ensures failure.at <= last.at {
      var i :| 0 <= i < |front| && front[i] == failure;
      assert log[i].at <= log[|front|].at;
    }
    forall i, j | 0 <= i < j < |front| ensures front[i].at <= front[j].at {
      assert log[i].at <= log[j].at;
    }
  }

  lemma SortedAppend(history: seq<Instant>, at: Instant)
    requires Sorted(history) && forall earlier <- history :: earlier <= at
    ensures Sorted(history + [at])
  {
    assert forall i | 0 <= i < |history| :: history[i] in history;
  }

  lemma RecentAfterFailure<Address>(log: seq<Failure<Address>>, failed: Failure<Address>, ip: Address)
    ensures Recent(log + [failed], ip, failed.at)
         == Recent(log, ip, failed.at) + (if failed.ip == ip then [failed.at] else [])
  {
    var all := log + [failed];
    assert all[..|all| - 1] == log;
    var times := Times(log, ip);
    if failed.ip == ip {
      assert Times(all, ip) == times + [failed.at];
      assert (times + [failed.at])[..|times|] == times;
      assert InWindow(failed.at, failed.at);
    } else {
      assert Times(all, ip) == times;
    }
  }

  lemma LastFiveAppend(recent: seq<Instant>, now: Instant)
    ensures var kept := LastFive(recent);
      LastFive(recent + [now]) == (if |kept| == FAILURE_THRESHOLD then kept[1..] else kept) + [now]
  {}

  lemma OrderedAppend<Address>(log: seq<Failure<Address>>, failed: Failure<Address>)
    requires Ordered(log, failed.at)
    ensures Ordered(log + [failed], failed.at)
  {
    assert forall failure :: failure in log + [failed] <==> failure in log || failure == failed;
    assert forall i | 0 <= i < |log| :: log[i] in log;
  }

  function HistoryIn<Address(==)>(failures: map<Address, seq<Instant>>, ip: Address): seq<Instant> {
    if ip in failures then failures[ip] else []
  }

  /** The table holds the last five recent failures of each recently failing address, and nothing else. */
  ghost predicate TableAgrees<Address(!new)>(failures: map<Address, seq<Instant>>, log: seq<Failure<Address>>, now: Instant) {
    && (forall ip <- failures :: failures[ip] != [])
    && (forall ip :: HistoryIn(failures, ip) == LastFive(Recent(log, ip, now)))
  }

  lemma RecordingAgrees<Address(!new)>(failures: map<Address, seq<Instant>>, log: seq<Failure<Address>>,
                                       ip: Address, now: Instant, history: seq<Instant>)
    requires TableAgrees(failures, log, now)
    requires history == if |HistoryIn(failures, ip)| == FAILURE_THRESHOLD
                        then HistoryIn(failures, ip)[1..] else HistoryIn(failures, ip)
    ensures TableAgrees(failures[ip := history + [now]], log + [Failure(ip, now)], now)
  {
    var all, after := log + [Failure(ip, now)], failures[ip := history + [now]];
    forall other ensures HistoryIn(after, other) == LastFive(Recent(all, other, now)) {
      RecentAfterFailure(log, Failure(ip, now), other);
      LastFiveAppend(Recent(log, other, now), now);
      assert HistoryIn(failures, other) == LastFive(Recent(log, other, now));
      assert Recent(log, other, now) + [] == Recent(log, other, now);
    }
  }

  class Limiter<Address(==, !new)> {
    var failures: map<Address, seq<Instant>>
    /** Every recorded failure, never pruned. */
    ghost var log: seq<Failure<Address>>
    /** The latest time sampled under the lock. */
    ghost var clock: Instant

    ghost predicate Valid()
      reads this
    {
      Ordered(log, clock) && TableAgrees(failures, log, clock) && |failures| <= MAX_FAILURE_IPS
    }

    constructor ()
      ensures Valid() && log == [] && clock == 0
    {
      failures, log, clock := map[], [], 0;
    }

    lemma TableIsRecentlyFailing(now: Instant)
      requires TableAgrees(failures, log, now)
      ensures failures.Keys == RecentlyFailing(log, now)
    {
      forall ip ensures ip in failures <==> ip in RecentlyFailing(log, now) {
        assert ip in failures <==> Recent(log, ip, now) != [] by {
          assert HistoryIn(failures, ip) == LastFive(Recent(log, ip, now));
        }
        if Recent(log, ip, now) != [] { LoggedAddress(log, ip); }
      }
    }

    /** Forgets failures that have left the window at `now`. */
    method Prune(now: Instant)
      requires Valid() && clock <= now
      modifies this`failures
      ensures TableAgrees(failures, log, now) && |failures| <= |old(failures)|
    {
      ghost var before := failures;
      forall ip ensures Kept(HistoryIn(failures, ip), now) == LastFive(Recent(log, ip, now)) {
        TimesAreSorted(log, ip, clock);
        PruningTruncated(Times(log, ip), clock, now);
      }
      failures := map ip | ip in failures && Kept(failures[ip], now) != [] :: Kept(failures[ip], now);
      KeysShrink(failures, before);
    }

    /** Appends a failure to the address's history, dropping the oldest of five. */
    method Record(ip: Address, now: Instant)
      requires Ordered(log, now) && TableAgrees(failures, log, now)
      modifies this`failures, this`log
      ensures Ordered(log, now) && TableAgrees(failures, log, now)
      ensures log == old(log) + [Failure(ip, now)]
      ensures failures.Keys == old(failures.Keys) + {ip}
    {
      var history := HistoryIn(failures, ip);
      if |history| == FAILURE_THRESHOLD { history := history[1..]; }
      RecordingAgrees(failures, log, ip, now, history);
      OrderedAppend(log, Failure(ip, now));
      failures := failures[ip := history + [now]];
      log := log + [Failure(ip, now)];
    }

    /**
     * Counts a completed check. The delay depends on all logged failures of the address inside the
     * window, although only five are kept; only a full table refuses a new address.
     */
    method Complete(ip: Address, outcome: LoginOutcome, now: Instant) returns (result: Result<nat, LimiterError>)
      requires Valid() && clock <= now
      modifies this
      ensures Valid() && clock == now
      ensures var recent := |Recent(old(log), ip, now)|;
        && (result.Ok? ==> result.value == if recent >= FAILURE_THRESHOLD then FAILURE_DELAY else 0)
        && (result.Err? <==>
              outcome.Rejected? && recent == 0 && |RecentlyFailing(old(log), now)| >= MAX_FAILURE_IPS)
      ensures log == if outcome.Rejected? && result.Ok? then old(log) + [Failure(ip, now)] else old(log)
    {
      Prune(now);
      clock := now;
      var delay := if ip in failures && |failures[ip]| >= FAILURE_THRESHOLD then FAILURE_DELAY else 0;
      assert HistoryIn(failures, ip) == LastFive(Recent(log, ip, now));
      TableIsRecentlyFailing(now);
      if outcome.Rejected? {
        if |failures| >= MAX_FAILURE_IPS && ip !in failures { return Err(TooManyAttempts); }
        ghost var before := failures;
        Record(ip, now);
        OneMoreKey(before, failures, ip);
      }
      result := Ok(delay);
    }
  }

  lemma OneMoreKey<K, V>(before: map<K, V>, after: map<K, V>, key: K)
    requires after.Keys == before.Keys + {key}
    ensures |after| == if key in before then |before| else |before| + 1
  {
    assert |after.Keys| == |after| && |before.Keys| == |before|;
  }

  lemma KeysShrink<K, V>(small: map<K, V>, large: map<K, V>)
    requires small.Keys <= large.Keys
    ensures |small| <= |large|
  {
    SubsetSize(small.Keys, large.Keys);
  }

  lemma SubsetSize<K>(small: set<K>, large: set<K>)
    requires small <= large
    ensures |small| <= |large|
  {
    assert large == small + (large - small);
  }
}
