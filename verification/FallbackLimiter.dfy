/**
 * The in-memory rate limiter used while the shared one is unreachable: fixed windows per key, a
 * bounded map, and a sweep of expired records at most once a minute.
 */
module FallbackLimiter {
  const MAX_ENTRIES := 50_000
  const SWEEP_INTERVAL_MS := 60_000

  datatype Window = Window(count: int, resetAt: int)

  type Records = map<string, Window>

  datatype Limiter = Limiter(records: Records, lastSweepAt: int)

  predicate IsLive(records: Records, key: string, now: int) {
    key in records && records[key].resetAt > now
  }

  function Sweep(l: Limiter, now: int): Limiter {
    if now - l.lastSweepAt < SWEEP_INTERVAL_MS then l
    else Limiter(map key | key in l.records && l.records[key].resetAt > now :: l.records[key], now)
  }

  predicate Admits(records: Records, key: string, limit: int, now: int) {
    !IsLive(records, key, now) || records[key].count < limit
  }

  /** The window a request leaves behind when there is room for it. */
  function Counted(records: Records, key: string, limit: int, ttl: int, now: int): Records {
    if !IsLive(records, key, now) then records[key := Window(1, now + ttl)]
    else if records[key].count >= limit then records
    else records[key := records[key].(count := records[key].count + 1)]
  }

  /** A new window is not opened at the bound: the request passes uncounted. */
  predicate AtTheBound(l: Limiter, key: string, now: int) {
    !IsLive(l.records, key, now) && |l.records| >= MAX_ENTRIES
  }

  function Hit(l: Limiter, key: string, limit: int, ttl: int, now: int): Limiter {
    if AtTheBound(l, key, now) then l else l.(records := Counted(l.records, key, limit, ttl, now))
  }

  /**
   * One request, by its key's record: without a live one it passes and opens a window, unless there
   * are fifty thousand records; with one it passes and is counted, or is refused at the limit.
   */
  lemma RequestsByTheRecord(l: Limiter, key: string, limit: int, ttl: int, now: int)
    ensures var live := key in l.records && now < l.records[key].resetAt;
      var next, admitted := Hit(l, key, limit, ttl, now), Admits(l.records, key, limit, now);
      && (!live && |l.records| < 50_000 ==> admitted && next == l.(records := l.records[key := Window(1, now + ttl)]))
      && (!live && |l.records| >= 50_000 ==> admitted && next == l)
      && (live && l.records[key].count < limit ==>
            admitted && next == l.(records := l.records[key := Window(l.records[key].count + 1, l.records[key].resetAt)]))
      && (live && l.records[key].count >= limit ==> !admitted && next == l)
  {
  }

  // ---------------------------------------------------------------------------------------------
  // The guard's fields
  // ---------------------------------------------------------------------------------------------

  class FallbackRecords {
    var records: Records
    var lastFallbackSweepAt: int

    constructor (now: int)
      ensures Snapshot() == Limiter(map[], now)
    {
      records, lastFallbackSweepAt := map[], now;
    }

    function Snapshot(): Limiter
      reads this
    {
      Limiter(records, lastFallbackSweepAt)
    }

    method SweepIfDue(now: int)
      modifies this
      ensures Snapshot() == Sweep(old(Snapshot()), now)
      ensures now - old(lastFallbackSweepAt) >= 60_000 ==> (
        lastFallbackSweepAt == now
        && forall key :: key in records <==> key in old(records) && now < old(records)[key].resetAt)
      ensures now - old(lastFallbackSweepAt) < 60_000 ==> Snapshot() == old(Snapshot())
    {
      if now - lastFallbackSweepAt < SWEEP_INTERVAL_MS {
        return;
      }
      lastFallbackSweepAt := now;
      var keys := records.Keys;
      while keys != {}
        invariant keys <= old(records).Keys && lastFallbackSweepAt == now
        invariant forall key :: key in records <==> key in keys || IsLive(old(records), key, now)
        invariant forall key :: key in records ==> key in old(records) && records[key] == old(records)[key]
        decreases |keys|
      {
        var key :| key in keys;
        if records[key].resetAt <= now {
          records := records - {key};
        }
        keys := keys - {key};
      }
      assert records == Sweep(old(Snapshot()), now).records;
    }

    method CheckLimit(key: string, limit: int, ttl: int, now: int) returns (admitted: bool)
      modifies this
      ensures Snapshot() == Hit(old(Snapshot()), key, limit, ttl, now)
      ensures admitted == Admits(old(records), key, limit, now)
    {
      if key !in records || records[key].resetAt <= now {
        if |records| >= MAX_ENTRIES {
          return true;
        }
        records := records[key := Window(1, now + ttl)];
        return true;
      }
      if records[key].count >= limit {
        return false;
      }
      records := records[key := records[key].(count := records[key].count + 1)];
      return true;
    }
  }

  // ---------------------------------------------------------------------------------------------
  // Runs
  // ---------------------------------------------------------------------------------------------

  /** A request sweeps first; other requests may come between its sweep and its count. */
  datatype Step = SweepAt(now: int) | Request(key: string, limit: int, ttl: int, now: int)

  function Next(l: Limiter, s: Step): Limiter {
    match s
    case SweepAt(now) => Sweep(l, now)
    case Request(key, limit, ttl, now) => Hit(l, key, limit, ttl, now)
  }

  function Run(start: int, steps: seq<Step>): Limiter {
    if steps == [] then Limiter(map[], start) else Next(Run(start, steps[..|steps| - 1]), steps[|steps| - 1])
  }

  /** The same requests against records without bound or sweep. */
  function FreeRun(steps: seq<Step>): Records {
    if steps == [] then map[]
    else
      var last, before := steps[|steps| - 1], FreeRun(steps[..|steps| - 1]);
      if last.SweepAt? then before else Counted(before, last.key, last.limit, last.ttl, last.now)
  }

  predicate ClockIsMonotone(steps: seq<Step>) {
    forall i, j :: 0 <= i <= j < |steps| ==> steps[i].now <= steps[j].now
  }

  predicate NeverAtTheBound(start: int, steps: seq<Step>) {
    forall i :: 0 <= i < |steps| && steps[i].Request? ==> !AtTheBound(Run(start, steps[..i]), steps[i].key, steps[i].now)
  }

  /** When the requests for a key that were admitted came in. */
  function Admitted(start: int, steps: seq<Step>, key: string): seq<int> {
    if steps == [] then []
    else
      var n := |steps| - 1;
      var last := steps[n];
      Admitted(start, steps[..n], key)
        + (if last.Request? && last.key == key && Admits(Run(start, steps[..n]).records, key, last.limit, last.now)
           then [last.now] else [])
  }

  function FreelyAdmitted(steps: seq<Step>, key: string): seq<int> {
    if steps == [] then []
    else
      var n := |steps| - 1;
      var last := steps[n];
      FreelyAdmitted(steps[..n], key)
        + (if last.Request? && last.key == key && Admits(FreeRun(steps[..n]), key, last.limit, last.now)
           then [last.now] else [])
  }

  lemma PrefixesStayRegular(start: int, steps: seq<Step>)
    requires steps != []
    ensures ClockIsMonotone(steps) ==> ClockIsMonotone(steps[..|steps| - 1])
    ensures NeverAtTheBound(start, steps) ==> NeverAtTheBound(start, steps[..|steps| - 1])
  {
    var before := steps[..|steps| - 1];
    if NeverAtTheBound(start, steps) {
      forall i | 0 <= i < |before| && before[i].Request?
        ensures !AtTheBound(Run(start, before[..i]), before[i].key, before[i].now)
      {
        assert before[..i] == steps[..i] && before[i] == steps[i];
      }
    }
  }

  // ---------------------------------------------------------------------------------------------
  // The map stays bounded
  // ---------------------------------------------------------------------------------------------

  lemma SubsetIsNoLarger(a: set<string>, b: set<string>)
    requires a <= b
    ensures |a| <= |b|
  {
    assert b == a + (b - a);
  }

  lemma StepKeepsBound(l: Limiter, s: Step)
    requires |l.records| <= MAX_ENTRIES
    ensures |Next(l, s).records| <= MAX_ENTRIES
  {
    match s {
      case SweepAt(now) => SubsetIsNoLarger(Sweep(l, now).records.Keys, l.records.Keys);
      case Request(key, limit, ttl, now) =>
        var after := Hit(l, key, limit, ttl, now).records;
        if key in l.records {
          assert after.Keys == l.records.Keys;
        } else if after != l.records {
          assert after.Keys == l.records.Keys + {key};
        }
    }
  }

  /** The map never holds more than its bound, whatever the requests and the clock do. */
  lemma {:induction false} MapStaysBounded(start: int, steps: seq<Step>)
    ensures |Run(start, steps).records| <= MAX_ENTRIES
  {
    if steps != [] {
      MapStaysBounded(start, steps[..|steps| - 1]);
      StepKeepsBound(Run(start, steps[..|steps| - 1]), steps[|steps| - 1]);
    }
  }

  // ---------------------------------------------------------------------------------------------
  // The sweep is invisible
  // ---------------------------------------------------------------------------------------------

  /** The bounded records are the free ones, except that expired ones may be gone. */
  ghost predicate Mirrors(records: Records, free: Records, now: int) {
    && (forall key :: key in records ==> key in free && free[key] == records[key])
    && (forall key :: key in free && key !in records ==> free[key].resetAt <= now)
  }

  lemma {:induction false} RunMirrorsFreeRun(start: int, steps: seq<Step>, now: int)
    requires ClockIsMonotone(steps) && NeverAtTheBound(start, steps)
    requires forall i :: 0 <= i < |steps| ==> steps[i].now <= now
    ensures Mirrors(Run(start, steps).records, FreeRun(steps), now)
  {
    if steps != [] {
      var n := |steps| - 1;
      PrefixesStayRegular(start, steps);
      RunMirrorsFreeRun(start, steps[..n], steps[n].now);
    }
  }

  /** Away from the bound every request gets the verdict it would get without bound and sweep. */
  lemma {:induction false} SweepIsInvisible(start: int, steps: seq<Step>, key: string)
    requires ClockIsMonotone(steps) && NeverAtTheBound(start, steps)
    ensures Admitted(start, steps, key) == FreelyAdmitted(steps, key)
    ensures steps != [] && steps[|steps| - 1].Request? ==> (
      var last, before := steps[|steps| - 1], steps[..|steps| - 1];
      var freely := Admits(FreeRun(before), last.key, last.limit, last.now);
      Admits(Run(start, before).records, last.key, last.limit, last.now) == freely)
  {
    if steps != [] {
      var n := |steps| - 1;
      PrefixesStayRegular(start, steps);
      SweepIsInvisible(start, steps[..n], key);
      RunMirrorsFreeRun(start, steps[..n], steps[n].now);
    }
  }

  // ---------------------------------------------------------------------------------------------
  // How many requests pass in an interval
  // ---------------------------------------------------------------------------------------------

  /** How many of these times lie in the half-open interval. */
  function CountIn(times: seq<int>, from: int, to: int): nat {
    if times == [] then 0
    else CountIn(times[..|times| - 1], from, to) + (if from <= times[|times| - 1] < to then 1 else 0)
  }

  function CountFrom(times: seq<int>, from: int, length: int): nat {
    CountIn(times, from, from + length)
  }

  lemma CountWithOneMore(times: seq<int>, time: int, from: int, to: int)
    ensures CountIn(times + [time], from, to) == CountIn(times, from, to) + (if from <= time < to then 1 else 0)
  {
    assert (times + [time])[..|times|] == times;
  }

  lemma {:induction false} CountSplits(times: seq<int>, from: int, middle: int, to: int)
    requires from <= middle <= to
    ensures CountIn(times, from, to) == CountIn(times, from, middle) + CountIn(times, middle, to)
  {
    if times != [] {
      CountSplits(times[..|times| - 1], from, middle, to);
    }
  }

  lemma {:induction false} WiderCountsMore(times: seq<int>, from: int, to: int, outerFrom: int, outerTo: int)
    requires outerFrom <= from && to <= outerTo
    ensures CountIn(times, from, to) <= CountIn(times, outerFrom, outerTo)
  {
    if times != [] {
      WiderCountsMore(times[..|times| - 1], from, to, outerFrom, outerTo);
    }
  }

  lemma {:induction false} NothingLater(times: seq<int>, from: int, to: int)
    requires forall i :: 0 <= i < |times| ==> times[i] < from
    ensures CountIn(times, from, to) == 0
  {
    if times != [] {
      NothingLater(times[..|times| - 1], from, to);
    }
  }

  /** A window admits its limit, but its first request always. */
  function Allowance(limit: int): int {
    if limit >= 1 then limit else 1
  }

  /** Two windows' worth, less the request that opened the first of them. */
  function Ceiling(limit: int): int {
    2 * Allowance(limit) - 1
  }

  /** What the record of a key says about the admissions so far. */
  ghost predicate Explains(times: seq<int>, records: Records, key: string, limit: int, ttl: int, now: int) {
    && (forall i :: 0 <= i < |times| ==> times[i] <= now)
    && (key !in records ==> times == [])
    && (key in records ==>
          var start := records[key].resetAt - ttl;
          && start <= now && 1 <= records[key].count <= Allowance(limit)
          && (forall i :: 0 <= i < |times| ==> times[i] < start + ttl)
          && CountIn(times, start, start + ttl) <= records[key].count
          && CountIn(times, start + 1, start + ttl) <= records[key].count - 1
          && CountIn(times, start - ttl + 1, start) <= Allowance(limit) - 1)
    && (forall from :: CountFrom(times, from, ttl) <= Ceiling(limit))
  }

  /** A request that opens a new window. */
  lemma OpeningIsExplained(times: seq<int>, records: Records, key: string, limit: int, ttl: int, before: int, now: int)
    requires ttl > 0 && before <= now && Explains(times, records, key, limit, ttl, before) && !IsLive(records, key, now)
    ensures Explains(times + [now], records[key := Window(1, now + ttl)], key, limit, ttl, now)
  {
    var all := times + [now];
    NothingLaterThan(times, records, key, limit, ttl, before, now);
    CountWithOneMore(times, now, now, now + ttl);
    CountWithOneMore(times, now, now + 1, now + ttl);
    CountWithOneMore(times, now, now - ttl + 1, now);
    WiderCountsMore(times, now + 1, now + ttl, now, now + ttl);
    RecentFitsOneWindow(times, records, key, limit, ttl, before, now);
    forall from ensures CountFrom(all, from, ttl) <= Ceiling(limit) {
      assert CountFrom(times, from, ttl) <= Ceiling(limit);
      CountWithOneMore(times, now, from, from + ttl);
      if from <= now < from + ttl {
        CountSplits(times, from, now, from + ttl);
        WiderCountsMore(times, from, now, now - ttl + 1, now);
        WiderCountsMore(times, now, from + ttl, now, now + ttl);
      }
    }
  }

  lemma NothingLaterThan(times: seq<int>, records: Records, key: string, limit: int, ttl: int, before: int, now: int)
    requires ttl > 0 && before <= now && Explains(times, records, key, limit, ttl, before) && !IsLive(records, key, now)
    ensures CountIn(times, now, now + ttl) == 0
    ensures forall i :: 0 <= i < |times| ==> times[i] < now
  {
    forall i | 0 <= i < |times| ensures times[i] < now {
      assert key in records;
    }
    NothingLater(times, now, now + ttl);
  }

  /** Everything admitted less than a window's length before a new window belongs to the last one. */
  lemma RecentFitsOneWindow(times: seq<int>, records: Records, key: string, limit: int, ttl: int, before: int, now: int)
    requires ttl > 0 && before <= now && Explains(times, records, key, limit, ttl, before) && !IsLive(records, key, now)
    ensures CountIn(times, now - ttl + 1, now) <= Allowance(limit) - 1
  {
    if key in records {
      var start := records[key].resetAt - ttl;
      CountSplits(times, start + 1, start + ttl, now);
      NothingLater(times, start + ttl, now);
      WiderCountsMore(times, now - ttl + 1, now, start + 1, now);
    }
  }

  /** A request counted in the window that is open. */
  lemma CountingIsExplained(times: seq<int>, records: Records, key: string, limit: int, ttl: int, before: int, now: int)
    requires ttl > 0 && before <= now && Explains(times, records, key, limit, ttl, before)
    requires IsLive(records, key, now) && records[key].count < limit
    ensures Explains(times + [now], records[key := records[key].(count := records[key].count + 1)], key, limit, ttl, now)
  {
    hide CountIn;
    var all, start := times + [now], records[key].resetAt - ttl;
    CountWithOneMore(times, now, start, start + ttl);
    CountWithOneMore(times, now, start + 1, start + ttl);
    CountWithOneMore(times, now, start - ttl + 1, start);
    forall from ensures CountFrom(all, from, ttl) <= Ceiling(limit) {
      assert CountFrom(times, from, ttl) <= Ceiling(limit);
      CountWithOneMore(times, now, from, from + ttl);
      if from <= now < from + ttl {
        if from < start {
          CountSplits(times, from, start, from + ttl);
          WiderCountsMore(times, from, start, start - ttl + 1, start);
          WiderCountsMore(times, start, from + ttl, start, start + ttl);
        } else {
          CountSplits(times, from, start + ttl, from + ttl);
          NothingLater(times, start + ttl, from + ttl);
          WiderCountsMore(times, from, start + ttl, start, start + ttl);
        }
      }
    }
  }

  /** All requests for a key carry the limit and window length configured for it. */
  predicate Configured(steps: seq<Step>, key: string, limit: int, ttl: int) {
    forall i :: 0 <= i < |steps| && steps[i].Request? && steps[i].key == key ==>
      steps[i].limit == limit && steps[i].ttl == ttl
  }

  /** Time passing, and other keys' requests, change nothing for a key. */
  lemma StaysExplained(
      times: seq<int>, records: Records, after: Records, key: string, limit: int, ttl: int, before: int, now: int)
    requires Explains(times, records, key, limit, ttl, before) && before <= now
    requires (key in after <==> key in records) && (key in records ==> after[key] == records[key])
    ensures Explains(times, after, key, limit, ttl, now)
  {
    hide CountIn, CountFrom;
  }

  lemma NothingToExplain(key: string, limit: int, ttl: int, now: int)
    ensures Explains([], map[], key, limit, ttl, now)
  {
  }

  lemma RequestIsExplained(times: seq<int>, records: Records, key: string, limit: int, ttl: int, before: int, now: int)
    requires ttl > 0 && before <= now && Explains(times, records, key, limit, ttl, before)
    ensures Explains(if Admits(records, key, limit, now) then times + [now] else times,
                     Counted(records, key, limit, ttl, now), key, limit, ttl, now)
  {
    hide Explains;
    if !IsLive(records, key, now) {
      OpeningIsExplained(times, records, key, limit, ttl, before, now);
    } else if records[key].count < limit {
      CountingIsExplained(times, records, key, limit, ttl, before, now);
    } else {
      StaysExplained(times, records, records, key, limit, ttl, before, now);
    }
  }

  lemma {:induction false} FreeRunIsExplained(steps: seq<Step>, key: string, limit: int, ttl: int, now: int)
    requires ttl > 0 && ClockIsMonotone(steps) && Configured(steps, key, limit, ttl)
    requires forall i :: 0 <= i < |steps| ==> steps[i].now <= now
    ensures Explains(FreelyAdmitted(steps, key), FreeRun(steps), key, limit, ttl, now)
  {
    hide Explains;
    if steps == [] {
      NothingToExplain(key, limit, ttl, now);
    } else {
      var n := |steps| - 1;
      var last, times, records := steps[n], FreelyAdmitted(steps[..n], key), FreeRun(steps[..n]);
      FreeRunIsExplained(steps[..n], key, limit, ttl, last.now);
      assert times + [] == times;
      if last.Request? && last.key == key {
        RequestIsExplained(times, records, key, limit, ttl, last.now, last.now);
        StaysExplained(FreelyAdmitted(steps, key), FreeRun(steps), FreeRun(steps), key, limit, ttl, last.now, now);
      } else {
        StaysExplained(times, records, FreeRun(steps), key, limit, ttl, last.now, now);
      }
    }
  }

  lemma {:induction false} NoneInAnEmptyInterval(times: seq<int>, from: int)
    ensures CountIn(times, from, from) == 0
  {
    if times != [] {
      NoneInAnEmptyInterval(times[..|times| - 1], from);
    }
  }

  /**
   * Away from the bound, any half-open interval as long as the window lets fewer than twice the limit
   * of one key's requests pass (counting a limit below one as one, since a first request always passes).
   */
  lemma FewerThanTwiceTheLimit(start: int, steps: seq<Step>, key: string, limit: int, ttl: nat, from: int)
    requires ClockIsMonotone(steps) && NeverAtTheBound(start, steps) && Configured(steps, key, limit, ttl)
    ensures CountFrom(Admitted(start, steps, key), from, ttl) <= Ceiling(limit)
  {
    SweepIsInvisible(start, steps, key);
    if ttl == 0 {
      NoneInAnEmptyInterval(Admitted(start, steps, key), from);
    } else if steps != [] {
      FreeRunIsExplained(steps, key, limit, ttl, steps[|steps| - 1].now);
    }
  }

  predicate ReachesCeiling(steps: seq<Step>, key: string, limit: int, ttl: int, from: int) {
    && ClockIsMonotone(steps) && NeverAtTheBound(0, steps) && Configured(steps, key, limit, ttl)
    && CountFrom(Admitted(0, steps, key), from, ttl) == Ceiling(limit)
  }

  lemma RunWithOneMore(start: int, steps: seq<Step>, r: Step)
    requires r.Request? && !AtTheBound(Run(start, steps), r.key, r.now)
    ensures Run(start, steps + [r]) == Hit(Run(start, steps), r.key, r.limit, r.ttl, r.now)
    ensures Admits(Run(start, steps).records, r.key, r.limit, r.now) ==> (
      Admitted(start, steps + [r], r.key) == Admitted(start, steps, r.key) + [r.now])
  {
    assert (steps + [r])[..|steps|] == steps;
  }

  /** Two requests late in one window and two at the start of the next. */
  function Burst(key: string): seq<Step> {
    [Request(key, 2, 10, 0), Request(key, 2, 10, 9), Request(key, 2, 10, 10), Request(key, 2, 10, 10)]
  }

  lemma BurstPasses(key: string)
    ensures NeverAtTheBound(0, Burst(key)) && Admitted(0, Burst(key), key) == [] + [0] + [9] + [10] + [10]
  {
    var a, b, c := Request(key, 2, 10, 0), Request(key, 2, 10, 9), Request(key, 2, 10, 10);
    var s1, s2, s3, s4 := [] + [a], [a] + [b], [a, b] + [c], [a, b, c] + [c];
    RunWithOneMore(0, [], a);
    assert Run(0, s1) == Limiter(map[key := Window(1, 10)], 0);
    RunWithOneMore(0, s1, b);
    assert s1 + [b] == s2 && Run(0, s2) == Limiter(map[key := Window(2, 10)], 0);
    RunWithOneMore(0, s2, c);
    assert s2 + [c] == s3 && Run(0, s3) == Limiter(map[key := Window(1, 20)], 0);
    RunWithOneMore(0, s3, c);
    assert s3 + [c] == s4 == Burst(key);
    assert s4[..0] == [] && s4[..1] == s1 && s4[..2] == s2 && s4[..3] == s3;
  }

  /** The ceiling is reached: a late request of one window and all of the next within one length. */
  lemma CeilingIsReached(key: string)
    ensures exists steps, from :: ReachesCeiling(steps, key, 2, 10, from)
  {
    BurstPasses(key);
    CountWithOneMore([], 0, 9, 19);
    CountWithOneMore([] + [0], 9, 9, 19);
    CountWithOneMore([] + [0] + [9], 10, 9, 19);
    CountWithOneMore([] + [0] + [9] + [10], 10, 9, 19);
    hide Admitted, NeverAtTheBound;
    assert ReachesCeiling(Burst(key), key, 2, 10, 9);
  }
}
