/**
 * `RunTracker` of metadata/tracker.py without its database: the run counters and the
 * per-category error tally that every stage of a run feeds.
 *
 * `error_summary` is a `defaultdict(int)` that only `record_error` touches, adding one to
 * a category each time, so it is a multiset of category names: the count of a name is
 * its entry, and the names with a non-zero count are its keys.
 */
module Tracker {

  /** What `get_summary` reports about the counters, as a value. */
  datatype RunStats = RunStats(
    pagesVisited: int,
    tendersParsed: int,
    tendersSaved: int,
    dedupedCount: int,
    failures: int,
    errorSummary: multiset<string>)

  /** The counters `__init__` sets up. */
  const Initial := RunStats(0, 0, 0, 0, 0, multiset{})

  /** One call of a counter method. */
  datatype Call =
    | IncrementPages(count: int)
    | IncrementParsed(count: int)
    | IncrementSaved(count: int)
    | IncrementDeduped(count: int)
    | RecordError(errorType: string)
    | UpdateStats(stats: map<string, int>)

  /** `stats.get(key, 0)` for the keys `update_stats` reads: a missing key adds nothing. */
  function StatOr0(stats: map<string, int>, key: string): int {
    if key in stats then stats[key] else 0
  }

  /** The effect of one call on the counters. */
  function Apply(s: RunStats, c: Call): RunStats {
    match c
    case IncrementPages(n) => s.(pagesVisited := s.pagesVisited + n)
    case IncrementParsed(n) => s.(tendersParsed := s.tendersParsed + n)
    case IncrementSaved(n) => s.(tendersSaved := s.tendersSaved + n)
    case IncrementDeduped(n) => s.(dedupedCount := s.dedupedCount + n)
    case RecordError(k) => s.(failures := s.failures + 1, errorSummary := s.errorSummary + multiset{k})
    case UpdateStats(stats) =>
      s.(tendersParsed := s.tendersParsed + StatOr0(stats, "parsed"),
         tendersSaved := s.tendersSaved + StatOr0(stats, "saved"),
         dedupedCount := s.dedupedCount + StatOr0(stats, "deduped"),
         failures := s.failures + StatOr0(stats, "failed"))
  }

  /** The counters after a sequence of calls. */
  function Replay(s: RunStats, calls: seq<Call>): RunStats
    decreases |calls|
  {
    if calls == [] then s else Replay(Apply(s, calls[0]), calls[1..])
  }

  /** No call passes a negative count. */
  predicate NonNegative(c: Call) {
    match c
    case IncrementPages(n) => n >= 0
    case IncrementParsed(n) => n >= 0
    case IncrementSaved(n) => n >= 0
    case IncrementDeduped(n) => n >= 0
    case RecordError(_) => true
    case UpdateStats(stats) => forall k :: k in stats ==> stats[k] >= 0
  }

  /** Every counter of `t` is at least its value in `s`, and `t` has every error of `s`. */
  predicate Grown(s: RunStats, t: RunStats) {
    && s.pagesVisited <= t.pagesVisited
    && s.tendersParsed <= t.tendersParsed
    && s.tendersSaved <= t.tendersSaved
    && s.dedupedCount <= t.dedupedCount
    && s.failures <= t.failures
    && s.errorSummary <= t.errorSummary
  }

  /** Each failure recorded by category also counts in `failures`. */
  predicate FailuresCoverErrors(s: RunStats) {
    s.failures >= |s.errorSummary|
  }

  /**
   * `record_error(k)` adds one failure and one to category `k`, and leaves every other
   * category and counter as it was.
   */
  lemma RecordErrorCounts(s: RunStats, k: string)
    ensures Apply(s, RecordError(k)).failures == s.failures + 1
    ensures Apply(s, RecordError(k)).errorSummary[k] == s.errorSummary[k] + 1
    ensures forall j :: j != k ==> Apply(s, RecordError(k)).errorSummary[j] == s.errorSummary[j]
    ensures Apply(s, RecordError(k)).(failures := s.failures, errorSummary := s.errorSummary) == s
  {
  }

  /** `update_stats` reads only its four keys and never touches the error tally. */
  lemma UpdateStatsKeys(s: RunStats, stats: map<string, int>)
    ensures Apply(s, UpdateStats(stats)).errorSummary == s.errorSummary
    ensures Apply(s, UpdateStats(stats)).pagesVisited == s.pagesVisited
    ensures Apply(s, UpdateStats(stats)).failures == s.failures + StatOr0(stats, "failed")
    ensures (forall k :: k in stats ==> k !in {"parsed", "saved", "deduped", "failed"})
              ==> Apply(s, UpdateStats(stats)) == s
  {
  }

  /** With non-negative counts one call never lowers a counter nor forgets an error. */
  lemma ApplyGrows(s: RunStats, c: Call)
    requires NonNegative(c)
    ensures Grown(s, Apply(s, c))
  {
  }

  /** ... and neither does any sequence of such calls. */
  lemma {:induction false} ReplayGrows(s: RunStats, calls: seq<Call>)
    requires forall i :: 0 <= i < |calls| ==> NonNegative(calls[i])
    ensures Grown(s, Replay(s, calls))
    decreases |calls|
  {
    if calls != [] {
      ApplyGrows(s, calls[0]);
      ReplayGrows(Apply(s, calls[0]), calls[1..]);
    }
  }

  /** One call with non-negative counts keeps `failures` at least the size of the tally. */
  lemma ApplyKeepsCover(s: RunStats, c: Call)
    requires FailuresCoverErrors(s) && NonNegative(c)
    ensures FailuresCoverErrors(Apply(s, c))
  {
    if c.UpdateStats? {
      assert "failed" in c.stats ==> c.stats["failed"] >= 0;
    }
  }

  /** From the initial counters, `failures` is never below the sum of the tally. */
  lemma {:induction false} ReplayKeepsCover(s: RunStats, calls: seq<Call>)
    requires FailuresCoverErrors(s)
    requires forall i :: 0 <= i < |calls| ==> NonNegative(calls[i])
    ensures FailuresCoverErrors(Replay(s, calls))
    decreases |calls|
  {
    if calls != [] {
      ApplyKeepsCover(s, calls[0]);
      ReplayKeepsCover(Apply(s, calls[0]), calls[1..]);
    }
  }

  lemma ReplayOne(s: RunStats, c: Call)
    ensures Replay(s, [c]) == Apply(s, c)
  {
    assert [c][1..] == [];
  }

  /** Replaying two runs of calls one after the other is replaying them together. */
  lemma {:induction false} ReplayAppend(s: RunStats, xs: seq<Call>, ys: seq<Call>)
    ensures Replay(s, xs + ys) == Replay(Replay(s, xs), ys)
    decreases |xs|
  {
    if xs == [] {
      assert xs + ys == ys;
    } else {
      assert (xs + ys)[1..] == xs[1..] + ys;
      ReplayAppend(Apply(s, xs[0]), xs[1..], ys);
    }
  }

  /** `update_stats` as four independent counter updates. */
  lemma UpdateStatsFields(s: RunStats, t: RunStats, stats: map<string, int>)
    requires t.pagesVisited == s.pagesVisited && t.errorSummary == s.errorSummary
    requires t.tendersParsed == s.tendersParsed + StatOr0(stats, "parsed")
    requires t.tendersSaved == s.tendersSaved + StatOr0(stats, "saved")
    requires t.dedupedCount == s.dedupedCount + StatOr0(stats, "deduped")
    requires t.failures == s.failures + StatOr0(stats, "failed")
    ensures t == Apply(s, UpdateStats(stats))
  {
  }

  /** The tracker object, its counters updated in place. */
  class RunTracker {
    var pagesVisited: int
    var tendersParsed: int
    var tendersSaved: int
    var dedupedCount: int
    var failures: int
    var errorSummary: multiset<string>

    /** `get_summary()`: the current counters and error tally. */
    function Summary(): RunStats
      reads this
    {
      RunStats(pagesVisited, tendersParsed, tendersSaved, dedupedCount, failures, errorSummary)
    }

    constructor()
      ensures Summary() == Initial
    {
      pagesVisited := 0;
      tendersParsed := 0;
      tendersSaved := 0;
      dedupedCount := 0;
      failures := 0;
      errorSummary := multiset{};
    }

    method IncrementPages(count: int)
      modifies this
      ensures Summary() == Apply(old(Summary()), Call.IncrementPages(count))
    {
      pagesVisited := pagesVisited + count;
    }

    method IncrementParsed(count: int)
      modifies this
      ensures Summary() == Apply(old(Summary()), Call.IncrementParsed(count))
    {
      tendersParsed := tendersParsed + count;
    }

    method IncrementSaved(count: int)
      modifies this
      ensures Summary() == Apply(old(Summary()), Call.IncrementSaved(count))
    {
      tendersSaved := tendersSaved + count;
    }

    method IncrementDeduped(count: int)
      modifies this
      ensures Summary() == Apply(old(Summary()), Call.IncrementDeduped(count))
    {
      dedupedCount := dedupedCount + count;
    }

    method RecordError(errorType: string)
      modifies this
      ensures Summary() == Apply(old(Summary()), Call.RecordError(errorType))
    {
      failures := failures + 1;
      errorSummary := errorSummary + multiset{errorType};
    }

    method UpdateStats(stats: map<string, int>)
      modifies this
      ensures Summary() == Apply(old(Summary()), Call.UpdateStats(stats))
    {
      ghost var before := Summary();
      if "parsed" in stats {
        tendersParsed := tendersParsed + stats["parsed"];
      }
      if "saved" in stats {
        tendersSaved := tendersSaved + stats["saved"];
      }
      if "deduped" in stats {
        dedupedCount := dedupedCount + stats["deduped"];
      }
      if "failed" in stats {
        failures := failures + stats["failed"];
      }
      UpdateStatsFields(before, Summary(), stats);
    }
  }
}
