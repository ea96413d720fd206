/** utils/tasks.py: the size-budget eviction that `_clean_cache_loop` runs
    once per day on `temp/cache`, and the `running` flag and task list that
    `start` and `stop` manage. The directory listing is a sequence of
    regular files with their access time and size. */
module Background {

  /** A regular file of the cache directory: name, `getatime`, `getsize`. */
  datatype CacheFile = CacheFile(name: string, atime: int, size: nat)

  /** `max_cache_size`: 500 MiB. */
  const MaxCacheSize := 500 * 1024 * 1024
  const CacheCleanupInterval := 24 * 3600
  const StatusUpdateInterval := 120
  const SystemCheckInterval := 300

  function TotalSize(fs: seq<CacheFile>): nat {
    if fs == [] then 0 else fs[0].size + TotalSize(fs[1..])
  }

  /** The eviction stop test `total_size <= max_cache_size * 0.8`; 0.8 times
      524288000 is exactly 419430400, so the integer form is exact. */
  predicate WithinMargin(total: int) {
    5 * total <= 4 * MaxCacheSize
  }

  predicate SortedByAtime(fs: seq<CacheFile>) {
    forall i, j :: 0 <= i < j < |fs| ==> fs[i].atime <= fs[j].atime
  }

  /** Puts `x` after every element whose access time is not later than its
      own, which for a sorted list keeps the sort stable. */
  function InsertByAtime(x: CacheFile, fs: seq<CacheFile>): (r: seq<CacheFile>)
    ensures multiset(r) == multiset(fs) + multiset{x}
    ensures |r| == |fs| + 1
  {
    if fs == [] then [x]
    else if x.atime < fs[0].atime then [x] + fs
    else
      assert fs == [fs[0]] + fs[1..];
      [fs[0]] + InsertByAtime(x, fs[1..])
  }

  /** `file_stats.sort(key=atime)`: a stable sort by access time. */
  function SortByAtime(fs: seq<CacheFile>): (r: seq<CacheFile>)
    ensures multiset(r) == multiset(fs)
    ensures |r| == |fs|
  {
    if fs == [] then []
    else
      assert fs == fs[..|fs| - 1] + [fs[|fs| - 1]];
      InsertByAtime(fs[|fs| - 1], SortByAtime(fs[..|fs| - 1]))
  }

  lemma {:induction false} InsertKeepsSorted(x: CacheFile, fs: seq<CacheFile>)
    requires SortedByAtime(fs)
    ensures SortedByAtime(InsertByAtime(x, fs))
  {
    if fs != [] && x.atime >= fs[0].atime {
      InsertKeepsSorted(x, fs[1..]);
      var r := InsertByAtime(x, fs[1..]);
      forall k | 0 <= k < |r| ensures fs[0].atime <= r[k].atime {
        assert r[k] in multiset(r);
        assert r[k] in multiset(fs[1..]) + multiset{x};
        if r[k] != x {
          assert r[k] in fs[1..];
        }
      }
      assert forall k :: 0 < k <= |r| ==> ([fs[0]] + r)[k] == r[k - 1];
    }
  }

  /** Files are considered oldest access first. */
  lemma {:induction false} SortIsSorted(fs: seq<CacheFile>)
    ensures SortedByAtime(SortByAtime(fs))
  {
    if fs != [] {
      SortIsSorted(fs[..|fs| - 1]);
      InsertKeepsSorted(fs[|fs| - 1], SortByAtime(fs[..|fs| - 1]));
    }
  }

  /** The removal loop over the sorted files: `fails` holds the names whose
      `os.remove` raises; such a file is skipped and the loop goes on. The
      result is the files removed, in order, and the final total. */
  function Evict(sorted: seq<CacheFile>, total: int, fails: set<string>): (r: (seq<CacheFile>, int))
    ensures |r.0| <= |sorted|
  {
    if sorted == [] then ([], total)
    else if sorted[0].name in fails then Evict(sorted[1..], total, fails)
    else
      var t := total - sorted[0].size;
      if WithinMargin(t) then ([sorted[0]], t)
      else
        var (d, t') := Evict(sorted[1..], t, fails);
        ([sorted[0]] + d, t')
  }

  /** One pass of the cleanup: nothing happens at or below the budget. */
  function CleanPass(fs: seq<CacheFile>, fails: set<string>): (seq<CacheFile>, int) {
    var total := TotalSize(fs);
    if total > MaxCacheSize then Evict(SortByAtime(fs), total, fails) else ([], total)
  }

  /** The body of `_clean_cache_loop` for one day: the files removed, the
      `deleted_count`, and the `total_size` it ends with. */
  method CleanCacheOnce(fs: seq<CacheFile>, fails: set<string>)
    returns (removed: seq<CacheFile>, deletedCount: nat, total: int)
    ensures (removed, total) == CleanPass(fs, fails)
    ensures deletedCount == |removed|
  {
    total := TotalSize(fs);
    removed := [];
    deletedCount := 0;
    if total > MaxCacheSize {
      var fileStats := SortByAtime(fs);
      var i := 0;
      assert fileStats[0..] == fileStats;
      assert [] + Evict(fileStats, total, fails).0 == Evict(fileStats, total, fails).0;
      while i < |fileStats|
        invariant 0 <= i <= |fileStats|
        invariant deletedCount == |removed|
        invariant Evict(fileStats, TotalSize(fs), fails) == (removed + Evict(fileStats[i..], total, fails).0,
                                                              Evict(fileStats[i..], total, fails).1)
      {
        assert fileStats[i..][1..] == fileStats[i + 1..];
        var f := fileStats[i];
        if f.name in fails {
          i := i + 1;
          continue;
        }
        deletedCount := deletedCount + 1;
        total := total - f.size;
        assert removed + ([f] + Evict(fileStats[i + 1..], total, fails).0)
            == (removed + [f]) + Evict(fileStats[i + 1..], total, fails).0;
        removed := removed + [f];
        if WithinMargin(total) {
          assert removed + [] == removed;
          return;
        }
        i := i + 1;
      }
      assert removed + [] == removed;
    }
  }

  /** Nothing is removed at or below the budget. */
  lemma UnderBudgetKeepsAll(fs: seq<CacheFile>, fails: set<string>)
    requires TotalSize(fs) <= MaxCacheSize
    ensures CleanPass(fs, fails) == ([], TotalSize(fs))
  {
  }

  /** Every removed file comes from the list and does not fail, and the final
      total is the starting one minus exactly the removed sizes. */
  lemma {:induction false} EvictAccounts(sorted: seq<CacheFile>, total: int, fails: set<string>)
    ensures var (d, t) := Evict(sorted, total, fails);
      && t == total - TotalSize(d)
      && |d| <= |sorted|
      && forall k :: 0 <= k < |d| ==> d[k] in sorted && d[k].name !in fails
  {
    if sorted != [] {
      if sorted[0].name in fails {
        EvictAccounts(sorted[1..], total, fails);
        var (d, t) := Evict(sorted[1..], total, fails);
        assert forall k :: 0 <= k < |d| ==> d[k] in sorted[1..];
      } else {
        var t0 := total - sorted[0].size;
        if WithinMargin(t0) {
          assert TotalSize([sorted[0]]) == sorted[0].size;
        } else {
          EvictAccounts(sorted[1..], t0, fails);
          var (d, t) := Evict(sorted[1..], t0, fails);
          assert ([sorted[0]] + d)[1..] == d;
          assert forall k :: 0 <= k < |d| ==> d[k] in sorted[1..];
          assert forall k :: 0 < k < |d| + 1 ==> ([sorted[0]] + d)[k] == d[k - 1];
        }
      }
    }
  }

  /** When no removal fails, the removed files are a prefix of the sorted
      order that stops right after the first removal bringing the total
      within the margin (or takes every file if none does). */
  lemma {:induction false} EvictMinimalPrefix(sorted: seq<CacheFile>, total: int, fails: set<string>)
    requires forall k :: 0 <= k < |sorted| ==> sorted[k].name !in fails
    ensures var (d, t) := Evict(sorted, total, fails);
      && d == sorted[..|d|]
      && t == total - TotalSize(d)
      && (forall j :: 0 < j < |d| ==> !WithinMargin(total - TotalSize(sorted[..j])))
      && (|d| < |sorted| ==> |d| > 0 && WithinMargin(t))
  {
    if sorted != [] {
      var t0 := total - sorted[0].size;
      assert TotalSize([sorted[0]]) == sorted[0].size;
      if !WithinMargin(t0) {
        EvictMinimalPrefix(sorted[1..], t0, fails);
        var (d, t) := Evict(sorted[1..], t0, fails);
        var d' := [sorted[0]] + d;
        assert d' == sorted[..|d'|];
        assert d'[1..] == d;
        forall j | 0 < j < |d'|
          ensures !WithinMargin(total - TotalSize(sorted[..j]))
        {
          assert sorted[..j][1..] == sorted[1..][..j - 1];
          assert TotalSize(sorted[..j]) == sorted[0].size + TotalSize(sorted[1..][..j - 1]);
          if j > 1 {
            assert !WithinMargin(t0 - TotalSize(sorted[1..][..j - 1]));
          }
        }
      }
    }
  }

  /** The three loops `start` creates. */
  datatype Loop = StatusLoop | CleanLoop | MonitorLoop

  const AllLoops := [StatusLoop, CleanLoop, MonitorLoop]

  class BackgroundTasks {
    var running: bool
    var tasks: seq<Loop>

    /** The flag and the task list move together. */
    predicate Valid()
      reads this
    {
      (running ==> tasks == AllLoops) && (!running ==> tasks == [])
    }

    constructor ()
      ensures Valid() && !running
    {
      running := false;
      tasks := [];
    }

    /** `start`: a no-op when already running; otherwise sets the flag and
        creates exactly the three loops. */
    method Start()
      requires Valid()
      modifies this
      ensures Valid() && running
      ensures old(running) ==> tasks == old(tasks)
      ensures tasks == AllLoops && |tasks| == 3
    {
      if running {
        return;
      }
      running := true;
      tasks := [StatusLoop, CleanLoop, MonitorLoop];
    }

    /** `stop`: a no-op when not running; otherwise clears the flag, cancels
        every task that is not `done` yet and empties the list. `cancelled`
        lists the tasks cancelled, in list order. */
    method Stop(done: set<Loop>) returns (cancelled: seq<Loop>)
      requires Valid()
      modifies this
      ensures Valid() && !running && tasks == []
      ensures !old(running) ==> cancelled == []
      ensures old(running) ==> forall l :: l in cancelled <==> l in AllLoops && l !in done
    {
      cancelled := [];
      if !running {
        return;
      }
      running := false;
      var i := 0;
      while i < |tasks|
        invariant 0 <= i <= |tasks|
        invariant forall l :: l in cancelled <==> l in tasks[..i] && l !in done
      {
        assert tasks[..i + 1] == tasks[..i] + [tasks[i]];
        if tasks[i] !in done {
          cancelled := cancelled + [tasks[i]];
        }
        i := i + 1;
      }
      assert tasks[..i] == tasks;
      tasks := [];
    }
  }
}
