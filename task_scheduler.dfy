/** interactions/tasks/task.py: the table of scheduled tasks with their
    interval and `last_run`, one tick of `_task_scheduler_loop`, the age
    filter of `_daily_cleanup`, and the order of `shutdown`. Times are whole
    seconds; which task functions raise is a parameter. */
module Scheduler {
  import opened Wrappers
  import Background

  /** An entry of `scheduled_tasks`; the function and description are
      identified by the name. */
  datatype ScheduledTask = ScheduledTask(interval: int, lastRun: int)

  const HourlyStats := "hourly_stats"
  const DailyCleanupTask := "daily_cleanup"
  const Hour := 3600
  const Day := 86400
  const LogMaxAge := 7 * Day
  const StatsMaxAge := 30 * Day

  /** The due rule: at least one interval since the last successful run. */
  predicate Due(t: ScheduledTask, now: int) {
    now - t.lastRun >= t.interval
  }

  /** One task in one tick: a due task runs, and only a run that returns
      records the tick time. */
  function Advance(t: ScheduledTask, now: int, raises: bool): (r: ScheduledTask)
    ensures r.interval == t.interval
  {
    if Due(t, now) && !raises then t.(lastRun := now) else t
  }

  /** The names, in table order, that are due at `now`. */
  function DueNames(order: seq<string>, tasks: map<string, ScheduledTask>, now: int): seq<string>
    requires forall n :: n in order ==> n in tasks
  {
    if order == [] then []
    else
      var rest := DueNames(order[1..], tasks, now);
      if Due(tasks[order[0]], now) then [order[0]] + rest else rest
  }

  /** Exactly the due tasks run, each in its table position. */
  lemma {:induction false} DueNamesExactly(order: seq<string>, tasks: map<string, ScheduledTask>, now: int)
    requires forall n :: n in order ==> n in tasks
    ensures forall n :: n in DueNames(order, tasks, now) <==> n in order && Due(tasks[n], now)
  {
    if order != [] {
      DueNamesExactly(order[1..], tasks, now);
      assert forall n :: n in order <==> n == order[0] || n in order[1..];
    }
  }

  /** After a successful run a task is not due again for a whole interval;
      after a failed run it stays due at every later tick, so it is retried. */
  lemma AdvanceSchedule(t: ScheduledTask, now: int, later: int, raises: bool)
    requires Due(t, now) && now <= later && t.interval > 0
    ensures !raises ==> (Due(Advance(t, now, raises), later) <==> later >= now + t.interval)
    ensures !raises ==> !Due(Advance(t, now, raises), now)
    ensures raises ==> Due(Advance(t, now, raises), later)
  {
  }

  /** A file of `logs` or `stats/hourly`: name, `isfile` and the answer of
      `getmtime`, `None` when that call raises. */
  datatype DirEntry = DirEntry(name: string, isFile: bool, mtime: Option<int>)

  /** A directory as `_daily_cleanup` meets it: absent (`exists` is false),
      present but `listdir` raising, or its listing. */
  datatype Listing = Missing | Unreadable | Listed(entries: seq<DirEntry>)

  /** `getmtime` is only asked of regular files, and raises for this one. */
  predicate StatFails(e: DirEntry) {
    e.isFile && e.mtime.None?
  }

  /** How far a pass gets: the position of the first entry whose `getmtime`
      raises, or the whole listing. */
  function StatCut(entries: seq<DirEntry>): (c: nat)
    ensures c <= |entries|
    ensures forall i :: 0 <= i < c ==> !StatFails(entries[i])
    ensures c < |entries| ==> StatFails(entries[c])
  {
    if entries == [] || StatFails(entries[0]) then 0
    else
      var c := StatCut(entries[1..]);
      assert forall i :: 1 <= i < c + 1 ==> entries[i] == entries[1..][i - 1];
      c + 1
  }

  /** The files a pass over entries removes: regular files strictly older
      than `maxAge` whose `os.remove` does not raise, in listing order. */
  function Expired(entries: seq<DirEntry>, now: int, maxAge: int, fails: set<string>): seq<string> {
    if entries == [] then []
    else
      var e := entries[0];
      var rest := Expired(entries[1..], now, maxAge, fails);
      if e.isFile && e.mtime.Some? && now - e.mtime.value > maxAge && e.name !in fails then [e.name] + rest else rest
  }

  /** A name is removed exactly when some regular file of that name is
      older than the limit (strictly) and can be removed. */
  lemma {:induction false} ExpiredExactly(entries: seq<DirEntry>, now: int, maxAge: int, fails: set<string>, n: string)
    ensures n in Expired(entries, now, maxAge, fails) <==>
      exists i :: (&& 0 <= i < |entries| && entries[i].name == n && entries[i].isFile && entries[i].mtime.Some?
                   && now - entries[i].mtime.value > maxAge && n !in fails)
  {
    if entries != [] {
      ExpiredExactly(entries[1..], now, maxAge, fails, n);
      if n in Expired(entries[1..], now, maxAge, fails) {
        var i :| (&& 0 <= i < |entries[1..]| && entries[1..][i].name == n && entries[1..][i].isFile
                  && entries[1..][i].mtime.Some? && now - entries[1..][i].mtime.value > maxAge && n !in fails);
        assert entries[i + 1] == entries[1..][i];
      }
      if exists i :: (&& 0 <= i < |entries| && entries[i].name == n && entries[i].isFile && entries[i].mtime.Some?
                      && now - entries[i].mtime.value > maxAge && n !in fails) {
        var i :| (&& 0 <= i < |entries| && entries[i].name == n && entries[i].isFile && entries[i].mtime.Some?
                  && now - entries[i].mtime.value > maxAge && n !in fails);
        if i > 0 {
          assert entries[1..][i - 1] == entries[i];
        }
      }
    }
  }

  /** One pass of `_daily_cleanup` over a directory: the files removed, and
      whether an exception ended it (`listdir` or `getmtime` raising, which
      the outer handler catches). A missing directory is skipped. */
  function Pass(listing: Listing, now: int, maxAge: int, fails: set<string>): (seq<string>, bool) {
    match listing
    case Missing => ([], false)
    case Unreadable => ([], true)
    case Listed(entries) =>
      var c := StatCut(entries);
      (Expired(entries[..c], now, maxAge, fails), c < |entries|)
  }

  /** The loop of `_daily_cleanup` over one directory. */
  method CleanDirectory(listing: Listing, now: int, maxAge: int, fails: set<string>)
    returns (removed: seq<string>, deletedCount: nat, aborted: bool)
    ensures (removed, aborted) == Pass(listing, now, maxAge, fails)
    ensures deletedCount == |removed|
  {
    removed, deletedCount, aborted := [], 0, false;
    if listing.Missing? {
      return;
    }
    if listing.Unreadable? {
      aborted := true;
      return;
    }
    var entries := listing.entries;
    ghost var c := StatCut(entries);
    ghost var prefix := entries[..c];
    var i := 0;
    assert prefix[0..] == prefix;
    while i < |entries|
      invariant 0 <= i <= c
      invariant deletedCount == |removed|
      invariant Expired(prefix, now, maxAge, fails) == removed + Expired(prefix[i..], now, maxAge, fails)
    {
      var e := entries[i];
      if e.isFile && e.mtime.None? {
        aborted := true;
        assert prefix[i..] == [];
        assert removed + [] == removed;
        return;
      }
      assert prefix[i] == e && prefix[i..][1..] == prefix[i + 1..];
      if e.isFile && now - e.mtime.value > maxAge {
        if e.name !in fails {
          assert removed + ([e.name] + Expired(prefix[i + 1..], now, maxAge, fails))
              == (removed + [e.name]) + Expired(prefix[i + 1..], now, maxAge, fails);
          removed := removed + [e.name];
          deletedCount := deletedCount + 1;
        }
      }
      i := i + 1;
    }
    assert prefix[i..] == [];
    assert removed + [] == removed;
  }

  /** `_daily_cleanup`: logs older than 7 days, then hourly stats files
      older than 30 days; each pass reads the clock afresh (`logsNow`,
      `statsNow`) and has its own removal failures. An exception in the logs
      pass ends the call before the stats pass. */
  method DailyCleanup(logs: Listing, stats: Listing, logsNow: int, statsNow: int,
                      logFails: set<string>, statsFails: set<string>)
    returns (removedLogs: seq<string>, removedStats: seq<string>, aborted: bool)
    ensures removedLogs == Pass(logs, logsNow, LogMaxAge, logFails).0
    ensures removedStats == if Pass(logs, logsNow, LogMaxAge, logFails).1 then [] else Pass(stats, statsNow, StatsMaxAge, statsFails).0
    ensures aborted <==> Pass(logs, logsNow, LogMaxAge, logFails).1 || Pass(stats, statsNow, StatsMaxAge, statsFails).1
  {
    var n1, n2, a1, a2;
    removedLogs, n1, a1 := CleanDirectory(logs, logsNow, LogMaxAge, logFails);
    if a1 {
      return removedLogs, [], true;
    }
    removedStats, n2, a2 := CleanDirectory(stats, statsNow, StatsMaxAge, statsFails);
    aborted := a2;
  }

  /** A pass that meets no failing `getmtime` removes exactly the expired
      regular files of the whole listing, and one that does stops there:
      nothing listed after the failing entry is removed. */
  lemma PassStopsAtStatFailure(entries: seq<DirEntry>, now: int, maxAge: int, fails: set<string>, n: string)
    ensures var (removed, aborted) := Pass(Listed(entries), now, maxAge, fails);
      && (aborted <==> exists i :: 0 <= i < |entries| && StatFails(entries[i]))
      && (!aborted ==> removed == Expired(entries, now, maxAge, fails))
      && (n in removed <==>
            exists i :: (&& 0 <= i < StatCut(entries) && entries[i].name == n && entries[i].isFile
                         && entries[i].mtime.Some? && now - entries[i].mtime.value > maxAge && n !in fails))
  {
    var c := StatCut(entries);
    assert c == |entries| ==> entries[..c] == entries;
    ExpiredExactly(entries[..c], now, maxAge, fails, n);
    if exists i :: 0 <= i < |entries| && StatFails(entries[i]) {
      var i :| 0 <= i < |entries| && StatFails(entries[i]);
      assert i >= c;
    }
    if n in Expired(entries[..c], now, maxAge, fails) {
      var i :| (&& 0 <= i < c && entries[..c][i].name == n && entries[..c][i].isFile
                && entries[..c][i].mtime.Some? && now - entries[..c][i].mtime.value > maxAge && n !in fails);
      assert entries[..c][i] == entries[i];
    }
    if exists i :: (&& 0 <= i < c && entries[i].name == n && entries[i].isFile
                    && entries[i].mtime.Some? && now - entries[i].mtime.value > maxAge && n !in fails) {
      var i :| (&& 0 <= i < c && entries[i].name == n && entries[i].isFile
                && entries[i].mtime.Some? && now - entries[i].mtime.value > maxAge && n !in fails);
      assert entries[..c][i] == entries[i];
    }
  }

  /** The tick over `names` as it runs: each name is looked up in the table
      as updated so far; gives the new table and the names that ran. */
  function TickFrom(names: seq<string>, m: map<string, ScheduledTask>, now: int, raises: set<string>)
    : (map<string, ScheduledTask>, seq<string>)
  {
    if names == [] then (m, [])
    else
      var n := names[0];
      var due := n in m && Due(m[n], now);
      var m1 := if due && n !in raises then m[n := m[n].(lastRun := now)] else m;
      var (m2, r) := TickFrom(names[1..], m1, now, raises);
      (m2, if due then [n] + r else r)
  }

  /** Names outside `names` do not influence which of them are due. */
  lemma {:induction false} DueNamesFrame(names: seq<string>, m: map<string, ScheduledTask>, n: string,
                                         t: ScheduledTask, now: int)
    requires forall x :: x in names ==> x in m
    requires n !in names
    ensures DueNames(names, m[n := t], now) == DueNames(names, m, now)
  {
    if names != [] {
      DueNamesFrame(names[1..], m, n, t, now);
    }
  }

  /** Over distinct names, the running tick is the reference one: every
      listed task is advanced once from its own entry, nothing else changes,
      and the names that ran are the due ones in order. */
  lemma {:induction false} TickFromExact(names: seq<string>, m: map<string, ScheduledTask>, now: int, raises: set<string>)
    requires forall n :: n in names ==> n in m
    requires forall i, j :: 0 <= i < j < |names| ==> names[i] != names[j]
    ensures TickFrom(names, m, now, raises).0.Keys == m.Keys
    ensures forall n :: n in names ==> TickFrom(names, m, now, raises).0[n] == Advance(m[n], now, n in raises)
    ensures forall n :: n in m && n !in names ==> TickFrom(names, m, now, raises).0[n] == m[n]
    ensures TickFrom(names, m, now, raises).1 == DueNames(names, m, now)
  {
    if names != [] {
      var n := names[0];
      var due := Due(m[n], now);
      var m1 := if due && n !in raises then m[n := m[n].(lastRun := now)] else m;
      var tail := names[1..];
      assert n !in tail by {
        forall k | 0 <= k < |tail| ensures tail[k] != n {
          assert tail[k] == names[k + 1];
        }
      }
      assert forall i, j :: 0 <= i < j < |tail| ==> tail[i] != tail[j] by {
        forall i, j | 0 <= i < j < |tail| ensures tail[i] != tail[j] {
          assert tail[i] == names[i + 1] && tail[j] == names[j + 1];
        }
      }
      TickFromExact(tail, m1, now, raises);
      if due && n !in raises {
        DueNamesFrame(tail, m, n, m[n].(lastRun := now), now);
      }
      forall x | x in names
        ensures TickFrom(names, m, now, raises).0[x] == Advance(m[x], now, x in raises)
      {
        if x != n {
          assert x in tail;
        }
      }
    }
  }

  /** The `for` loop of one tick over the table in key order: every due
      task runs; `raises` names the functions that raise, whose `last_run`
      is then left alone. */
  method RunDueTasks(names: seq<string>, table: map<string, ScheduledTask>, now: int, raises: set<string>)
    returns (after: map<string, ScheduledTask>, ran: seq<string>)
    ensures (after, ran) == TickFrom(names, table, now, raises)
  {
    after := table;
    ran := [];
    var i := 0;
    assert names[0..] == names;
    assert [] + TickFrom(names, table, now, raises).1 == TickFrom(names, table, now, raises).1;
    while i < |names|
      invariant 0 <= i <= |names|
      invariant TickFrom(names, table, now, raises).0 == TickFrom(names[i..], after, now, raises).0
      invariant TickFrom(names, table, now, raises).1 == ran + TickFrom(names[i..], after, now, raises).1
    {
      var name := names[i];
      assert names[i..][0] == name && names[i..][1..] == names[i + 1..];
      if name in after {
        var t := after[name];
        if now - t.lastRun >= t.interval {
          ghost var rest := TickFrom(names[i + 1..], if name !in raises then after[name := t.(lastRun := now)] else after,
                                     now, raises).1;
          assert ran + ([name] + rest) == (ran + [name]) + rest;
          ran := ran + [name];
          if name !in raises {
            after := after[name := t.(lastRun := now)];
          }
        }
      }
      i := i + 1;
    }
    assert ran + [] == ran;
  }

  datatype ShutdownStep = CancelSchedulerLoop | StopBackgroundTasks

  class TasksModule {
    var scheduled: map<string, ScheduledTask>
    var order: seq<string>
    var loopStarted: bool

    /** `order` is the dict's key order: every key once. */
    ghost predicate Valid()
      reads this
    {
      && (forall n :: n in order <==> n in scheduled)
      && (forall i, j :: 0 <= i < j < |order| ==> order[i] != order[j])
    }

    constructor ()
      ensures Valid() && scheduled == map[] && order == [] && !loopStarted
    {
      scheduled := map[];
      order := [];
      loopStarted := false;
    }

    /** Adds `name` at the end of the key order unless it is a key already,
        as a dict assignment does. */
    method Put(name: string, t: ScheduledTask)
      requires Valid()
      modifies this
      ensures Valid() && scheduled == old(scheduled)[name := t] && loopStarted == old(loopStarted)
      ensures order == if name in old(scheduled) then old(order) else old(order) + [name]
    {
      if name !in scheduled {
        order := order + [name];
      }
      scheduled := scheduled[name := t];
    }

    /** `_register_scheduled_tasks`. */
    method RegisterScheduledTasks()
      requires Valid()
      modifies this
      ensures Valid() && loopStarted == old(loopStarted)
      ensures scheduled == old(scheduled)[HourlyStats := ScheduledTask(Hour, 0)][DailyCleanupTask := ScheduledTask(Day, 0)]
      ensures order == old(order) + (if HourlyStats in old(scheduled) then [] else [HourlyStats])
                                  + (if DailyCleanupTask in old(scheduled) then [] else [DailyCleanupTask])
    {
      assert HourlyStats[0] != DailyCleanupTask[0];
      Put(HourlyStats, ScheduledTask(Hour, 0));
      Put(DailyCleanupTask, ScheduledTask(Day, 0));
    }

    /** `setup`: start the background tasks, register, then start the
        scheduler loop. */
    method Setup(background: Background.BackgroundTasks)
      requires Valid() && background.Valid()
      modifies this, background
      ensures Valid() && loopStarted
      ensures background.Valid() && background.running && background.tasks == Background.AllLoops
      ensures scheduled == old(scheduled)[HourlyStats := ScheduledTask(Hour, 0)][DailyCleanupTask := ScheduledTask(Day, 0)]
      ensures order == old(order) + (if HourlyStats in old(scheduled) then [] else [HourlyStats])
                                  + (if DailyCleanupTask in old(scheduled) then [] else [DailyCleanupTask])
    {
      background.Start();
      RegisterScheduledTasks();
      loopStarted := true;
    }

    /** One pass of the `while True` body at time `now`. */
    method Tick(now: int, raises: set<string>) returns (ran: seq<string>)
      requires Valid()
      modifies this
      ensures Valid() && order == old(order) && loopStarted == old(loopStarted)
      ensures scheduled.Keys == old(scheduled).Keys
      ensures forall n :: n in scheduled ==> scheduled[n] == Advance(old(scheduled)[n], now, n in raises)
      ensures ran == DueNames(order, old(scheduled), now)
    {
      TickFromExact(order, scheduled, now, raises);
      scheduled, ran := RunDueTasks(order, scheduled, now, raises);
    }

    /** `shutdown`: the scheduler loop is cancelled (when it was started)
        before the background tasks are stopped. */
    method Shutdown(background: Background.BackgroundTasks, done: set<Background.Loop>)
      returns (steps: seq<ShutdownStep>)
      requires background.Valid()
      modifies this, background
      ensures background.Valid() && !background.running
      ensures !loopStarted && scheduled == old(scheduled) && order == old(order)
      ensures steps == (if old(loopStarted) then [CancelSchedulerLoop] else []) + [StopBackgroundTasks]
    {
      steps := [];
      if loopStarted {
        loopStarted := false;
        steps := steps + [CancelSchedulerLoop];
      }
      var cancelled := background.Stop(done);
      steps := steps + [StopBackgroundTasks];
    }
  }
}
