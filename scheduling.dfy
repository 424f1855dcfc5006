/**
 * What `App._start_tasks` does, as a function of the strategy, the one-shot
 * tasks, the interval tasks and whether an HTTP server is configured: which
 * units it launches, in which order, and whether it raises.
 */
module Scheduling {
  import opened Common

  /** An interval key of `INTERVAL_TASKS`. */
  type Interval = int

  /**
   * `INTERVAL_TASKS`: a dict from interval to task list, in the dict's
   * iteration order (its insertion order). Keys are distinct in the source.
   */
  type IntervalTable = seq<(Interval, seq<Task>)>

  /** A unit of work `_start_tasks` launches. */
  datatype Unit = OneShot(task: Task) | Periodic(interval: Interval, task: Task)

  /** An observable startup effect, in the order it happens. */
  datatype Event = Launched(unit: Unit) | ServerStarted

  /** The two exceptions `_start_tasks` raises, with their messages. */
  datatype StartError =
    | InitializingTaskError(message: string)
    | InitializingIntevalTaskError(message: string)

  datatype Outcome = Ok | Err(error: StartError)

  const Asyncio := "asyncio"
  const Sync := "sync"

  /**
   * How `_start_tasks` treats an `app_strategy` string: "asyncio" schedules
   * coroutines, "sync" starts threads, and any other string does nothing.
   */
  datatype Mode = Cooperative | Threaded | Inactive

  function ModeOf(strategy: string): (m: Mode)
    ensures m == Cooperative <==> strategy == Asyncio
    ensures m == Threaded <==> strategy == Sync
  {
    if strategy == Asyncio then Cooperative else if strategy == Sync then Threaded else Inactive
  }

  /** A task is accepted: a coroutine function under "asyncio", any other callable under "sync". */
  predicate Fits(mode: Mode, t: Task) {
    if mode == Cooperative then t.isCoroutine else !t.isCoroutine
  }

  /** The exception raised for the first unit that does not fit `mode`. */
  function ErrorFor(mode: Mode, u: Unit): (e: StartError)
    ensures e.InitializingTaskError? <==> mode == Cooperative && u.OneShot?
  {
    if mode == Cooperative then
      if u.OneShot? then InitializingTaskError("For asyncio app_strategy only coroutine tasks allowed")
      else InitializingIntevalTaskError("For asyncio app_strategy only coroutine interval tasks allowed")
    else
      if u.OneShot? then InitializingIntevalTaskError("For sync app_strategy coroutine task doesn't allowed")
      else InitializingIntevalTaskError("For sync app_strategy coroutine interval_task doesn't allowed")
  }

  function OneShots(tasks: seq<Task>): (us: seq<Unit>)
    ensures |us| == |tasks|
    ensures forall j :: 0 <= j < |tasks| ==> us[j] == OneShot(tasks[j])
  {
    seq(|tasks|, j requires 0 <= j < |tasks| => OneShot(tasks[j]))
  }

  function PeriodicGroup(interval: Interval, tasks: seq<Task>): (us: seq<Unit>)
    ensures |us| == |tasks|
    ensures forall j :: 0 <= j < |tasks| ==> us[j] == Periodic(interval, tasks[j])
  {
    seq(|tasks|, j requires 0 <= j < |tasks| => Periodic(interval, tasks[j]))
  }

  /** The interval tasks in launch order: interval by interval, each in list order. */
  function Periodics(table: IntervalTable): seq<Unit> {
    if table == [] then []
    else
      var last := table[|table| - 1];
      Periodics(table[..|table| - 1]) + PeriodicGroup(last.0, last.1)
  }

  /** Every unit in the order `_start_tasks` visits them. */
  function Units(tasks: seq<Task>, table: IntervalTable): seq<Unit> {
    OneShots(tasks) + Periodics(table)
  }

  /** The one-shot units come first, then the interval units. */
  lemma UnitsSplit(tasks: seq<Task>, table: IntervalTable)
    ensures |Units(tasks, table)| == |tasks| + |Periodics(table)|
    ensures Units(tasks, table)[..|tasks|] == OneShots(tasks)
    ensures Units(tasks, table)[|tasks|..] == Periodics(table)
  {
  }

  /** The index of the first unit that does not fit, or the length if all fit. */
  function FirstMismatch(mode: Mode, us: seq<Unit>): (k: nat)
    ensures k <= |us|
    ensures forall j :: 0 <= j < k ==> Fits(mode, us[j].task)
    ensures k < |us| ==> !Fits(mode, us[k].task)
  {
    if us == [] || !Fits(mode, us[0].task) then 0 else 1 + FirstMismatch(mode, us[1..])
  }

  /** One launch event per unit, in the same order. */
  function Events(us: seq<Unit>): seq<Event> {
    seq(|us|, j requires 0 <= j < |us| => Launched(us[j]))
  }

  /** Launching one more unit extends the events by one. */
  lemma EventsSnoc(us: seq<Unit>, n: nat)
    requires n < |us|
    ensures Events(us[..n + 1]) == Events(us[..n]) + [Launched(us[n])]
  {
    assert Events(us[..n + 1])[n] == Launched(us[n]);
  }

  /** The events `_start_tasks` produces, in order. */
  function Launches(mode: Mode, tasks: seq<Task>, table: IntervalTable, server: bool): seq<Event> {
    if mode == Inactive then []
    else
      var us := Units(tasks, table);
      var k := FirstMismatch(mode, us);
      Events(us[..k]) + (if k == |us| && server then [ServerStarted] else [])
  }

  /** Whether `_start_tasks` returns normally or raises, and what. */
  function StartResult(mode: Mode, tasks: seq<Task>, table: IntervalTable): Outcome {
    if mode == Inactive then Ok
    else
      var us := Units(tasks, table);
      var k := FirstMismatch(mode, us);
      if k == |us| then Ok else Err(ErrorFor(mode, us[k]))
  }

  /** The first `n` units all fit `mode`. */
  predicate FitsUpTo(mode: Mode, us: seq<Unit>, n: nat) {
    n <= |us| && forall j :: 0 <= j < n ==> Fits(mode, us[j].task)
  }

  /** Any index meeting the characterisation of `FirstMismatch` is its value. */
  lemma FirstMismatchAt(mode: Mode, us: seq<Unit>, k: nat)
    requires k <= |us|
    requires forall j :: 0 <= j < k ==> Fits(mode, us[j].task)
    requires k < |us| ==> !Fits(mode, us[k].task)
    ensures FirstMismatch(mode, us) == k
  {
  }

  /**
   * Once the launch loops have stopped at `k`, the first unit that does not
   * fit (or the end), the events and the outcome are those of `_start_tasks`.
   */
  lemma StoppedAt(mode: Mode, tasks: seq<Task>, table: IntervalTable, server: bool, k: nat)
    requires mode != Inactive
    requires FitsUpTo(mode, Units(tasks, table), k)
    requires k < |Units(tasks, table)| ==> !Fits(mode, Units(tasks, table)[k].task)
    ensures Launches(mode, tasks, table, server)
            == Events(Units(tasks, table)[..k]) + (if k == |Units(tasks, table)| && server then [ServerStarted] else [])
    ensures StartResult(mode, tasks, table)
            == if k == |Units(tasks, table)| then Ok else Err(ErrorFor(mode, Units(tasks, table)[k]))
  {
    FirstMismatchAt(mode, Units(tasks, table), k);
  }

  /**
   * Where interval task `q` of entry `p` stands among the interval units:
   * after every unit of the earlier entries.
   */
  lemma {:induction false} PeriodicsAt(table: IntervalTable, p: nat, q: nat)
    requires p < |table| && q < |table[p].1|
    ensures |Periodics(table[..p])| + q < |Periodics(table)|
    ensures Periodics(table)[|Periodics(table[..p])| + q] == Periodic(table[p].0, table[p].1[q])
    decreases |table|
  {
    var n := |table|;
    var init := table[..n - 1];
    if p == n - 1 {
      assert init == table[..p];
    } else {
      assert init[..p] == table[..p];
      PeriodicsAt(init, p, q);
    }
  }

  /** The position of interval task `q` of entry `p` among the interval units. */
  function PeriodicIndex(table: IntervalTable, p: nat, q: nat): (i: nat)
    requires p < |table| && q < |table[p].1|
    ensures i < |Periodics(table)| && Periodics(table)[i] == Periodic(table[p].0, table[p].1[q])
  {
    PeriodicsAt(table, p, q);
    |Periodics(table[..p])| + q
  }

  /** The interval units of a longer prefix of the table are at least as many. */
  lemma {:induction false} PeriodicsPrefixGrows(table: IntervalTable, p: nat, p': nat)
    requires p <= p' <= |table|
    ensures |Periodics(table[..p])| <= |Periodics(table[..p'])|
    decreases p' - p
  {
    if p < p' {
      PeriodicsSnoc(table, p);
      PeriodicsPrefixGrows(table, p + 1, p');
    }
  }

  /**
   * Interval units are launched entry by entry (the dict's iteration order),
   * and within an entry in list order.
   */
  lemma PeriodicIndexOrder(table: IntervalTable, p: nat, q: nat, p': nat, q': nat)
    requires p < |table| && q < |table[p].1| && p' < |table| && q' < |table[p'].1|
    requires p < p' || (p == p' && q < q')
    ensures PeriodicIndex(table, p, q) < PeriodicIndex(table, p', q')
  {
    if p < p' {
      PeriodicsSnoc(table, p);
      PeriodicsPrefixGrows(table, p + 1, p');
    }
  }

  /** Where interval task `q` of entry `p` stands among all units. */
  lemma UnitsAtPeriodic(tasks: seq<Task>, table: IntervalTable, p: nat, q: nat)
    requires p < |table| && q < |table[p].1|
    ensures |tasks| + |Periodics(table[..p])| + q < |Units(tasks, table)|
    ensures Units(tasks, table)[|tasks| + |Periodics(table[..p])| + q] == Periodic(table[p].0, table[p].1[q])
  {
    PeriodicsAt(table, p, q);
  }

  /** The units of entry `p` stand together, right after those of the earlier entries. */
  lemma PeriodicsGroup(table: IntervalTable, p: nat)
    requires p < |table|
    ensures var base := |Periodics(table[..p])|;
            && base + |table[p].1| <= |Periodics(table)|
            && Periodics(table)[base..base + |table[p].1|] == PeriodicGroup(table[p].0, table[p].1)
  {
    var base := |Periodics(table[..p])|;
    PeriodicsSnoc(table, p);
    PeriodicsPrefixGrows(table, p + 1, |table|);
    assert table[..|table|] == table;
    forall q | 0 <= q < |table[p].1|
      ensures Periodics(table)[base + q] == Periodic(table[p].0, table[p].1[q])
    {
      PeriodicsAt(table, p, q);
    }
  }

  /**
   * Inside the whole launch order `us`, whose interval units start at
   * `base`, the units of entry `p` stand together right after those of the
   * earlier entries.
   */
  lemma TableGroupAt(us: seq<Unit>, base: nat, table: IntervalTable, p: nat)
    requires p < |table| && base + |Periodics(table)| == |us| && us[base..] == Periodics(table)
    ensures var at := base + |Periodics(table[..p])|;
            && at + |table[p].1| <= |us|
            && us[at..at + |table[p].1|] == PeriodicGroup(table[p].0, table[p].1)
            && base + |Periodics(table[..p + 1])| == at + |table[p].1|
  {
    var offset := |Periodics(table[..p])|;
    PeriodicsGroup(table, p);
    PeriodicsSnoc(table, p);
    SuffixSlice(us, base, Periodics(table), offset, offset + |table[p].1|);
  }

  /** A slice of a suffix of `us` is a slice of `us`. */
  lemma SuffixSlice(us: seq<Unit>, base: nat, tail: seq<Unit>, a: nat, b: nat)
    requires base <= |us| && us[base..] == tail && a <= b <= |tail|
    ensures us[base + a..base + b] == tail[a..b]
  {
    assert forall i :: 0 <= i < b - a ==> us[base + a..base + b][i] == tail[a..b][i];
  }

  /** Adding one entry to the table adds its tasks at the end. */
  lemma PeriodicsSnoc(table: IntervalTable, p: nat)
    requires p < |table|
    ensures Periodics(table[..p + 1]) == Periodics(table[..p]) + PeriodicGroup(table[p].0, table[p].1)
  {
    assert table[..p + 1][..p] == table[..p];
  }

  /**
   * When every unit fits an active mode, each one is launched once,
   * the one-shot tasks first and then the interval tasks entry by entry and
   * in list order; the HTTP server, if configured, is started last, and
   * nothing is raised.
   */
  lemma AllFitLaunchesInOrder(mode: Mode, tasks: seq<Task>, table: IntervalTable, server: bool)
    requires mode != Inactive
    requires forall j :: 0 <= j < |tasks| ==> Fits(mode, tasks[j])
    requires forall p, q :: 0 <= p < |table| && 0 <= q < |table[p].1| ==> Fits(mode, table[p].1[q])
    ensures StartResult(mode, tasks, table) == Ok
    ensures var es := Launches(mode, tasks, table, server);
            && |es| == |tasks| + |Periodics(table)| + (if server then 1 else 0)
            && (forall j :: 0 <= j < |tasks| ==> es[j] == Launched(OneShot(tasks[j])))
            && (forall p, q :: 0 <= p < |table| && 0 <= q < |table[p].1| ==>
                  es[|tasks| + PeriodicIndex(table, p, q)] == Launched(Periodic(table[p].0, table[p].1[q])))
            && (server ==> es[|es| - 1] == ServerStarted)
            && (forall j :: 0 <= j < |tasks| + |Periodics(table)| ==> es[j].Launched?)
  {
    AllFitLaunches(mode, tasks, table, server);
    UnitsSplit(tasks, table);
    var us := Units(tasks, table);
    var tail := if server then [ServerStarted] else [];
    var es := Launches(mode, tasks, table, server);
    assert es == Events(us) + tail;
    forall j | 0 <= j < |us| ensures es[j] == Launched(us[j]) {
      EventsThenAt(us, tail, j);
    }
    forall j | 0 <= j < |tasks| ensures es[j] == Launched(OneShot(tasks[j])) {
      assert us[j] == OneShots(tasks)[j];
    }
    forall p, q | 0 <= p < |table| && 0 <= q < |table[p].1|
      ensures es[|tasks| + PeriodicIndex(table, p, q)] == Launched(Periodic(table[p].0, table[p].1[q]))
    {
      PeriodicLaunched(tasks, table, es, p, q);
    }
  }

  /** In events that launch every unit in order, interval task `q` of entry `p` is launched at its index. */
  lemma PeriodicLaunched(tasks: seq<Task>, table: IntervalTable, es: seq<Event>, p: nat, q: nat)
    requires |Units(tasks, table)| <= |es|
    requires forall j :: 0 <= j < |Units(tasks, table)| ==> es[j] == Launched(Units(tasks, table)[j])
    requires p < |table| && q < |table[p].1|
    ensures es[|tasks| + PeriodicIndex(table, p, q)] == Launched(Periodic(table[p].0, table[p].1[q]))
  {
    UnitsAtPeriodic(tasks, table, p, q);
  }

  /** Events followed by anything start with one launch per unit. */
  lemma EventsThenAt(us: seq<Unit>, tail: seq<Event>, j: nat)
    requires j < |us|
    ensures |Events(us) + tail| == |us| + |tail|
    ensures (Events(us) + tail)[j] == Launched(us[j])
  {
  }

  /** When every task fits, every unit is launched and nothing is raised. */
  lemma AllFitLaunches(mode: Mode, tasks: seq<Task>, table: IntervalTable, server: bool)
    requires mode != Inactive
    requires forall j :: 0 <= j < |tasks| ==> Fits(mode, tasks[j])
    requires forall p, q :: 0 <= p < |table| && 0 <= q < |table[p].1| ==> Fits(mode, table[p].1[q])
    ensures StartResult(mode, tasks, table) == Ok
    ensures Launches(mode, tasks, table, server) == Events(Units(tasks, table)) + if server then [ServerStarted] else []
  {
    AllFitNoMismatch(mode, tasks, table);
    var us := Units(tasks, table);
    assert us[..|us|] == us;
  }

  /** When every task fits, no unit is rejected. */
  lemma AllFitNoMismatch(mode: Mode, tasks: seq<Task>, table: IntervalTable)
    requires forall j :: 0 <= j < |tasks| ==> Fits(mode, tasks[j])
    requires forall p, q :: 0 <= p < |table| && 0 <= q < |table[p].1| ==> Fits(mode, table[p].1[q])
    ensures FirstMismatch(mode, Units(tasks, table)) == |Units(tasks, table)|
  {
    var us := Units(tasks, table);
    forall j | 0 <= j < |us| ensures Fits(mode, us[j].task) {
      if j >= |tasks| {
        PeriodicsMember(table, j - |tasks|);
      }
    }
    FirstMismatchAt(mode, us, |us|);
  }

  /** Every interval unit comes from some entry of the table. */
  lemma {:induction false} PeriodicsMember(table: IntervalTable, i: nat)
    requires i < |Periodics(table)|
    ensures exists p, q :: 0 <= p < |table| && 0 <= q < |table[p].1| && Periodics(table)[i] == Periodic(table[p].0, table[p].1[q])
    decreases |table|
  {
    var n := |table|;
    var init := table[..n - 1];
    var head := Periodics(init);
    if i < |head| {
      PeriodicsMember(init, i);
      var p, q :| 0 <= p < |init| && 0 <= q < |init[p].1| && head[i] == Periodic(init[p].0, init[p].1[q]);
      assert table[p] == init[p];
    } else {
      var q := i - |head|;
      assert Periodics(table)[i] == Periodic(table[n - 1].0, table[n - 1].1[q]);
    }
  }

  /**
   * When unit `k` is the first that does not fit an active mode,
   * exactly the units before it have been launched, the HTTP server is not
   * started, and the error raised depends on the mode and on whether the
   * unit is a one-shot task: `InitializingTaskError` only for a one-shot task
   * under "asyncio", `InitializingIntevalTaskError` in every other case.
   */
  lemma MismatchAborts(mode: Mode, tasks: seq<Task>, table: IntervalTable, server: bool, k: nat)
    requires mode != Inactive
    requires k < |Units(tasks, table)|
    requires forall j :: 0 <= j < k ==> Fits(mode, Units(tasks, table)[j].task)
    requires !Fits(mode, Units(tasks, table)[k].task)
    ensures var es := Launches(mode, tasks, table, server);
            && |es| == k
            && (forall j :: 0 <= j < k ==> es[j] == Launched(Units(tasks, table)[j]))
            && ServerStarted !in es
    ensures var r := StartResult(mode, tasks, table);
            && r.Err?
            && (mode == Cooperative && k < |tasks| ==> r.error.InitializingTaskError?)
            && (mode == Threaded || k >= |tasks| ==> r.error.InitializingIntevalTaskError?)
  {
    var us := Units(tasks, table);
    FirstMismatchAt(mode, us, k);
    if k >= |tasks| {
      PeriodicsMember(table, k - |tasks|);
      assert us[k] == Periodics(table)[k - |tasks|];
    }
  }

  /**
   * The HTTP server is started iff the mode is active, no unit was
   * rejected and a server is configured.
   */
  lemma ServerStartedIff(mode: Mode, tasks: seq<Task>, table: IntervalTable, server: bool)
    ensures ServerStarted in Launches(mode, tasks, table, server)
            <==> mode != Inactive && StartResult(mode, tasks, table) == Ok && server
  {
    if mode != Inactive {
      var us := Units(tasks, table);
      var k := FirstMismatch(mode, us);
    }
  }

  /** An unrecognised strategy launches nothing and raises nothing. */
  lemma UnknownStrategyDoesNothing(strategy: string, tasks: seq<Task>, table: IntervalTable, server: bool)
    requires strategy != Asyncio && strategy != Sync
    ensures Launches(ModeOf(strategy), tasks, table, server) == []
    ensures StartResult(ModeOf(strategy), tasks, table) == Ok
  {
  }

  /**
   * The strategy name "async", which the constructor's documentation
   * offers, is not one `_start_tasks` recognises: it launches nothing, not
   * even the HTTP server, and raises nothing.
   */
  lemma DocumentedAsyncDoesNothing(tasks: seq<Task>, table: IntervalTable, server: bool)
    ensures ModeOf("async") == Inactive
    ensures Launches(ModeOf("async"), tasks, table, server) == []
    ensures StartResult(ModeOf("async"), tasks, table) == Ok
  {
    UnknownStrategyDoesNothing("async", tasks, table, server);
  }

  /**
   * With no tasks and no interval tasks, startup succeeds under any
   * strategy, and starts at most the HTTP server.
   */
  lemma EmptyStartup(mode: Mode, server: bool)
    ensures StartResult(mode, [], []) == Ok
    ensures Launches(mode, [], [], server) == if mode != Inactive && server then [ServerStarted] else []
  {
    if mode != Inactive {
      FirstMismatchAt(mode, Units([], []), 0);
    }
  }
}
