/**
 * The orchestration state of `anthill.app.App`: the bus configuration built
 * by `__init__`, the overlay and filtering of topic subscriptions and the
 * task merge done by `_start`, and the checked, ordered launch of tasks done
 * by `_start_tasks`. Launching a unit and starting the HTTP server are
 * recorded as events appended to `launched`.
 */
module Anthill {
  import opened Common
  import opened ClientIdentity
  import opened Subscriptions
  import opened Scheduling

  /** `App.nats_config`, the keyword arguments later given to the bus client. */
  datatype NatsConfig = NatsConfig(
    host: string,
    port: int,
    clientId: string,
    listenTopicsCallbacks: Option<map<Topic, Handler>>,
    publishTopics: seq<Topic>,
    allowReconnect: bool,
    queue: string,
    maxReconnectAttempts: int,
    reconnectingTimeWait: int,
    clientStrategy: string,
    numOfQueues: Option<int>)

  /**
   * The dict `__init__` builds: no topic map yet, and a `num_of_queues`
   * entry only under the "sync" strategy.
   */
  function InitialConfig(host: string, port: int, clientId: string, publishTopics: seq<Topic>,
                         reconnect: bool, queue: string, maxReconnectAttempts: int,
                         reconnectingTimeSleep: int, appStrategy: string, numOfQueues: int): (c: NatsConfig)
    ensures c.clientId == clientId && c.clientStrategy == appStrategy
    ensures c.listenTopicsCallbacks == None
    ensures c.numOfQueues.Some? <==> appStrategy == Sync
    ensures c.numOfQueues.Some? ==> c.numOfQueues.value == numOfQueues
  {
    NatsConfig(host, port, clientId, None, publishTopics, reconnect, queue,
               maxReconnectAttempts, reconnectingTimeSleep, appStrategy,
               if appStrategy == Sync then Some(numOfQueues) else None)
  }

  /** `self.tasks + self.TASKS`: the caller's tasks, then the registered ones. */
  function MergeTasks(supplied: seq<Task>, registered: seq<Task>): (r: seq<Task>)
    ensures |r| == |supplied| + |registered|
    ensures r[..|supplied|] == supplied && r[|supplied|..] == registered
  {
    supplied + registered
  }

  /**
   * The registries the decorators of the manager base classes fill in:
   * `SUBSCRIPTIONS`, `TASKS` and `INTERVAL_TASKS`. They are shared state:
   * `_start` updates `SUBSCRIPTIONS` in place.
   */
  class Registry {
    var subscriptions: map<Topic, Handler>
    var tasks: seq<Task>
    var intervalTasks: IntervalTable

    constructor (subscriptions: map<Topic, Handler>, tasks: seq<Task>, intervalTasks: IntervalTable)
      ensures this.subscriptions == subscriptions
      ensures this.tasks == tasks && this.intervalTasks == intervalTasks
    {
      this.subscriptions := subscriptions;
      this.tasks := tasks;
      this.intervalTasks := intervalTasks;
    }
  }

  class App {
    const registry: Registry
    const appStrategy: string
    const listenTopicOnlyIfInclude: Option<seq<string>>
    const subscribeTopicsAndCallbacks: map<Topic, Handler>
    /** Whether an HTTP server was configured (`web_server`). */
    const httpServer: bool
    var natsConfig: NatsConfig
    var tasks: seq<Task>
    var intervalTasks: IntervalTable
    /** The startup effects so far, oldest first. */
    var launched: seq<Event>

    /**
     * `App.__init__`, configuration part: resolve the client id and build
     * the bus configuration; remember the tasks, strategy, include list and
     * caller topics for `_start`.
     */
    constructor (registry: Registry, host: string, port: int, serviceName: string, clientId: Option<string>,
                 tasks: seq<Task>, reconnect: bool, maxReconnectAttempts: int, reconnectingTimeSleep: int,
                 appStrategy: string, numOfQueues: int, subscribeTopicsAndCallbacks: map<Topic, Handler>,
                 publishTopics: seq<Topic>, allocationQueueGroup: string,
                 listenTopicOnlyIfInclude: Option<seq<string>>, webServer: bool, env: HostEnv)
      ensures this.registry == registry
      ensures natsConfig == InitialConfig(host, port, ResolveClientId(serviceName, clientId, env), publishTopics,
                                          reconnect, allocationQueueGroup, maxReconnectAttempts,
                                          reconnectingTimeSleep, appStrategy, numOfQueues)
      ensures this.tasks == tasks && this.intervalTasks == []
      ensures this.appStrategy == appStrategy && this.listenTopicOnlyIfInclude == listenTopicOnlyIfInclude
      ensures this.subscribeTopicsAndCallbacks == subscribeTopicsAndCallbacks
      ensures httpServer == webServer && launched == []
    {
      var id := ResolveClientId(serviceName, clientId, env);
      this.registry := registry;
      natsConfig := InitialConfig(host, port, id, publishTopics, reconnect, allocationQueueGroup,
                                  maxReconnectAttempts, reconnectingTimeSleep, appStrategy, numOfQueues);
      this.tasks := tasks;
      this.appStrategy := appStrategy;
      this.listenTopicOnlyIfInclude := listenTopicOnlyIfInclude;
      this.subscribeTopicsAndCallbacks := subscribeTopicsAndCallbacks;
      httpServer := webServer;
      intervalTasks := [];
      launched := [];
    }

    /**
     * `App._start`: overlay the caller's topics on `SUBSCRIPTIONS`, delete
     * the topics that contain no include keyword, give the result to the bus
     * configuration, append the registered tasks to the caller's, take the
     * registered interval tasks, and start them all.
     */
    method Start() returns (r: Outcome)
      modifies this, registry
      ensures registry.subscriptions
              == BuildSubscriptions(old(registry.subscriptions), subscribeTopicsAndCallbacks, listenTopicOnlyIfInclude)
      ensures registry.tasks == old(registry.tasks) && registry.intervalTasks == old(registry.intervalTasks)
      ensures natsConfig == old(natsConfig).(listenTopicsCallbacks := Some(registry.subscriptions))
      ensures tasks == MergeTasks(old(tasks), registry.tasks)
      ensures intervalTasks == registry.intervalTasks
      ensures launched == old(launched) + Launches(ModeOf(appStrategy), tasks, intervalTasks, httpServer)
      ensures r == StartResult(ModeOf(appStrategy), tasks, intervalTasks)
    {
      var topics := registry.subscriptions;
      topics := Merged(topics, subscribeTopicsAndCallbacks);
      if listenTopicOnlyIfInclude.Some? {
        topics := FilterIncluded(topics, listenTopicOnlyIfInclude.value);
      }
      registry.subscriptions := topics;
      natsConfig := natsConfig.(listenTopicsCallbacks := Some(topics));
      tasks := MergeTasks(tasks, registry.tasks);
      intervalTasks := registry.intervalTasks;
      r := StartTasks();
    }

    /**
     * The include filter of `_start`: visit every topic of the map and delete
     * it when none of the keywords is a substring of its name.
     */
    method FilterIncluded(m: map<Topic, Handler>, keywords: seq<string>) returns (topics: map<Topic, Handler>)
      ensures topics == Filtered(m, keywords)
    {
      topics := m;
      var pending := m.Keys;
      while pending != {}
        invariant pending <= m.Keys
        invariant topics == map t | t in m && (t in pending || AnyIncluded(keywords, t)) :: m[t]
        decreases pending
      {
        var topic :| topic in pending;
        var success := Includes(keywords, topic);
        if !success {
          topics := topics - {topic};
        }
        pending := pending - {topic};
      }
    }

    /**
     * The inner loop of the include filter: try the keywords in order and
     * stop at the first that is a substring of the topic.
     */
    method Includes(keywords: seq<string>, topic: Topic) returns (success: bool)
      ensures success == AnyIncluded(keywords, topic)
    {
      success := false;
      var j := 0;
      while j < |keywords|
        invariant 0 <= j <= |keywords|
        invariant forall k :: 0 <= k < j ==> !IsSubstring(keywords[k], topic)
      {
        if IsSubstring(keywords[j], topic) {
          success := true;
          return;
        }
        j := j + 1;
      }
    }

    /**
     * `App._start_tasks`: under "asyncio" or "sync", check and launch every
     * one-shot task in order, then every interval task entry by entry; the
     * first task of the wrong kind raises, after the earlier ones have been
     * launched. When all are launched, start the HTTP server if there is one.
     * Any other strategy does nothing.
     */
    method StartTasks() returns (r: Outcome)
      modifies this`launched
      ensures launched == old(launched) + Launches(ModeOf(appStrategy), tasks, intervalTasks, httpServer)
      ensures r == StartResult(ModeOf(appStrategy), tasks, intervalTasks)
    {
      var mode := ModeOf(appStrategy);
      if mode != Inactive {
        r := LaunchAll(mode, tasks, intervalTasks, httpServer);
      } else {
        r := Ok;
      }
    }

    /**
     * The body of `_start_tasks` under "asyncio" or "sync": the one-shot
     * loop, the nested interval loops, then the HTTP server.
     */
    method LaunchAll(mode: Mode, oneShot: seq<Task>, table: IntervalTable, server: bool) returns (r: Outcome)
      requires mode != Inactive
      modifies this`launched
      ensures launched == old(launched) + Launches(mode, oneShot, table, server)
      ensures r == StartResult(mode, oneShot, table)
    {
      ghost var us := Units(oneShot, table);
      UnitsSplit(oneShot, table);
      var k := LaunchEach(mode, OneShots(oneShot), us, 0, old(launched));
      if k < |oneShot| {
        StoppedAt(mode, oneShot, table, server, k);
        r := Err(ErrorFor(mode, OneShot(oneShot[k])));
        return;
      }
      var stop, done := LaunchTable(mode, table, us, |oneShot|, old(launched));
      StoppedAt(mode, oneShot, table, server, done);
      if stop.Some? {
        r := Err(ErrorFor(mode, stop.value));
        return;
      }
      if server {
        launched := launched + [ServerStarted];
      }
      r := Ok;
    }

    /**
     * The nested `for` loops of `_start_tasks` over the interval table: launch
     * each entry's tasks in order, entry by entry, and stop at the first that
     * does not fit the strategy, returning it. The table's units sit at
     * position `base` of the whole launch order `us`, and `done` is the
     * position reached.
     */
    method LaunchTable(mode: Mode, table: IntervalTable, ghost us: seq<Unit>, ghost base: nat,
                       ghost origin: seq<Event>) returns (stop: Option<Unit>, ghost done: nat)
      requires base + |Periodics(table)| == |us| && us[base..] == Periodics(table)
      requires FitsUpTo(mode, us, base)
      requires launched == origin + Events(us[..base])
      modifies this`launched
      ensures FitsUpTo(mode, us, done)
      ensures launched == origin + Events(us[..done])
      ensures stop.None? ==> done == |us|
      ensures stop.Some? ==> done < |us| && us[done] == stop.value && !Fits(mode, stop.value.task)
    {
      done := base;
      var p := 0;
      while p < |table|
        invariant 0 <= p <= |table|
        invariant done == base + |Periodics(table[..p])| <= |us|
        invariant FitsUpTo(mode, us, done)
        invariant launched == origin + Events(us[..done])
      {
        var interval, group := table[p].0, table[p].1;
        TableGroupAt(us, base, table, p);
        var k := LaunchEach(mode, PeriodicGroup(interval, group), us, done, origin);
        if k < |group| {
          stop, done := Some(Periodic(interval, group[k])), done + k;
          return;
        }
        done := done + |group|;
        p := p + 1;
      }
      assert table[..|table|] == table;
      stop := None;
    }

    /**
     * One of the `for` loops of `_start_tasks`: launch `units` in order and
     * stop at the first that does not fit the strategy, returning its index
     * (or the length when all were launched). `units` sits at position
     * `base` of the whole launch order `us`.
     */
    method LaunchEach(mode: Mode, units: seq<Unit>, ghost us: seq<Unit>, ghost base: nat,
                      ghost origin: seq<Event>) returns (k: nat)
      requires base + |units| <= |us| && us[base..base + |units|] == units
      requires FitsUpTo(mode, us, base)
      requires launched == origin + Events(us[..base])
      modifies this`launched
      ensures k <= |units|
      ensures FitsUpTo(mode, us, base + k)
      ensures k < |units| ==> !Fits(mode, units[k].task)
      ensures launched == origin + Events(us[..base + k])
    {
      k := 0;
      while k < |units|
        invariant k <= |units|
        invariant FitsUpTo(mode, us, base + k)
        invariant launched == origin + Events(us[..base + k])
      {
        assert us[base + k] == units[k];
        if !Fits(mode, units[k].task) {
          return;
        }
        EventsSnoc(us, base + k);
        launched := launched + [Launched(units[k])];
        k := k + 1;
      }
    }
  }
}
