# anthill orchestration core in Dafny

This project models the startup orchestration of `anthill.app.App`, a
microservice runtime that connects a message-bus client, topic handlers,
background tasks and an optional HTTP server. The model covers four parts:

- **Bus configuration** (`App.__init__`). The client id is the explicit one
  or is derived from the service name, the host part and a random number.
  The host part is `HOSTNAME` when it is set, and otherwise a marker
  followed by another random number, drawn before the final one.
  The `nats_config` record is built with a `num_of_queues` entry only under
  the "sync" strategy.
- **Subscriptions** (`App._start`). The caller's `subscribe_topics_and_callbacks`
  is overlaid on the registered `SUBSCRIPTIONS`, and the caller's topics win
  on a collision. When `listen_topic_only_if_include` is given, every topic
  that contains none of its keywords as a substring is deleted. The result
  becomes `listen_topics_callbacks`.
- **Task merge** (`App._start`). The caller's tasks come first, then the
  registered `TASKS`. The interval tasks are the registered `INTERVAL_TASKS`.
- **Launch** (`App._start_tasks`). Under "asyncio" every task must be a
  coroutine function; under "sync" none may be. One-shot tasks are checked
  and launched in order, then interval tasks entry by entry. The first task
  of the wrong kind raises, after the earlier ones were launched. When all
  are launched, the HTTP server is started if one is configured. Any other
  strategy string does nothing.

Modules, one per file:

- `Common` (common.dfy): `Option`, topics, handlers, tasks.
- `Decimal` (decimal.dfy): Python's `str` on a non-negative `int`, and its
  inverse.
- `ClientIdentity` (client_id.dfy): client-id derivation.
- `Subscriptions` (subscriptions.dfy): Python's `in` on strings, the overlay
  and the include filter.
- `Scheduling` (scheduling.dfy): a reference definition of what
  `_start_tasks` launches and raises, and its properties.
- `Anthill` (app.dfy): the classes. `Registry` holds the decorator-filled
  `SUBSCRIPTIONS`, `TASKS` and `INTERVAL_TASKS`. `_start` updates only
  `SUBSCRIPTIONS` in place; it only reads the other two. `App` holds
  `nats_config`, `tasks`, `interval_tasks` and a log `launched` of startup
  effects; its methods are proved against the
  `Scheduling` and `Subscriptions` definitions.

Outside inputs are made parameters:

- The `HOSTNAME` variable and the `random.randint(1, 1000000)` results are
  a `HostEnv` value. The conditional expression for the host part calls
  `randint` only when `HOSTNAME` is unset; that result is `hostDraw`.
  `finalDraw` is the result of the call for the final part. When `HOSTNAME`
  is set, that call is the only one and `hostDraw` is unused.
- `asyncio.iscoroutinefunction(task)` is the `isCoroutine` flag of a `Task`.
- Scheduling a coroutine or starting a thread is a `Launched` event;
  `http_server.start_server()` is a `ServerStarted` event.

Three behaviours of the code, modelled as written:

- Merged one-shot tasks put the caller's tasks BEFORE the registered ones
  (anthill/app.py:171).
- A task of the wrong kind raises only after the tasks before it have been
  launched, so a partial launch is observable. `App.LaunchAll` and
  `Scheduling.MismatchAborts` state this.
- Under "sync" a coroutine one-shot task raises `InitializingIntevalTaskError`,
  not `InitializingTaskError` (anthill/app.py:196). It is modelled as written
  and stated by `Scheduling.MismatchAborts`.

Two discrepancies between the source's own texts, not modelled as defects:

- The constructor's documentation offers `'async'` or `'sync'` as the
  strategy (anthill/app.py:50), but `_start_tasks` tests for `'asyncio'`
  (anthill/app.py:176). `Scheduling.DocumentedAsyncDoesNothing` states the
  consequence: under the documented name nothing is launched, not even the
  HTTP server, and nothing is raised. The model follows the code.
- The include-filter test passes `logger_in_separate_process` and
  `logger_files_path` (tests/test_parameter_listen_topic_only_if_include.py:15-16).
  `App.__init__` declares neither (anthill/app.py:18-40). `Subscriptions.IncludeFooBar`
  states only the filter scenario of that test.

## Model

| member | source | states |
|---|---|---|
| Decimal.NatToString | anthill/app.py:210-211 | `str(n)` is a non-empty digit string that starts with '0' iff n is 0 |
| Decimal.ParseNatToString | anthill/app.py:210-211 | reading back the decimal text of a number gives the number |
| Decimal.NatToStringParse | anthill/app.py:210-211 | every digit string without a leading zero is the `str` of the number it denotes, so the notation is a bijection |
| Decimal.TrailingDigits | anthill/app.py:208-211 | the result is the longest all-digit suffix of the string |
| Decimal.TrailingDigitsAfter | anthill/app.py:208-211 | digits written after a non-digit are exactly the trailing digits |
| ClientIdentity.JoinAppend | anthill/app.py:208 | `sep.join` of two non-empty part lists put end to end is the join of each with one separator between them |
| ClientIdentity.HostToken | anthill/app.py:210 | `HOSTNAME` when set; otherwise "non_docker_env_" followed by digits without a leading zero that read back as the host-part draw, so by `Decimal.NatToStringParse` they are exactly `str` of that draw |
| ClientIdentity.CreateClientCodeByHostname | anthill/app.py:207-212 | the id is the name, "__", the host part, "__", then the final draw in decimal |
| ClientIdentity.DerivedIdStartsWithName | anthill/app.py:207-212 | a derived id starts with the service name and "__" |
| ClientIdentity.DerivedIdEndsWithDraw | anthill/app.py:207-212 | whatever the name and host are, the final random draw is read back from the digits after the last separator |
| ClientIdentity.ResolveClientId | anthill/app.py:72-75 | an explicit client id is kept unchanged; without one the derived id is used, which is longer than the service name plus two separators |
| Subscriptions.IsSubstringIff | anthill/app.py:156 | Python's `keyword in topic` holds iff the keyword occurs in the topic at some index (both directions) |
| Subscriptions.Merged | anthill/app.py:150-151 | `dict.update`: the keys are the union; the caller's handler wins on a collision, and a registered one is kept otherwise |
| Subscriptions.Filtered | anthill/app.py:152-160 | the filter only deletes topics and keeps each remaining handler; an empty keyword list deletes every topic |
| Subscriptions.FilteredIff | anthill/app.py:152-160 | a topic survives the filter iff it was in the map and some keyword occurs in it |
| Subscriptions.FilteredAt | anthill/app.py:152-160 | a topic of the map is kept, with its handler, iff a keyword is a substring of it |
| Subscriptions.BuildWithoutInclude | anthill/app.py:150-152 | without an include list, the subscribed topics are exactly the registered and supplied ones |
| Subscriptions.BuildWithInclude | anthill/app.py:150-160 | with an include list, a topic is subscribed iff it was registered or supplied and contains a keyword; its handler is the caller's if supplied, the registered one otherwise |
| Subscriptions.EmptyIncludeRemovesAll | anthill/app.py:152-160 | an empty include list leaves no subscription |
| Subscriptions.IncludeFooBar | tests/test_parameter_listen_topic_only_if_include.py:8-45 | handlers for "start", "foo" and "bar" with include ["foo", "bar"] leave exactly "foo" and "bar", each with its own handler |
| Scheduling.ModeOf | anthill/app.py:176-192 | the strategy selects cooperative scheduling iff it is "asyncio", threads iff it is "sync", and nothing otherwise |
| Scheduling.ErrorFor | anthill/app.py:179-203 | the error raised for a rejected unit is `InitializingTaskError` iff the strategy is "asyncio" and the unit is a one-shot task, and `InitializingIntevalTaskError` otherwise |
| Scheduling.UnitsSplit | anthill/app.py:179-184 | all one-shot tasks are visited before all interval tasks |
| Scheduling.FirstMismatch | anthill/app.py:179-203 | the unit where the launch loops stop: every unit before it fits the strategy, and it does not (or it is the end) |
| Scheduling.FirstMismatchAt | anthill/app.py:179-203 | any stopping point with that property is the one the loops reach |
| Scheduling.StoppedAt | anthill/app.py:179-205 | once the loops stop at a unit, the events are the launches before it, then the server start only if no unit was rejected; the outcome is success, or the error for that unit |
| Scheduling.PeriodicsAt | anthill/app.py:183-188 | interval task q of entry p is visited right after every task of the earlier entries |
| Scheduling.PeriodicIndex | anthill/app.py:183-188 | the position of interval task q of entry p among the interval units holds exactly that task under that interval |
| Scheduling.PeriodicIndexOrder | anthill/app.py:183-188 | interval tasks are visited entry by entry, in the dict's order, and within an entry in list order |
| Scheduling.UnitsAtPeriodic | anthill/app.py:179-188 | interval task q of entry p stands after all one-shot tasks and the earlier entries' tasks |
| Scheduling.PeriodicsGroup | anthill/app.py:183-188 | the tasks of one entry are visited together, after those of the earlier entries |
| Scheduling.PeriodicsMember | anthill/app.py:183-188 | every interval unit visited comes from some entry of the table |
| Scheduling.AllFitLaunches | anthill/app.py:175-205 | when every task fits, every unit is launched, the server start follows if configured, and nothing is raised |
| Scheduling.AllFitLaunchesInOrder | anthill/app.py:175-205 | when every task fits an active strategy, each one-shot task is launched at its own position, then each interval task at its position, the server is started last if configured, and nothing is raised |
| Scheduling.AllFitNoMismatch | anthill/app.py:179-203 | when every one-shot and interval task fits, no unit is rejected |
| Scheduling.MismatchAborts | anthill/app.py:179-203 | at the first misfit, exactly the earlier units were launched, the server is not started, and an error is raised; it is `InitializingTaskError` only for a one-shot task under "asyncio", and `InitializingIntevalTaskError` in every other case |
| Scheduling.ServerStartedIff | anthill/app.py:189-205 | the HTTP server is started iff the strategy is active, nothing was rejected and a server is configured (both directions) |
| Scheduling.UnknownStrategyDoesNothing | anthill/app.py:175-205 | a strategy string other than "asyncio" or "sync" launches nothing and raises nothing |
| Scheduling.DocumentedAsyncDoesNothing | anthill/app.py:176-192 | the documented strategy name "async" matches neither test, so it launches nothing, not even the HTTP server, and raises nothing |
| Scheduling.EmptyStartup | anthill/app.py:175-205 | with no tasks, startup succeeds under any strategy and at most the HTTP server is started |
| Anthill.InitialConfig | anthill/app.py:77-90 | the config has the resolved client id and the strategy, no topic map yet, and `num_of_queues` iff the strategy is "sync" |
| Anthill.MergeTasks | anthill/app.py:171 | the merged tasks are the caller's, in order, followed by the registered ones, in order |
| Anthill.App.constructor | anthill/app.py:71-94 | the config is built from the resolved client id; the tasks, strategy, include list and caller topics are recorded; nothing is launched yet |
| Anthill.App.Start | anthill/app.py:148-173 | `SUBSCRIPTIONS` becomes the overlaid and filtered map, and the config's topic map is that same map; the tasks become the caller's then the registered ones; the interval tasks become the registered ones; the launches and outcome are those of `_start_tasks` on the result |
| Anthill.App.FilterIncluded | anthill/app.py:152-160 | the loop over a copy of the keys deletes exactly the topics without a keyword, giving `Filtered` |
| Anthill.App.Includes | anthill/app.py:154-158 | the keyword loop with its early `break` answers whether some keyword is a substring of the topic |
| Anthill.App.StartTasks | anthill/app.py:175-205 | the effects appended and the outcome are those of the reference definition for the app's strategy and task lists |
| Anthill.App.LaunchAll | anthill/app.py:179-205 | the one-shot loop, the interval loops and the server start append exactly the reference events and return the reference outcome |
| Anthill.App.LaunchTable | anthill/app.py:183-203 | the nested interval loops launch units up to the first misfit, return that misfit or reach the end, and every unit launched fits |
| Anthill.App.LaunchEach | anthill/app.py:179-203 | one checking loop launches the units in order up to the first that does not fit, and returns its index |

## Left out

- Connecting the bus client (`NATSClient.__init__`, anthill/app.py:167-169) is a call into code outside this model. The model records only the configuration handed to it.
- The event loop, `asyncio.all_tasks`, `asyncio.gather` and `run_until_complete` (anthill/app.py:177-178, 191) are left out. Running and waiting for the tasks is concurrency, not startup order.
- Thread start (`start_thread`) and the `time.sleep(1)` before the "sync" launch (anthill/app.py:193) are left out; a thread start is a `Launched` event.
- `asyncio.iscoroutinefunction` is replaced by the `isCoroutine` flag carried by each task.
- Logger set-up, `set_logger` and `change_log_config` (anthill/app.py:96-106, 122-140) are I/O and are left out.
- Building the HTTP server (anthill/app.py:107-114) is left out. Only whether a server is configured is kept, as `httpServer`.
- Writing `CLIENT_ID` to the environment and setting the `_app` global (anthill/app.py:76, 115-116) are process-wide side effects and are left out.
- `App.start` (anthill/app.py:142-146) is left out. Both of its branches first run `self._start()` synchronously, which `App.Start` models. The else branch then also calls `start_thread` on `_start`'s return value, `None`; that extra call is not modelled.
- Re-wrapping `InitializingEventManagerError` (anthill/app.py:117-119, 161-163) is left out. No modelled operation raises it.
- The manager base classes and their decorators, which fill `SUBSCRIPTIONS`, `TASKS` and `INTERVAL_TASKS`, are not part of this model. `Registry` receives those registries as values.
- Default argument values are left out, including the service name drawn from `uuid.uuid4()` (anthill/app.py:21); every argument is explicit.
- Handler identity is a number. Beyond `SUBSCRIPTIONS` being updated in place, the aliasing of `self.interval_tasks` with `INTERVAL_TASKS` and of the topic map with later mutations is not modelled; the config holds a copy of the map.
- Interval keys are modelled as integers, and the table as a sequence in the dict's insertion order. The model does not require the keys to be distinct, so it covers more tables than a dict can hold.
- The filter loop visits topics in an arbitrary order, not in the dict's order. Its result does not depend on the order.
- Several reference definitions have no contracts of their own; the lemmas in the table state their properties:
  - `Scheduling.Launches` and `Scheduling.StartResult`, what `_start_tasks` launches and whether it raises (anthill/app.py:175-205), by `StoppedAt`, `AllFitLaunches`, `AllFitLaunchesInOrder`, `MismatchAborts`, `ServerStartedIff`, `UnknownStrategyDoesNothing` and `EmptyStartup`;
  - `Scheduling.Events` and `Scheduling.Periodics`, the launch events and the interval units in order, by `StoppedAt`, `PeriodicsAt`, `PeriodicsGroup` and `PeriodicsMember`;
  - `Subscriptions.BuildSubscriptions`, the map handed to the bus (anthill/app.py:150-160), by `BuildWithoutInclude`, `BuildWithInclude` and `EmptyIncludeRemovesAll`;
  - `Subscriptions.IsSubstring`, Python's `in` on strings (anthill/app.py:156), by `IsSubstringIff`;
  - `ClientIdentity.Join`, `sep.join` (anthill/app.py:208), by `JoinAppend` and the contract of `CreateClientCodeByHostname`;
  - `Scheduling.Fits`, the `asyncio.iscoroutinefunction` accept test (anthill/app.py:180, 185, 195, 200), by `AllFitLaunches`, `AllFitLaunchesInOrder` and `MismatchAborts`;
  - `Scheduling.Units`, the order in which the loops visit the tasks (anthill/app.py:179-184, 194-199), by `UnitsSplit`, `UnitsAtPeriodic` and `PeriodicIndexOrder`;
  - `Subscriptions.AnyIncluded`, the answer of the inner keyword loop (anthill/app.py:154-158), by `FilteredIff`, `FilteredAt` and the contract of `App.Includes`.
