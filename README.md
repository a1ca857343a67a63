# waitfor: a verified model of the dependency-readiness handler

Package `waitfor` blocks a program's start-up until the services it depends
on are ready. A `Handler` keeps a map from dependency name to a `Check`, a
function that returns nil once the dependency is reachable. `Wait` runs each
check in a bounded retry loop (`performCheck`): at most `Retries` attempts,
a sleep of `Timeout` after every failed attempt except the last, and a stop
at the first success. It then joins the failures of all dependencies into one
error (`toError`).

This project models that core in one Dafny module, `WaitFor` (`waitfor.dfy`):

- A `Check` is an oracle `nat -> Option<Error>`. `check(i)` is what the check
  returns on its `i`-th invocation within one retry loop, and `None` stands
  for Go's nil.
- `PerformCheck` is the Go loop, with its `break` on success and its early
  `return` on the last failure. Its result is tied to `Outcome`. `Outcome` is
  built on `RetryFrom`, a recursive, one-step-per-iteration definition whose
  contract gives the closed form: which attempts ran, why the loop stopped,
  and which error it reports. The invocations and sleeps are recorded in a
  ghost trace of `Event`s, which `ScheduleShape` characterises.
- `ToError` is the Go accumulation loop. Its text is `Joined(messages)`, in
  which every message is followed by `"\n"`. `LinesJoined` proves that,
  when no message contains a newline, splitting the text at newlines gives
  the messages back.
- `Handler` is a class whose one field, `dependencies`, is the map. The named
  constructor `NewDependencies` and the method `Add` update it in place.
  `Wait` picks `options[0]` or the defaults (10 retries, 10 seconds). It then
  visits the map in an unspecified order (the ghost output `order`). For each
  name it runs `Worker`, the goroutine body, which calls `PerformCheck` and
  sends any error on the channel.
- The lemmas about `Verdicts` and `Collected` state the aggregation
  properties. Each failed dependency contributes exactly one error, its
  timeout error. A dependency that succeeded contributes none. The multiset
  of errors does not depend on `order`. The text is empty exactly when no
  dependency failed.

Where the code differs from what the package's documentation and tests
suggest, the model follows the code:

- `Wait` never returns nil. `toError` ends with `fmt.Errorf(errMsg)`, which is
  a non-nil error even when `errMsg` is empty. So the model's `Wait` returns an
  `Error`, never an `Option`, and it is "ready" exactly when that error's
  text is empty (`WaitTextEmptyIff`). The test at
  `pkg/waitfor/waitfor_test.go:33-34` expects no error in that case. The
  model keeps the code's behaviour, and `SingleDependency` states what that
  test's scenario actually produces.
- A retry count of zero or less is accepted. The loop then never invokes the
  check and reports nil (see `Outcome`).
- The aggregated text ends with a newline after every message, the last one
  included. It is not a newline-separated join.
- `Wait` reads `dependencies` (pkg/waitfor/waitfor.go:75-77) without taking
  the read lock of `checksMutex`. Only `Add` takes the lock
  (pkg/waitfor/waitfor.go:56-57).

## Model

| member | source | states |
|---|---|---|
| `WaitFor.RetryFrom` | pkg/waitfor/waitfor.go:153-164 | From attempt `i` on: no attempt when `Retries <= i`; otherwise between `i+1` and `Retries` attempts, all but the last failed, nil exactly when the last attempt succeeded, an error exactly when every attempt from `i` to `Retries-1` failed, and then the error is the timeout error carrying the final attempt's failure |
| `WaitFor.Outcome` | pkg/waitfor/waitfor.go:152-165 | performCheck invokes the check at most `max(Retries, 0)` times and at least once when `Retries >= 1`; never when `Retries <= 0`, and then it returns nil; nothing runs after a success; error iff `Retries >= 1` and all `Retries` attempts failed, and then the text is `"Timeout waiting for " + name + " because [" + last + "]"` with `last` the final failure (the message `TimeoutError` builds, pkg/waitfor/waitfor.go:159) |
| `WaitFor.PerformCheck` | pkg/waitfor/waitfor.go:152-165 | The Go loop returns exactly `Outcome`'s error, and its trace of invocations and sleeps is `Schedule(attempts, Timeout)` |
| `WaitFor.ScheduleShape` | pkg/waitfor/waitfor.go:153-161 | A run of `n` attempts alternates invocation and sleep, starting and ending with an invocation: `n` invocations, `n - 1` sleeps (none when `n = 0`), each of `Timeout`, and no sleep after the last attempt |
| `WaitFor.AlwaysFailingCheck` | pkg/waitfor/waitfor.go:153-161 | A check that always fails is invoked exactly `Retries` times with `Retries - 1` sleeps and reports its timeout error |
| `WaitFor.AlwaysSucceedingCheck` | pkg/waitfor/waitfor.go:153-157 | A check that always succeeds is invoked once (never when `Retries <= 0`) and reports nil |
| `WaitFor.Joined` | pkg/waitfor/waitfor.go:98-101 | The accumulated text is empty iff there is no message |
| `WaitFor.ToError` | pkg/waitfor/waitfor.go:97-103 | The Go loop's error text is every collected message followed by `"\n"`, in collection order; the result is an error even when there is no message |
| `WaitFor.LinesJoined` | pkg/waitfor/waitfor.go:97-103 | When no message contains a newline, splitting the aggregated text at newlines gives back exactly the collected messages |
| `WaitFor.Verdicts` | pkg/waitfor/waitfor.go:78-89 | There is one performCheck verdict per registered dependency |
| `WaitFor.Collected` | pkg/waitfor/waitfor.go:76-92 | Workers send at most one error each, so the channel never holds more than the number of dependencies |
| `WaitFor.WaitReportsEachFailure` | pkg/waitfor/waitfor.go:76-94 | For any visiting order of the map: the failed names list each dependency whose performCheck returned an error exactly once, and no other; there are at most `len(dependencies)` errors, so sends into the channel of capacity `len + 1` never block; the i-th error is the i-th failed dependency's own error |
| `WaitFor.WaitTextEmptyIff` | pkg/waitfor/waitfor.go:94-103 | The aggregated text is empty iff no dependency's performCheck returned an error |
| `WaitFor.WaitOrderIrrelevant` | pkg/waitfor/waitfor.go:78-92 | Any two visiting orders of the map collect the same multiset of errors |
| `WaitFor.OneFailingOneReady` | pkg/waitfor/waitfor.go:76-94 | With one always-failing and one always-succeeding dependency, whatever the order, exactly one error is collected: the failing one's timeout error |
| `WaitFor.SingleDependency` | pkg/waitfor/waitfor_test.go:18-34 | With one dependency the text is its timeout error plus `"\n"` when it failed, and empty (a non-nil error with empty text) when it succeeded |
| `WaitFor.NoDependencies` | pkg/waitfor/waitfor.go:76-103 | With no dependency registered the aggregated text is empty |
| `WaitFor.Handler.NewDependencies` | pkg/waitfor/waitfor.go:109-114 | A new handler has an empty dependency map |
| `WaitFor.Handler.Add` | pkg/waitfor/waitfor.go:55-59 | After `Add(name, c)`, `dependencies[name] == c`, overwriting any earlier entry, and every other entry is unchanged |
| `WaitFor.Worker` | pkg/waitfor/waitfor.go:80-88 | The goroutine for one dependency sends performCheck's error on the channel when there is one, and sends nothing when performCheck returned nil (the channel's new contents are the old ones followed by `Sent` of that error, pkg/waitfor/waitfor.go:81-82) |
| `WaitFor.Handler.Wait` | pkg/waitfor/waitfor.go:64-95 | Uses `options[0]` when at least one option is given, else `{Retries: 10, Timeout: 10s}`; visits every registered name exactly once; the result is always an error, never nil, whose text is `Joined` of the errors collected in that order, and that text is empty iff every registered dependency's performCheck returned nil |

## Left out

- `ServiceListening` and `DatabaseReady` (pkg/waitfor/waitfor.go:119-148) are left out. They wrap TCP dialling and database drivers, which is network I/O. Checks are only abstract oracles here.
- A check's outcome is modelled as a function of the attempt number within one retry loop. Each `PerformCheck` starts again at attempt 0. A real check depends on the outside world and on the time of the call.
- Goroutines, `sync.WaitGroup`, the buffered channel and `sync.RWMutex` are left out. `Wait` runs the workers one after another. The channel is the sequence `sent`, and the capacity `len(dependencies) + 1` appears only as an assertion before each send. Concurrent `Add` calls during a `Wait` are not modelled.
- The order of the aggregated messages is not fixed. In Go it depends on map iteration and on the order in which workers finish. The model fixes one visiting order, the ghost output `order`, and `WaitOrderIrrelevant` shows that the multiset of errors is the same for every order.
- `time.Sleep` is not modelled as wall-clock time. Each sleep is a `Sleep(Timeout)` event in a ghost trace, and `Timeout` is kept as an integer number of nanoseconds.
- A nil `Check` is not modelled. Go lets `Add(name, nil)` register one, and the next `Wait` then calls a nil func inside the goroutine (pkg/waitfor/waitfor.go:81, 155) and panics. The model's `Check` is a total function, so every registered check returns a value.
- Logging through `log.Printf` and `logrus.Debugf` is informational only and is left out.
- `fmt.Errorf(errMsg)` uses the accumulated text as a format string, so a `%` in a name or an underlying error would be reinterpreted by Go. The model takes the text unchanged.
- `Options.Retries` is a Go `int`. The loop counter stays below it, so no wrap-around can occur, and the model uses unbounded integers.
