# Key-value web service: a Dafny model

This project models the core of a small Go HTTP service. The service keeps
an in-memory key-value store and serves it through two handlers. `/set`
decodes `{key, value}` and writes the entry. `/get` decodes `{key}` and
answers with the value, or with 404 `Key not found`. At startup the service
resolves its configuration through a type-erased fallback,
`useEnvOrDefaultIfNotSet`.

Modules:

- `Http` (`http.dfy`): the status codes used and the `Response` datatype
  (`Text`, `BadRequest`, `NotFound`, `OkValue`). It also holds the decimal
  text that `fmt.Fprintln` writes for the integer `StatusAccepted`, with its
  parsing partner.
- `KeyValueStore` (`store.dfy`): the store as `map<string, string>`, and
  `Put`/`Lookup`. The two handlers are pure steps `(store, decode result) ->
  (store', response)`. JSON decoding is an input, `Decoded(req) |
  DecodeError(msg)`.
- `Trace` (`trace.dfy`): the mutex makes each handler body one atomic step,
  so a run of the server is a fold of `Handle` over a sequence of requests.
  `LastWrite` describes the resulting store independently. The round-trip,
  overwrite, absence and frame laws are proved over such runs.
- `Config` (`config.dfy`): Go `interface{}` values appear as a tagged
  `Dynamic`, and a call returns a value or panics (`Outcome`). The module
  holds the fallback, the type assertions `main` applies to its result, and
  the `ServerConfig` built from the three environment variables.

A successful set writes the decimal text of `http.StatusAccepted` followed
by a newline, `"202\n"`. The handler makes no `WriteHeader` call, so the
status is 200; service_test.go:284 expects `StatusOK`.

`main` passes `os.Getenv(...)`, which is always a string, to the fallback,
and asserts the result to `time.Duration` or `bool`. A non-empty
`SHUTDOWN_TIMEOUT` or `ENABLE_LOGGING_MIDDLEWARE` therefore makes startup
panic with a failed interface conversion (`Config.ResolveSettingSucceedsIff`,
`Config.StartupConfig`). Only `SERVER_ADDRESS` can take effect through the
environment.

## Model

| member | source | states |
|---|---|---|
| Http.Status | service.go:177 | a response is 200 exactly for a found value or a plain 200 text; 400 exactly for a decode error |
| Http.FormatDecimal | service.go:186 | the printed number is non-empty, digits only, with a leading zero only for zero |
| Http.ParseFormatDecimal | service.go:186 | reading back the decimal text of a number gives the number |
| Http.AcceptedAck | service_test.go:283-288 | the set acknowledgement is `"202\n"`, whose digits read back as StatusAccepted |
| KeyValueStore.DecodeErrorReported | service.go:175-178 | a body that fails to decode is answered 400 by either handler, and the response body contains the decoder's error text (what service_test.go:273 checks) |
| KeyValueStore.Put | service.go:184 | after a write the key holds the new value, the key set grows by that key only, and every other key looks up as before |
| KeyValueStore.SetHandler | service.go:171-187 | a decode error leaves the store unchanged and answers 400 with the decoder's text verbatim; a decoded request makes the key hold the value, changes no other key, and answers status 200 with body `"202\n"` |
| KeyValueStore.GetHandler | service.go:190-211 | the store is unchanged on every path; a decode error answers 400 with its text; an absent key answers 404 `Key not found`; a value is returned exactly when the key is present, and it is the stored one |
| KeyValueStore.Handle | service.go:103-108 | a request that is not a decoded set leaves the store as it was; no key other than the one written changes |
| KeyValueStore.SetOverwrite | service.go:184 | two writes of one key leave the same store and response as the second write alone (last writer wins) |
| KeyValueStore.SetIdempotent | service.go:184 | writing the same entry twice equals writing it once |
| KeyValueStore.SetDistinctKeysCommute | service.go:184 | writes to different keys give the same store in either order |
| KeyValueStore.SetThenGet | service.go:181-210 | a get right after a set of the same key returns the value written |
| Trace.Run | service.go:181-182 | a run of atomic steps gives exactly one response per request |
| Trace.RunStoreIsLastWrite | service.go:184 | after any run each key holds the value of its last successful set, or its initial value if it was never written |
| Trace.RunResponse | service.go:200-201 | the i-th response is the i-th request's answer to the store left by the requests before it |
| Trace.GetSeesVisible | service.go:203-210 | a get inside a run returns the last value written to its key, or the initial value, or 404 |
| Trace.SetGetRoundTrip | service.go:184-210 | a get of k returns v when the last successful set of k before it wrote v |
| Trace.GetNeverWritten | service.go:203-206 | a get of a key that was never in the store and never written answers 404 `Key not found` |
| Trace.ReadOnlyRunKeepsStore | service.go:175-178 | gets and sets whose body failed to decode leave the store exactly as it was, however many run |
| Trace.DistinctWritesAllVisible | service.go:181-184 | after sets to distinct keys, in any order, every key holds its own value |
| Config.UseEnvOrDefaultIfNotSet | service.go:79-96 | nil or empty string gives the default; zero duration gives the default asserted to a duration; a non-empty string or non-zero duration is returned unchanged; any other type panics with `unexpected type <T>`; a returned value is always the input or the default |
| Config.FallbackMatchesTyped | service.go:79-96 | on strings and durations the fallback never panics and agrees with the typed fallback (`StringOrDefault`, `DurationOrDefault`: the value unless empty or zero); it gives the default exactly when the value is unset |
| Config.ResolveSetting | service.go:56-59 | a resolved setting always has the setting's Go type |
| Config.ResolveSettingSucceedsIff | service.go:56-59 | resolution succeeds exactly when the variable is empty or the setting is the address; then it yields the default or the text, and otherwise it panics because a string is not a duration or a bool |
| Config.StartupConfig | service.go:55-70 | reading `SERVER_ADDRESS`, `SHUTDOWN_TIMEOUT` and `ENABLE_LOGGING_MIDDLEWARE` from the environment (unset reads as empty), startup yields a configuration exactly when the timeout and logging variables are empty; the configuration is the address (or `localhost:8080`), 10s, logging off and the given version; otherwise it panics on the first non-empty variable |
| Config.FallbackTestCases | service_test.go:168-209 | a set duration is kept, an empty variable gives the default, and a slice panics with `unexpected type []int` |

## Left out

- The `sync.Mutex`: each handler body is taken as one atomic step. Concurrency is modelled only as the order in which those steps happen (`Trace.Run`).
- JSON decoding and encoding (`encoding/json`): decoding is the `DecodeResult` input, and a found value is the `OkValue` response, not its JSON text. A body missing `key` or `value` decodes to empty strings in Go; the model covers that as an ordinary `Decoded` request.
- Response headers (`Content-Type`, and the headers `http.Error` adds): these are library plumbing and no behaviour depends on them.
- `server()` (service.go:98-154): route wiring, the listener goroutine, server timeouts, signal handling and graceful shutdown are I/O and concurrency.
- Flag parsing in `main`: the `flag` library is not modelled. `Config.StartupConfig` describes a command line with no flags, so each flag keeps its resolved default.
- The global `version` string is a parameter of `Config.StartupConfig`. The `log` calls are left out.
- `MiddlewareLogRequest`: it only logs and then delegates unchanged.
- `LivenessProbeHandler` and `ReadinessProbeHandler`: they always answer 200 and contain no logic.
- The benchmarks in service_test.go: they measure speed and check no behaviour.
- `time.Duration` is a 64-bit integer in Go. It is an unbounded `int` here because nothing in the core does arithmetic on it.
- Config.PanicMessage: the interface-conversion text follows the Go runtime's wording for `interface {}`. That wording is not part of this repository.
- Config.UseEnvOrDefaultIfNotSet: requires `WellFormed(env)`, which excludes only an `Other` value carrying the name `string`, `time.Duration` or `bool`. Such a value stands for no Go value, since those types have their own constructors.
