# Request throttle and file input widget

A Dafny model of two small pieces of a chat web application:

- **The request throttle** of the Go HTTP middleware (`middleware/throttle.go`).
  A table maps path prefixes to limiters, and each limiter allows `Count` requests per window of `Duration` seconds.
  A request whose path starts with a key of the table is counted in a Redis store, under the key `rate<path>:<ip>`.
  The first increment of a window sets the key's time-to-live.
  The request is refused once the counter is above `Count`, or when the increment fails (fail-closed).
  The store is the class `Throttle.Store`, with a map of counters and a map of time-to-live values.
  `RateLimit` and the middleware decision `Middleware` are module-level methods that take the store as a parameter and change it.
  `GetPrefixMap` is a loop that tries the keys in an unspecified order, as Go's map iteration does.
- **The file input widget** of the React front end (`app/src/components/FileProvider.tsx`).
  It has two state fields, `active` and `filename`.
  It reads a file from a drop or from the hidden picker and rejects text that is not 7-bit ASCII.
  It cuts the text to an optional `maxLength` and reports `{name, content}` to its parent after every change.
  The widget is the class `FileProvider.Widget`.
  Its ghost logs `emitted` and `toasts` record every report passed to `onChange` and every notice raised.
  Each entry point (`handleChange`, `clear`, the close icon, the drop listener, the picker) is a method.
  `HandleChange`, `Drop`, `DropAsIntended` and `Pick` are each specified by a pure function (`Change`, `DropEffect`, `DropEffectIntended`, `PickEffect`) that gives the report and the notices of one step.
  `Clear` and `Close` state the new state directly: nothing shown, and the report `{"", ""}`.

JavaScript strings are sequences of UTF-16 code units (`FileProvider.JsString`), because `length`, `slice` and the regular expression work per code unit.
A limit of 0, or no limit, turns truncation off, as the truthiness test of `maxLength` does.

Files: `wrappers.dfy` (the `Option` type), `throttle.dfy` (module `Throttle`), `file_provider.dfy` (module `FileProvider`).

## Model

| member | source | states |
|---|---|---|
| Throttle.DistinctPathsDistinctKeys | middleware/throttle.go:18 | the counter key holds the whole path, so two different paths of one client never share a counter, even under the same limiter prefix |
| Throttle.Store.constructor | middleware/throttle.go:17 | an empty store: no counters, no time-to-live |
| Throttle.Store.Incr | middleware/throttle.go:19-22 | INCR: a missing key counts from 0; the new value is returned and stored; a failed call (unreachable store, 64-bit overflow) returns nothing and changes nothing |
| Throttle.Store.Expire | middleware/throttle.go:24 | EXPIRE: sets the time-to-live of an existing key (a non-positive one deletes the key); a failed call or a missing key changes nothing |
| Throttle.Store.Elapse | middleware/throttle.go:24 | the time-to-live runs out: the key is deleted and the next request opens a new window; a key without a time-to-live never expires |
| Throttle.RateLimit | middleware/throttle.go:17-27 | one request is counted under `rate<path>:<ip>`; blocked iff the increment failed (store unchanged) or the new count exceeds `Count`; the time-to-live is set to `Duration` only when the new count is 1, and later requests never touch it |
| Throttle.WindowOutcomes | middleware/throttle.go:26 | the answers to the first n requests of a window, one answer per request |
| Throttle.Passed | middleware/throttle.go:26 | the number of requests let through, at most the number of answers |
| Throttle.NthRequestBlocked | middleware/throttle.go:26 | within one window the i-th request is blocked iff i > `Count` |
| Throttle.ExactlyCountPass | middleware/throttle.go:19-26 | exactly `Count` requests of a window pass, or all of them when fewer arrive |
| Throttle.Window | middleware/throttle.go:17-27 | n successive requests on a fresh key with a working store answer `WindowOutcomes`, leave the counter at n, and keep the time-to-live the first request set |
| Throttle.LimitsPositive | middleware/throttle.go:29-46 | every limiter of the table has a positive duration and a positive count |
| Throttle.LimitsPrefixFree | middleware/throttle.go:29-46 | no key of the table is a prefix of another |
| Throttle.DifferAt | middleware/throttle.go:50 | strings that differ at a position inside both are not prefixes of each other |
| Throttle.AtMostOneMatch | middleware/throttle.go:48-55 | in a prefix-free table at most one key is a prefix of a given path |
| Throttle.GetPrefixMap | middleware/throttle.go:48-55 | a returned value belongs to a key that is a prefix of the path; nothing is returned iff no key is; for a prefix-free table the result is determined (the value of the one matching key) whatever the iteration order |
| Throttle.Middleware | middleware/throttle.go:57-70 | with no matching limiter the request passes and the store is unchanged; otherwise the request is counted by the matching limiter and aborted iff that limiter blocks it |
| FileProvider.Truncate | app/src/components/FileProvider.tsx:108-109 | the result is a prefix of the data; it differs from the data iff the limit is positive and the data longer; it is never longer than a positive limit; it is empty iff the data is |
| FileProvider.Change | app/src/components/FileProvider.tsx:104-123 | `handleChange` reports the data under the given name; the data is cut, to exactly `maxLength` code units, iff the limit is truthy and the data longer, and is otherwise reported unchanged; one max-length notice iff it was cut, none otherwise; missing or empty data reports `{"", ""}` whatever the name |
| FileProvider.ChangeWithoutLimit | app/src/components/FileProvider.tsx:108-121 | with no limit or a limit of 0, non-empty data is reported unchanged with its name and no notice |
| FileProvider.ChangeWithinLimit | app/src/components/FileProvider.tsx:108-121 | non-empty data that fits a positive limit is reported unchanged with its name and no notice |
| FileProvider.ChangeOverLimit | app/src/components/FileProvider.tsx:108-114 | data longer than a positive limit m is reported as its first m code units, with one max-length notice |
| FileProvider.DropEffect | app/src/components/FileProvider.tsx:64-86 | every drop reports `{"", ""}`: no file, non-ASCII text (one parse-error notice), and ASCII text, which is passed as the name with no data |
| FileProvider.PickEffect | app/src/components/FileProvider.tsx:185-205 | no file reports `{"", ""}`; non-ASCII text reports `{"", ""}` with one parse-error notice; ASCII text is handed to `handleChange` with the file's name |
| FileProvider.PickValidFile | app/src/components/FileProvider.tsx:197-198 | a picked non-empty ASCII file is reported as `{name, text}` with no notice, or cut to a positive limit with one max-length notice |
| FileProvider.DropEffectIntended | app/src/components/FileProvider.tsx:79 | the corrected drop listener hands ASCII text to `handleChange` with the file's name |
| FileProvider.DropLosesValidFile | app/src/components/FileProvider.tsx:79 | a dropped non-empty ASCII file is reported as `{"", ""}`, while the picker reports it with content |
| FileProvider.DropIntendedMatchesPick | app/src/components/FileProvider.tsx:64-86 | the corrected drop listener and the picker report the same thing for every input |
| FileProvider.Widget.constructor | app/src/components/FileProvider.tsx:44-45 | a new widget shows no file and has reported nothing |
| FileProvider.Widget.Clear | app/src/components/FileProvider.tsx:98-102 | `clear` empties the name, deactivates, and reports `{"", ""}`, whatever the state was, raising no notice |
| FileProvider.Widget.HandleChange | app/src/components/FileProvider.tsx:104-123 | the report of `Change` is appended to the log; the shown name is its name; `active` iff its content is non-empty; the widget invariant holds |
| FileProvider.Widget.Close | app/src/components/FileProvider.tsx:151-156 | the close icon (`handleChange()`) has the effect of `clear` |
| FileProvider.Widget.Drop | app/src/components/FileProvider.tsx:64-86 | the drop listener shows `DropEffect`, and always ends with no file shown and `active` false |
| FileProvider.Widget.DropAsIntended | app/src/components/FileProvider.tsx:64-86 | the corrected drop listener shows `DropEffectIntended` |
| FileProvider.Widget.Pick | app/src/components/FileProvider.tsx:185-205 | the picker shows `PickEffect` |
| FileProvider.ClearTwice | app/src/components/FileProvider.tsx:98-102 | `clear` is idempotent: a second call gives the same state and the same `{"", ""}` report |

The widget invariant `FileProvider.Widget.Valid` says that the shown name is the name of the last report and that `active` holds iff the last report's content is non-empty.
It also says that a report with empty content is always `{"", ""}`.
Every method keeps it.

## Findings

| source | as written | input that shows it | evidently intended | confidence | as-written member | corrected member |
|---|---|---|---|---|---|---|
| app/src/components/FileProvider.tsx:79 | the drop listener calls `handleChange(text)`, so the text lands in the name slot and the data defaults to "" | dropping `notes.txt` that holds `hello` reports `{"", ""}` and leaves the widget empty | `handleChange(file.name, text)`, as the picker does at line 198 | high (the picker path loads the same file); not executed | FileProvider.DropLosesValidFile | FileProvider.DropIntendedMatchesPick |

`FileProvider.Widget.Drop` follows the code as written.
`FileProvider.Widget.DropAsIntended` is the corrected listener.

## Left out

- Redis networking, the `gin.Context`, the JSON body of the refusal and `ClientIP`: the client address and the path are parameters, and a failing store call is a boolean parameter (`incrFault`, `expireFault`).
- Store.Incr: other clients writing non-integer values under a rate key, which makes INCR fail, are folded into `incrFault`.
- Store.Elapse: time is not modelled; a time-to-live is a number of seconds, and its running out is the explicit `Elapse` step.
- RateLimit: `time.Duration(l.Duration) * time.Second` overflows for durations above about 292 years; the model passes the duration unchanged. No limiter of the table comes near this.
- GetPrefixMap: Go's map iteration order is unspecified, so the loop picks any untried key; the model states the result relationally and does not fix an order.
- Middleware: `strings.HasPrefix` compares bytes, and the model compares characters. The two agree on valid UTF-8 text.
- The `FileReader`, `readAsText` decoding and the race between overlapping reads: a method receives the text as already decoded, and each entry point is one atomic step.
- A file's name and text are given as an `Option` of a pair; files after the first in a multi-file drop or choice are ignored by the widget and are not part of the model.
- An absent `onChange` prop: the log records what would be passed to it.
- `setClearEvent` and the `useEffect` listener registration and removal (including the `removeEventListener` calls at lines 93-94, which remove nothing): an external clear is a call to `Clear`.
- `dragover` and `dragleave`, which only suppress the browser's default handling.
- All rendering: the dialog, icons, styles, translated strings and the shown file name. A notice is reduced to its kind (`ParseError`, `MaxLength`).
- Negative or NaN values of `maxLength`, where `slice` behaves differently: `maxLength` is an `Option<nat>`.
- app/src/routes/Home.tsx only lays out two child components and has no logic.
