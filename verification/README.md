# Firmware extraction edge worker, modelled in Dafny

The worker answers `GET ?url=…&type=…` for a firmware archive. It checks the
two query parameters and derives a key-value key from the archive's file name
and the requested image type (`boot`, `recovery` or `modem`). Then it drives a
small state machine over the key-value namespace `FCE_KV`:

- if the key holds a track id, it asks GitHub whether that run is still active.
  It answers `processing`, or deletes the key and answers `retry`, or answers
  500;
- otherwise it stores a fresh track id (expiry 1800 s) and dispatches the
  extraction workflow once. A rejected dispatch deletes the key again.

The model has six files:

- `wrappers.dfy`: `Option` and `Result`.
- `js_string.dfy`: the JavaScript string built-ins the worker uses, as
  functions. These are `split(sep)[0]`, `split('/').pop()`, `replace` with a
  string pattern, `toLowerCase` and `Number.prototype.toString`. The worker
  never calls `indexOf`; `IndexOf` is the first-occurrence search that `split`
  and `replace` perform.
- `request_key.dfy`: parameter validation, URL normalisation and key
  derivation (`ParseRequest`). It holds the lemmas on the shape of the
  normalised URL, the firmware name and the key.
- `github.dfy`: `checkGitHubRun`'s classification of a run listing
  (`ClassifyRuns`), and the result object `triggerGitHubAction` builds from
  the dispatch reply.
- `worker.dfy`: the `env` binding as a class `Env`. It has a `kv` map field
  and a `log` of every effect on the store and on GitHub, in order. The handler
  is the method `Fetch`, built from `Resume` (a live track id) and `Start` (no
  live track id). Each method is proved to produce exactly the answer, the new
  store and the effects given by the pure specification `Handle`.
- `worker_properties.dfy`: the handler's guarantees, proved about `Handle`.
  These are: 400 before any effect, at most one dispatch, read first and write
  before dispatch, same track id while active, delete on a vanished run,
  the dispatch status deciding the store, and a repeated request.

GitHub's answers and the clock are inputs. `runs` is the list-runs reply,
`dispatch` the dispatch reply (or a thrown fetch), and `now` the
`Date.now()` reading.

What this worker does, and does not do:

- It keeps no `done` or `failed` records, rewrites no mirror hosts and looks
  up no release assets. The key holds a track id or nothing.
- A vanished run (`not_found`) makes it delete the key and answer `retry`.
  It does not dispatch in the same request; the next request does
  (`RepeatedRequest`).
- The in-flight expiry is 1800 s.
- A dispatch whose fetch throws is answered by the outer `catch` with 500.
  The track id just written stays stored (`ThrownDispatchKeepsTrack`). Only a
  dispatch answered with a non-2xx status deletes the key again
  (`DispatchStatusDecidesStore`).
- `if (existingTrack)` treats a stored empty string like no value. That key is
  then overwritten, and deleted on a rejected dispatch
  (`RejectedDispatchClearsKey`). So the store comes back exactly as before
  only when the key was absent.
- A `url` without ".zip" is accepted, and ".zip" is appended to it
  (`NormalizeShape`). A URL such as `a/` becomes `a/.zip`, its firmware name
  is empty, and its key is `boot:` (`DirectoryUrlKey`).

## Model

| member | source | states |
|---|---|---|
| JsString.IndexFrom | cloudflare/index.js:90 | the result is the first index at or after `k` where the pattern occurs, or None when it occurs nowhere from `k` on |
| JsString.IndexOf | cloudflare/index.js:90-91 | no contract of its own: `indexOf` from index 0; `IndexOfIsFirst` states it |
| JsString.IndexOfIsFirst | cloudflare/index.js:90-91 | when the pattern occurs at `i` and at no earlier index, `indexOf` returns `i` |
| JsString.SplitHead | cloudflare/index.js:90 | `split(sep)[0]` is the whole text when `sep` is absent, else the text before its first occurrence; it never contains `sep` |
| JsString.LastSegment | cloudflare/index.js:91 | `split('/').pop()` is the longest `/`-free suffix: it has no `/` and is preceded by a `/` unless it is the whole text |
| JsString.ReplaceFirst | cloudflare/index.js:91 | no contract of its own: only the first occurrence is replaced; `ReplaceFinalZip` and `ArchiveName` state what it does to a firmware segment |
| JsString.LowerChar | cloudflare/index.js:78 | no contract of its own: ASCII upper-case letters map to lower case; `ToLowerMatches` states it |
| JsString.ToLower | cloudflare/index.js:78 | no contract of its own: character-wise `LowerChar`; `ToLowerMatches` states it |
| JsString.ToLowerMatches | cloudflare/index.js:78 | lower-casing gives a lower-case word exactly when the text has its length and each character is that word's letter in either case |
| JsString.DecimalString | cloudflare/index.js:115 | the rendering of the clock reading is non-empty, all decimal digits and has no leading zero |
| JsString.DecimalRoundTrip | cloudflare/index.js:115 | reading the decimal rendering back gives the original number |
| JsString.DecimalInjective | cloudflare/index.js:115 | distinct clock readings give distinct track ids |
| RequestKey.EffectiveType | cloudflare/index.js:78 | a missing or empty `type` becomes `boot`; any other is lower-cased and stays non-empty |
| RequestKey.TypeMatchIgnoresCase | cloudflare/index.js:78-85 | for each of boot, recovery, modem: an explicit type selects it exactly when it spells that word in any mix of cases; an empty type selects boot |
| RequestKey.RejectionMessage | cloudflare/index.js:82-86 | no contract of its own: the two 400 messages; `MissingUrlRejected` and `InvalidTypeRejected` state when each is sent |
| RequestKey.Normalize | cloudflare/index.js:90 | no contract of its own: `split('.zip')[0] + '.zip'`; `NormalizeShape`, `NormalizeIdempotent` and `NormalizeDropsTail` state it |
| RequestKey.FirmwareName | cloudflare/index.js:91 | no contract of its own: last `/` segment with the first ".zip" removed; `FirmwareNameShape` and `FirmwareNameOfNormalized` state it |
| RequestKey.KvKey | cloudflare/index.js:92 | no contract of its own: type, ':', name; `KvKeyInjective` states it |
| RequestKey.ParseRequest | cloudflare/index.js:78-92 | missing URL exactly when `url` is missing or empty; invalid type exactly when the URL is present and the lower-cased type is not boot, recovery or modem; otherwise the job holds the type, the normalised URL, its firmware name and the key `type:name` |
| RequestKey.FirstZipAfter | cloudflare/index.js:90 | appending ".zip" (and anything) to a text without ".zip" puts the first ".zip" right after that text, because no suffix of ".zip" is a prefix of it |
| RequestKey.NormalizeShape | cloudflare/index.js:90 | the normalised URL ends in ".zip", that final ".zip" is its only one, and it equals the input up to and including its first ".zip" (or the input plus ".zip") |
| RequestKey.NormalizeIdempotent | cloudflare/index.js:90 | normalising a normalised URL returns it unchanged |
| RequestKey.NormalizeDropsTail | cloudflare/index.js:90 | whatever follows the first ".zip" (query string, fragment) is dropped |
| RequestKey.LastSegmentAppend | cloudflare/index.js:91 | appending `/`-free text extends the last segment by that text |
| RequestKey.ReplaceFinalZip | cloudflare/index.js:91 | `replace('.zip', '')` on a segment whose only ".zip" is final strips exactly that suffix |
| RequestKey.FirmwareNameOfNormalized | cloudflare/index.js:90-91 | the firmware name is the last `/` segment of the URL's text before its first ".zip" |
| RequestKey.FirmwareNameShape | cloudflare/index.js:91 | the firmware name has no `/` and no ".zip", and with ".zip" appended it is the normalised URL's last segment |
| RequestKey.KvKeyInjective | cloudflare/index.js:92 | for types without ':' the key `type:name` determines both type and name |
| RequestKey.SameKeySameJob | cloudflare/index.js:85-92 | two valid requests share a key exactly when they agree on image type and firmware name |
| RequestKey.ArchiveName | cloudflare/index.js:91 | the firmware name of `dir/file.zip` is `file` |
| RequestKey.ArchiveUrlNormalize | cloudflare/index.js:90 | `dir/file.zip?query` normalises to `dir/file.zip` |
| RequestKey.ArchiveUrlName | cloudflare/index.js:91 | the firmware name of `dir/file.zip` is `file` when `file` has no `/` and `dir` ends in one |
| RequestKey.KeyOfArchiveUrl | cloudflare/index.js:78-92 | a valid request for `dir/file.zip?query` yields the job (type, `dir/file.zip`, `file`, `type:file`) |
| RequestKey.DirectoryUrlKey | cloudflare/index.js:90-92 | a URL without ".zip" that ends in `/` is accepted with ".zip" appended, an empty firmware name and the key `type:` |
| GitHub.Relevant | cloudflare/index.js:55-57 | the filtered runs all carry the track id, and the filter is empty exactly when no run does |
| GitHub.RelevantHead | cloudflare/index.js:55-61 | the first filtered run is the first run of the listing that carries the track id |
| GitHub.IsOk | cloudflare/index.js:52 | no contract of its own: `response.ok`, a status from 200 to 299; `ClassifyRunsSpec` and `DispatchStatusDecidesStore` state its use |
| GitHub.Matches | cloudflare/index.js:56 | no contract of its own: the run has inputs whose `track` is the track id; `Relevant` and `ClassifyRunsSpec` state its use |
| GitHub.IsActiveStatus | cloudflare/index.js:62 | no contract of its own: the status is in_progress, queued, pending or requested; `ClassifyRunsSpec` states its use |
| GitHub.ClassifyRuns | cloudflare/index.js:52-64 | no contract of its own; `ClassifyRunsSpec` states its result in both directions |
| GitHub.ClassifyRunsSpec | cloudflare/index.js:52-67 | `error` exactly when the request threw, was not 2xx or had no readable run list; `active` exactly when the first run carrying the track id has status in_progress, queued, pending or requested; `not_found` when no run carries it |
| GitHub.ToDispatchResult | cloudflare/index.js:28-35 | shapes the dispatch reply; what its `ok` decides for the store and the answer is stated by `DispatchStatusDecidesStore` |
| GitHub.FailureDetails | cloudflare/index.js:128 | the details are the status in decimal (reading back as the status), a space, and the status text |
| Worker.Live | cloudflare/index.js:95-96 | a stored track id counts only when present and non-empty (JavaScript truthiness); `LiveAfterUpdate` states what the handler's writes and deletes do to it |
| Worker.LiveAfterUpdate | cloudflare/index.js:95-125 | after a write the key reads as the value (none when it is empty), after a delete as none, and other keys read as before |
| Worker.Env.constructor | cloudflare/index.js:72 | the environment starts with the given store and an empty effect log |
| Worker.Env.KvGet | cloudflare/index.js:95 | returns the stored value or None, logs the read, changes nothing |
| Worker.Env.KvPut | cloudflare/index.js:116 | overwrites the key with the value and expiry, logs the write |
| Worker.Env.KvDelete | cloudflare/index.js:104 | removes the key, present or not, logs the removal |
| Worker.Env.CheckGitHubRun | cloudflare/index.js:39-69 | the status is the classification of the listing, the query is logged, the store is unchanged |
| Worker.Env.TriggerGitHubAction | cloudflare/index.js:10-36 | logs one dispatch with the inputs; returns the shaped result, or the failure message when the fetch threw |
| Worker.ResumeOutcome | cloudflare/index.js:96-111 | no contract of its own: the specification for a live track id; `ResumeNeverDispatches`, `ActiveRunReported`, `GoneRunCleared` and `RunCheckFailure` state it |
| Worker.StartOutcome | cloudflare/index.js:114-146 | no contract of its own: the specification for a fresh track id; `StartDispatchesOnce`, `DispatchAccepted`, `DispatchStatusDecidesStore` and `ThrownDispatchKeepsTrack` state it |
| Worker.Handle | cloudflare/index.js:78-138 | no contract of its own: the specification of one request; `Fetch` is proved equal to it and the `WorkerProperties` lemmas state its guarantees |
| Worker.Resume | cloudflare/index.js:96-111 | answer, new store and effects are those of the specification for a live track id |
| Worker.Start | cloudflare/index.js:114-131 | answer, new store and effects are those of the specification for a fresh track id |
| Worker.Fetch | cloudflare/index.js:78-138 | answer and new store are `Handle`'s, and the log is extended by exactly `Handle`'s effects |
| WorkerProperties.MissingUrlRejected | cloudflare/index.js:81-83 | a missing or empty `url` gives 400 "Missing URL parameter" with the store unchanged and no effect at all |
| WorkerProperties.InvalidTypeRejected | cloudflare/index.js:85-87 | a type lower-casing outside boot, recovery, modem gives 400 with the store unchanged and no effect |
| WorkerProperties.TypeDefaultsToBoot | cloudflare/index.js:78 | with no or an empty type a request with a URL is a boot request keyed `boot:name` |
| WorkerProperties.ResumeNeverDispatches | cloudflare/index.js:96-111 | following up a live track id dispatches nothing and changes no other key |
| WorkerProperties.StartDispatchesOnce | cloudflare/index.js:115-131 | starting writes the track id with expiry 1800, then dispatches exactly once with that id, the URL and the type, and changes no other key |
| WorkerProperties.AtMostOneDispatch | cloudflare/index.js:95-131 | one request makes at most one dispatch, and makes one exactly when the request is valid and no live track id is stored |
| WorkerProperties.ReadFirstWriteBeforeDispatch | cloudflare/index.js:95-122 | a valid request reads its key first, changes no other key, and any dispatch is the third effect, right after writing the same track id |
| WorkerProperties.ActiveRunReported | cloudflare/index.js:96-111 | a live track id whose run is active is answered `processing` with that id; store unchanged; effects are the read and the run query only |
| WorkerProperties.GoneRunCleared | cloudflare/index.js:103-106 | a live track id whose run is gone is deleted and `retry` answered, with no dispatch |
| WorkerProperties.RunCheckFailure | cloudflare/index.js:99-101 | when runs cannot be listed the answer is 500 and the store is unchanged |
| WorkerProperties.DispatchAccepted | cloudflare/index.js:115-138 | an accepted dispatch leaves the key holding the new track id (expiry 1800), which the answer carries with the type and URL, and which reads back as the clock reading |
| WorkerProperties.DispatchStatusDecidesStore | cloudflare/index.js:113-131 | for an absent key, the store is unchanged exactly when the dispatch status is not 2xx, the key holds the new track id exactly when it is 2xx, the answer is 200 exactly when it is 2xx, and otherwise 500 with the API's body text |
| WorkerProperties.RejectedDispatchClearsKey | cloudflare/index.js:96-125 | for a key with no live track id, absent or holding an empty string, a non-2xx dispatch leaves the key deleted and every other key as it was |
| WorkerProperties.ThrownDispatchKeepsTrack | cloudflare/index.js:115-146 | a dispatch whose fetch throws is answered 500 by the outer catch, and the new track id stays stored |
| WorkerProperties.RepeatedRequest | cloudflare/index.js:95-138 | after an accepted dispatch, a repeat while the run is active answers `processing` with the same id, no dispatch and the store unchanged; once the run is gone it clears the key without dispatching, and the request after that dispatches once |

## Left out

- The HTTP calls to GitHub (cloudflare/index.js:10-27, 41-50) and JSON parsing. Their replies are input values (`RunsReply`, `DispatchReply`). The request body, headers and token are not modelled.
- `jsonResponse` (cloudflare/index.js:2-7). A response is a status code and a body datatype. Serialisation and headers are platform plumbing.
- `Date.now()` (cloudflare/index.js:115) is the input `now`.
- JsString.DecimalString: does not model the exponent notation JavaScript uses for numbers of 10^21 and more. Clock readings are far below that.
- Key-value expiry. The TTL (1800) is recorded with each entry, but entries never expire in the model, since time is not modelled.
- Parsing `request.url` and decoding the query string (cloudflare/index.js:74-75, `URLSearchParams.get`). The request is given as the two decoded parameters, each absent or a string.
- JsString.ToLower: lowers ASCII letters only. JavaScript's `toLowerCase` also maps other characters. The only non-ASCII ones whose lower case is ASCII are U+212A (to `k`) and U+0130 (to `i` plus a combining dot), so the accept/reject decision on the three type names is the same.
- Faults other than a thrown dispatch fetch: a throwing key-value call, a `null` entry in `workflow_runs`, and the `console.error` logging (cloudflare/index.js:65-67, 140-145). A thrown list-runs request or unreadable run list is modelled as `error`. A thrown dispatch fetch is modelled as the outer catch's 500.
- Two simultaneous requests for the same key can both see no track id and both dispatch. The store has no compare-and-swap, and each request is modelled on its own.
- JavaScript strings are sequences of UTF-16 code units; here a character is a Unicode scalar value. Every pattern the worker searches for (".zip", `/`) is ASCII, so the same occurrence is found, and the normalised URL, the firmware name and the key are the same texts. The indices themselves differ: each character outside the Basic Multilingual Plane before an occurrence makes JavaScript's index one larger.
