# appc-daemon core, modelled in Dafny

This project models five pieces of the Appcelerator daemon (appcd) and proves what each promises:

- **Named mutex** (`AppcdMutex`). `mutex(name, fn)` keeps the `pendingMutexes` dictionary:
  - the first caller of a name creates the entry and runs `fn`;
  - callers that arrive while that run is in flight only join the entry's waiter list;
  - on completion the entry is deleted, then every waiter gets the same value or error.

  Promises become two explicit events: a call and the later settling of the promise `fn` returned. The registry is a class over `map<string, seq<Waiter>>`, and its methods are proved against pure step functions.
- **Collection helpers of appcd-util** (`AppcdUtil`):
  - `arrayify` and `unique`, as sequence filters;
  - `formatNumber`, on the decimal string of an integer;
  - `mergeDeep`, as a recursive function on JSON-like values, with a loop method that follows the source's `for` over the keys.
- **Plugin manifest reader** (`PluginInfo`). The `PluginInfo` constructor either throws or builds a record.
  - The file system, `JSON.parse`, `semver.satisfies` and `expandPath` are functions of a `Host` value.
  - A field the constructor returns before assigning is `Unset`.
- **Logger line buffer** (`Logger`). A `LoggerState` class holds the static line buffer and the chunks written to the out stream.
  - A level call trims the buffer with `splice(n)` as written, then pushes and writes each line.
  - `pipe` flushes the buffer to a sink, stripping `ESC [ digits m` sequences unless colours are wanted.
  - This `splice(n)` keeps the *oldest* entries (a prefix), even though the comment above it speaks of removing old output. `Logger.SpliceKeepsOldest` states this.
- **`appcd dump` and `appcd status`** (`Dump`, `StatusCommand`).
  - Dump: the environment filter, applied to the process env and to each subprocess env; the results object updated by each response; and the choice of output file.
  - Status: the status string and six-cell row for each plugin, and the exit decision on a request error.

Shared definitions:

- `JsValue`: the JSON-like value type, JavaScript truthiness, property access and `String(v)`.
- `Strings`: prefix, suffix and substring tests, digit runs, split and join.
- `Wrappers`: `Option` and `Result`.

Numbers are integers plus `NaN`. Objects are finite maps compared as values.

## Model

| member | source | states |
|---|---|---|
| AppcdMutex.DispatchNotices | packages/appcd-util/src/util.js:279-295 | the notices go to the first caller directly and then to every waiter of the entry in order, the first caller again among them, all with the one settlement; there are one more notices than waiters |
| AppcdMutex.FanoutAt | packages/appcd-util/src/util.js:283-285 | the i-th notice of the waiter loop goes to the i-th waiter and carries the shared settlement |
| AppcdMutex.FanoutSnoc | packages/appcd-util/src/util.js:283-285 | one more loop iteration adds exactly one notice, for the next waiter, at the end |
| AppcdMutex.CallSemantics | packages/appcd-util/src/util.js:263-306 | case by case: a non-string or empty name, or a non-function `fn`, is rejected with the matching TypeError and leaves the registry unchanged; a name that already has an entry only appends the caller; `fn` is called exactly when both arguments are valid and the name has no entry; a promise leaves the new entry in place; a plain value or a synchronous throw settles the caller twice and leaves no entry |
| AppcdMutex.CallKeepsWellFormed | packages/appcd-util/src/util.js:272-277 | every entry stays under a non-empty name and holds at least one caller |
| AppcdMutex.CallKeepsHeads | packages/appcd-util/src/util.js:272-277 | the head of an entry is the caller that created it: appending keeps every existing head, and an entry a call creates holds only that caller |
| AppcdMutex.CompleteKeepsWellFormed | packages/appcd-util/src/util.js:279-295 | completion keeps every remaining entry well formed |
| AppcdMutex.CompleteKeepsOthers | packages/appcd-util/src/util.js:280-281 | completion deletes exactly the settled name's entry and leaves every other entry as it was |
| AppcdMutex.FreshRunAfterCompletion | packages/appcd-util/src/util.js:279-295 | because the entry is deleted before waiters are notified, a valid call made after completion calls `fn` again |
| AppcdMutex.StepBalance | packages/appcd-util/src/util.js:272-306 | for one event, runs started plus an entry before equals runs finished plus an entry after |
| AppcdMutex.OneRunInFlight | packages/appcd-util/src/util.js:272-306 | over any sequence of events, per name: runs started + (1 if an entry existed before) = runs finished + (1 if an entry exists after), so at most one `fn` is in flight per name |
| AppcdMutex.RunAppend | packages/appcd-util/src/util.js:262-308 | running events in two parts gives the registry of the second part and the concatenated notices, starts and finishes |
| AppcdMutex.QueuedCall | packages/appcd-util/src/util.js:272-275 | a call for a name with an entry appends the caller and yields no notice, start or finish |
| AppcdMutex.LaterCallsOnlyQueue | packages/appcd-util/src/util.js:272-275 | while a name has a run in flight, any number of valid calls only append their callers in arrival order, with no notice and no `fn` call |
| AppcdMutex.FirstCallStarts | packages/appcd-util/src/util.js:277-300 | the first call with a promise-returning `fn` creates the entry holding its caller and starts one run |
| AppcdMutex.RunToCompletion | packages/appcd-util/src/util.js:272-300 | after the first call and the later ones, the entry holds the first caller and then the later ones in order, and one run has started |
| AppcdMutex.CompletionDispatches | packages/appcd-util/src/util.js:279-300 | settling that promise gives back the registry without the entry and notifies every waiter with the one settlement |
| AppcdMutex.SharedOutcome | packages/appcd-util/src/util.js:277-306 | concurrent callers share one run: `fn` runs once, the entry is gone afterwards, and the first caller (twice) and every later caller in arrival order get the same value or the same error |
| AppcdMutex.MutexRegistry.constructor | packages/appcd-util/src/util.js:251 | `pendingMutexes` starts empty |
| AppcdMutex.MutexRegistry.Mutex | packages/appcd-util/src/util.js:262-308 | the method's new registry, notices and log of `fn` calls are those of the call semantics above, and the registry stays well formed |
| AppcdMutex.MutexRegistry.Settle | packages/appcd-util/src/util.js:297-306 | a settling promise updates the registry as completion does, and no `fn` is called |
| AppcdMutex.MutexRegistry.DispatchEntry | packages/appcd-util/src/util.js:279-295 | the delete-then-notify loop produces exactly the dispatch's notices and registry |
| AppcdUtil.KeepPresent | packages/appcd-util/src/util.js:59 | the filter keeps exactly the input's values other than undefined, null, '', false and NaN, and never grows the input |
| AppcdUtil.KeepPresentAppend | packages/appcd-util/src/util.js:59 | the filter preserves order: filtering a concatenation concatenates the filtered parts |
| AppcdUtil.KeepPresentNothingDropped | packages/appcd-util/src/util.js:59 | a sequence with nothing to drop passes unchanged, so `0` and other values survive |
| AppcdUtil.Arrayify | packages/appcd-util/src/util.js:57-60 | without `removeFalsey` an array is returned as is and any other value becomes `[it]`; with it, the members are exactly those of that array that are not dropped |
| AppcdUtil.ArrayifyFilters | packages/appcd-util/src/util.js:57-60 | with `removeFalsey`, the result is the order-preserving subsequence: every element is kept or dropped in place |
| AppcdUtil.ArrayifyIdempotent | packages/appcd-util/src/util.js:57-60 | arrayifying a result again changes nothing |
| AppcdUtil.IndexOf | packages/appcd-util/src/util.js:366 | `indexOf` is -1 exactly when no element is strictly equal; otherwise it is the first strictly equal position |
| AppcdUtil.UniqMembers | packages/appcd-util/src/util.js:364-371 | the output holds exactly the input's values that are not null or undefined |
| AppcdUtil.UniqNoDuplicates | packages/appcd-util/src/util.js:364-371 | no output value is null or undefined, and no two are strictly equal |
| AppcdUtil.UniqIsFirsts | packages/appcd-util/src/util.js:364-371 | the output lists the first occurrences in input order |
| AppcdUtil.Unique | packages/appcd-util/src/util.js:357-372 | a non-array or empty input gives `[]`; otherwise the `reduce` loop computes the accumulator characterised above |
| AppcdUtil.TriplesMod | packages/appcd-util/src/util.js:144 | the recursive "multiple of three digits" test agrees with `% 3 == 0` |
| AppcdUtil.DigitRunOfDigits | packages/appcd-util/src/util.js:144 | in a digit string the run of digits from a position reaches the end |
| AppcdUtil.InsertCommasRemoved | packages/appcd-util/src/util.js:144 | the replacement only inserts ',' characters: deleting them restores the suffix scanned |
| AppcdUtil.FormatNumberRemoveCommas | packages/appcd-util/src/util.js:143-145 | deleting the commas of `formatNumber(n)` gives back `String(n)` |
| AppcdUtil.GroupCommas | packages/appcd-util/src/util.js:144 | lookahead `\B(?=(\d{3})+(?!\d))` matches before a group of three digits whose distance to the end is a multiple of three, and not inside that group |
| AppcdUtil.InsertCommasGroup | packages/appcd-util/src/util.js:144 | such a group is emitted as ',' and its three digits |
| AppcdUtil.InsertCommasTail | packages/appcd-util/src/util.js:144 | from such a position on, every group gets its ',' |
| AppcdUtil.FirstGroup | packages/appcd-util/src/util.js:144 | the first group takes 1 to 3 digits and leaves a multiple of three |
| AppcdUtil.NoCommaInFirstGroup | packages/appcd-util/src/util.js:144 | `\B` and the lookahead insert no ',' inside the first group |
| AppcdUtil.InsertCommasHead | packages/appcd-util/src/util.js:144 | from the start: the first group bare, then the grouped rest |
| AppcdUtil.FormatNumberGroups | packages/appcd-util/src/util.js:143-145 | for `n >= 0`, the result is the first 1-3 digits followed by ',' and three digits for each later group |
| AppcdUtil.InsertCommasShift | packages/appcd-util/src/util.js:144 | a leading '-' is a non-word character: it takes no ',' and shifts every match by one position |
| AppcdUtil.FormatNumberNegative | packages/appcd-util/src/util.js:143-145 | a negative number is formatted as '-' followed by the formatted magnitude |
| AppcdUtil.SplitGrouped | packages/appcd-util/src/util.js:144 | splitting a grouped string on ',' gives the head and then the three-digit chunks |
| AppcdUtil.FormatNumberGroupSizes | packages/appcd-util/src/util.js:143-145 | split on ',', the first group of `formatNumber(n)` has 1 to 3 digits and every later group exactly 3 |
| AppcdUtil.MergeDeep | packages/appcd-util/src/util.js:217-245 | the result is an object in every case |
| AppcdUtil.MergeDeepCases | packages/appcd-util/src/util.js:217-245 | result as a function of `dest` and `src`: <br>• a `dest` that is not a plain object is replaced by `{}`; <br>• with a `src` that is not a plain object, the result is that `dest`; <br>• keys of `src` holding undefined, and keys not in `src`, keep the `dest` value. <br>Otherwise, per key of `src`: an array value is appended to an existing `dest` array or copied; an object value is merged recursively into the `dest` value (or `{}`); any other value overwrites |
| AppcdUtil.MergeDeepAt | packages/appcd-util/src/util.js:226-242 | one key of the merged object, as the loop body assigns it |
| AppcdUtil.MergeIntoEmptyCopies | packages/appcd-util/src/util.js:217-245 | merging an object without undefined values into `{}` gives an equal copy |
| AppcdUtil.MergeDeepIdempotent | packages/appcd-util/src/util.js:217-245 | without arrays in `src`, merging it a second time changes nothing |
| AppcdUtil.MergeDeepAppendsArraysTwice | packages/appcd-util/src/util.js:228-230 | for any `dest` and any key whose `src` value is an array, a second merge of the same `src` gives that key the first result's array followed by the source's elements again, so a non-empty array makes the second result differ |
| AppcdUtil.MergeInto | packages/appcd-util/src/util.js:217-245 | the imperative merge returns exactly `MergeDeep(dest, src)` |
| AppcdUtil.MergeFields | packages/appcd-util/src/util.js:226-242 | the loop over the keys of `src` leaves exactly the fields of `MergeDeep(dest, src)` |
| AppcdUtil.MergedOnStep | packages/appcd-util/src/util.js:227-241 | one iteration keeps the loop invariant: keys done agree with the result, keys not yet visited with `dest` |
| AppcdUtil.MergedOnDone | packages/appcd-util/src/util.js:226-244 | when no key is left, the invariant gives the merged object |
| AppcdUtil.MergeValue | packages/appcd-util/src/util.js:228-241 | the loop body for one defined source value computes the value the merge stores |
| Strings.DigitRun | packages/appcd-util/src/util.js:144 | length of the maximal run of digits from a position; it is followed by a non-digit or the end |
| Strings.Split | src/logger.js:69 | `split` gives at least one part, and no part contains the separator |
| Strings.JoinSplit | src/logger.js:69 | rejoining the lines of a message with '\n' gives back the message |
| JsValue.NatToString | packages/appcd-util/src/util.js:144 | `String(n)` of a natural number is a non-empty digit string, with a leading '0' only for 0 |
| JsValue.NatToStringRoundTrip | packages/appcd-util/src/util.js:144 | reading the decimal string back gives the number |
| PluginInfo.StripV | packages/appcd-plugin/src/plugin-info.js:82 | `replace(/^v/, '')` removes exactly one leading 'v', and only when there is one |
| PluginInfo.DeclaredMain | packages/appcd-plugin/src/plugin-info.js:102 | `main || 'index.js'` is always truthy |
| PluginInfo.MainFile | packages/appcd-plugin/src/plugin-info.js:103-106 | the main file name ends in ".js" and extends the declared main; it equals the declared main when that already ends in ".js" |
| PluginInfo.ConstructChecksFiles | packages/appcd-plugin/src/plugin-info.js:23-37 | construction throws, in this order, when `dir` is not a directory, when package.json is not a file, and with the reader's message when the file cannot be read or parsed |
| PluginInfo.ConstructChecksManifest | packages/appcd-plugin/src/plugin-info.js:39-44 | once parsed: a null manifest throws a TypeError, one without a truthy name throws the name error, and construction succeeds exactly otherwise, with the fields below |
| PluginInfo.ConstructedFields | packages/appcd-plugin/src/plugin-info.js:50-74 | then: `name` is copied, `version` is the declared version or null, `path` is `dir`, `loaded` is false, `error` is always assigned, and the type is internal exactly when `appcd.type === 'internal'` |
| PluginInfo.NoEnginesNoVersionError | packages/appcd-plugin/src/plugin-info.js:80-111 | without `engines.node`, `nodeVersion` is the running version less its 'v', `pid` is null, and the only possible error is the main-file error |
| PluginInfo.VersionErrorOnlyInternal | packages/appcd-plugin/src/plugin-info.js:80-99 | construction stops early, with `pid` never set, exactly for an internal plugin whose declared range the running version does not satisfy; its error then names both versions. An external plugin always gets `pid` null |
| PluginInfo.MainFileChecked | packages/appcd-plugin/src/plugin-info.js:93-111 | past the version check, `pid` is null and `error` stays null exactly when the expanded main file exists; otherwise it names the declared main |
| PluginInfo.DefaultMain | packages/appcd-plugin/src/plugin-info.js:102-106 | a missing `main` looks up index.js, with no second ".js" |
| PluginInfo.UnloadOnlyInternal | packages/appcd-plugin/src/plugin-info.js:132-138 | on a constructed plugin, `unload` throws "Cannot unload internal plugins" exactly when the manifest declares `appcd.type` "internal", and otherwise does nothing |
| Logger.Spaces | src/logger.js:61 | `''.padRight(n)` is n spaces |
| Logger.LabelWidth | src/logger.js:57-62 | for every level, the uncoloured label (name, ': ' and padding) is exactly 7 characters |
| Logger.LabelStripped | src/logger.js:58-108 | stripping the colour codes of a level label leaves the plain label |
| Logger.StripColoured | src/logger.js:106-108 | coloured text loses exactly its opening and closing SGR sequences |
| Logger.MatchLength | src/logger.js:106 | a match of `\x1B\[\d+m` at the front is at least 4 characters and lies within the string |
| Logger.StripAnsi | src/logger.js:106-108 | stripping never lengthens a chunk |
| Logger.StripKeepsOrder | src/logger.js:106-108 | stripping only deletes characters: those left keep their order |
| Logger.StripNoEsc | src/logger.js:106-108 | text without an escape character is unchanged |
| Logger.StripPlain | src/logger.js:106-108 | text without an escape character at the front is kept, and the rest is stripped |
| Logger.StripSgr | src/logger.js:106-108 | an `ESC [ digits m` sequence at the front is deleted |
| Logger.DigitRunAfter | src/logger.js:106 | `\d+` reaches exactly to the 'm' that ends an SGR sequence |
| Logger.SpliceStart | src/logger.js:74 | the start index of `splice(n)` never exceeds the buffer's length; the counts it leaves are stated by Logger.SpliceKeepsOldest and Logger.SpliceOverLimit |
| Logger.Kept | src/logger.js:72-75 | the number of old entries a call keeps never exceeds the buffer's length; the exact counts are stated by Logger.BufferBound, Logger.SpliceKeepsOldest and Logger.SpliceOverLimit |
| Logger.LoggerState.constructor | src/logger.js:18-30 | the buffer and the out stream start empty |
| Logger.LoggerState.Write | src/logger.js:66-82 | after a call, the buffer is a prefix of the old buffer of length `Kept(len, k)` followed by the call's entries; the out stream gets the same entries, in the order they are pushed |
| Logger.Sink.constructor | src/logger.js:100 | a new sink has received nothing |
| Logger.LoggerState.Pipe | src/logger.js:100-116 | with `flush`, the sink receives every buffered line in buffer order, stripped unless `colors`; without it, nothing |
| Logger.BufferBound | src/logger.js:72-82 | after a call of `k` lines the buffer holds at most `max(100, k)` entries, and nothing old is removed when `len + k == 100` |
| Logger.SpliceKeepsOldest | src/logger.js:71-75 | under the limit, the old entries kept number `min(len, n)` and are the oldest ones: a buffer of 60 lines logging one more keeps only its first 39 |
| Logger.SpliceOverLimit | src/logger.js:72-75 | over the limit, the old entries kept number `max(0, 100 - k)` |
| Dump.EnvKeptKeys | packages/appcd/src/dump.js:83-87 | after filtering, a key is present exactly when it was in the env and matches the pattern, with its original value; filtering again changes nothing |
| Dump.FilterEnv | packages/appcd/src/dump.js:83-87 | the delete loop leaves exactly the matching keys with their original values |
| Dump.KeepsHomeInside | packages/appcd/src/dump.js:25 | `MYHOMEDIR` is kept: `HOME` is not anchored |
| Dump.AndroidOnlyAtStart | packages/appcd/src/dump.js:25 | `MY_ANDROID` is dropped: only `ANDROID` is anchored at the start |
| Dump.HomePathRedundant | packages/appcd/src/dump.js:25 | every key that contains `HOMEPATH` contains `HOME`, so that alternative never decides |
| Dump.StatusFiltered | packages/appcd/src/dump.js:89-95 | filtering keeps the number of subprocesses |
| Dump.StatusFilteredShape | packages/appcd/src/dump.js:83-95 | the subprocess list keeps its length and order, each subprocess has only its env filtered, the rest of the response is untouched, and filtering twice changes nothing |
| Dump.FilterStatus | packages/appcd/src/dump.js:83-95 | the two loops give exactly the filtered response |
| Dump.Results.constructor | packages/appcd/src/dump.js:19-24 | the results start as `{}`, no status, `[]` and an empty log |
| Dump.Results.OnLogcat | packages/appcd/src/dump.js:38-47 | each logcat response appends exactly one record, in arrival order, and changes nothing else |
| Dump.Results.OnConfig | packages/appcd/src/dump.js:53-63 | `config` is the response, or the locally loaded config on error; nothing else changes |
| Dump.Results.OnHealth | packages/appcd/src/dump.js:66-75 | `health` is the response, or unchanged on error; nothing else changes |
| Dump.Results.OnStatus | packages/appcd/src/dump.js:78-104 | `status` is the filtered response, or the error on failure; nothing else changes |
| Dump.ChooseTarget | packages/appcd/src/dump.js:110-124 | a given file is resolved and written, and opened with `--view`; `--view` without a file writes `tmpdir/appcd-dump.json`; the dump goes to stdout exactly when there is no file and no usable fallback |
| StatusCommand.ErrorWins | bootstrap/src/status.js:71-72 | a plugin with an error shows the error as its status, even when loaded |
| StatusCommand.StatusWithoutError | bootstrap/src/status.js:73-80 | without an error: a loaded external plugin shows `Loaded, PID=` and its pid, or `null` when the pid is falsy; a loaded internal one shows `Loaded`; an unloaded one `Unloaded` |
| StatusCommand.RowCells | bootstrap/src/status.js:83-90 | the name cell is `String(name)`; the version cell is 'v' and the version, or 'null'; the type and path cells are copied; the Node.js cell is 'v' followed by `String(nodeVersion)`; the status cell is the plugin's status string |
| StatusCommand.NodeVersionCell | packages/appcd-plugin/src/plugin-info.js:80-82 | for a plugin read without `engines.node`, the row's Node.js cell puts back the 'v' the reader stripped and shows exactly `process.version` (when that starts with 'v') |
| StatusCommand.BuildRows | bootstrap/src/status.js:69-91 | one row per plugin, in input order |
| StatusCommand.Respond | bootstrap/src/status.js:33-91 | in JSON mode the status object is reported unchanged and no table is built; otherwise one row per plugin, or a failure when `plugins` is not an array |
| StatusCommand.OnRequestError | bootstrap/src/status.js:20-31 | exit code 2 exactly for `ECONNREFUSED`, printing `{}` in JSON mode and "Server not running (code 2)" otherwise; any other error prints it to stderr and exits with 1 |
| StatusCommand.InfoRecord | packages/appcd-plugin/src/plugin-info.js:50-110 | a constructed plugin as an object: `pid` and `error` are present exactly when the constructor assigned them, with the assigned values |
| StatusCommand.InfoRecordFields | packages/appcd-plugin/src/plugin-info.js:80-99 | the record of a constructed plugin always has `error`, and lacks `pid` exactly when construction stopped early on an internal plugin whose Node.js range the running version does not satisfy |
| StatusCommand.FreshPluginStatus | bootstrap/src/status.js:70-81 | a plugin fresh from the manifest reader shows `Unloaded` when its error is null, and its error message otherwise |

## Left out

- Floating-point numbers: numbers are integers or NaN. `formatNumber` is modelled on `String(n)` of integers only.
- Object key order: objects are finite maps. Iteration order over keys does not affect any modelled result.
- Object identity and aliasing: `mergeDeep` is modelled on values, so `dest` and `src` sharing sub-objects, and `dest` being the very object returned, are not captured. The same holds for the in-place deletes of the dump filter, modelled on a copied map; `__proto__` keys are not modelled.
- JsValue.IntToString: gives the plain decimal digits for every integer, while JavaScript's `String(n)` switches to exponent notation for |n| >= 10^21 (and loses precision beyond 2^53); the model of `String(n)` holds for |n| < 10^21 only.
- AppcdUtil.FormatNumber: for the same reason its lemmas (FormatNumberRemoveCommas, FormatNumberGroups, FormatNumberNegative, FormatNumberGroupSizes) describe the source only for |n| < 10^21; `formatNumber(1e21)` returns "1e+21" without commas, while the model inserts them.
- AppcdMutex.Call: `pendingMutexes` is a plain object, and two names do not behave as ordinary keys there. Under `"hasOwnProperty"` an entry shadows the method, so while that run is in flight every later call (of any name) throws an uncaught TypeError at the `hasOwnProperty` probe and its promise never settles. Under `"__proto__"` no own key is created, so every call runs `fn` with no exclusion and the `delete` does nothing. The model treats both as ordinary names, so CallSemantics and the trace lemmas hold for names other than these two.
- AppcdUtil.StrictEq: objects, arrays and functions compare structurally, not by reference as `===` does.
- The promise machinery, `setImmediate` and the event loop of `mutex`: a call and a later promise settlement are explicit events, and a `Complete` for a name without an entry does not occur.
- `arch`, `getActiveHandles`, `randomBytes`, `sha1`, `sleep`, `debounce`, `assertNodeEngineVersion` and `inherits` of appcd-util. They depend on the environment, process internals, crypto, timers, the file system or prototype reflection.
- Logger streams: the PassThrough out stream, through2, `pipe`/`unpipe` of later writes, the Blackhole writable, `util.format`, the timestamp and the label's `padRight` at src/logger.js:55. The prefix and formatted message are parameters of `Write`.
- Logger.Pipe: the lines that reach the sink later through the pipe are not modelled, only the flush. The options object `{ flush = true, colors }` and its truthiness tests become two `bool` parameters, so the default for a missing `flush` and non-boolean option values are not modelled.
- The GawkObject base, snooplogg, and the real `fs`, `JSON.parse`, `semver` and `expandPath` calls of the manifest reader. They are the functions of `Host`.
- PluginInfo.Message: the exact TypeError text JavaScript gives for `null.name` is engine-specific, so it is a fixed string here.
- `load`: its two branches are TODO comments with no behaviour.
- The dump's network requests, debounce timing, `dumpTime` (a clock reading), the `.catch` that replaces the results by an error, `fs.writeFileSync`, `JSON.stringify`, the "Wrote dump" message and `launch`.
- Dump.FilterStatus: a status response whose `process.env`, `subprocesses` or `options.env` is missing or not an object or array (which would throw) is not modelled; the response is typed.
- The status command's banner, summary table, table rendering, text styles (`alert`, `highlight`), `filesize`, `toFixed` and `process.exit` side effects. A row is its six cell values.
- StatusCommand.Respond: a response whose `plugins` is not an array gives `PluginsNotIterable` (a string would in fact be iterated character by character); the summary table that is built before it, and would also throw on a missing `memory` or `node` field, is not modelled.
- StatusCommand.PluginStatus: a `null` or `undefined` element of `status.plugins` throws a TypeError at `plugin.error` in the source; the model reads its properties as undefined and builds an "Unloaded" row instead.
- Dump.Results.OnLogcat: a `null` or `undefined` logcat response throws a TypeError at `response.args` in the source; the model appends a record whose six fields are undefined instead.
- The integration tests under test/, which exercise a dispatcher and supervisor that are not part of this model.
